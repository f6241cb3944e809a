# Verified model of the code-knowledge service

A Dafny model of the parts of `arkui_agent` that contain algorithms or protocols, with proofs of what they promise.
Source paths below are relative to the repository root. Nothing here runs the Python code; every statement is about
the model, which follows the code branch by branch.

`dafny verify dfyconfig.toml` checks everything.

## What is modelled

**Publication of snapshots** (`Knowledge`, `Freshness`, `Refresh`, `RefreshSafety`, `RefreshTheorems`, `Immutability`,
`NoOp`, `Rollback`, `BareManifest`, `Cancellation`, `RefreshService`, `Session`). `Refresh` is a step system over one
knowledge root: any number of refresh runs, each a program counter with its local variables, and surroundings that edit
the source, change the configuration and advance the clock between any two steps. A run can be interrupted or crash at
any step.
`RefreshService` is one call in the form the code has: objects for the root, the writer lease and the call, changed in
place, every method proved to be a step of the step system. `Session` is the reader side.

**Graphs** (`Graph`, `Traversal`, `TraversalProofs`, `MemoryGraph`, `GraphSnapshots`, `Storage`, `OverlayWalks`,
`OverlayPromises`, `Overlay`). Order-free construction, breadth-first traversal under three budgets, canonical snapshots
with their stored form, and the enumeration of simple CALL paths by an explicit stack with reverse-reachability pruning:
`OverlayWalks` says what an unbounded search would explore, `OverlayPromises` what a bounded one may answer, and
`Overlay` is the class. The imperative classes are proved against specifications, and the theorems are about those.

**Diffs** (`TextLines`, `Diff`, `DiffParser`, `DiffRoundTrip`, `GitRoundTrip`, `GitAcceptance`, `Anchors`). `Diff` holds
the records, their validation and the grammar as functions of the rows; `DiffParser` is the cursor class;
`DiffRoundTrip` renders changes in the unified format (IEEE Std 1003.1-2017, utility `diff`, section "Diff -u or -U
Output Format") and reads them back; `GitRoundTrip` does so with the extended headers of `git diff`, and `GitAcceptance`
shows that nothing else is accepted;
`Anchors` splits hunks into edit blocks.

**Source snippets and candidates** (`TextLines`, `Snippets`, `Clusters`, `Materialize`, `Candidates`, `Extraction`).
Line and column arithmetic over all of Python's line separators, overlap clustering, backings, the separate validator,
and the dependency-closed candidate set.

**Change impact and symbol merge** (`Impact`, `SymbolMerge`), **budgeted expansion** (`Expansion`) and the
**annotation-driven codecs** (`Codec`, one model for both serialization modules, which differ in the tag key, the
envelope key and the allowed roots).

Representation: identities, paths and names that are only compared are numbers or one-field records; a tuple that the
code keeps sorted and free of duplicates is the set or map of its elements; a digest is the value that was digested;
texts are sequences of code points; JSON is a tree.

## What the proofs found

- **A published snapshot can be discarded.** When an interrupt arrives after the commit and the handler then fails to
  re-read the manifest (`refresh.py:568-572`), it falls back on the manifest loaded before the build and records the
  cancellation beside the old snapshot. `RefreshTheorems.LastUsableMoves` and `DoomArises` give the exact condition,
  `Rollback.PublicationCanBeDiscarded` the execution.
- **The snippet validator can reject what was materialised.** It does so exactly when a backing starts past the last
  character of a line that neither CR nor LF ends and a member lies on a later line (`Snippets.RelativeOffset`).
- **A diagnostic naming an artifact does not survive its own codec**: the field at `model.py:345` puts an enumeration
  under a union, which the decoder refuses (`Codec.ArtifactDiagnosticIsRefused`).
- **A safe incremental verdict can leave out a unit that includes a changed file.** `safe_incremental` is documented as a
  provably complete affected set (`docs/specs/repository-knowledge/change-impact-v1.md:81`), but dependency records are
  looked up only for changes with a header suffix. A unit that includes a modified `.inl` file, or a modified source that
  is also compiled by itself, is missed although its records list the file and coverage is complete
  (`Impact.IncludedFileIsMissed`, `IncludedSourceIsMissed`). `ListedChangeIsSeen` and `SafeIsSoundExactly` give the exact
  conditions; `SafeWhenOnlyHeadersAreIncluded` names the records for which the verdict can be trusted.
- **A unit can be missed by a change of its own source**: exactly when no path of the change has a source suffix, none
  is a compile input, and none has a header suffix or the unit has no record (`Impact.SourceChangeIsSeen`, with
  `SourceIsMissed` under a safe verdict and `UnrecordedHeaderSourceIsMissed` under a demand for a full rebuild). Only the
  check in the compilation-database provider (`dependency.py:263-265`) excludes such sources.
- **A served manifest without a latest attempt makes the NO_OP path raise** (`refresh.py:520-521`), exactly when an
  unforced request finds its snapshot servable (`BareManifest.ServingRaisesExactly`). The manifest validation accepts
  such a manifest and a call on such a root does raise (`BareRootRaises`), but no step ever produces one
  (`StepNamesAttempt`), so from any other root it cannot happen (`NeverRaisesWhenDeciding`).
- The last `else` branch in `symbol_merge.py:106-107` cannot be taken (`SymbolMerge.DisplaysSplitHierarchies`).

## Model

| member | source | states |
|---|---|---|
| RefreshTheorems.EveryReachableState | src/arkui_agent/knowledge/refresh.py:413-590 | In every state that any interleaving of any number of runs can reach, with interrupts and crashes anywhere: at most one run holds the lease, the manifest on disk is valid, and for every run under way, also one that was interrupted or is recording or reporting a failure, the manifest on disk is the one it loaded or names its own attempt. |
| RefreshSafety.ExecuteKeeps | src/arkui_agent/knowledge/refresh.py:481-590 | The invariant behind it holds along every sequence of events. |
| RefreshSafety.RunStepKeeps | src/arkui_agent/knowledge/refresh.py:413-590 | One action of one run keeps the invariant for every run: lease, manifest, stage of the attempt, and the evidence carried towards publication. |
| RefreshSafety.InitHolds | src/arkui_agent/knowledge/refresh.py:441-456 | The invariant holds before any run, on a root that may already hold any valid manifest. |
| RefreshSafety.BuiltSnapshotIsSound | src/arkui_agent/knowledge/refresh.py:663-685 | A snapshot assembled from the files just written vouches for itself, lies under its own generation and carries the observed source. |
| Refresh.ScopeIsExact | src/arkui_agent/knowledge/refresh.py:619-660 | A selected scope is accepted, unchanged, exactly when every file is tracked, not excluded and readable; the full scope exactly when every tracked file that is not excluded is readable, and then it holds all tracked files as text and sorts the others into tests and code. |
| RefreshTheorems.LastUsableMoves | src/arkui_agent/knowledge/refresh.py:556-585 | One step changes the last usable snapshot if and only if it is a successful publication, or the failure record of a run whose own publication the interrupt handler could not see. |
| RefreshTheorems.DoomArises | src/arkui_agent/knowledge/refresh.py:563-572 | A run gets into that position exactly when, after its commit, the handler fails to re-read the manifest. |
| RefreshTheorems.LastUsableOnlyByCommit | src/arkui_agent/knowledge/refresh.py:559-585 | If no handler fails to read the manifest, the last usable snapshot changes only at successful publications, along every execution. |
| RefreshTheorems.FailedInspectionDiscards | src/arkui_agent/knowledge/refresh.py:568-585 | After such a failed re-read, recording the cancellation puts the previously loaded snapshot back in place of the published one. |
| RefreshTheorems.CommitMoves | src/arkui_agent/knowledge/refresh.py:541-561 | A commit whose checks passed always publishes, and always a snapshot different from the one before. |
| RefreshTheorems.CrashFreezesPublication | src/arkui_agent/knowledge/refresh.py:418-436 | A crash under the lease leaves the lock file: no later run gets the lease or changes the manifest. |
| Cancellation.RecordTellsInterrupt | src/arkui_agent/knowledge/refresh.py:563-585 | Along every execution from an initial root, the failure record of a run says CANCELLED if and only if that run was interrupted, and FAILED otherwise. |
| Cancellation.ReportTellsTheSame | src/arkui_agent/knowledge/refresh.py:697-714 | The result that the run then reports is cancelled or failed just as its record. |
| RefreshTheorems.PublishedEvidence | src/arkui_agent/knowledge/refresh.py:525-562 | What is published was read from a clean worktree, lists every file of its commit, is self-consistent and has intact artifacts. |
| Rollback.BuildPublishes | src/arkui_agent/knowledge/refresh.py:481-562 | Progress: from every state with a free lease, a clean, covered source and supported formats, every undisturbed run that is forced, or that the last usable snapshot does not answer, publishes a new snapshot: of the current revision and configuration, in the resolved scope, listing every file with its content. |
| Rollback.DecisionIsExact | src/arkui_agent/knowledge/refresh.py:481-524 | The dichotomy: an undisturbed run ends in NO_OP, or raises when the manifest names no attempt, exactly when it is not forced and the snapshot answers it; in every other case it announces a build, or, when the root belongs to another repository, goes on to record a failure. |
| Rollback.ServedLeavesRoot | src/arkui_agent/knowledge/refresh.py:515-523 | A run that is served gives the lease back and leaves the whole disk as it was. |
| Rollback.PublicationCanBeDiscarded | src/arkui_agent/knowledge/refresh.py:563-585 | From every such state there is an execution that publishes and then puts the old snapshot back; the discarding case is reachable. |
| Rollback.ExampleCanBuild | src/arkui_agent/knowledge/refresh.py:441-456 | Such states exist: a concrete initial root and worktree. |
| BareManifest.ServingRaisesExactly | src/arkui_agent/knowledge/refresh.py:514-524 | A run that decides raises if and only if its request is unforced, the inspection succeeds and finds the loaded snapshot servable, and the manifest on disk names a snapshot but no attempt. |
| BareManifest.StepNamesAttempt | src/arkui_agent/knowledge/refresh.py:523-585 | No step turns a manifest that names its attempt, or no manifest, into one that names a snapshot and no attempt. |
| BareManifest.NeverRaisesWhenDeciding | src/arkui_agent/knowledge/refresh.py:509-524 | From a root whose manifest names its attempt or no snapshot, no run ever raises when it decides, along every execution. |
| BareManifest.BareManifestRaises | src/arkui_agent/knowledge/refresh.py:509-524 | Conversely, from every state in which an unforced run can plan and would be served by a manifest without an attempt, the undisturbed run raises, gives the lease back and leaves the disk as it was. |
| BareManifest.BareRootRaises | src/arkui_agent/knowledge/refresh.py:509-524 | A concrete initial root, which the manifest validation accepts, where a single call raises. |
| Immutability.ArtifactsNeverRewritten | src/arkui_agent/knowledge/refresh.py:383-389 | No execution rewrites an artifact file of a protected snapshot: every run writes only under its own fresh generation. |
| Immutability.StepProtects | src/arkui_agent/knowledge/refresh.py:525-540 | One step keeps the artifacts of a protected snapshot and keeps it protected. |
| Immutability.PublishedIsProtected | src/arkui_agent/knowledge/refresh.py:541-562 | A snapshot is protected from the moment of its publication. |
| Immutability.ServedIsProtected | src/arkui_agent/knowledge/reader.py:150-157 | So is the last usable snapshot of every manifest whose latest attempt succeeded. |
| NoOp.RefreshAgainIsNoOp | src/arkui_agent/knowledge/refresh.py:509-524 | After a publication and any further events, an unforced run of the same request over an unchanged source and configuration ends in NO_OP with the disk as it found it; that the artifacts are intact is concluded. |
| NoOp.PublicationStands | src/arkui_agent/knowledge/freshness.py:12-116 | A publication stays servable as long as manifest, source and configuration are as it left them. |
| RefreshService.WriterLease.Enter | src/arkui_agent/knowledge/refresh.py:418-431 | Takes the lock file exclusively, refuses an existing one, and gives it back when writing it fails. |
| RefreshService.WriterLease.Exit | src/arkui_agent/knowledge/refresh.py:433-436 | Removes the lock file only if this lease created it. |
| RefreshService.KnowledgeRoot.Publish | src/arkui_agent/knowledge/refresh.py:404-406 | Replaces the manifest as a whole and nothing else. |
| RefreshService.RefreshCall.Plan | src/arkui_agent/knowledge/refresh.py:499-508 | First observation: names the revision and refuses a missing commit, a dirty tree or an uncovered scope; a step of the step system. |
| RefreshService.RefreshCall.ObserveInventory | src/arkui_agent/knowledge/refresh.py:509-513 | Second observation of the whole inventory, compared with the first. |
| RefreshService.RefreshCall.Decide | src/arkui_agent/knowledge/refresh.py:514-524 | Serves the loaded snapshot exactly when the request is unforced and the snapshot servable, raising exactly when the manifest names no attempt; in every other case publishes BUILDING beside it, unless that manifest would be invalid; a Decide step of the step system. |
| RefreshService.RefreshCall.Assemble | src/arkui_agent/knowledge/refresh.py:663-685 | Digests of the files just written, under the identity of the attempt: the snapshot of the step system, or none when a file is missing or the record would be invalid. |
| RefreshService.RefreshCall.TakeSnapshot | src/arkui_agent/knowledge/refresh.py:532 | Keeps that snapshot or goes on to record a failure; a FinishBuild step. |
| RefreshService.RefreshCall.Commit | src/arkui_agent/knowledge/refresh.py:549-562 | Publishes snapshot and successful attempt together, or nothing. |
| RefreshService.RefreshCall.HandleInterrupt | src/arkui_agent/knowledge/refresh.py:563-584 | Reports publication if and only if the manifest it reads, or else the one it loaded, names its own successful attempt. |
| RefreshService.RefreshCall.RecordFailure | src/arkui_agent/knowledge/refresh.py:697-714 | Publishes the failed attempt beside the snapshot that was loaded, or leaves the manifest. |
| RefreshService.RefreshCall.Refresh | src/arkui_agent/knowledge/refresh.py:458-479 | A whole uninterrupted call, whatever it meets, is a run of the step system in which it never gives up by itself and fails only where its surroundings fail it; it gives the lease back, leaves a held root untouched, and reports success only for the snapshot on disk. |
| Freshness.EvaluateFreshness | src/arkui_agent/knowledge/freshness.py:12-116 | The result is always valid and gives exactly the reasons that hold; it is unknown, stale or fresh exactly as doubts, then differences, are found; and it can be bound if and only if the snapshot is self-consistent, matches query, configuration and scope, agrees with the observed source, has clean checks and no unsuccessful attempt is the latest. |
| Freshness.CheckSnapshot | src/arkui_agent/knowledge/freshness.py:34-102 | Exactly what cannot be judged, and what is of another revision, source or configuration, with exactly the reasons for each. |
| Session.ObserveArtifacts | src/arkui_agent/knowledge/reader.py:47-92 | Reports exactly the issues that hold, and so none if and only if every artifact is present, unchanged and of a supported, mutually consistent format. |
| Session.Check | src/arkui_agent/knowledge/reader.py:121-141 | Two source readings around the artifact reading: a bindable result means both readings agree and the policy holds. |
| Session.SnapshotSession.Validate | src/arkui_agent/knowledge/reader.py:188-201 | Succeeds only while the session shows the pinned source observation and artifact stamps; on drift or when closed it closes the session for good. |
| Session.SnapshotSession.Read | src/arkui_agent/knowledge/reader.py:203-218 | A read that ends normally saw the pinned observation and stamps on entry and on exit. |
| Session.SnapshotSession.Close | src/arkui_agent/knowledge/reader.py:185-186 | A closed session stays closed. |
| Session.ReadAgain | src/arkui_agent/knowledge/reader.py:188-218 | A session that was closed, or has once met a world that does not show its pin, never yields again. |
| Session.SessionUnaffected | src/arkui_agent/knowledge/reader.py:168-218 | Any execution of refresh runs that does not edit the source leaves a bound session's observation and stamps as they were. |
| Graph.Construct | src/arkui_agent/graph/memory.py:24-42 | Builds the graph that the set of records denotes, or reports a conflicting node before a dangling edge. |
| Graph.ConstructionIsOrderFree | src/arkui_agent/graph/memory.py:24-47 | Reordering or repeating nodes and edges gives the same graph or the same failure. |
| Graph.SortedIsUnique | src/arkui_agent/graph/model.py:161-163 | A set of edges has one listing in the global edge order. |
| MemoryGraphs.MemoryGraph.constructor | src/arkui_agent/graph/memory.py:40-47 | Files every edge under its source and its target, in global order. |
| MemoryGraphs.MemoryGraph.ListsAgree | src/arkui_agent/graph/memory.py:40-47 | An edge is in its source's outgoing list exactly when it is in its target's incoming list. |
| MemoryGraphs.MemoryGraph.Edges | src/arkui_agent/graph/memory.py:113-132 | The incident edges in one direction or both, filtered by relation, each once and sorted. |
| MemoryGraphs.MemoryGraph.Neighbors | src/arkui_agent/graph/memory.py:62-69 | Exactly the adjacent nodes, sorted, each once. |
| MemoryGraphs.MemoryGraph.Traverse | src/arkui_agent/graph/memory.py:71-111 | The queue-based loop computes the specified breadth-first search, with the same visits, edges and stop. |
| TraversalProofs.VisitsAreShortest | src/arkui_agent/graph/query.py:62-72 | Every visit, of complete and of stopped runs, carries the true shortest distance under direction and filter; visits are distinct, in order of distance, within depth and budgets. |
| TraversalProofs.CompleteWithoutStop | src/arkui_agent/graph/query.py:62-72 | Without a stop, the visits are exactly the nodes within the depth bound and the edges exactly those incident to nodes nearer than it. |
| TraversalProofs.StopIsHonest | src/arkui_agent/graph/memory.py:91-101 | A reported stop means that the named budget is exactly full and a matching edge was refused for it. |
| TraversalProofs.RaisingBudgetsExtends | src/arkui_agent/graph/memory.py:82-111 | Raising any budget extends the visit list only at its end and only adds edges. |
| GraphSnapshots.Canonicalize | src/arkui_agent/graph/projection.py:34-45 | Nodes by identity, then the outgoing edges node by node: the result lists the denoted graph with edges in global order, and fails exactly when construction does. |
| GraphSnapshots.CanonicalIsUnique | src/arkui_agent/graph/projection.py:40-45 | A graph has one canonical listing. |
| GraphSnapshots.CanonicalizingAgainChangesNothing | src/arkui_agent/graph/projection.py:34-45 | Canonicalising a canonical listing returns it. |
| Storage.SnapshotIsRead | src/arkui_agent/graph/storage.py:120-178 | Decoding an encoded snapshot gives it back under its own scope and refuses every other scope, whatever order records are listed in. |
| Storage.RowsAreRead | src/arkui_agent/graph/storage.py:159-178 | Stored rows, repeated ones and several for one edge included, are accepted exactly when nodes of one identity agree and no edge dangles; the snapshot then holds each node once and each edge with the evidence of all its rows. |
| Storage.LoadedIsSaved | src/arkui_agent/graph/storage.py:60-178 | Whatever is loaded is a valid snapshot of the scope that was asked for, and saving it loads the same again. |
| Storage.AnchorIsRead | src/arkui_agent/graph/storage.py:143-156 | The same for an anchor, whose file may come from its range. |
| Overlay.ReverseClosure | src/arkui_agent/graph/overlay.py:347-354 | Exactly the nodes from which some target is reachable along CALL edges. |
| Overlay.OverlayQuery.Leg | src/arkui_agent/graph/overlay.py:335-396 | In every run: each path is a contiguous simple CALL path from a seed within the depth limit; with distinct seeds they come in depth-first order, each once; a limit is named only where it was met, a path says DEPTH_LIMIT exactly when it has as many calls as allowed and could go on towards a target; unless the state or path budget ran out every search walk that ends is returned, and otherwise, with distinct seeds, those returned come first; with distinct seeds the leg is exhaustive if and only if the bounds suffice for the unbounded search. |
| Overlay.OverlayQuery.Enumerate | src/arkui_agent/graph/overlay.py:355-389 | The loop over the explicit stack keeps those promises. |
| Overlay.OverlayQuery.Visit | src/arkui_agent/graph/overlay.py:362-389 | One popped state: returned as a target, cut at the depth bound, given up where nothing relevant is called, or replaced by its children, without losing or repeating a walk; it names DEPTH_LIMIT exactly for a walk cut at the bound and CYCLE_CUT exactly for a walk that calls a node of its own. |
| Overlay.OverlayQuery.RelevantCallees | src/arkui_agent/graph/overlay.py:374-375 | Exactly the relevant callees, in increasing order. |
| Overlay.OverlayQuery.Push | src/arkui_agent/graph/overlay.py:384-389 | Pushes exactly the children that close no cycle, in the order that has the smallest popped first, and says whether one was left out. |
| OverlayPromises.ExhaustiveMeansBounded | src/arkui_agent/graph/overlay.py:345-396 | An exhaustive leg with a recognised role has only simple first-target walks within the depth limit to return, and returns each exactly once if the seeds are distinct. |
| OverlayPromises.ExhaustiveListsTargets | src/arkui_agent/graph/overlay.py:345-396 | Such a leg returns exactly all CALL walks from the seeds to their first target. |
| OverlayPromises.FinishedPromises | src/arkui_agent/graph/overlay.py:355-396 | When the stack is empty every promise of the leg holds, with the limits met on the way. |
| OverlayPromises.StoppedPromises | src/arkui_agent/graph/overlay.py:355-361 | The same when a budget stops the loop: the path budget is full and a search walk is left that comes after all returned ones, or there are more search walks than states allowed. |
| OverlayPromises.LimitsDoNotFit | src/arkui_agent/graph/overlay.py:355-396 | A leg that names a limit honestly had bounds too small for the unbounded search. |
| OverlayPromises.NothingMetFits | src/arkui_agent/graph/overlay.py:355-396 | A search that met no limit explored all there is, within all three bounds. |
| OverlayPromises.PathsAreApart | src/arkui_agent/graph/overlay.py:362-389 | With distinct seeds no returned path begins with another. |
| OverlayPromises.MissingCallIsSeed | src/arkui_agent/graph/overlay.py:376-378 | A missing operation call is reported only for a seed by itself, from which no target can be reached. |
| DiffParsers.ParseUnifiedDiff | src/arkui_agent/context/parsers.py:248-258 | The whole parse, tied to the grammar: bare CR and exotic separators, combined and binary diffs, all files, then the change's own validation. |
| DiffParsers.DiffParser.Parse | src/arkui_agent/context/parsers.py:235-245 | The outer loop over files after the scan for combined and binary diffs. |
| DiffParsers.DiffParser.File | src/arkui_agent/context/parsers.py:148-233 | One file: headers, agreement of Git header, metadata and paths, hunks, validation. |
| DiffParsers.DiffParser.Hunk | src/arkui_agent/context/parsers.py:120-146 | One hunk, ended by its declared counts. |
| DiffParsers.DiffParser.Body | src/arkui_agent/context/parsers.py:127-145 | The counting loop over the body rows. |
| DiffParsers.ValidateMarkers | src/arkui_agent/context/inputs.py:202-215 | The one-pass marker check accepts exactly when every marker follows a content line and no side goes on after its end. |
| DiffParsers.ValidateFile | src/arkui_agent/context/inputs.py:244-276 | The one-pass check over hunks accepts exactly the valid files. |
| Diff.ParseRange | src/arkui_agent/context/parsers.py:78-86 | An accepted range is valid and holds as many lines as were named, one by default; it starts at the named line, or one later when it holds none (the zero-count rule). A range of short enough numbers is refused only when it holds lines and names line 0. |
| Diff.ParseHunk | src/arkui_agent/context/parsers.py:120-146 | Every accepted hunk is valid, advances the cursor and spans exactly its rows. |
| Diff.ParseFile | src/arkui_agent/context/parsers.py:148-233 | Every accepted file is valid, advances the cursor and spans exactly its rows. |
| DiffParsers.SpansTileTheDiff | src/arkui_agent/context/parsers.py:108-118 | On every accepted diff the file spans tile the raw text, and in each file the hunk spans tile everything after the headers, in order. |
| DiffParsers.HunkIsVerbatim | src/arkui_agent/context/parsers.py:130-146 | An accepted hunk shows, row by row, exactly the rows it was read from, and takes every marker that follows. |
| DiffParsers.GitRowDecides | src/arkui_agent/context/parsers.py:153-208 | An accepted file with a Git row has the paths of that row, is a rename exactly when they differ, and keeps the following header rows verbatim as metadata. |
| GitRoundTrip.RenderedGitDiffIsReadBack | src/arkui_agent/context/parsers.py:148-258 | Reading back any diff of files in the form of git diff, mixed with plain ones, gives the same paths, kinds, metadata and hunks: index rows spelled in hexadecimal, modes in octal, similarity in decimal digits, renames, new and deleted files, with or without hunks and side rows. |
| GitRoundTrip.GitFileIsRead | src/arkui_agent/context/parsers.py:148-233 | So is one such file, wherever it stands. |
| GitRoundTrip.GitRowIsRead | src/arkui_agent/context/parsers.py:153-162 | The Git row gives back both paths. |
| GitRoundTrip.SuffixIsIgnored | src/arkui_agent/context/parsers.py:186-192 | Whatever follows a tab in a side row is ignored. |
| GitRoundTrip.ExampleIsPlain | src/arkui_agent/context/parsers.py:148-233 | The usual output of git diff for one changed line, with its index row, is among these files. |
| GitAcceptance.AcceptedDiffIsPrintable | src/arkui_agent/context/parsers.py:116-258 | Conversely every accepted diff, without exception, is made of such files, and survives being written and read again. |
| GitAcceptance.MetadataExactly | src/arkui_agent/context/parsers.py:21-24 | The metadata rows are exactly those that spell an index, a mode or a similarity. |
| GitAcceptance.CombinedIsUnsupported | src/arkui_agent/context/parsers.py:235-245 | A combined or binary diff with plain line breaks is unsupported wherever its row stands and whatever else is wrong. |
| GitAcceptance.QuotedPathIsUnsupported | src/arkui_agent/context/parsers.py:88-98 | So is a quoted path in the first side row. |
| GitAcceptance.OtherMetadataIsUnsupported | src/arkui_agent/context/parsers.py:164-174 | So is any row after the Git row that spells no metadata, rename or side. |
| DiffRoundTrip.RenderedChangeIsReadBack | src/arkui_agent/context/parsers.py:116-258 | Reading a rendered change gives back the same paths, kinds, ranges, sections and lines, for every valid hunk-bearing change a plain diff can carry. |
| DiffRoundTrip.AcceptedDiffIsReadBack | src/arkui_agent/context/parsers.py:116-258 | Every accepted diff without Git metadata, hunkless files or leading quotes in paths survives being written and read again. |
| DiffRoundTrip.HunkIsRead | src/arkui_agent/context/parsers.py:120-146 | A rendered hunk is read back wherever it stands, including zero-count ranges. |
| DiffRoundTrip.FileIsRead | src/arkui_agent/context/parsers.py:148-233 | So is a rendered file. |
| DiffRoundTrip.NumberOfDecimal | src/arkui_agent/context/parsers.py:78-82 | Reading a decimal number gives the number. |
| DiffRoundTrip.HeaderExactly | src/arkui_agent/context/parsers.py:120-126 | A row is a hunk header with these counts and this section exactly when it is spelled so, an omitted count being distinct from a count of 1. |
| Anchors.ChangedAnchors | src/arkui_agent/retrieval/change_mapping.py:147-182 | The pass with two line cursors emits, per file, one old and one new anchor for each block, or one pair without ranges. |
| Anchors.AnchorsOfChange | src/arkui_agent/retrieval/change_mapping.py:147-182 | The anchors are exactly both sides of every block of every hunk, under its indices, path and range, and both sides of every file without one. |
| Anchors.BlocksCoverEdits | src/arkui_agent/retrieval/change_mapping.py:153-178 | Old anchors cover exactly the deleted lines, new anchors exactly the added lines. |
| Anchors.BlocksAreSeparated | src/arkui_agent/retrieval/change_mapping.py:153-178 | Blocks lie in order inside the hunk, each edits something, and at least one unchanged line separates neighbours on both sides. |
| Anchors.BlocksRewriteOldToNew | src/arkui_agent/retrieval/change_mapping.py:147-182 | Replacing each old block by its new lines turns the old side of the hunk into its new side. |
| Anchors.RelationIsOverlap | src/arkui_agent/retrieval/change_mapping.py:185-196 | Enclosing, intersecting and unrelated mean that all, some but not all, or none of the changed positions lie in the extent; a range without lines is related, as a point, exactly when it lies in the extent behind another position of it. |
| TextLines.OffsetIsWalk | src/arkui_agent/context/snippets.py:19-29 | The offset formula over split lines equals walking from line to line. |
| TextLines.OffsetInPiece | src/arkui_agent/context/snippets.py:19-29 | A position inside a cut-out piece keeps its distance from the cut. |
| Snippets.RelativeOffset | src/arkui_agent/context/materialization.py:199-205 | For every text, the validator's rebased offset equals the stored one exactly unless the backing starts past an unbroken line and the position lies on a later line. |
| Snippets.PlainTextsAgree | src/arkui_agent/context/materialization.py:184-205 | It always does on texts broken only by LF, CR or CRLF that are empty or end in a break. |
| Snippets.UnbrokenTextDisagrees | src/arkui_agent/context/materialization.py:199-205 | A concrete text on which it does not. |
| Clusters.Merge | src/arkui_agent/context/snippets.py:104-110 | The loop over sorted intervals produces a clustering: chains in order, flattening to the input. |
| Clusters.OverlapsShareCluster | src/arkui_agent/context/snippets.py:104-110 | Intervals that share a character share a cluster. |
| Clusters.HullsDisjoint | src/arkui_agent/context/snippets.py:104-112 | Hulls are in order and do not overlap. |
| Clusters.HullIsUnion | src/arkui_agent/context/snippets.py:111-112 | Each hull covers exactly what its members cover. |
| Clusters.LengthsAddUp | src/arkui_agent/context/snippets.py:111-122 | The hull lengths add up to the number of covered characters. |
| Materialize.Hull | src/arkui_agent/context/snippets.py:118-120 | Leftmost start and rightmost end locate the first and last offset of the cluster. |
| Materialize.Locate | src/arkui_agent/context/snippets.py:91-103 | Each candidate becomes an interval or an invalid snippet, exactly when a position lies outside the text. |
| Materialize.Emit | src/arkui_agent/context/snippets.py:111-124 | One cluster: a backing as long as its hull that shows every member, or all members deferred, exactly by the size limit. |
| Materialize.MaterializeFile | src/arkui_agent/context/snippets.py:88-124 | The whole file: each candidate is answered once and rightly, only members of over-long clusters are deferred, and if none is the backings hold each covered character once. |
| Materialize.EmittedSnippetValidates | src/arkui_agent/context/materialization.py:184-205 | The validator accepts an emitted snippet exactly under the condition of `Snippets.RelativeOffset`. |
| Materialize.PlainSnippetsValidate | src/arkui_agent/context/snippets.py:104-124 | It accepts every emitted snippet of a plainly broken text. |
| Candidates.WalkIsSub | src/arkui_agent/context/materialization.py:219-227 | The walk yields exactly the subterms, each under its path. |
| Candidates.InsideRanksLower | src/arkui_agent/context/materialization.py:46-49 | Records strictly inside a record have a smaller rank of observation type. |
| Extraction.Extractor.Add | src/arkui_agent/context/materialization.py:266-299 | Adds every record of a value under its key with the records inside it as dependencies, keeps all that was there, and keeps the set sound. |
| Extraction.Extractor.LinkRange | src/arkui_agent/context/materialization.py:367-380 | The changed range is added and becomes a dependency of its mapping. |
| Extraction.Extractor.LinkNodes | src/arkui_agent/context/materialization.py:393-415 | Nodes depend on the ranges observed for them, and the set stays sound. |
| Extraction.Extract | src/arkui_agent/context/materialization.py:335-415 | The candidates are exactly the records of the inputs, closed under what they contain, and pass the structural checks; a graph node has as ranges, and depends on, exactly the ranges that the inputs of its scope give as evidence for it. |
| Extraction.EvidenceExactly | src/arkui_agent/context/materialization.py:393-415 | The ranges collected for a node are exactly those that the inputs hold as its evidence. |
| Extraction.SoundIsChecked | src/arkui_agent/context/materialization.py:148-177 | A sound set passes every structural check of the constructor. |
| Extraction.DependenciesAreAcyclic | src/arkui_agent/context/materialization.py:266-415 | No candidate depends on itself, however indirectly. |
| Impact.Normalize | src/arkui_agent/repository/dependency.py:90-103 | Removes repetitions and refuses exactly the sets in which two changes share a path on one side. |
| Impact.ReverseDependencyIndex.constructor | src/arkui_agent/repository/dependency.py:375-385 | Maps each path to exactly the units whose records list it. |
| Impact.AnalyzeChange | src/arkui_agent/repository/dependency.py:494-520 | The units that one change reaches and the diagnostics it adds. |
| Impact.Analyze | src/arkui_agent/repository/dependency.py:446-535 | Affected units, diagnostics, coverage and status are those of the declarative reading of the change set. |
| Impact.AnalysisIsOrderFree | src/arkui_agent/repository/dependency.py:446-535 | The set of changes determines the result. |
| Impact.AffectedExactly | src/arkui_agent/repository/dependency.py:446-520 | A unit is affected if and only if it is in one inventory only, or its records list a path of a change that touches a header, or it is in an inventory and a change touches a source and names the unit's own, or names one of its inputs. |
| Impact.VerdictIsExact | src/arkui_agent/repository/dependency.py:522-543 | The status from the inputs: FULL_REBUILD_REQUIRED exactly when a given diagnostic demands it, records and inventory differ on a side, a changed source has no unit, or a header changed without complete coverage and matching records; otherwise UNKNOWN exactly when one of the four given coverages is; otherwise SAFE_INCREMENTAL. |
| Impact.CoverageIsWeakest | src/arkui_agent/repository/dependency.py:461-533 | The overall coverage is unknown if and only if one of the four is, and complete if and only if all four are and the records match both inventories. |
| Impact.FindingsAreExact | src/arkui_agent/repository/dependency.py:494-520 | The diagnostics of one change, from its paths, the units and their inputs. |
| Impact.MismatchIsCounted | src/arkui_agent/repository/dependency.py:461-478 | A mismatch diagnostic counts the units without a record and the records without a unit; both are zero exactly when the two sides match. |
| Impact.UnknownCoverageIsNotSafe | src/arkui_agent/repository/dependency.py:522-543 | Concrete: unknown dependency coverage over an empty inventory makes a changed header a full rebuild, and an unsupported file unknown. |
| Impact.LeftOutIsUntouched | src/arkui_agent/repository/dependency.py:446-535 | A unit left out is in both inventories, lists no changed header on either side, takes no changed input, and its source, if named as a source, is on no changed path. |
| Impact.ListedChangeIsSeen | src/arkui_agent/repository/dependency.py:494-520 | A unit whose records list a path of every change is affected if and only if some change has a header suffix, or a source suffix and the unit's own source, or names a compile input; listed files of other kinds do not count. |
| Impact.SourceChangeIsSeen | src/arkui_agent/repository/dependency.py:494-520 | Changes of its own source, of any kind and number, affect a unit if and only if one has a path with a source suffix, or a path with a header suffix while the unit is recorded, or names a compile input; the compilation database admits only source suffixes (lines 263-265). |
| Impact.SourceIsMissed | src/arkui_agent/repository/dependency.py:494-520 | Concrete: a modified source with neither suffix, a safe verdict, and its unit left out. |
| Impact.UnrecordedHeaderSourceIsMissed | src/arkui_agent/repository/dependency.py:467-513 | Concrete: a modified source with a header suffix and no record is missed as well, but a full rebuild is demanded. |
| Impact.AffectedOfUnion | src/arkui_agent/repository/dependency.py:446-535 | The affected units of a union of change sets are the union of the affected units. |
| Impact.RebuildIsMonotone | src/arkui_agent/repository/dependency.py:522-535 | More changes never take back a demand for a full rebuild nor make an unsafe analysis safe. |
| Impact.SafeMeansComplete | src/arkui_agent/repository/dependency.py:467-543 | SAFE_INCREMENTAL needs exact dependency records on both sides, none of the four given coverages unknown, all four complete if a header changed, and a unit for every changed source. |
| Impact.SafeIncrementalLeavesOut | src/arkui_agent/repository/dependency.py:446-535 | After a safe verdict a unit left out has records on both sides, none of its compile inputs changed, its source did not change as a source or header, and its records list paths only of changes for which they were never looked up. |
| Impact.IncludedFileIsMissed | src/arkui_agent/repository/dependency.py:494-520 | That it lists no changed path at all is false: a modified file without header suffix that a unit includes leaves the unit out, with complete coverage and a safe verdict. |
| Impact.IncludedSourceIsMissed | src/arkui_agent/repository/dependency.py:494-513 | So does a modified source that another unit includes, without even a diagnostic. |
| Impact.SafeIsSoundExactly | src/arkui_agent/repository/dependency.py:446-535 | With a safe verdict, the units left out list no changed path if and only if every declared unit that lists one is given a reason to rebuild by a change that its records list or that names one of its inputs: a header, its own source as a source, or an input. |
| Impact.SafeWhenOnlyHeadersAreIncluded | src/arkui_agent/repository/dependency.py:446-535 | It holds for every change set when the records list nothing but headers beside each unit's own source, named as a source. |
| SymbolMerge.Canonicalize | src/arkui_agent/repository/symbol_merge.py:34-110 | One group per identity in order, or the conflict of the first identity in dispute. |
| SymbolMerge.DecideGroup | src/arkui_agent/repository/symbol_merge.py:49-73 | Decides one group as the set of its observations prescribes. |
| SymbolMerge.DecideHierarchy | src/arkui_agent/repository/symbol_merge.py:67-108 | Decides display name and parent, with containment proven at the declaration site. |
| SymbolMerge.FindFirst | src/arkui_agent/repository/symbol_merge.py:59-64 | The first of a reopened namespace's ranges. |
| SymbolMerge.DisplaysSplitHierarchies | src/arkui_agent/repository/symbol_merge.py:81-107 | Once display names differ there are at least two hierarchies; the single-hierarchy branch is never taken. |
| SymbolMerge.CanonicalIsSupported | src/arkui_agent/repository/symbol_merge.py:34-110 | A merged symbol is valid and takes every field from an observation. It overrules no observed kind, name, scope or range, save later ranges of a reopened namespace; an observation differs in display or parent only if it shows the member from the namespace that is its scope. |
| SymbolMerge.RefusalIsExact | src/arkui_agent/repository/symbol_merge.py:49-108 | A set of observations is refused on exactly one ground, and each ground has its condition over the observed kinds, names, ranges, sites and parents. |
| SymbolMerge.MembersMerge | src/arkui_agent/repository/symbol_merge.py:81-107 | Observations under differing displays merge to a display and a parent if and only if all that are seen inside the declaration under a class or struct show just those, at least one does, and every other observation fits them as the member seen from its namespace. |
| SymbolMerge.AtDeclarationIsOverlap | src/arkui_agent/repository/symbol_merge.py:81-90 | An observation counts as proof exactly when its parent and the parent's kind are known and some position lies in both its site and the declaration. |
| SymbolMerge.OutOfClassDefinitionMerges | src/arkui_agent/repository/symbol_merge.py:81-105 | Concrete: a method seen in its class and at its definition in another file merges to the display and parent of the class. |
| SymbolMerge.SightingElsewhereIsRefused | src/arkui_agent/repository/symbol_merge.py:81-94 | Concrete: the same method whose sighting in the class lies apart from the declaration is refused. |
| SymbolMerge.NotLaterIsLexicographic | src/arkui_agent/repository/symbol_merge.py:59-64 | The order among ranges is lexicographic in file, lines and columns. |
| SymbolMerge.MergingIsOrderFree | src/arkui_agent/repository/symbol_merge.py:34-48 | Reordering or repeating observations gives the same groups or the same conflict. |
| SymbolMerge.GroupsPartition | src/arkui_agent/repository/symbol_merge.py:44-48 | The groups partition the distinct observations. |
| SymbolMerge.CanonicalAddsNothing | src/arkui_agent/repository/symbol_merge.py:34-110 | A group merged again with its canonical symbol as a site-less observation gives the same symbol. |
| SymbolMerge.MergingAgainChangesNothing | src/arkui_agent/repository/symbol_merge.py:34-115 | The same for a whole collection and any of its canonical symbols. |
| Expansion.TakeInventory | src/arkui_agent/retrieval/expansion.py:186-211 | One pass over the walk counts what the structure contains. |
| Expansion.CarryOut | src/arkui_agent/retrieval/expansion.py:364-446 | One turn of the loop: turned away, failed, refused, or admitted whole. |
| Expansion.Expand | src/arkui_agent/retrieval/expansion.py:339-448 | The admission loop over all jobs. |
| Expansion.CountsAreHonest | src/arkui_agent/retrieval/expansion.py:339-448 | Reported counts equal those recomputed from the admitted observations and respect every global and per-seed limit. |
| Expansion.AdmissionIsExact | src/arkui_agent/retrieval/expansion.py:413-446 | In any state an observation is admitted exactly when it fits all six limits and the fingerprint; a refusal names exactly the limits exceeded. |
| Expansion.DoorIsExact | src/arkui_agent/retrieval/expansion.py:364-380 | In any state a job is turned away for the global query limit, else for that of its seed, else exactly when it is a trace of a family outside the policy; otherwise one query is spent. |
| Expansion.ReportIsExact | src/arkui_agent/retrieval/expansion.py:339-448 | Each report of a run, from the reports before it, the policy and the answer alone: the reason for which a job is turned away, whether its observation is admitted, and its status. |
| Expansion.ReportOfStep | src/arkui_agent/retrieval/expansion.py:364-446 | Each report is that of its turn in the state before. |
| Expansion.ExpandChange | src/arkui_agent/retrieval/expansion.py:450-471 | The new side first, the old side with what remains; the residual policy is always valid. |
| Expansion.ResidualIsValid | src/arkui_agent/retrieval/expansion.py:58-72 | Every limit that is left satisfies the policy's own validation. |
| Expansion.SidesShareOnePolicy | src/arkui_agent/retrieval/expansion.py:450-471 | Both sides together stay within the one policy, and each within the per-seed limits. |
| Expansion.OldSideTakesTheRest | src/arkui_agent/retrieval/expansion.py:450-471 | A job of the old side is turned away for the global limit, and its observation admitted, exactly by the policy's own limits against what both sides have taken so far. |
| Expansion.MergeOffers | src/arkui_agent/retrieval/expansion.py:233-272 | Each identity's seed pools exactly what was offered for it. |
| Expansion.SeedsAreOrderFree | src/arkui_agent/retrieval/expansion.py:233-272 | Seeds depend only on the set of offers. |
| Codec.RoundTrip | src/arkui_agent/knowledge/serialization.py:14-55 | Decoding an encoded value gives it back exactly when no enumeration member and no tuple stands directly under a union. |
| Codec.AcceptedIsEncoded | src/arkui_agent/context/serialization.py:14-62 | Whatever is accepted is a value of the type, and encoding it gives the document back. |
| Codec.PlainIsClean | src/arkui_agent/context/serialization.py:14-62 | Record families whose unions hold only records, null and plain scalars have no other values. |
| Codec.LoadUndoesDump | src/arkui_agent/knowledge/serialization.py:24-78 | The exact condition for whole documents. |
| Codec.DumpUndoesLoad | src/arkui_agent/knowledge/serialization.py:24-78 | Dumping a loaded document gives it back. |
| Codec.PlainRecordsSurvive | src/arkui_agent/context/serialization.py:26-91 | Records of a plain family, as manifests, tasks, changes and parse results are, always survive. |
| Codec.ArtifactDiagnosticIsRefused | src/arkui_agent/knowledge/model.py:341-345 | A diagnostic that names an artifact can be dumped, but what was dumped is refused. |
| Codec.CollectMembers | src/arkui_agent/knowledge/serialization.py:57-62 | Collects the members of an object and refuses exactly repeated keys. |

## Assumptions

Replacing the manifest is atomic: it happens or it raises without effect, and only an interrupt can come right after
it. A handler that is left before it records anything, by a second interrupt or because the manifest it re-reads
cannot be decoded, ends its run and leaves the manifest as it is (`LeaveHandler` in `Refresh`). Fresh identifiers are
fresh, digests are injective, the clock does not go back. A clean Git worktree lists exactly the files of its commit.
One observation of the source, and one reading of the artifacts, sees one instant; a check that reads twice sees two.

## Left out

- Progress telemetry, the text of diagnostics and the coverage reports inside `refresh.py`: reporting only. Report files
  are written in the step system, their content is opaque.
- Git, the file system walk, clangd, SQLite, ripgrep, `sha256`, JSON text, timestamps and UUIDs: their answers are inputs.
- RefreshService.RefreshCall.Refresh: covers an uninterrupted call, because interrupts and crashes between any two steps
  are the subject of the step system, of which each method is a step.
- RefreshService.KnowledgeRoot.Write: keeps paths abstract, because only the generation in a path matters to the proofs.
- Session.ObserveArtifacts: reads every artifact once, because the recheck after the format readers only guards against
  changes within one reading, which the model takes as one instant.
- Overlay.OverlayQuery.Leg: takes the construction of a path's nodes, support and source evidence as an opaque source of
  gaps, because the catalogue matching in `path` has no invariant of its own.
- DiffParsers.ParseUnifiedDiff: keeps the status of a refusal, invalid or unsupported, but not its code and message; the
  blank checks on repository, revision and source identifiers are omitted.
- `ChangedRangeMapper` in `change_mapping.py` and its session handling: matching of extents by the relation that is modelled.
- Materialize.MaterializeFile: starts from decoded text, because hash comparison, file size and decoding only decide
  whether the file is reached at all.
- Extraction.Extract: leaves out origins, hashes, limitations and notes of candidates, which are pooled the same way as
  observations and take no part in the structural checks.
- Impact.Analyze: takes inventories and dependency records as given; the depfile and compilation-database readers are not
  modelled, and results are sets instead of sorted tuples.
- Expansion.Expand: takes the answer of each query or trace as given, with the checks that precede it; automatic trace
  selection and the summaries are not modelled.
- Codec.RoundTrip: takes the validation in a record's constructor as a predicate.
- `review_service/`, `evaluation/`, `scripts/`, `retrieval/service.py`, `retrieval/channels.py`, the regular-expression
  templates in `graph/`, and `parse_task`: field checks, drivers and pattern tables.
