/** A root whose manifest names a usable snapshot but no attempt: serving it raises, and only a root that was handed
    over in that shape can ever get there. */
module BareManifest {
  import opened Prelude
  import opened Knowledge
  import opened Freshness
  import opened Refresh
  import opened RefreshSafety
  import opened Rollback

  /** A manifest with a usable snapshot also names the latest attempt. */
  predicate NamesAttempt(disk: Disk) {
    LoadManifest(disk).lastUsable.Some? ==> LoadManifest(disk).latestAttempt.Some?
  }

  /** What a run that is ready to decide asks of the last usable snapshot. */
  function RequirementOf(s: System, r: Run): QueryRequirement
    requires r.observed.Some? && r.scope.Some? && r.configuration.Some?
  {
    QueryRequirement(s.site.repository, r.observed.value.revision, r.scope.value, r.configuration.value)
  }

  /** One decision: by whether the loaded snapshot is served. */
  lemma DecidingServes(s: System, id: RunId, transientError: bool, t: System) returns (serve: bool)
    requires Step(s, Act(id, Decide(transientError))) == Some(t)
    ensures id in s.runs && s.runs[id].pc == Ready && t == Decided(s, id, s.runs[id], serve)
    ensures s.runs[id].observed.Some? && s.runs[id].scope.Some? && s.runs[id].configuration.Some?
    ensures serve <==>
              && !s.runs[id].request.force && s.runs[id].loaded.lastUsable.Some? && !transientError
              && CanServe(s, RequirementOf(s, s.runs[id]))
  {
    hide CanServe, Decided;
    var r := s.runs[id];
    serve := !r.request.force && r.loaded.lastUsable.Some? && !transientError && CanServe(s, RequirementOf(s, r));
  }

  /** Deciding raises exactly when an unforced request finds a snapshot it may serve, under a manifest without an
      attempt. */
  lemma ServingRaisesExactly(s: System, id: RunId, transientError: bool, t: System)
    requires Inv(s) && id in s.runs && s.runs[id].outcome == Pending
    requires Step(s, Act(id, Decide(transientError))) == Some(t)
    ensures s.runs[id].observed.Some? && s.runs[id].scope.Some? && s.runs[id].configuration.Some? && id in t.runs
    ensures t.runs[id].outcome == Raised <==>
              && !transientError && !s.runs[id].request.force
              && CanServe(s, RequirementOf(s, s.runs[id]))
              && !NamesAttempt(s.disk)
  {
    var serve := DecidingServes(s, id, transientError, t);
    assert Untouched(s.disk, s.runs[id]) by {
      assert RunInv(s, s.runs[id]);
    }
    ServedIsUsable(s, RequirementOf(s, s.runs[id]));
    hide CanServe, Step, Inv, LoadManifest;
  }

  lemma ServedIsUsable(s: System, requirement: QueryRequirement)
    ensures CanServe(s, requirement) ==> LoadManifest(s.disk).lastUsable.Some?
  {
  }

  /** Every publication, of a build, of a failure or of an announcement, names its attempt. */
  lemma StepNamesAttempt(s: System, e: Event, t: System)
    requires NamesAttempt(s.disk) && Step(s, e) == Some(t)
    ensures NamesAttempt(t.disk)
  {
    if e.Act? && !e.action.Commit? && !e.action.Record? {
      RunStepShape(s, e.id, e.action, t);
      hide RunStep;
    }
  }

  /** Until a run ends its outcome is open. */
  predicate Open(s: System) {
    forall id :: id in s.runs && s.runs[id].pc !in {Releasing, Done, Crashed} ==> s.runs[id].outcome == Pending
  }

  lemma ActorStaysOpen(s: System, id: RunId, a: Action, t: System)
    requires id in s.runs && RunStep(s, id, a) == Some(t) && id in t.runs &&
             t.runs[id].pc !in {Releasing, Done, Crashed}
    ensures s.runs[id].pc !in {Releasing, Done, Crashed} && t.runs[id].outcome == s.runs[id].outcome
  {
    hide ResolveScope, Observe, CanServe, ArtifactsIntact, BuildSnapshot, IsCommitOf;
  }

  lemma RunStepKeepsOpen(s: System, id: RunId, a: Action, t: System)
    requires Open(s) && id in s.runs && RunStep(s, id, a) == Some(t)
    ensures Open(t)
  {
    hide RunStep;
    RunStepShape(s, id, a, t);
    if t.runs[id].pc !in {Releasing, Done, Crashed} {
      ActorStaysOpen(s, id, a, t);
    }
  }

  /** From a root that names its attempts, as an empty root does, no run ever raises when it decides, whatever the other
      runs and the surroundings do. */
  lemma {:induction false} NeverRaisesWhenDeciding(start: System, events: seq<Event>, s: System, id: RunId,
                                                   transientError: bool, t: System)
    requires Inv(start) && Open(start) && NamesAttempt(start.disk) && Execute(start, events) == Some(s)
    requires Step(s, Act(id, Decide(transientError))) == Some(t)
    ensures id in t.runs && t.runs[id].outcome != Raised
    decreases |events|
  {
    hide RunStep;
    if events == [] {
      var _ := DecidingServes(s, id, transientError, t);
      ServingRaisesExactly(s, id, transientError, t);
    } else {
      var next := Step(start, events[0]).value;
      StepKeeps(start, events[0], next);
      StepNamesAttempt(start, events[0], next);
      if events[0].Act? {
        RunStepKeepsOpen(start, events[0].id, events[0].action, next);
      }
      NeverRaisesWhenDeciding(next, events[1..], s, id, transientError, t);
    }
  }

  /** The converse: wherever an unforced run can plan and the manifest without an attempt could be served, the
      undisturbed run raises, and leaves the disk as it was. */
  lemma BareManifestRaises(u: System, id: RunId) returns (t: System)
    requires CanPlan(u, id) && Served(u, id) && !NamesAttempt(u.disk)
    ensures Execute(u, Opening(id) + [Act(id, Release)]) == Some(t) && id in t.runs && t.runs[id].outcome == Raised
    ensures t.disk == u.disk
  {
    t := ServedLeavesRoot(u, id);
  }

  // ---- Such a root exists ---------------------------------------------------------------------------

  /** A snapshot of the one file of the example, in the supported formats. */
  function BareSnapshot(): KnowledgeSnapshot {
    var identity := SnapshotIdentity(0, 0, "repository", Some(7));
    var source := SourceFingerprint(map["a.cpp" := 1]);
    var index, graph, domain := IndexContent({}, 0), GraphContent("repository", 0, 0),
          DomainContent("repository", 0, 0, 0);
    var indexPath, graphPath, domainPath := GenerationFile(0, IndexFile), GraphFile("repository", 0),
          GenerationFile(0, DomainFile);
    var artifacts := KnowledgeArtifacts(
      ArtifactReference(SymbolArtifact, ContentDigest(index), identity, indexPath, index, 3),
      ArtifactReference(TestArtifact, ContentDigest(index), identity, indexPath, index, 3),
      ArtifactReference(GraphArtifact, GraphKey(0), identity, graphPath, graph, 1),
      ArtifactReference(DomainArtifact, ContentDigest(domain), identity, domainPath, domain, 1),
      TextKnowledge(source, identity, source, Example().configuration.textReader));
    KnowledgeSnapshot(identity, Example().runs[0].request.scope, source, Example().configuration, artifacts,
                      SnapshotBuild(0, Succeeded, 0, VerifiedBuild, source))
  }

  /** The example worktree over a root that holds this snapshot and no attempt, with one unforced request. */
  function BareSystem(): System {
    var k := BareSnapshot();
    var files := map[k.artifacts.symbols.path := DiskFile(k.artifacts.symbols.sha256, 0),
                     k.artifacts.graph.path := DiskFile(k.artifacts.graph.sha256, 0),
                     k.artifacts.domain.path := DiskFile(k.artifacts.domain.sha256, 0)];
    Example().(disk := Disk(None, Some(KnowledgeManifest(Some(k), None)), files), nextId := 1,
               runs := map[0 := NewRun(Request(k.scope, 0, false))])
  }

  lemma BareRootIsInitial()
    ensures Init(BareSystem()) && !NamesAttempt(BareSystem().disk)
  {
    assert BareSystem().disk.manifest.value.Valid();
  }

  lemma BareRootIsPlanned()
    ensures CanPlan(BareSystem(), 0) && !BareSystem().runs[0].request.force
    ensures ScopeOf(BareSystem(), 0) == BareSnapshot().scope
  {
    BareRootIsInitial();
    InitHolds(BareSystem());
    hide Inv, Init, BareSnapshot;
  }

  lemma BareArtifactsAreIntact()
    ensures SelfConsistent(BareSnapshot()) && ArtifactsIntact(BareSystem().disk.files, BareSnapshot())
  {
  }

  lemma BareSourceAgrees()
    ensures var k := BareSnapshot();
            var seen := Observe("repository", BareSystem().source, k.source.files.Keys);
            seen.Some? && SourceAgrees(k, seen.value)
  {
    var k := BareSnapshot();
    var seen := Observe("repository", BareSystem().source, k.source.files.Keys);
    assert seen.Some? && seen.value.fingerprint == k.source;
  }

  lemma BareRootIsServed()
    ensures var u := BareSystem();
              CanServe(u, QueryRequirement("repository", Some(7), BareSnapshot().scope, u.configuration))
  {
    BareArtifactsAreIntact();
    BareSourceAgrees();
    var u, k := BareSystem(), BareSnapshot();
    hide SelfConsistent, ArtifactsIntact, SourceAgrees, Observe;
  }

  /** The example runs into it: an initial root, one unforced request, and the call raises. */
  lemma BareRootRaises() returns (t: System)
    ensures Init(BareSystem()) && Execute(BareSystem(), Opening(0) + [Act(0, Release)]) == Some(t)
    ensures 0 in t.runs && t.runs[0].outcome == Raised
  {
    BareRootIsInitial();
    BareRootIsPlanned();
    BareRootIsServed();
    hide CanServe, NamesAttempt, CanPlan, BareSnapshot, Init;
    t := BareManifestRaises(BareSystem(), 0);
  }
}
