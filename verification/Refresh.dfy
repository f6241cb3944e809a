/** One knowledge root shared by any number of refresh runs, as a step system. A step is one action of one
    run, or one change of the surroundings: source edits, configuration changes, the clock. Between any two
    steps of a run the other runs and the surroundings may act, and the run may be interrupted or crash. */
module Refresh {
  import opened Prelude
  import opened Knowledge
  import opened Freshness

  type RunId = nat

  /** Pure path classification: what the scanner skips and what it treats as code or as tests. */
  datatype Policy = Policy(excluded: set<RepoPath>, code: set<RepoPath>, tests: set<RepoPath>)

  /** The fixed parameters of a service. `tree` is the file list of every commit. */
  datatype Site = Site(repository: string, policy: Policy, tree: map<nat, set<RepoPath>>)

  datatype SourceFile = SourceFile(content: Bytes, stamp: int)

  datatype SourceState =
    SourceState(revision: Option<nat>, dirty: bool, tracked: set<RepoPath>, files: map<RepoPath, SourceFile>)

  /** A clean Git worktree tracks exactly the files of its commit. */
  predicate Coherent(site: Site, source: SourceState) {
    !source.dirty && source.revision.Some? ==>
      source.revision.value in site.tree && source.tracked == site.tree[source.revision.value]
  }

  datatype DiskFile = DiskFile(content: Content, stamp: nat)

  datatype Disk = Disk(lock: Option<RunId>, manifest: Option<KnowledgeManifest>, files: map<DiskPath, DiskFile>)

  datatype Request = Request(scope: BuildScope, reason: nat, force: bool)

  datatype Outcome = Pending | Published | NoOp | FailedRun | CancelledRun | Conflict | Raised

  datatype Pc =
    | Idle | Acquiring | Locked | Planning | Planned | Ready | Working | Built | Validated | Reobserved | Confirmed
    | Committed | Interrupted | Recording | Reporting | Releasing | Done | Crashed

  /** The local variables of one call of `refresh`. */
  datatype Run = Run(
    pc: Pc, request: Request, owned: bool, loaded: KnowledgeManifest, attempt: Option<BuildAttempt>,
    scope: Option<BuildScope>, inventory: set<RepoPath>, observed: Option<SourceObservation>,
    configuration: Option<BuildConfiguration>, snapshot: Option<KnowledgeSnapshot>,
    cancelled: bool, outcome: Outcome)

  function NewRun(request: Request): Run {
    Run(Idle, request, false, KnowledgeManifest(None, None), None, None, {}, None, None, None, false, Pending)
  }

  datatype System = System(
    site: Site, disk: Disk, runs: map<RunId, Run>, source: SourceState,
    configuration: BuildConfiguration, clock: int, nextId: nat)

  datatype Action =
    | Acquire | AcquireError | LockWritten(interrupted: bool) | LockWriteError
    | Load(readable: bool) | InterruptLoad
    | Plan | ObserveSource | Decide(transientError: bool)
    | Write(path: DiskPath, content: Content) | FinishBuild | Validate | Reobserve | CheckConfiguration
    | Commit | Finish
    | Raise | RaiseUncaught | Interrupt | Inspect(readable: bool) | LeaveHandler(interrupted: bool)
    | Record(publishes: bool) | Report(name: FileName, body: Bytes) | CloseReport
    | Release | Crash

  datatype Event =
    | Act(id: RunId, action: Action)
    | EditSource(source: SourceState)
    | ChangeConfiguration(configuration: BuildConfiguration)
    | Tick(elapsed: nat)

  // ---- Readings -------------------------------------------------------------------------------------

  function Observe(repository: string, source: SourceState, paths: set<RepoPath>): Option<SourceObservation> {
    if paths <= source.files.Keys then
      Some(SourceObservation(repository, source.revision, source.dirty,
                             SourceFingerprint(map p | p in paths :: source.files[p].content),
                             map p | p in paths :: source.files[p].stamp, source.tracked))
    else None
  }

  /** The scope a request names over a tracked inventory; a full scope classifies everything not excluded. */
  function TargetScope(policy: Policy, requested: BuildScope, tracked: set<RepoPath>): BuildScope {
    if requested.kind == SelectedFiles then requested
    else
      var supported := (tracked - policy.excluded) * (policy.code + policy.tests);
      BuildScope(FullRepository, supported - policy.tests, supported * policy.tests, tracked)
  }

  /** The scope a request resolves to, if the scanner covers it; the inventory is always the whole tracked set. */
  function ResolveScope(policy: Policy, requested: BuildScope, source: SourceState): Option<BuildScope> {
    var present := source.files.Keys - policy.excluded;
    var covered :=
      if requested.kind == SelectedFiles then
        var wanted := requested.Files();
        wanted <= source.tracked && wanted !! policy.excluded && wanted <= present
      else
        present * source.tracked == source.tracked - policy.excluded;
    if covered then Some(TargetScope(policy, requested, source.tracked)) else None
  }

  /** Selected files are served as they are when every one is tracked, not excluded and present. A full scope needs
      every tracked file to be excluded or present; it takes what is classified, a test before all else, and all tracked
      text. */
  lemma ScopeIsExact(policy: Policy, requested: BuildScope, source: SourceState)
    ensures var r := ResolveScope(policy, requested, source);
            if requested.kind == SelectedFiles then
              r == if forall p :: p in requested.Files() ==>
                        p in source.tracked && p !in policy.excluded && p in source.files
                   then Some(requested) else None
            else
              && (r.Some? <==> forall p :: p in source.tracked ==> p in policy.excluded || p in source.files)
              && (r.Some? ==>
                    && r.value.kind == FullRepository && r.value.text == source.tracked
                    && (forall p :: p in r.value.tests <==>
                          p in source.tracked && p !in policy.excluded && p in policy.tests)
                    && (forall p :: p in r.value.semantic <==>
                          p in source.tracked && p !in policy.excluded && p in policy.code && p !in policy.tests))
  {
    var present := source.files.Keys - policy.excluded;
    if requested.kind == SelectedFiles {
      assert requested.Files() !! policy.excluded <==> forall p :: p in requested.Files() ==> p !in policy.excluded;
    } else {
      assert present * source.tracked == source.tracked - policy.excluded <==>
          forall p :: p in source.tracked ==> p in policy.excluded || p in source.files by {
        if present * source.tracked == source.tracked - policy.excluded {
          forall p | p in source.tracked && p !in policy.excluded ensures p in source.files {
            assert p in present * source.tracked;
          }
        }
      }
    }
  }

  function LoadManifest(disk: Disk): KnowledgeManifest {
    if disk.manifest.None? then KnowledgeManifest(None, None) else disk.manifest.value
  }

  const P1_INDEX_V1 := 1

  /** The public readers accept every artifact: present, unchanged, of the supported formats, of one scope. */
  predicate ArtifactsIntact(files: map<DiskPath, DiskFile>, s: KnowledgeSnapshot) {
    && (forall a :: a in s.artifacts.Files() ==> a.path in files && files[a.path].content == a.sha256)
    && s.configuration.symbolSchema == 3 && s.configuration.graphSchema == 1
    && s.configuration.domainSchema == 1 && s.configuration.projection == P1_INDEX_V1
    && s.artifacts.symbols.sha256.IndexContent?
    && s.scope.semantic + s.scope.tests <= s.artifacts.symbols.sha256.files
    && s.artifacts.tests.path == s.artifacts.symbols.path
    && s.artifacts.graph.sha256.GraphContent?
    && s.artifacts.graph.sha256.repository == s.identity.repository
    && s.artifacts.graph.identity == GraphKey(s.artifacts.graph.sha256.snapshotKey)
    && s.artifacts.domain.sha256.DomainContent?
    && s.artifacts.domain.sha256.repository == s.identity.repository
    && s.artifacts.domain.sha256.snapshotKey == s.artifacts.graph.sha256.snapshotKey
    && s.artifacts.domain.sha256.ruleset == s.configuration.domainRuleset
  }

  /** What the pre-build inspection concludes about the manifest on disk. */
  predicate CanServe(s: System, requirement: QueryRequirement) {
    && s.disk.manifest.Some?
    && s.disk.manifest.value.lastUsable.Some?
    && var snapshot := s.disk.manifest.value.lastUsable.value;
       Bindable(s.disk.manifest.value, requirement,
                Observe(s.site.repository, s.source, snapshot.source.files.Keys),
                Some(if ArtifactsIntact(s.disk.files, snapshot) then [] else [ArtifactInvalid]))
  }

  // ---- Actions --------------------------------------------------------------------------------------

  function With(s: System, id: RunId, r: Run): System {
    s.(runs := s.runs[id := r])
  }

  function Stop(r: Run, outcome: Outcome): Run {
    r.(pc := Releasing, outcome := outcome)
  }

  function Publish(s: System, m: KnowledgeManifest): System {
    s.(disk := s.disk.(manifest := Some(m)))
  }

  function WriteFile(s: System, path: DiskPath, content: Content): System {
    s.(disk := s.disk.(files := s.disk.files[path := DiskFile(content, s.nextId)]), nextId := s.nextId + 1)
  }

  /** `_WriterLease.__exit__`: unlink the lock file if this run created it. */
  function Unlock(s: System, id: RunId, r: Run): System {
    With(if r.owned then s.(disk := s.disk.(lock := None)) else s, id, r.(owned := false, pc := Done))
  }

  predicate InBuildBody(pc: Pc) {
    pc in {Planning, Planned, Ready, Working, Built, Validated, Reobserved, Confirmed}
  }

  function Acquisition(s: System, id: RunId, r: Run, a: Action): Option<System>
    requires id in s.runs && r == s.runs[id]
  {
    match a
    case Acquire =>
      if r.pc != Idle then None
      else if s.disk.lock.Some? then Some(With(s, id, r.(pc := Done, outcome := Conflict)))
      else Some(With(s.(disk := s.disk.(lock := Some(id))), id, r.(pc := Acquiring, owned := true)))
    case AcquireError =>
      if r.pc != Idle then None else Some(With(s, id, r.(pc := Done, outcome := Conflict)))
    case LockWritten(interrupted) =>
      if r.pc != Acquiring then None
      else if interrupted then Some(Unlock(s, id, r.(outcome := CancelledRun)))
      else Some(With(s, id, r.(pc := Locked)))
    case LockWriteError =>
      if r.pc != Acquiring then None else Some(Unlock(s, id, r.(outcome := Conflict)))
    case Load(readable) =>
      if r.pc != Locked then None
      else if !readable then Some(With(s, id, Stop(r, FailedRun)))
      else
        var identity := SnapshotIdentity(s.nextId, s.nextId, s.site.repository, None);
        var attempt := BuildAttempt(s.nextId, identity, Building, r.request.reason, s.clock, None, None);
        Some(With(s.(nextId := s.nextId + 1), id,
                  r.(pc := Planning, loaded := LoadManifest(s.disk), attempt := Some(attempt))))
    case InterruptLoad =>
      if r.pc != Locked then None else Some(With(s, id, Stop(r, Raised)))
    case _ => None
  }

  /** Serve the loaded snapshot, or announce the build. A served manifest without an attempt is not expected. */
  function Decided(s: System, id: RunId, r: Run, serve: bool): System
    requires id in s.runs && r == s.runs[id]
  {
    var building := KnowledgeManifest(r.loaded.lastUsable, r.attempt);
    if serve then With(s, id, Stop(r, if r.loaded.latestAttempt.Some? then NoOp else Raised))
    else if building.Valid() then Publish(With(s, id, r.(pc := Working)), building)
    else With(s, id, r.(pc := Recording))
  }

  function Preparation(s: System, id: RunId, r: Run, a: Action): Option<System>
    requires id in s.runs && r == s.runs[id] && r.attempt.Some?
  {
    var attempt := r.attempt.value;
    match a
    case Plan =>
      if r.pc != Planning then None
      else
        var named := attempt.(target := attempt.target.(revision := s.source.revision));
        var scope := ResolveScope(s.site.policy, r.request.scope, s.source);
        if s.source.revision.None? || s.source.dirty || scope.None? then
          Some(With(s, id, r.(pc := Recording, attempt := Some(named))))
        else
          Some(With(s, id, r.(pc := Planned, attempt := Some(named), scope := scope, inventory := s.source.tracked)))
    case ObserveSource =>
      if r.pc != Planned then None
      else
        var observed := Observe(s.site.repository, s.source, r.inventory);
        if observed.None? || observed.value.revision != attempt.target.revision || observed.value.dirty then
          Some(With(s, id, r.(pc := Recording)))
        else
          Some(With(s, id, r.(pc := Ready, observed := observed, configuration := Some(s.configuration))))
    case Decide(transientError) =>
      if r.pc != Ready || r.observed.None? || r.scope.None? || r.configuration.None? then None
      else
        var requirement := QueryRequirement(s.site.repository, r.observed.value.revision, r.scope.value,
                                            r.configuration.value);
        Some(Decided(s, id, r, !r.request.force && r.loaded.lastUsable.Some? && !transientError &&
                     CanServe(s, requirement)))
    case _ => None
  }

  predicate OwnPath(repository: string, generation: nat, path: DiskPath) {
    match path
    case GenerationFile(g, _) => g == generation
    case GraphFile(repo, g) => repo == repository && g == generation
  }

  /** `_snapshot`: digests of the files just written, under the identity of this attempt. */
  function BuildSnapshot(s: System, r: Run): Option<KnowledgeSnapshot>
    requires r.attempt.Some?
  {
    var attempt := r.attempt.value;
    var generation := attempt.target.generation;
    var index, graph, domain :=
      GenerationFile(generation, IndexFile), GraphFile(s.site.repository, generation),
        GenerationFile(generation, DomainFile);
    if {index, graph, domain} <= s.disk.files.Keys && r.scope.Some? && r.observed.Some? && r.configuration.Some? then
      var configuration, source := r.configuration.value, r.observed.value.fingerprint;
      var indexContent, graphContent, domainContent :=
        s.disk.files[index].content, s.disk.files[graph].content, s.disk.files[domain].content;
      var artifacts := KnowledgeArtifacts(
        ArtifactReference(SymbolArtifact, ContentDigest(indexContent), attempt.target, index, indexContent,
                          configuration.symbolSchema),
        ArtifactReference(TestArtifact, ContentDigest(indexContent), attempt.target, index, indexContent,
                          configuration.symbolSchema),
        ArtifactReference(GraphArtifact, GraphKey(generation), attempt.target, graph, graphContent,
                          configuration.graphSchema),
        ArtifactReference(DomainArtifact, ContentDigest(domainContent), attempt.target, domain, domainContent,
                          configuration.domainSchema),
        TextKnowledge(source, attempt.target, source, configuration.textReader));
      var snapshot := KnowledgeSnapshot(attempt.target, r.scope.value, source, configuration, artifacts,
                                        SnapshotBuild(attempt.attemptId, Succeeded, attempt.startedAt, VerifiedBuild,
                                                      source));
      if snapshot.Valid() then Some(snapshot) else None
    else None
  }

  function BuildBody(s: System, id: RunId, r: Run, a: Action): Option<System>
    requires id in s.runs && r == s.runs[id] && r.attempt.Some?
  {
    match a
    case Write(path, content) =>
      if r.pc != Working || !OwnPath(s.site.repository, r.attempt.value.target.generation, path) then None
      else Some(WriteFile(s, path, content))
    case FinishBuild =>
      if r.pc != Working then None
      else
        var snapshot := BuildSnapshot(s, r);
        Some(With(s, id, if snapshot.None? then r.(pc := Recording) else r.(pc := Built, snapshot := snapshot)))
    case Validate =>
      if r.pc != Built || r.snapshot.None? then None
      else Some(With(s, id, r.(pc := if ArtifactsIntact(s.disk.files, r.snapshot.value) then Validated else Recording)))
    case Reobserve =>
      if r.pc != Validated then None
      else Some(With(s, id, r.(pc := if r.observed.Some?
                                        && Observe(s.site.repository, s.source, r.inventory) == r.observed
                                     then Reobserved else Recording)))
    case CheckConfiguration =>
      if r.pc != Reobserved then None
      else Some(With(s, id, r.(pc := if Some(s.configuration) == r.configuration then Confirmed else Recording)))
    case _ => None
  }

  function Publication(s: System, id: RunId, r: Run, a: Action): Option<System>
    requires id in s.runs && r == s.runs[id] && r.attempt.Some?
  {
    var attempt := r.attempt.value;
    match a
    case Commit =>
      if r.pc != Confirmed || r.snapshot.None? then None
      else
        var snapshot := r.snapshot.value.(build := r.snapshot.value.build.(builtAt := s.clock));
        var succeeded := attempt.(status := Succeeded, finishedAt := Some(s.clock));
        var manifest := KnowledgeManifest(Some(snapshot), Some(succeeded));
        if manifest.Valid() then
          Some(Publish(With(s, id, r.(pc := Committed, snapshot := Some(snapshot))), manifest))
        else Some(With(s, id, r.(pc := Recording)))
    case Finish =>
      if r.pc != Committed then None else Some(With(s, id, Stop(r, Published)))
    case Raise =>
      if !InBuildBody(r.pc) then None else Some(With(s, id, r.(pc := Recording)))
    case RaiseUncaught =>
      if !InBuildBody(r.pc) then None else Some(With(s, id, Stop(r, Raised)))
    case Interrupt =>
      if !InBuildBody(r.pc) && r.pc != Committed then None else Some(With(s, id, r.(pc := Interrupted)))
    case Inspect(readable) =>
      if r.pc != Interrupted then None
      else
        var committed := if readable then LoadManifest(s.disk) else r.loaded;
        if IsCommitOf(committed, attempt) then Some(With(s, id, Stop(r, Published)))
        else Some(With(s, id, r.(pc := Recording, cancelled := true)))
    case LeaveHandler(interrupted) =>
      // A second interrupt before signals are deferred, or a manifest that cannot be decoded: nothing is recorded.
      if r.pc != Interrupted then None else Some(With(s, id, Stop(r, if interrupted then Raised else FailedRun)))
    case Record(publishes) =>
      if r.pc != Recording then None
      else
        var failed := attempt.(status := if r.cancelled then Cancelled else Failed,
                               finishedAt := Some(s.clock), failure := Some(0));
        var manifest := KnowledgeManifest(r.loaded.lastUsable, Some(failed));
        var next := With(s, id, r.(pc := Reporting));
        Some(if publishes && manifest.Valid() then Publish(next, manifest) else next)
    case Report(name, body) =>
      if r.pc != Reporting || name !in {CoverageFile, FailureFile, OrphanFile} then None
      else Some(WriteFile(s, GenerationFile(attempt.target.generation, name), ReportContent(body)))
    case CloseReport =>
      if r.pc != Reporting then None
      else Some(With(s, id, Stop(r, if r.cancelled then CancelledRun else FailedRun)))
    case _ => None
  }

  /** The manifest says that this attempt has already been published as successful. */
  predicate IsCommitOf(m: KnowledgeManifest, attempt: BuildAttempt) {
    && m.latestAttempt.Some?
    && m.latestAttempt.value.attemptId == attempt.attemptId
    && m.latestAttempt.value.status == Succeeded
  }

  function RunStep(s: System, id: RunId, a: Action): Option<System>
    requires id in s.runs
  {
    var r := s.runs[id];
    match a
    case Release =>
      if r.pc != Releasing then None else Some(Unlock(s, id, r))
    case Crash =>
      if r.pc in {Idle, Done, Crashed} then None else Some(With(s, id, r.(pc := Crashed)))
    case Acquire | AcquireError | LockWritten(_) | LockWriteError | Load(_) | InterruptLoad =>
      Acquisition(s, id, r, a)
    case Plan | ObserveSource | Decide(_) =>
      if r.attempt.None? then None else Preparation(s, id, r, a)
    case Write(_, _) | FinishBuild | Validate | Reobserve | CheckConfiguration =>
      if r.attempt.None? then None else BuildBody(s, id, r, a)
    case _ =>
      if r.attempt.None? then None else Publication(s, id, r, a)
  }

  /** One step; `None` when the event cannot happen in this state. */
  function Step(s: System, e: Event): Option<System> {
    match e
    case Act(id, action) => if id in s.runs then RunStep(s, id, action) else None
    case EditSource(source) => if Coherent(s.site, source) then Some(s.(source := source)) else None
    case ChangeConfiguration(configuration) => Some(s.(configuration := configuration))
    case Tick(elapsed) => Some(s.(clock := s.clock + elapsed))
  }

  /** The state after a whole sequence of events. */
  function Execute(s: System, events: seq<Event>): Option<System>
    decreases |events|
  {
    if events == [] then Some(s)
    else
      var next := Step(s, events[0]);
      if next.None? then None else Execute(next.value, events[1..])
  }
}
