/** What every interleaving of refresh runs keeps: one lease holder, a valid manifest, a loaded manifest that
    stays put until its own run publishes, and a last usable snapshot that only a successful commit moves. */
module RefreshSafety {
  import opened Prelude
  import opened Knowledge
  import opened Freshness
  import opened Refresh

  // ---- The invariant --------------------------------------------------------------------------------

  predicate Starting(pc: Pc) {
    pc in {Acquiring, Locked}
  }

  predicate Attempting(pc: Pc) {
    InBuildBody(pc) || pc in {Committed, Interrupted, Recording, Reporting}
  }

  /** Identities handed out so far are all below `bound`. */
  predicate KnownSnapshot(k: KnowledgeSnapshot, bound: nat) {
    && k.identity.generation < bound
    && forall a :: a in k.artifacts.Files() ==> a.path.generation < bound
  }

  predicate Known(m: KnowledgeManifest, bound: nat) {
    && (m.lastUsable.Some? ==> KnownSnapshot(m.lastUsable.value, bound))
    && (m.latestAttempt.Some? ==> m.latestAttempt.value.attemptId < bound)
  }

  predicate Untouched(disk: Disk, r: Run) {
    LoadManifest(disk) == r.loaded
  }

  predicate Started(disk: Disk, r: Run)
    requires r.attempt.Some?
  {
    && disk.manifest == Some(KnowledgeManifest(r.loaded.lastUsable, r.attempt))
    && disk.manifest.value.Valid()
  }

  /** The artifacts of a built snapshot live under its own generation. */
  predicate OwnArtifacts(repository: string, k: KnowledgeSnapshot) {
    var generation := k.identity.generation;
    && k.artifacts.symbols.path == k.artifacts.tests.path == GenerationFile(generation, IndexFile)
    && k.artifacts.graph.path == GraphFile(repository, generation)
    && k.artifacts.domain.path == GenerationFile(generation, DomainFile)
  }

  predicate CommittedBy(disk: Disk, r: Run)
    requires r.attempt.Some?
  {
    && KnowledgeManifest(r.loaded.lastUsable, r.attempt).Valid()
    && r.snapshot.Some? && r.snapshot.value.identity == r.attempt.value.target
    && OwnArtifacts(r.attempt.value.target.repository, r.snapshot.value)
    && disk.manifest.Some? && disk.manifest.value.lastUsable == r.snapshot
    && IsCommitOf(disk.manifest.value, r.attempt.value)
  }

  /** The attempt of a run in progress: still recorded as building, newer than everything it loaded. */
  predicate AttemptInv(s: System, r: Run)
    requires r.attempt.Some?
  {
    var a := r.attempt.value;
    && a.status == Building && a.Valid()
    && a.target.repository == s.site.repository
    && a.attemptId == a.target.generation < s.nextId
    && a.startedAt <= s.clock
    && r.loaded.Valid() && Known(r.loaded, a.attemptId)
  }

  predicate RecordedFailure(disk: Disk, r: Run)
    requires r.attempt.Some?
  {
    && disk.manifest.Some? && disk.manifest.value.latestAttempt.Some?
    && disk.manifest.value.latestAttempt.value.attemptId == r.attempt.value.attemptId
    && disk.manifest.value.latestAttempt.value.status in {Failed, Cancelled}
  }

  /** Where the manifest stands, by program counter. */
  predicate StageInv(s: System, r: Run)
    requires r.attempt.Some?
  {
    && (r.pc in {Planning, Planned, Ready} ==> Untouched(s.disk, r))
    && (r.pc in {Working, Built, Validated, Reobserved, Confirmed} ==> Started(s.disk, r))
    && (r.pc == Committed ==> CommittedBy(s.disk, r))
    && (r.pc in {Interrupted, Recording} ==> Untouched(s.disk, r) || Started(s.disk, r) || CommittedBy(s.disk, r))
    && (r.pc == Reporting ==>
          Untouched(s.disk, r) || Started(s.disk, r) || CommittedBy(s.disk, r) || RecordedFailure(s.disk, r))
  }

  /** Facts about the observed source that a run carries to its publication. */
  predicate EvidenceInv(s: System, r: Run)
    requires r.attempt.Some?
  {
    var a := r.attempt.value;
    && (r.pc in {Planned, Ready, Working, Built, Validated, Reobserved, Confirmed, Committed} ==>
          && a.target.revision.Some? && a.target.revision.value in s.site.tree
          && r.inventory == s.site.tree[a.target.revision.value]
          && r.scope == Some(TargetScope(s.site.policy, r.request.scope, r.inventory))
          && (r.request.scope.kind == SelectedFiles ==>
                r.request.scope.Files() <= r.inventory && r.request.scope.Files() !! s.site.policy.excluded))
    && (r.pc in {Ready, Working, Built, Validated, Reobserved, Confirmed, Committed} ==>
          && r.observed.Some? && r.configuration.Some?
          && r.observed.value.repository == s.site.repository
          && r.observed.value.revision == a.target.revision && !r.observed.value.dirty
          && r.observed.value.tracked == r.inventory == r.observed.value.fingerprint.files.Keys)
    && (r.pc in {Built, Validated, Reobserved, Confirmed, Committed} ==>
          && r.snapshot.Some? && r.snapshot.value.Valid() && SelfConsistent(r.snapshot.value)
          && r.snapshot.value.identity == a.target && r.snapshot.value.scope == r.scope.value
          && r.snapshot.value.source == r.observed.value.fingerprint
          && r.snapshot.value.configuration == r.configuration.value
          && OwnArtifacts(s.site.repository, r.snapshot.value)
          && r.snapshot.value.build.attemptId == a.attemptId && r.snapshot.value.build.status == Succeeded)
    && (r.pc in {Validated, Reobserved, Confirmed, Committed} ==> ArtifactsIntact(s.disk.files, r.snapshot.value))
  }

  predicate RunInv(s: System, r: Run) {
    && (r.pc in {Idle, Done} ==> !r.owned)
    && (Starting(r.pc) || Attempting(r.pc) || r.pc == Releasing ==> r.owned)
    && (Attempting(r.pc) ==> r.attempt.Some? && AttemptInv(s, r) && StageInv(s, r) && EvidenceInv(s, r))
  }

  predicate LockInv(s: System) {
    && (forall id :: id in s.runs ==> (s.runs[id].owned <==> s.disk.lock == Some(id)))
    && (s.disk.lock.Some? ==> s.disk.lock.value in s.runs)
  }

  predicate ManifestInv(s: System) {
    s.disk.manifest.Some? ==> s.disk.manifest.value.Valid() && Known(s.disk.manifest.value, s.nextId)
  }

  predicate Inv(s: System) {
    && LockInv(s) && ManifestInv(s) && Coherent(s.site, s.source)
    && forall id :: id in s.runs ==> RunInv(s, s.runs[id])
  }

  /** No run has started; the root may already hold any valid manifest with known identities. */
  predicate Init(s: System) {
    && s.disk.lock == None && ManifestInv(s) && Coherent(s.site, s.source)
    && forall id :: id in s.runs ==> s.runs[id] == NewRun(s.runs[id].request)
  }

  // ---- Every step keeps it --------------------------------------------------------------------------

  lemma InitHolds(s: System)
    requires Init(s)
    ensures Inv(s)
  {
    forall id | id in s.runs ensures RunInv(s, s.runs[id]) && !s.runs[id].owned {
      assert s.runs[id] == NewRun(s.runs[id].request);
    }
  }

  /** The part of the invariant that one run can see. */
  predicate Local(s: System, id: RunId) {
    && id in s.runs && RunInv(s, s.runs[id]) && ManifestInv(s) && Coherent(s.site, s.source)
    && (s.runs[id].owned <==> s.disk.lock == Some(id))
  }

  /** One action of run `id`: only that run's variables, the disk and the identity supply may move. */
  predicate ActsAlone(s: System, id: RunId, t: System) {
    && id in s.runs && id in t.runs
    && t.site == s.site && t.source == s.source && t.configuration == s.configuration && t.clock == s.clock
    && s.nextId <= t.nextId
    && t.runs == s.runs[id := t.runs[id]]
    && (t.disk.lock == s.disk.lock || (s.disk.lock.None? && t.disk.lock == Some(id)) ||
        (s.runs[id].owned && t.disk.lock.None?))
  }

  /** What any action of run `id` may do, whatever the state: who writes the manifest and the files, and which
      stages lead where. */
  predicate Shape(s: System, id: RunId, a: Action, t: System) {
    && ActsAlone(s, id, t)
    && ManifestShape(s, s.runs[id], a, t)
    && (!a.Write? && !a.Report? ==> t.disk.files == s.disk.files)
    && (t.runs[id].pc == Recording ==> t.disk.manifest == s.disk.manifest)
    && StageShape(s, s.runs[id], a, t.runs[id])
  }

  predicate ManifestShape(s: System, r: Run, a: Action, t: System) {
    && (!a.Decide? && !a.Commit? && !a.Record? ==> t.disk.manifest == s.disk.manifest)
    && (a.Commit? ==> r.pc == Confirmed) && (a.Record? ==> r.pc == Recording)
    && (a.Decide? ==> r.pc == Ready && t.disk.manifest in
                        {s.disk.manifest, Some(KnowledgeManifest(r.loaded.lastUsable, r.attempt))})
  }

  predicate StageShape(s: System, r: Run, a: Action, r': Run) {
    && r.pc !in {Done, Crashed}
    && (r'.pc == Planning ==> a.Load? && r'.attempt.Some? && r'.attempt.value.target.generation == s.nextId)
    && (a.Load? ==> r'.pc in {Planning, Releasing})
    && (Attempting(r'.pc) && !a.Load? ==>
          && Attempting(r.pc) && r.attempt.Some? && r'.attempt.Some?
          && r'.attempt.value.attemptId == r.attempt.value.attemptId
          && r'.attempt.value.target.generation == r.attempt.value.target.generation)
    && (r'.pc in {Planned, Ready, Working} ==> r.pc in {Planning, Planned, Ready, Working})
    && (r'.pc == Recording ==> if a.Inspect? then r.pc == Interrupted else InBuildBody(r.pc))
  }

  lemma LeaseShape(s: System, id: RunId, a: Action, t: System)
    requires id in s.runs
    requires OpensLease(a) && Acquisition(s, id, s.runs[id], a) == Some(t)
    ensures Shape(s, id, a, t)
  {
  }

  lemma LoadShape(s: System, id: RunId, a: Action, t: System)
    requires id in s.runs
    requires a.Load? && Acquisition(s, id, s.runs[id], a) == Some(t)
    ensures Shape(s, id, a, t)
  {
  }

  lemma PreparationShape(s: System, id: RunId, a: Action, t: System)
    requires id in s.runs && s.runs[id].attempt.Some?
    requires Preparation(s, id, s.runs[id], a) == Some(t)
    ensures Shape(s, id, a, t)
  {
  }

  lemma BuildBodyShape(s: System, id: RunId, a: Action, t: System)
    requires id in s.runs && s.runs[id].attempt.Some?
    requires BuildBody(s, id, s.runs[id], a) == Some(t)
    ensures Shape(s, id, a, t)
  {
  }

  lemma CommitShape(s: System, id: RunId, a: Action, t: System)
    requires id in s.runs && s.runs[id].attempt.Some?
    requires (a.Commit? || a.Record?) && Publication(s, id, s.runs[id], a) == Some(t)
    ensures Shape(s, id, a, t)
  {
  }

  lemma PublicationShape(s: System, id: RunId, a: Action, t: System)
    requires id in s.runs && s.runs[id].attempt.Some?
    requires Publication(s, id, s.runs[id], a) == Some(t)
    ensures Shape(s, id, a, t)
  {
    if a.Commit? || a.Record? {
      CommitShape(s, id, a, t);
      hide Publication, Shape;
    }
  }

  lemma RunStepShape(s: System, id: RunId, a: Action, t: System)
    requires id in s.runs && RunStep(s, id, a) == Some(t)
    ensures Shape(s, id, a, t)
  {
    hide Acquisition, Preparation, BuildBody, Publication;
    if OpensLease(a) {
      LeaseShape(s, id, a, t);
    } else if a.Load? {
      LoadShape(s, id, a, t);
    } else if Prepares(a) {
      PreparationShape(s, id, a, t);
    } else if Builds(a) {
      BuildBodyShape(s, id, a, t);
    } else if !a.Release? && !a.Crash? {
      PublicationShape(s, id, a, t);
    }
  }

  /** What a run knows stays true while the manifest and the files stand still. */
  lemma StandstillKeeps(s: System, t: System, r: Run)
    requires RunInv(s, r) && t.site == s.site && t.disk.manifest == s.disk.manifest && t.disk.files == s.disk.files
    requires s.clock <= t.clock && s.nextId <= t.nextId
    ensures RunInv(t, r)
  {
  }

  lemma WithoutLease(s: System, r: Run)
    ensures !r.owned ==> (RunInv(s, r) <==> r.pc in {Idle, Done, Crashed})
  {
  }

  /** A run without the lease constrains nothing on the disk, so it is enough to look at the acting run. */
  lemma ActorDecides(s: System, id: RunId, t: System)
    requires Inv(s) && Kept(s, id, t)
    ensures Inv(t)
  {
    forall other | other in t.runs && other != id
      ensures RunInv(t, t.runs[other]) && (t.runs[other].owned <==> t.disk.lock == Some(other))
    {
      assert t.runs[other] == s.runs[other] && RunInv(s, s.runs[other]);
      if s.runs[id].owned {
        WithoutLease(s, s.runs[other]);
        WithoutLease(t, s.runs[other]);
      } else {
        StandstillKeeps(s, t, s.runs[other]);
      }
    }
  }

  /** The acting run leaves its own part of the invariant intact, and moves the manifest only under the lease. */
  predicate Kept(s: System, id: RunId, t: System) {
    && ActsAlone(s, id, t) && Local(t, id)
    && (t.disk.manifest != s.disk.manifest || t.disk.files != s.disk.files ==> s.runs[id].owned)
  }

  predicate OpensLease(a: Action) {
    a.Acquire? || a.AcquireError? || a.LockWritten? || a.LockWriteError? || a.InterruptLoad?
  }

  predicate Prepares(a: Action) {
    a.Plan? || a.ObserveSource? || a.Decide?
  }

  predicate Builds(a: Action) {
    a.Write? || a.FinishBuild? || a.Validate? || a.Reobserve? || a.CheckConfiguration?
  }

  lemma LeaseKeeps(s: System, id: RunId, a: Action, t: System)
    requires Local(s, id) && OpensLease(a) && Acquisition(s, id, s.runs[id], a) == Some(t)
    ensures Kept(s, id, t)
  {
  }

  lemma LoadKeeps(s: System, id: RunId, a: Action, t: System)
    requires Local(s, id) && a.Load? && Acquisition(s, id, s.runs[id], a) == Some(t)
    ensures Kept(s, id, t)
  {
  }

  lemma PlanKeeps(s: System, id: RunId, a: Action, t: System)
    requires Local(s, id) && a.Plan? && s.runs[id].attempt.Some? && Preparation(s, id, s.runs[id], a) == Some(t)
    ensures Kept(s, id, t)
  {
  }

  lemma ObserveSourceKeeps(s: System, id: RunId, a: Action, t: System)
    requires Local(s, id) && a.ObserveSource? && s.runs[id].attempt.Some? &&
             Preparation(s, id, s.runs[id], a) == Some(t)
    ensures Kept(s, id, t)
  {
  }

  lemma DecidedKeeps(s: System, id: RunId, serve: bool)
    requires Local(s, id) && s.runs[id].pc == Ready
    ensures Kept(s, id, Decided(s, id, s.runs[id], serve))
  {
    var r, t := s.runs[id], Decided(s, id, s.runs[id], serve);
    var building := KnowledgeManifest(r.loaded.lastUsable, r.attempt);
    if !serve && building.Valid() {
      assert Known(building, t.nextId);
      assert Started(t.disk, t.runs[id]);
    }
  }

  lemma BuiltSnapshotIsSound(s: System, r: Run, k: KnowledgeSnapshot)
    requires r.attempt.Some? && BuildSnapshot(s, r) == Some(k)
    requires r.attempt.value.target.revision.Some?
    ensures k.Valid() && SelfConsistent(k) && OwnArtifacts(s.site.repository, k)
    ensures k.identity == r.attempt.value.target && Some(k.scope) == r.scope && Some(k.configuration) == r.configuration
    ensures r.observed.Some? && k.source == r.observed.value.fingerprint
    ensures k.build.attemptId == r.attempt.value.attemptId && k.build.status == Succeeded
  {
  }

  lemma WriteKeeps(s: System, id: RunId, a: Action, t: System)
    requires Local(s, id) && a.Write? && s.runs[id].attempt.Some? && BuildBody(s, id, s.runs[id], a) == Some(t)
    ensures Kept(s, id, t)
  {
  }

  lemma FinishBuildKeeps(s: System, id: RunId, a: Action, t: System)
    requires Local(s, id) && a.FinishBuild? && s.runs[id].attempt.Some? && BuildBody(s, id, s.runs[id], a) == Some(t)
    ensures Kept(s, id, t)
  {
    var k := BuildSnapshot(s, s.runs[id]);
    if k.Some? {
      BuiltSnapshotIsSound(s, s.runs[id], k.value);
    }
  }

  lemma CheckKeeps(s: System, id: RunId, a: Action, t: System)
    requires Local(s, id) && (a.Validate? || a.Reobserve? || a.CheckConfiguration?) && s.runs[id].attempt.Some? &&
             BuildBody(s, id, s.runs[id], a) == Some(t)
    ensures Kept(s, id, t)
  {
  }

  function Dated(k: KnowledgeSnapshot, clock: int): KnowledgeSnapshot {
    k.(build := k.build.(builtAt := clock))
  }

  /** A new date changes nothing else about a snapshot. */
  lemma DatedIsSound(s: System, r: Run, clock: int)
    requires r.attempt.Some? && r.pc == Confirmed && EvidenceInv(s, r)
    ensures r.snapshot.Some?
    ensures var k := Dated(r.snapshot.value, clock); EvidenceInv(s, r.(pc := Committed, snapshot := Some(k)))
  {
  }

  /** The manifest of a successful commit. */
  lemma CommitPublishes(s: System, id: RunId, t: System)
    requires id in s.runs && s.runs[id].attempt.Some? && Publication(s, id, s.runs[id], Commit) == Some(t)
    ensures s.runs[id].pc == Confirmed && s.runs[id].snapshot.Some?
    ensures t.runs == s.runs[id := t.runs[id]]
    ensures t.runs[id].pc != Committed ==> t == With(s, id, s.runs[id].(pc := Recording))
    ensures t.runs[id].pc == Committed ==>
              var k := Dated(s.runs[id].snapshot.value, s.clock);
              var done := s.runs[id].attempt.value.(status := Succeeded, finishedAt := Some(s.clock));
              var m := KnowledgeManifest(Some(k), Some(done));
              m.Valid() && t == Publish(With(s, id, s.runs[id].(pc := Committed, snapshot := Some(k))), m)
  {
  }

  /** The acting run and the manifest after a successful commit. */
  lemma CommittedHolds(s: System, id: RunId, t: System)
    requires Local(s, id) && s.runs[id].attempt.Some? && Publication(s, id, s.runs[id], Commit) == Some(t)
    requires t.runs[id].pc == Committed
    ensures Started(s.disk, s.runs[id]) && CommittedBy(t.disk, t.runs[id]) && EvidenceInv(t, t.runs[id]) &&
            ManifestInv(t)
  {
    CommitPublishes(s, id, t);
    hide Publication;
    DatedIsSound(s, s.runs[id], s.clock);
    hide SelfConsistent, ArtifactsIntact;
  }

  /** Work that fails leaves the run to record it. */
  lemma FailingKeeps(s: System, id: RunId)
    requires Local(s, id) && InBuildBody(s.runs[id].pc)
    ensures Kept(s, id, With(s, id, s.runs[id].(pc := Recording)))
  {
  }

  lemma CommitKeeps(s: System, id: RunId, a: Action, t: System)
    requires Local(s, id) && a.Commit? && s.runs[id].attempt.Some? && Publication(s, id, s.runs[id], a) == Some(t)
    ensures Kept(s, id, t)
  {
    CommitPublishes(s, id, t);
    if t.runs[id].pc == Committed {
      CommittedHolds(s, id, t);
    } else {
      FailingKeeps(s, id);
    }
    hide EvidenceInv, CommittedBy, Started, Publication, ManifestInv;
  }

  lemma LeaveKeeps(s: System, id: RunId, a: Action, t: System)
    requires Local(s, id) && (a.Finish? || a.Raise? || a.RaiseUncaught? || a.LeaveHandler? || a.CloseReport?) &&
             s.runs[id].attempt.Some? && Publication(s, id, s.runs[id], a) == Some(t)
    ensures Kept(s, id, t)
  {
  }

  lemma InterruptKeeps(s: System, id: RunId, a: Action, t: System)
    requires Local(s, id) && (a.Interrupt? || a.Inspect?) && s.runs[id].attempt.Some? &&
             Publication(s, id, s.runs[id], a) == Some(t)
    ensures Kept(s, id, t)
  {
  }

  lemma RecordKeeps(s: System, id: RunId, a: Action, t: System)
    requires Local(s, id) && a.Record? && s.runs[id].attempt.Some? && Publication(s, id, s.runs[id], a) == Some(t)
    ensures Kept(s, id, t)
  {
  }

  lemma ReportKeeps(s: System, id: RunId, a: Action, t: System)
    requires Local(s, id) && a.Report? && s.runs[id].attempt.Some? && Publication(s, id, s.runs[id], a) == Some(t)
    ensures Kept(s, id, t)
  {
  }

  lemma LeaseEndKeeps(s: System, id: RunId, a: Action, t: System)
    requires Local(s, id) && (a.Release? || a.Crash?) && RunStep(s, id, a) == Some(t)
    ensures Kept(s, id, t)
  {
  }

  lemma PreparationKeeps(s: System, id: RunId, a: Action, t: System)
    requires Local(s, id) && Prepares(a) && s.runs[id].attempt.Some? && Preparation(s, id, s.runs[id], a) == Some(t)
    ensures Kept(s, id, t)
  {
    if a.Plan? {
      PlanKeeps(s, id, a, t);
    } else if a.ObserveSource? {
      ObserveSourceKeeps(s, id, a, t);
    } else {
      var serve: bool :| t == Decided(s, id, s.runs[id], serve);
      DecidedKeeps(s, id, serve);
    }
  }

  lemma BuildBodyKeeps(s: System, id: RunId, a: Action, t: System)
    requires Local(s, id) && Builds(a) && s.runs[id].attempt.Some? && BuildBody(s, id, s.runs[id], a) == Some(t)
    ensures Kept(s, id, t)
  {
    if a.Write? {
      WriteKeeps(s, id, a, t);
    } else if a.FinishBuild? {
      FinishBuildKeeps(s, id, a, t);
    } else {
      CheckKeeps(s, id, a, t);
    }
  }

  lemma PublicationKeeps(s: System, id: RunId, a: Action, t: System)
    requires Local(s, id) && s.runs[id].attempt.Some? && Publication(s, id, s.runs[id], a) == Some(t)
    ensures Kept(s, id, t)
  {
    if a.Commit? {
      CommitKeeps(s, id, a, t);
    } else if a.Interrupt? || a.Inspect? {
      InterruptKeeps(s, id, a, t);
    } else if a.Record? {
      RecordKeeps(s, id, a, t);
    } else if a.Report? {
      ReportKeeps(s, id, a, t);
    } else {
      LeaveKeeps(s, id, a, t);
    }
  }

  lemma RunStepKeeps(s: System, id: RunId, a: Action, t: System)
    requires Inv(s) && id in s.runs && RunStep(s, id, a) == Some(t)
    ensures Inv(t)
  {
    assert Local(s, id);
    assert Kept(s, id, t) by {
      if a.Release? || a.Crash? {
        LeaseEndKeeps(s, id, a, t);
      } else if OpensLease(a) {
        LeaseKeeps(s, id, a, t);
      } else if a.Load? {
        LoadKeeps(s, id, a, t);
      } else if Prepares(a) {
        PreparationKeeps(s, id, a, t);
      } else if Builds(a) {
        BuildBodyKeeps(s, id, a, t);
      } else {
        PublicationKeeps(s, id, a, t);
      }
    }
    ActorDecides(s, id, t);
  }

  lemma StepKeeps(s: System, e: Event, t: System)
    requires Inv(s) && Step(s, e) == Some(t)
    ensures Inv(t)
  {
    if e.Act? {
      RunStepKeeps(s, e.id, e.action, t);
    } else {
      forall id | id in t.runs ensures RunInv(t, t.runs[id]) {
        StandstillKeeps(s, t, s.runs[id]);
      }
    }
  }

  lemma {:induction false} ExecuteKeeps(s: System, events: seq<Event>, t: System)
    requires Inv(s) && Execute(s, events) == Some(t)
    ensures Inv(t)
    decreases |events|
  {
    if events != [] {
      var next := Step(s, events[0]).value;
      StepKeeps(s, events[0], next);
      ExecuteKeeps(next, events[1..], t);
    }
  }
}
