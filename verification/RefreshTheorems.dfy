/** The publication guarantees, over every run of the system. */
module RefreshTheorems {
  import opened Prelude
  import opened Knowledge
  import opened Freshness
  import opened Refresh
  import opened RefreshSafety

  // ---- Mutual exclusion and the manifest ------------------------------------------------------------

  /** The run has published: the latest attempt on disk is its own. */
  predicate HasPublished(disk: Disk, r: Run)
    requires r.attempt.Some?
  {
    && LoadManifest(disk).latestAttempt.Some?
    && LoadManifest(disk).latestAttempt.value.attemptId == r.attempt.value.attemptId
  }

  /** In every reachable state: one holder at most, a valid manifest, and the manifest a run loaded still on disk until
      that run publishes, through interrupts and failures to the end of its report; until the decision it cannot have
      published. */
  lemma EveryReachableState(start: System, events: seq<Event>, s: System)
    requires Init(start) && Execute(start, events) == Some(s)
    ensures forall i, j :: i in s.runs && j in s.runs && s.runs[i].owned && s.runs[j].owned ==> i == j
    ensures s.disk.manifest.Some? ==> s.disk.manifest.value.Valid()
    ensures forall i :: i in s.runs && Attempting(s.runs[i].pc) ==>
              s.runs[i].attempt.Some? && (LoadManifest(s.disk) == s.runs[i].loaded || HasPublished(s.disk, s.runs[i]))
    ensures forall i :: i in s.runs && s.runs[i].pc in {Planning, Planned, Ready} ==>
              s.runs[i].attempt.Some? && LoadManifest(s.disk) == s.runs[i].loaded && !HasPublished(s.disk, s.runs[i])
  {
    InitHolds(start);
    ExecuteKeeps(start, events, s);
    forall i | i in s.runs && Attempting(s.runs[i].pc)
      ensures s.runs[i].attempt.Some?
      ensures LoadManifest(s.disk) == s.runs[i].loaded || HasPublished(s.disk, s.runs[i])
      ensures s.runs[i].pc in {Planning, Planned, Ready} ==>
                LoadManifest(s.disk) == s.runs[i].loaded && !HasPublished(s.disk, s.runs[i])
    {
      assert RunInv(s, s.runs[i]);
    }
  }

  function LastUsable(s: System): Option<KnowledgeSnapshot> {
    LoadManifest(s.disk).lastUsable
  }

  /** The run is about to record a failure although its own build is already published. */
  predicate Doomed(s: System, id: RunId) {
    && id in s.runs && s.runs[id].pc == Recording && s.runs[id].attempt.Some?
    && IsCommitOf(LoadManifest(s.disk), s.runs[id].attempt.value)
  }

  predicate IsCommit(e: Event) {
    e.Act? && e.action == Commit
  }

  /** The failure record of a doomed run puts back the snapshot the run had loaded. */
  predicate RollsBack(s: System, e: Event) {
    e.Act? && e.action == Record(true) && Doomed(s, e.id)
  }

  /** A commit always succeeds and always moves the last usable snapshot to a new generation. */
  lemma CommitMoves(s: System, id: RunId, t: System)
    requires Inv(s) && id in s.runs && RunStep(s, id, Commit) == Some(t)
    ensures t.runs[id].pc == Committed && LastUsable(t) == t.runs[id].snapshot != LastUsable(s)
  {
    var r := s.runs[id];
    assert RunInv(s, r);
    var attempt, k := r.attempt.value, r.snapshot.value;
    var snapshot := k.(build := k.build.(builtAt := s.clock));
    var succeeded := attempt.(status := Succeeded, finishedAt := Some(s.clock));
    assert snapshot.Valid() && succeeded.Valid() && AttemptMatches(snapshot, succeeded);
    assert Started(s.disk, r);
  }

  lemma RecordMoves(s: System, id: RunId, publishes: bool, t: System)
    requires Inv(s) && id in s.runs && RunStep(s, id, Record(publishes)) == Some(t)
    ensures LastUsable(t) != LastUsable(s) <==> publishes && Doomed(s, id)
    ensures publishes && Doomed(s, id) ==> LastUsable(t) == s.runs[id].loaded.lastUsable
  {
    var r := s.runs[id];
    assert RunInv(s, r);
    var attempt := r.attempt.value;
    var failed := attempt.(status := if r.cancelled then Cancelled
                           else Failed, finishedAt := Some(s.clock), failure := Some(0));
    assert failed.Valid();
    if CommittedBy(s.disk, r) {
      assert KnowledgeManifest(r.loaded.lastUsable, Some(failed)).Valid();
    } else {
      assert !IsCommitOf(LoadManifest(s.disk), attempt);
    }
  }

  lemma OthersDoNotMove(s: System, id: RunId, a: Action, t: System)
    requires Inv(s) && id in s.runs && Shape(s, id, a, t) && !a.Commit? && !a.Record?
    ensures LastUsable(t) == LastUsable(s)
  {
    if a.Decide? {
      assert RunInv(s, s.runs[id]);
      assert Untouched(s.disk, s.runs[id]);
    }
  }

  /** One step moves the last usable snapshot exactly when it is a successful publication, or the failure
      record of a run whose publication the interrupt handler could not see. */
  lemma LastUsableMoves(s: System, e: Event, t: System)
    requires Inv(s) && Step(s, e) == Some(t)
    ensures LastUsable(t) != LastUsable(s) <==> IsCommit(e) || RollsBack(s, e)
  {
    hide RunStep, Inv;
    if e.Act? {
      if e.action.Commit? {
        CommitMoves(s, e.id, t);
      } else if e.action.Record? {
        RecordMoves(s, e.id, e.action.publishes, t);
      } else {
        RunStepShape(s, e.id, e.action, t);
        OthersDoNotMove(s, e.id, e.action, t);
      }
    }
  }

  /** The handler re-reads the manifest after an interrupt, and that read fails though the commit happened. */
  predicate FailedInspection(s: System, e: Event, id: RunId) {
    && e == Act(id, Inspect(false)) && id in s.runs && s.runs[id].pc == Interrupted && s.runs[id].attempt.Some?
    && IsCommitOf(LoadManifest(s.disk), s.runs[id].attempt.value)
  }

  /** Apart from the lease holder nobody can be at the recording stage, so nobody else is doomed. */
  lemma DoomedHoldsLease(s: System, id: RunId)
    requires Inv(s) && Doomed(s, id)
    ensures s.disk.lock == Some(id)
  {
    assert RunInv(s, s.runs[id]);
  }

  /** A run still at work has not published yet. */
  lemma AtWorkIsUncommitted(s: System, id: RunId)
    requires Inv(s) && id in s.runs && InBuildBody(s.runs[id].pc)
    ensures s.runs[id].attempt.Some? && !IsCommitOf(LoadManifest(s.disk), s.runs[id].attempt.value)
  {
    assert RunInv(s, s.runs[id]);
  }

  lemma OnlyInspectionDooms(s: System, id: RunId, a: Action, t: System)
    requires Inv(s) && id in s.runs && Shape(s, id, a, t) && !a.Inspect?
    ensures !Doomed(t, id)
  {
    hide Inv, InBuildBody;
    if t.runs[id].pc == Recording {
      AtWorkIsUncommitted(s, id);
    }
  }

  lemma InspectionOutcome(s: System, id: RunId, readable: bool, t: System)
    requires Inv(s) && id in s.runs && RunStep(s, id, Inspect(readable)) == Some(t)
    ensures t.disk == s.disk && id in t.runs && s.runs[id].pc == Interrupted && s.runs[id].attempt.Some?
    ensures t.runs[id].pc == Recording <==> !(readable && IsCommitOf(LoadManifest(s.disk), s.runs[id].attempt.value))
    ensures t.runs[id].attempt == s.runs[id].attempt && t.runs[id].loaded == s.runs[id].loaded
  {
    assert RunInv(s, s.runs[id]);
    assert !IsCommitOf(s.runs[id].loaded, s.runs[id].attempt.value);
  }

  /** Another run's step dooms nobody: it either holds the lease itself or leaves the manifest alone. */
  lemma OthersDoNotDoom(s: System, actor: RunId, a: Action, t: System, id: RunId)
    requires Inv(s) && Inv(t) && actor in s.runs && Shape(s, actor, a, t) && id != actor && Doomed(t, id)
    ensures Doomed(s, id)
  {
    DoomedHoldsLease(t, id);
    assert RunInv(s, s.runs[id]) && RunInv(s, s.runs[actor]);
    NoLeaseNoManifest(s, actor, a, t);
  }

  /** A run becomes doomed exactly by a failed inspection. */
  lemma DoomArises(s: System, e: Event, t: System, id: RunId)
    requires Inv(s) && Step(s, e) == Some(t) && !Doomed(s, id)
    ensures Doomed(t, id) <==> FailedInspection(s, e, id)
  {
    hide RunStep, Inv;
    if e.Act? {
      if e.id != id {
        if Doomed(t, id) {
          RunStepShape(s, e.id, e.action, t);
          RunStepKeeps(s, e.id, e.action, t);
          OthersDoNotDoom(s, e.id, e.action, t, id);
        }
      } else if e.action.Inspect? {
        InspectionOutcome(s, id, e.action.readable, t);
        assert e == Act(id, Inspect(e.action.readable));
      } else {
        RunStepShape(s, id, e.action, t);
        OnlyInspectionDooms(s, id, e.action, t);
      }
    }
  }

  /** Without the lease a run can neither publish nor do anything else to the manifest. */
  lemma NoLeaseNoManifest(s: System, id: RunId, a: Action, t: System)
    requires id in s.runs && RunInv(s, s.runs[id]) && Shape(s, id, a, t) && !s.runs[id].owned
    ensures t.disk.manifest == s.disk.manifest
    ensures s.disk.lock.Some? ==> t.disk.lock == s.disk.lock
  {
    hide RunInv;
    WithoutLease(s, s.runs[id]);
  }

  /** Along the whole execution, nothing but a commit ever moves the last usable snapshot. */
  ghost predicate OnlyCommitsMove(s: System, events: seq<Event>)
    decreases |events|
  {
    events != [] ==>
      var next := Step(s, events[0]);
      next.Some? ==>
        && (LastUsable(next.value) != LastUsable(s) ==> IsCommit(events[0]))
        && OnlyCommitsMove(next.value, events[1..])
  }

  /** If no interrupt handler fails to read the manifest, the last usable snapshot changes only at successful
      publications, in every interleaving and for every placement of interrupts and crashes. */
  lemma {:induction false} LastUsableOnlyByCommit(s: System, events: seq<Event>)
    requires Inv(s) && forall id :: !Doomed(s, id)
    requires forall e :: e in events ==> !(e.Act? && e.action == Inspect(false))
    ensures OnlyCommitsMove(s, events)
    decreases |events|
  {
    if events != [] && Step(s, events[0]).Some? {
      var next := Step(s, events[0]).value;
      assert events[0] in events;
      LastUsableMoves(s, events[0], next);
      StepKeeps(s, events[0], next);
      forall id ensures !Doomed(next, id) {
        DoomArises(s, events[0], next, id);
      }
      LastUsableOnlyByCommit(next, events[1..]);
    }
  }

  /** After a failed inspection the two remaining steps of the handler discard the published snapshot. */
  lemma FailedInspectionDiscards(s: System, id: RunId) returns (t: System)
    requires Inv(s) && FailedInspection(s, Act(id, Inspect(false)), id)
    ensures Execute(s, [Act(id, Inspect(false)), Act(id, Record(true))]) == Some(t)
    ensures LastUsable(t) == s.runs[id].loaded.lastUsable != LastUsable(s)
  {
    var mid := MissedCommit(s, id);
    t := DiscardingRecord(mid, id);
    TwoSteps(s, Act(id, Inspect(false)), mid, Act(id, Record(true)), t);
  }

  lemma MissedCommit(s: System, id: RunId) returns (mid: System)
    requires Inv(s) && FailedInspection(s, Act(id, Inspect(false)), id)
    ensures Step(s, Act(id, Inspect(false))) == Some(mid)
    ensures Inv(mid) && Doomed(mid, id) && mid.disk == s.disk && mid.runs[id].loaded == s.runs[id].loaded
  {
    hide Inv;
    mid := InspectionHappens(s, id);
    InspectionOutcome(s, id, false, mid);
    RunStepKeeps(s, id, Inspect(false), mid);
    hide RunStep;
  }

  lemma InspectionHappens(s: System, id: RunId) returns (mid: System)
    requires id in s.runs && s.runs[id].pc == Interrupted && s.runs[id].attempt.Some?
    ensures RunStep(s, id, Inspect(false)) == Some(mid)
  {
    hide IsCommitOf, LoadManifest;
    mid := RunStep(s, id, Inspect(false)).value;
  }

  lemma RecordingHappens(s: System, id: RunId) returns (t: System)
    requires id in s.runs && s.runs[id].pc == Recording && s.runs[id].attempt.Some?
    ensures RunStep(s, id, Record(true)) == Some(t)
  {
    t := RunStep(s, id, Record(true)).value;
  }

  lemma DiscardingRecord(s: System, id: RunId) returns (t: System)
    requires Inv(s) && Doomed(s, id)
    ensures Step(s, Act(id, Record(true))) == Some(t)
    ensures LastUsable(t) == s.runs[id].loaded.lastUsable != LastUsable(s)
  {
    hide Inv;
    t := RecordingHappens(s, id);
    RecordMoves(s, id, true, t);
    hide RunStep;
  }

  lemma TwoSteps(s: System, first: Event, mid: System, second: Event, t: System)
    requires Step(s, first) == Some(mid) && Step(mid, second) == Some(t)
    ensures Execute(s, [first, second]) == Some(t)
  {
    assert [first, second][1..] == [second] && [second][1..] == [];
    assert Execute(mid, [second]) == Execute(t, []);
  }

  // ---- Crashes --------------------------------------------------------------------------------------

  predicate HeldByCrashed(s: System) {
    s.disk.lock.Some? && s.disk.lock.value in s.runs && s.runs[s.disk.lock.value].pc == Crashed
  }

  lemma CrashFreezesStep(s: System, e: Event, t: System)
    requires Inv(s) && HeldByCrashed(s) && Step(s, e) == Some(t)
    ensures HeldByCrashed(t) && t.disk.lock == s.disk.lock && t.disk.manifest == s.disk.manifest
  {
    hide RunStep;
    if e.Act? {
      RunStepShape(s, e.id, e.action, t);
      assert RunInv(s, s.runs[e.id]);
      NoLeaseNoManifest(s, e.id, e.action, t);
    }
  }

  /** A crash under the lease leaves the lock file behind: no later run acquires it or touches the manifest. */
  lemma {:induction false} CrashFreezesPublication(s: System, events: seq<Event>, t: System)
    requires Inv(s) && HeldByCrashed(s) && Execute(s, events) == Some(t)
    ensures HeldByCrashed(t) && t.disk.lock == s.disk.lock && t.disk.manifest == s.disk.manifest
    decreases |events|
  {
    if events != [] {
      var next := Step(s, events[0]).value;
      CrashFreezesStep(s, events[0], next);
      StepKeeps(s, events[0], next);
      CrashFreezesPublication(next, events[1..], t);
    }
  }

  // ---- Evidence behind a publication ------------------------------------------------------------------

  /** What is published vouches for itself, was read from a clean worktree, and lists every file of its commit. */
  lemma PublishedEvidence(start: System, events: seq<Event>, s: System, id: RunId)
    requires Init(start) && Execute(start, events) == Some(s) && id in s.runs && s.runs[id].pc == Committed
    ensures LastUsable(s).Some?
    ensures var k := LastUsable(s).value;
            && SelfConsistent(k) && k.Valid() && ArtifactsIntact(s.disk.files, k)
            && s.runs[id].observed.Some? && SourceAgrees(k, s.runs[id].observed.value)
            && k.identity.revision.Some? && k.identity.revision.value in s.site.tree
            && k.source.files.Keys == s.site.tree[k.identity.revision.value]
  {
    InitHolds(start);
    ExecuteKeeps(start, events, s);
    assert RunInv(s, s.runs[id]);
  }
}
