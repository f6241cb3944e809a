/** What a failure record says of its run: cancelled exactly when the run was interrupted. */
module Cancellation {
  import opened Prelude
  import opened Knowledge
  import opened Refresh
  import opened RefreshSafety
  import opened RefreshTheorems

  /** By stage: an interrupt has arrived exactly where the run knows of it. */
  predicate Remembers(r: Run, interrupted: bool) {
    && (r.pc == Interrupted ==> interrupted && !r.cancelled)
    && (r.pc in {Recording, Reporting} ==> (r.cancelled <==> interrupted))
    && (r.pc !in {Interrupted, Recording, Reporting, Releasing, Done, Crashed} ==> !interrupted && !r.cancelled)
  }

  lemma ActorRemembers(s: System, id: RunId, a: Action, t: System, interrupted: bool)
    requires id in s.runs && RunStep(s, id, a) == Some(t) && id in t.runs && Remembers(s.runs[id], interrupted)
    ensures Remembers(t.runs[id], interrupted || a == Interrupt)
  {
    hide ResolveScope, Observe, CanServe, ArtifactsIntact, BuildSnapshot, IsCommitOf, LoadManifest;
  }

  lemma {:induction false} RunsRemember(s: System, events: seq<Event>, t: System, id: RunId, interrupted: bool)
    requires id in s.runs && Remembers(s.runs[id], interrupted) && Execute(s, events) == Some(t)
    ensures id in t.runs && Remembers(t.runs[id], interrupted || Act(id, Interrupt) in events)
    decreases |events|
  {
    hide RunStep, Remembers;
    if events != [] {
      var e, next := events[0], Step(s, events[0]).value;
      if e.Act? {
        RunStepShape(s, e.id, e.action, next);
        if e.id == id {
          ActorRemembers(s, id, e.action, next, interrupted);
        }
      }
      assert id in next.runs && Remembers(next.runs[id], interrupted || e == Act(id, Interrupt));
      RunsRemember(next, events[1..], t, id, interrupted || e == Act(id, Interrupt));
      assert Act(id, Interrupt) in events <==> e == Act(id, Interrupt) || Act(id, Interrupt) in events[1..];
    }
  }

  /** The record a failing run publishes. */
  function FailureRecord(s: System, r: Run, status: BuildStatus): KnowledgeManifest
    requires r.attempt.Some?
  {
    var failed := r.attempt.value.(status := status, finishedAt := Some(s.clock), failure := Some(0));
    KnowledgeManifest(r.loaded.lastUsable, Some(failed))
  }

  /** After any events from a fresh root: a failure that is recorded names the run's own attempt, as cancelled if an
      interrupt reached the run and as failed otherwise, beside the snapshot that was loaded; and it is recorded unless
      that snapshot is of another repository. The result of the call says the same. */
  lemma RecordTellsInterrupt(start: System, events: seq<Event>, s: System, id: RunId, t: System)
    requires Init(start) && Execute(start, events) == Some(s) && Step(s, Act(id, Record(true))) == Some(t)
    ensures id in s.runs && id in t.runs && s.runs[id].attempt.Some?
    ensures var r := s.runs[id];
            var status := if Act(id, Interrupt) in events then Cancelled else Failed;
            if r.loaded.lastUsable.Some? && r.loaded.lastUsable.value.identity.repository != s.site.repository
            then t.disk.manifest == s.disk.manifest
            else t.disk.manifest == Some(FailureRecord(s, r, status))
    ensures t.runs[id].pc == Reporting && t.runs[id].cancelled == (Act(id, Interrupt) in events)
  {
    hide Execute;
    InitHolds(start);
    ExecuteKeeps(start, events, s);
    KnownFromStart(start, events, s, id);
    RunsRemember(start, events, s, id, false);
    RecordIsExact(s, id, t);
    hide Inv, RunStep, Init;
  }

  lemma KnownFromStart(start: System, events: seq<Event>, s: System, id: RunId)
    requires Init(start) && Execute(start, events) == Some(s) && id in s.runs
    ensures id in start.runs && Remembers(start.runs[id], false)
  {
    SameRuns(start, events, s);
    assert start.runs[id] == NewRun(start.runs[id].request);
  }

  lemma {:induction false} SameRuns(s: System, events: seq<Event>, t: System)
    requires Execute(s, events) == Some(t)
    ensures t.runs.Keys == s.runs.Keys
    decreases |events|
  {
    hide RunStep;
    if events != [] {
      var next := Step(s, events[0]).value;
      if events[0].Act? {
        RunStepShape(s, events[0].id, events[0].action, next);
      }
      SameRuns(next, events[1..], t);
    }
  }

  lemma RecordIsExact(s: System, id: RunId, t: System)
    requires Inv(s) && Step(s, Act(id, Record(true))) == Some(t)
    ensures id in s.runs && id in t.runs && s.runs[id].attempt.Some? && s.runs[id].pc == Recording
    ensures var r := s.runs[id];
            if r.loaded.lastUsable.Some? && r.loaded.lastUsable.value.identity.repository != s.site.repository
            then t.disk.manifest == s.disk.manifest
            else t.disk.manifest == Some(FailureRecord(s, r, if r.cancelled then Cancelled else Failed))
    ensures t.runs[id].pc == Reporting && t.runs[id].cancelled == s.runs[id].cancelled
  {
    assert RunInv(s, s.runs[id]);
    var r := s.runs[id];
    assert FailureRecord(s, r, if r.cancelled then Cancelled else Failed).latestAttempt.value.Valid();
    hide EvidenceInv, StageInv;
  }

  /** The call that recorded a failure reports the same. */
  lemma ReportTellsTheSame(s: System, id: RunId, t: System)
    requires Step(s, Act(id, CloseReport)) == Some(t)
    ensures id in s.runs && id in t.runs
    ensures t.runs[id].outcome == if s.runs[id].cancelled then CancelledRun else FailedRun
  {
  }
}
