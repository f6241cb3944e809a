/** Refresh never rewrites what it has published: the artifacts of a known snapshot stay byte for byte. */
module Immutability {
  import opened Prelude
  import opened Knowledge
  import opened Refresh
  import opened RefreshSafety

  predicate IsReportFile(path: DiskPath) {
    path.GenerationFile? && path.name in {CoverageFile, FailureFile, OrphanFile}
  }

  /** Run `r` can still write to `path`: anything of its generation while it works, then only its reports. */
  predicate MayWrite(r: Run, path: DiskPath) {
    && r.attempt.Some? && path.generation == r.attempt.value.target.generation
    && (r.pc in {Planning, Planned, Ready, Working} || IsReportFile(path))
  }

  /** No run in progress, now or later, can write to an artifact of `k`. */
  predicate Protected(s: System, k: KnowledgeSnapshot) {
    && KnownSnapshot(k, s.nextId)
    && forall id, a :: id in s.runs && Attempting(s.runs[id].pc) && a in k.artifacts.Files() ==>
         !MayWrite(s.runs[id], a.path)
  }

  predicate SameArtifacts(s: System, t: System, k: KnowledgeSnapshot) {
    forall a :: a in k.artifacts.Files() ==>
      (a.path in s.disk.files <==> a.path in t.disk.files) &&
      (a.path in s.disk.files ==> t.disk.files[a.path] == s.disk.files[a.path])
  }

  /** One action touched at most files that the acting run was allowed to write. */
  predicate WroteOwnFiles(s: System, r: Run, t: System) {
    && s.disk.files.Keys <= t.disk.files.Keys
    && forall p :: p in t.disk.files && !(p in s.disk.files && t.disk.files[p] == s.disk.files[p]) ==>
         Attempting(r.pc) && MayWrite(r, p)
  }

  lemma FileWriters(s: System, id: RunId, a: Action, t: System)
    requires id in s.runs && RunStep(s, id, a) == Some(t)
    ensures WroteOwnFiles(s, s.runs[id], t)
  {
    hide Acquisition, Preparation;
    if !a.Write? && !a.Report? {
      hide RunStep;
      RunStepShape(s, id, a, t);
    }
  }

  /** The right to write only shrinks, except for a fresh attempt, which owns a generation never seen before. */
  lemma RightsShrink(s: System, id: RunId, a: Action, t: System, p: DiskPath)
    requires id in s.runs && Shape(s, id, a, t) && Attempting(t.runs[id].pc) && MayWrite(t.runs[id], p)
    ensures p.generation == s.nextId || (Attempting(s.runs[id].pc) && MayWrite(s.runs[id], p))
  {
  }

  lemma StepProtects(s: System, e: Event, t: System, k: KnowledgeSnapshot)
    requires Protected(s, k) && Step(s, e) == Some(t)
    ensures Protected(t, k) && SameArtifacts(s, t, k)
  {
    hide RunStep;
    if e.Act? {
      FileWriters(s, e.id, e.action, t);
      RunStepShape(s, e.id, e.action, t);
      forall id, a | id in t.runs && Attempting(t.runs[id].pc) && a in k.artifacts.Files()
        ensures !MayWrite(t.runs[id], a.path)
      {
        if id == e.id && MayWrite(t.runs[id], a.path) {
          RightsShrink(s, id, e.action, t, a.path);
        }
      }
    }
  }

  /** Whatever the runs, the editors and the clock do, a protected snapshot keeps every artifact file:
      the same content under the same stamp. */
  lemma {:induction false} ArtifactsNeverRewritten(s: System, events: seq<Event>, t: System, k: KnowledgeSnapshot)
    requires Protected(s, k) && Execute(s, events) == Some(t)
    ensures Protected(t, k) && SameArtifacts(s, t, k)
    decreases |events|
  {
    hide Step, Protected;
    if events != [] {
      var next := Step(s, events[0]).value;
      StepProtects(s, events[0], next, k);
      ArtifactsNeverRewritten(next, events[1..], t, k);
    }
  }

  /** The snapshot a run has just published is protected. */
  lemma PublishedIsProtected(s: System, id: RunId)
    requires Inv(s) && id in s.runs && s.runs[id].pc == Committed
    ensures s.runs[id].snapshot.Some? && Protected(s, s.runs[id].snapshot.value)
  {
    assert RunInv(s, s.runs[id]);
    forall other | other in s.runs && Attempting(s.runs[other].pc) ensures other == id {
      assert RunInv(s, s.runs[other]);
    }
  }

  /** So is any last usable snapshot whose manifest is not announcing a build. */
  lemma ServedIsProtected(s: System)
    requires Inv(s) && s.disk.manifest.Some? && s.disk.manifest.value.lastUsable.Some?
    requires var latest := s.disk.manifest.value.latestAttempt;
             latest.Some? ==> latest.value.status == Succeeded
    ensures Protected(s, s.disk.manifest.value.lastUsable.value)
  {
    var k := s.disk.manifest.value.lastUsable.value;
    forall id, a | id in s.runs && Attempting(s.runs[id].pc) && a in k.artifacts.Files()
      ensures !MayWrite(s.runs[id], a.path)
    {
      assert RunInv(s, s.runs[id]);
    }
  }
}
