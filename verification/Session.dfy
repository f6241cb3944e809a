/** Reading prebuilt artifacts, and sessions pinned to one generation. A `System` value stands for the state
    of the world at one instant, so a check that reads twice takes two of them. */
module Session {
  import opened Prelude
  import opened Knowledge
  import opened Freshness
  import opened Refresh
  import opened RefreshSafety
  import opened Immutability

  // ---- Artifacts ------------------------------------------------------------------------------------

  predicate Matches(files: map<DiskPath, DiskFile>, a: ArtifactReference) {
    a.path in files && files[a.path].content == a.sha256
  }

  /** The stamps of the artifacts that are present and unchanged, in artifact order. */
  function ArtifactStamps(files: map<DiskPath, DiskFile>, artifacts: seq<ArtifactReference>): (stamps: seq<nat>)
    ensures |stamps| == |artifacts| <==> forall i :: 0 <= i < |artifacts| ==> Matches(files, artifacts[i])
    ensures |stamps| <= |artifacts|
  {
    if artifacts == [] then []
    else
      var last := artifacts[|artifacts| - 1];
      var before := ArtifactStamps(files, artifacts[..|artifacts| - 1]);
      if Matches(files, last) then before + [files[last.path].stamp] else before
  }

  /** The digests of the files against the recorded ones. */
  method ObserveDigests(files: map<DiskPath, DiskFile>, artifacts: seq<ArtifactReference>)
    returns (stamps: seq<nat>, issues: seq<Reason>)
    ensures issues == [] <==> forall a :: a in artifacts ==> Matches(files, a)
    ensures stamps == ArtifactStamps(files, artifacts)
    ensures forall reason :: reason in issues ==> reason in {ArtifactUnavailable, ArtifactMismatch}
    ensures ArtifactUnavailable in issues <==> exists a :: a in artifacts && a.path !in files
    ensures ArtifactMismatch in issues <==>
              exists a :: a in artifacts && a.path in files && files[a.path].content != a.sha256
  {
    stamps, issues := [], [];
    for i := 0 to |artifacts|
      invariant stamps == ArtifactStamps(files, artifacts[..i])
      invariant issues == [] <==> forall a :: a in artifacts[..i] ==> Matches(files, a)
      invariant forall reason :: reason in issues ==> reason in {ArtifactUnavailable, ArtifactMismatch}
      invariant ArtifactUnavailable in issues <==> exists a :: a in artifacts[..i] && a.path !in files
      invariant ArtifactMismatch in issues <==>
                  exists a :: a in artifacts[..i] && a.path in files && files[a.path].content != a.sha256
    {
      var a := artifacts[i];
      assert artifacts[..i + 1] == artifacts[..i] + [a];
      if a.path !in files {
        issues := issues + [ArtifactUnavailable];
      } else if files[a.path].content != a.sha256 {
        issues := issues + [ArtifactMismatch];
      } else {
        stamps := stamps + [files[a.path].stamp];
      }
    }
    assert artifacts[..|artifacts|] == artifacts;
  }

  method ObserveArtifacts(files: map<DiskPath, DiskFile>, k: KnowledgeSnapshot)
    returns (stamps: seq<nat>, issues: seq<Reason>)
    ensures issues == [] <==> ArtifactsIntact(files, k)
    ensures stamps == ArtifactStamps(files, k.artifacts.Files())
    ensures ArtifactUnavailable in issues <==> exists a :: a in k.artifacts.Files() && a.path !in files
    ensures ArtifactMismatch in issues <==>
              exists a :: a in k.artifacts.Files() && a.path in files && files[a.path].content != a.sha256
    ensures forall reason :: reason in issues ==> reason in {ArtifactUnavailable, ArtifactMismatch, ArtifactInvalid}
    ensures ArtifactInvalid in issues ==> issues == [ArtifactInvalid]
  {
    stamps, issues := ObserveDigests(files, k.artifacts.Files());
    if issues == [] {
      var valid := ValidFormats(k);
      if !valid {
        issues := [ArtifactInvalid];
      }
    }
  }

  /** What the format readers check once every digest matches. */
  method ValidFormats(k: KnowledgeSnapshot) returns (valid: bool)
    ensures valid <==>
      && k.configuration.symbolSchema == 3 && k.configuration.graphSchema == 1
      && k.configuration.domainSchema == 1 && k.configuration.projection == P1_INDEX_V1
      && k.artifacts.symbols.sha256.IndexContent?
      && k.scope.semantic + k.scope.tests <= k.artifacts.symbols.sha256.files
      && k.artifacts.tests.path == k.artifacts.symbols.path
      && k.artifacts.graph.sha256.GraphContent?
      && k.artifacts.graph.sha256.repository == k.identity.repository
      && k.artifacts.graph.identity == GraphKey(k.artifacts.graph.sha256.snapshotKey)
      && k.artifacts.domain.sha256.DomainContent?
      && k.artifacts.domain.sha256.repository == k.identity.repository
      && k.artifacts.domain.sha256.snapshotKey == k.artifacts.graph.sha256.snapshotKey
      && k.artifacts.domain.sha256.ruleset == k.configuration.domainRuleset
  {
    var c, a := k.configuration, k.artifacts;
    if (c.symbolSchema, c.graphSchema, c.domainSchema, c.projection) != (3, 1, 1, P1_INDEX_V1) {
      return false;
    }
    if !a.symbols.sha256.IndexContent? || !(k.scope.semantic + k.scope.tests <= a.symbols.sha256.files) {
      return false;
    }
    if a.tests.path != a.symbols.path {
      return false;
    }
    var graph, domain := a.graph.sha256, a.domain.sha256;
    if !graph.GraphContent? || graph.repository != k.identity.repository ||
      a.graph.identity != GraphKey(graph.snapshotKey)
    {
      return false;
    }
    valid := && domain.DomainContent? && domain.repository == k.identity.repository
             && domain.snapshotKey == graph.snapshotKey && domain.ruleset == c.domainRuleset;
  }

  // ---- Checking a snapshot --------------------------------------------------------------------------

  function ObserveFor(w: System, k: KnowledgeSnapshot): Option<SourceObservation> {
    Observe(w.site.repository, w.source, k.source.files.Keys)
  }

  /** `_check`: read the source, read the artifacts, read the source again, and apply the policy. */
  method Check(first: System, second: System, m: KnowledgeManifest, req: QueryRequirement)
    returns (result: FreshnessResult, source: Option<SourceObservation>, stamps: Option<seq<nat>>)
    ensures result.Valid()
    ensures result.CanBind() <==>
      && m.lastUsable.Some?
      && ObserveFor(first, m.lastUsable.value) == ObserveFor(second, m.lastUsable.value)
      && ArtifactsIntact(second.disk.files, m.lastUsable.value)
      && Bindable(m, req, ObserveFor(first, m.lastUsable.value), Some([]))
    ensures m.lastUsable.Some? ==>
      && source == ObserveFor(first, m.lastUsable.value)
      && stamps == Some(ArtifactStamps(second.disk.files, m.lastUsable.value.artifacts.Files()))
  {
    if m.lastUsable.None? {
      result := EvaluateFreshness(m, req, None, None);
      return result, None, None;
    }
    var k := m.lastUsable.value;
    source := ObserveFor(first, k);
    var issues := if source.None? then [SourceUnavailable] else [];
    var observed, artifactIssues := ObserveArtifacts(second.disk.files, k);
    stamps := Some(observed);
    if source.Some? {
      var again := ObserveFor(second, k);
      if again.None? {
        issues := issues + [SourceUnavailable];
      } else if again != source {
        issues := issues + [SourceDrift];
      }
    }
    assert issues + artifactIssues == [] <==> issues == [] && artifactIssues == [];
    result := EvaluateFreshness(m, req, source, Some(issues + artifactIssues));
  }

  // ---- Sessions -------------------------------------------------------------------------------------

  /** What a session holds on to from its binding. */
  datatype Pin = Pin(manifest: KnowledgeManifest, requirement: QueryRequirement, source: SourceObservation,
                     stamps: seq<nat>)

  /** The world shows exactly the pinned source observation and the pinned artifact files. */
  predicate Shows(w: System, pin: Pin) {
    && pin.manifest.lastUsable.Some?
    && var k := pin.manifest.lastUsable.value;
    && ObserveFor(w, k) == Some(pin.source)
    && ArtifactsIntact(w.disk.files, k)
    && ArtifactStamps(w.disk.files, k.artifacts.Files()) == pin.stamps
  }

  /** A pin taken from a successful check. */
  predicate Bound(pin: Pin) {
    Bindable(pin.manifest, pin.requirement, Some(pin.source), Some([]))
  }

  /** Two readings that together confirm the pin. */
  predicate Confirms(first: System, second: System, pin: Pin) {
    && pin.manifest.lastUsable.Some?
    && ObserveFor(first, pin.manifest.lastUsable.value) == Some(pin.source)
    && Shows(second, pin)
  }

  class SnapshotSession {
    const pin: Pin
    var closed: bool

    /** `bind`, once its check has succeeded. */
    constructor (pin: Pin)
      requires Bound(pin)
      ensures this.pin == pin && !closed
    {
      this.pin := pin;
      closed := false;
    }

    method Close()
      modifies this
      ensures closed
    {
      closed := true;
    }

    /** Succeeds exactly when the session is open and the world still shows the pin; otherwise the session is
        closed for good. */
    method Validate(first: System, second: System) returns (ok: bool)
      requires Bound(pin)
      modifies this
      ensures ok <==> !old(closed) && Confirms(first, second, pin)
      ensures closed == !ok
    {
      if closed {
        return false;
      }
      var result, source, stamps := Check(first, second, pin.manifest, pin.requirement);
      var drift := source != Some(pin.source) || stamps != Some(pin.stamps);
      ok := result.CanBind() && !drift;
      if !ok {
        closed := true;
      }
    }

    /** One guarded read: validate, open the index, hand out the view, and validate again on the way out.
        `closedInside` says whether the reader closed the session while it held the view. */
    method Read(entry: (System, System), opens: bool, closedInside: bool, exit: (System, System))
      returns (yielded: bool, completed: bool)
      requires Bound(pin)
      modifies this
      ensures yielded <==> !old(closed) && Confirms(entry.0, entry.1, pin) && opens
      ensures completed <==> yielded && !closedInside && Confirms(exit.0, exit.1, pin)
      ensures closed == !completed
    {
      yielded := Validate(entry.0, entry.1);
      if yielded && !opens {
        closed, yielded := true, false;
      }
      completed := false;
      if yielded {
        if closedInside {
          Close();
        }
        completed := Validate(exit.0, exit.1);
      }
    }
  }

  /** A session that has been closed, or has once met a world that does not show its pin, never yields again. */
  method ReadAgain(session: SnapshotSession, first: (System, System), second: (System, System), third: (System, System))
    returns (yielded: bool)
    requires Bound(session.pin)
    requires session.closed || !Confirms(first.0, first.1, session.pin)
    modifies session
    ensures !yielded
  {
    var _ := session.Validate(first.0, first.1);
    var completed: bool;
    yielded, completed := session.Read(second, true, false, third);
  }

  // ---- Sessions beside refresh runs -----------------------------------------------------------------

  predicate EditsSource(events: seq<Event>) {
    exists e :: e in events && e.EditSource?
  }

  lemma StepKeepsSource(s: System, e: Event, t: System)
    requires Step(s, e) == Some(t) && !e.EditSource?
    ensures t.source == s.source && t.site == s.site
  {
    hide RunStep;
    if e.Act? {
      RunStepShape(s, e.id, e.action, t);
    }
  }

  lemma {:induction false} ExecuteKeepsSource(s: System, events: seq<Event>, t: System)
    requires Execute(s, events) == Some(t) && !EditsSource(events)
    ensures t.source == s.source && t.site == s.site
    decreases |events|
  {
    hide Step;
    if events != [] {
      var next := Step(s, events[0]).value;
      assert events[0] in events;
      StepKeepsSource(s, events[0], next);
      forall e | e in events[1..] ensures !e.EditSource? {
        assert e in events;
      }
      ExecuteKeepsSource(next, events[1..], t);
    }
  }

  lemma SameFilesSameStamps(s: System, t: System, artifacts: seq<ArtifactReference>)
    requires forall a :: a in artifacts ==>
                Matches(s.disk.files, a) && a.path in t.disk.files && t.disk.files[a.path] == s.disk.files[a.path]
    ensures ArtifactStamps(t.disk.files, artifacts) == ArtifactStamps(s.disk.files, artifacts)
  {
    if artifacts != [] {
      SameFilesSameStamps(s, t, artifacts[..|artifacts| - 1]);
      assert artifacts[|artifacts| - 1] in artifacts;
    }
  }

  /** A session bound in a reachable state keeps reading its generation through any activity of any number of
      refresh runs, interrupts and crashes included, as long as nobody edits the source: every later world
      still shows its pin, so every later validation of the open session succeeds. */
  lemma SessionUnaffected(s: System, pin: Pin, events: seq<Event>, t: System)
    requires Inv(s) && s.disk.manifest == Some(pin.manifest) && Bound(pin) && Shows(s, pin)
    requires Execute(s, events) == Some(t) && !EditsSource(events)
    ensures Shows(t, pin) && Confirms(s, t, pin)
  {
    hide Step, Inv, Protected, Execute;
    var k := pin.manifest.lastUsable.value;
    ServedIsProtected(s);
    ArtifactsNeverRewritten(s, events, t, k);
    ExecuteKeepsSource(s, events, t);
    SameFilesSameStamps(s, t, k.artifacts.Files());
  }
}
