/** Refreshing again without a reason: the run after a publication finds it fresh and leaves it alone. */
module NoOp {
  import opened Prelude
  import opened Knowledge
  import opened Freshness
  import opened Refresh
  import opened RefreshSafety
  import opened Immutability

  /** The whole uninterrupted run of a request that needs no build. */
  function QuietRun(id: RunId): seq<Event> {
    [Act(id, Acquire), Act(id, LockWritten(false)), Act(id, Load(true)), Act(id, Plan),
     Act(id, ObserveSource), Act(id, Decide(false)), Act(id, Release)]
  }

  /** The surroundings agree with what the published build observed: same worktree reading, same configuration. */
  predicate Unchanged(u: System, published: Run) {
    && published.snapshot.Some? && published.observed.Some?
    && Observe(u.site.repository, u.source, published.inventory) == published.observed
    && Some(u.configuration) == published.configuration
  }

  /** What the published run left behind, seen from a later state. */
  predicate Standing(u: System, published: Run) {
    && published.attempt.Some? && published.snapshot.Some?
    && Unchanged(u, published)
    && var k := published.snapshot.value;
    && u.disk.manifest.Some? && u.disk.manifest.value.lastUsable == Some(k)
    && u.disk.manifest.value.latestAttempt.Some? && u.disk.manifest.value.latestAttempt.value.status == Succeeded
    && ArtifactsIntact(u.disk.files, k) && SelfConsistent(k) && k.Valid()
    && k.identity.repository == u.site.repository
    && k.identity.revision == published.observed.value.revision && k.identity.revision.Some?
    && k.scope == TargetScope(u.site.policy, published.request.scope, published.inventory)
    && (published.request.scope.kind == SelectedFiles ==>
          published.request.scope.Files() <= published.inventory &&
            published.request.scope.Files() !! u.site.policy.excluded)
    && Some(k.configuration) == published.configuration
    && k.source == published.observed.value.fingerprint && !published.observed.value.dirty
    && k.source.files.Keys == published.inventory == published.observed.value.tracked
  }

  lemma IntactAfterwards(s: System, u: System, k: KnowledgeSnapshot)
    requires SameArtifacts(s, u, k) && ArtifactsIntact(s.disk.files, k)
    ensures ArtifactsIntact(u.disk.files, k)
  {
  }

  lemma SiteIsFixed(s: System, e: Event, t: System)
    requires Step(s, e) == Some(t)
    ensures t.site == s.site
  {
    hide RunStep;
    if e.Act? {
      RunStepShape(s, e.id, e.action, t);
    }
  }

  lemma {:induction false} SiteStaysFixed(s: System, events: seq<Event>, t: System)
    requires Execute(s, events) == Some(t)
    ensures t.site == s.site
    decreases |events|
  {
    hide Step;
    if events != [] {
      SiteIsFixed(s, events[0], Step(s, events[0]).value);
      SiteStaysFixed(Step(s, events[0]).value, events[1..], t);
    }
  }

  lemma PublicationStands(s: System, id: RunId, events: seq<Event>, u: System)
    requires Inv(s) && id in s.runs && s.runs[id].pc == Committed && Execute(s, events) == Some(u)
    requires u.disk.manifest == s.disk.manifest && Unchanged(u, s.runs[id])
    ensures Standing(u, s.runs[id])
  {
    hide Step, Protected;
    PublishedIsProtected(s, id);
    ArtifactsNeverRewritten(s, events, u, s.runs[id].snapshot.value);
    SiteStaysFixed(s, events, u);
    assert RunInv(s, s.runs[id]);
    IntactAfterwards(s, u, s.runs[id].snapshot.value);
  }

  /** Planning resolves the same scope again. */
  lemma SameScope(u: System, published: Run)
    requires Standing(u, published)
    ensures ResolveScope(u.site.policy, published.request.scope, u.source) == Some(published.snapshot.value.scope)
    ensures u.source.tracked == published.inventory && !u.source.dirty
    ensures u.source.revision == published.snapshot.value.identity.revision
  {
  }

  lemma ServesPublished(u: System, published: Run, requirement: QueryRequirement)
    requires Standing(u, published)
    requires requirement == QueryRequirement(u.site.repository, u.source.revision, published.snapshot.value.scope,
                                             u.configuration)
    ensures CanServe(u, requirement)
  {
    SameScope(u, published);
    assert Observe(u.site.repository, u.source, published.snapshot.value.source.files.Keys) == published.observed;
    assert SourceAgrees(published.snapshot.value, published.observed.value);
  }

  /** A run of the same unforced request that is ready to decide. */
  predicate ReadyAgain(u: System, published: Run, id: RunId) {
    && Standing(u, published) && id in u.runs
    && var r := u.runs[id];
    && r.pc == Ready && r.owned && !r.request.force && r.attempt.Some? && r.observed.Some?
    && r.scope == Some(published.snapshot.value.scope) && r.configuration == Some(u.configuration)
    && r.observed.value.revision == u.source.revision && r.loaded == LoadManifest(u.disk)
  }

  lemma QuietAcquire(u: System, published: Run, id: RunId) returns (t: System)
    requires Standing(u, published) && u.disk.lock == None && id in u.runs && u.runs[id] == NewRun(u.runs[id].request)
    ensures Step(u, Act(id, Acquire)) == Some(t)
    ensures t == With(u.(disk := u.disk.(lock := Some(id))), id, u.runs[id].(pc := Acquiring, owned := true))
  {
    t := RunStep(u, id, Acquire).value;
  }

  lemma QuietLoad(u: System, id: RunId) returns (mid: System, t: System)
    requires id in u.runs && u.runs[id].pc == Acquiring && u.runs[id].owned
    ensures Step(u, Act(id, LockWritten(false))) == Some(mid) && Step(mid, Act(id, Load(true))) == Some(t)
    ensures t.disk == u.disk && t.site == u.site && t.source == u.source && t.configuration == u.configuration &&
            id in t.runs
    ensures var r := t.runs[id];
            && r.pc == Planning && r.owned && r.request == u.runs[id].request && r.attempt.Some?
            && r.loaded == LoadManifest(u.disk)
  {
    mid := RunStep(u, id, LockWritten(false)).value;
    t := RunStep(mid, id, Load(true)).value;
  }

  lemma QuietPlan(u: System, published: Run, id: RunId) returns (t: System)
    requires Standing(u, published) && id in u.runs && u.runs[id].pc == Planning && u.runs[id].owned &&
             u.runs[id].attempt.Some?
    requires u.runs[id].request.scope == published.request.scope
    ensures Step(u, Act(id, Plan)) == Some(t) && id in t.runs
    ensures t == With(u, id, t.runs[id]) && t.runs[id].attempt.Some?
    ensures t.runs[id].attempt.value.target.revision == u.source.revision
    ensures t.runs[id] == u.runs[id].(pc := Planned, attempt := t.runs[id].attempt,
                                      scope := Some(published.snapshot.value.scope),
                                      inventory := published.inventory)
  {
    SameScope(u, published);
    t := RunStep(u, id, Plan).value;
  }

  lemma QuietObserve(u: System, published: Run, id: RunId) returns (t: System)
    requires Standing(u, published) && id in u.runs && u.runs[id].pc == Planned && u.runs[id].owned &&
             u.runs[id].attempt.Some?
    requires u.runs[id].attempt.value.target.revision == u.source.revision && !u.runs[id].request.force
    requires u.runs[id].inventory == published.inventory && u.runs[id].scope == Some(published.snapshot.value.scope)
    requires u.runs[id].loaded == LoadManifest(u.disk)
    ensures Step(u, Act(id, ObserveSource)) == Some(t) && t.disk == u.disk && ReadyAgain(t, published, id)
  {
    t := RunStep(u, id, ObserveSource).value;
  }

  lemma QuietDecide(u: System, published: Run, id: RunId) returns (t: System)
    requires ReadyAgain(u, published, id)
    ensures Step(u, Act(id, Decide(false))) == Some(t)
    ensures t == With(u, id, Stop(u.runs[id], Outcome.NoOp))
  {
    var requirement := QueryRequirement(u.site.repository, u.source.revision, published.snapshot.value.scope,
                                        u.configuration);
    ServesPublished(u, published, requirement);
    hide CanServe;
    t := Decided(u, id, u.runs[id], true);
  }

  lemma QuietRelease(u: System, id: RunId) returns (t: System)
    requires id in u.runs && u.runs[id].pc == Releasing && u.runs[id].owned
    ensures Step(u, Act(id, Release)) == Some(t)
    ensures t == With(u.(disk := u.disk.(lock := None)), id, u.runs[id].(owned := false, pc := Done))
  {
    t := RunStep(u, id, Release).value;
  }

  lemma {:induction false} Extend(s: System, events: seq<Event>, mid: System, e: Event, t: System)
    requires Execute(s, events) == Some(mid) && Step(mid, e) == Some(t)
    ensures Execute(s, events + [e]) == Some(t)
    decreases |events|
  {
    hide Step;
    if events == [] {
      assert (events + [e])[1..] == [] && Execute(t, []) == Some(t);
    } else {
      assert (events + [e])[1..] == events[1..] + [e];
      Extend(Step(s, events[0]).value, events[1..], mid, e, t);
    }
  }

  /** After a publication and any further events, an unforced run of the same request over an unchanged source
      and configuration returns NO_OP and leaves the disk exactly as it found it. That the artifact files are
      still intact is a conclusion, not an assumption. */
  lemma RefreshAgainIsNoOp(s: System, publisher: RunId, events: seq<Event>, u: System, id: RunId) returns (w: System)
    requires Inv(s) && publisher in s.runs && s.runs[publisher].pc == Committed && Execute(s, events) == Some(u)
    requires u.disk.lock == None && u.disk.manifest == s.disk.manifest && Unchanged(u, s.runs[publisher])
    requires id in u.runs && u.runs[id] == NewRun(u.runs[id].request)
    requires u.runs[id].request.scope == s.runs[publisher].request.scope && !u.runs[id].request.force
    ensures Execute(u, QuietRun(id)) == Some(w)
    ensures id in w.runs && w.runs[id].pc == Done && w.runs[id].outcome == Outcome.NoOp
    ensures w.disk == u.disk
  {
    hide Step, Inv, Standing, ReadyAgain, Execute;
    var published := s.runs[publisher];
    PublicationStands(s, publisher, events, u);
    w := QuietEnd(u, published, id);
  }

  lemma SameWorldStands(u: System, t: System, published: Run)
    requires Standing(u, published) && t.site == u.site && t.source == u.source && t.configuration == u.configuration
    requires t.disk.manifest == u.disk.manifest && t.disk.files == u.disk.files
    ensures Standing(t, published)
  {
  }

  lemma QuietStart(u: System, published: Run, id: RunId) returns (t: System)
    requires Standing(u, published) && u.disk.lock == None && id in u.runs && u.runs[id] == NewRun(u.runs[id].request)
    requires u.runs[id].request.scope == published.request.scope && !u.runs[id].request.force
    ensures Execute(u, QuietRun(id)[..5]) == Some(t)
    ensures t.disk == u.disk.(lock := Some(id)) && ReadyAgain(t, published, id)
  {
    hide Step, Standing, ReadyAgain, RunStep;
    assert Execute(u, []) == Some(u);
    var a := QuietAcquire(u, published, id);
    var b, c := QuietLoad(a, id);
    var run := QuietRun(id);
    Extend(u, [], u, run[0], a);
    assert run[..1] == [] + [run[0]] && run[..2] == run[..1] + [run[1]] && run[..3] == run[..2] + [run[2]];
    assert run[..4] == run[..3] + [run[3]] && run[..5] == run[..4] + [run[4]];
    Extend(u, run[..1], a, run[1], b);
    Extend(u, run[..2], b, run[2], c);
    SameWorldStands(u, c, published);
    var d := QuietPlan(c, published, id);
    SameWorldStands(c, d, published);
    Extend(u, run[..3], c, run[3], d);
    t := QuietObserve(d, published, id);
    Extend(u, run[..4], d, run[4], t);
  }

  lemma QuietEnd(u: System, published: Run, id: RunId) returns (w: System)
    requires Standing(u, published) && u.disk.lock == None && id in u.runs && u.runs[id] == NewRun(u.runs[id].request)
    requires u.runs[id].request.scope == published.request.scope && !u.runs[id].request.force
    ensures Execute(u, QuietRun(id)) == Some(w)
    ensures id in w.runs && w.runs[id].pc == Done && w.runs[id].outcome == Outcome.NoOp
    ensures w.disk == u.disk
  {
    var t := QuietStart(u, published, id);
    var v := QuietDecide(t, published, id);
    w := QuietRelease(v, id);
    hide Step, RunStep, Standing, Execute;
    Extend(u, QuietRun(id)[..5], t, Act(id, Decide(false)), v);
    assert QuietRun(id)[..6] == QuietRun(id)[..5] + [Act(id, Decide(false))];
    Extend(u, QuietRun(id)[..6], v, Act(id, Release), w);
    assert QuietRun(id) == QuietRun(id)[..6] + [Act(id, Release)];
  }
}
