/** An undisturbed run over a quiet, clean source publishes, unless it may serve what is there; interrupted right after
    its commit, with a manifest that cannot be read back at that moment, it discards what it published. */
module Rollback {
  import opened Prelude
  import opened Knowledge
  import opened Refresh
  import opened RefreshSafety
  import opened RefreshTheorems
  import NoOp

  predicate SupportedFormats(c: BuildConfiguration) {
    c.symbolSchema == 3 && c.graphSchema == 1 && c.domainSchema == 1 && c.projection == P1_INDEX_V1
  }

  /** A run that has not started finds the lease free and a clean, covered source. */
  predicate CanPlan(u: System, id: RunId) {
    && Inv(u) && u.disk.lock == None && id in u.runs && u.runs[id] == NewRun(u.runs[id].request)
    && u.source.revision.Some? && !u.source.dirty && u.source.tracked <= u.source.files.Keys
    && ResolveScope(u.site.policy, u.runs[id].request.scope, u.source).Some?
  }

  function ScopeOf(u: System, id: RunId): BuildScope
    requires CanPlan(u, id)
  {
    ResolveScope(u.site.policy, u.runs[id].request.scope, u.source).value
  }

  /** What the run will ask of the last usable snapshot. */
  function Asked(u: System, id: RunId): QueryRequirement
    requires CanPlan(u, id)
  {
    QueryRequirement(u.site.repository, u.source.revision, ScopeOf(u, id), u.configuration)
  }

  /** The run has no need to build: it is not forced, and the last usable snapshot answers what it asks. */
  predicate Served(u: System, id: RunId)
    requires CanPlan(u, id)
  {
    !u.runs[id].request.force && CanServe(u, Asked(u, id))
  }

  /** The root belongs to the repository. */
  predicate OwnRoot(u: System) {
    LastUsable(u).Some? ==> LastUsable(u).value.identity.repository == u.site.repository
  }

  /** Nothing stands in the way of a build, and there is need for one. */
  predicate CanBuild(u: System, id: RunId) {
    CanPlan(u, id) && SupportedFormats(u.configuration) && OwnRoot(u) && !Served(u, id)
  }

  /** What a correct builder writes. */
  function Index(u: System, id: RunId): Content
    requires CanBuild(u, id)
  {
    IndexContent(ScopeOf(u, id).semantic + ScopeOf(u, id).tests, 0)
  }

  function Graph(u: System): Content {
    GraphContent(u.site.repository, u.nextId, 0)
  }

  function Domain(u: System): Content {
    DomainContent(u.site.repository, u.nextId, u.configuration.domainRuleset, 0)
  }

  /** From the free lease to the announced build. */
  function Opening(id: RunId): seq<Event> {
    [Act(id, Acquire), Act(id, LockWritten(false)), Act(id, Load(true)), Act(id, Plan), Act(id, ObserveSource),
     Act(id, Decide(false))]
  }

  function Writing(u: System, id: RunId): seq<Event>
    requires CanBuild(u, id)
  {
    [Act(id, Write(GenerationFile(u.nextId, IndexFile), Index(u, id))),
     Act(id, Write(GraphFile(u.site.repository, u.nextId), Graph(u))),
     Act(id, Write(GenerationFile(u.nextId, DomainFile), Domain(u)))]
  }

  function Closing(id: RunId): seq<Event> {
    [Act(id, FinishBuild), Act(id, Validate), Act(id, Reobserve), Act(id, CheckConfiguration), Act(id, Commit)]
  }

  // ---- Chaining steps -------------------------------------------------------------------------------

  lemma {:induction false} Join(s: System, first: seq<Event>, mid: System, second: seq<Event>, t: System)
    requires Execute(s, first) == Some(mid) && Execute(mid, second) == Some(t)
    ensures Execute(s, first + second) == Some(t)
    decreases |first|
  {
    hide Step;
    if first == [] {
      assert first + second == second;
    } else {
      assert (first + second)[1..] == first[1..] + second;
      Join(Step(s, first[0]).value, first[1..], mid, second, t);
    }
  }

  // ---- Opening --------------------------------------------------------------------------------------

  /** The surroundings of two states are the same. */
  predicate SameWorld(s: System, t: System) {
    t.site == s.site && t.source == s.source && t.configuration == s.configuration && t.clock == s.clock
  }

  lemma Enters(u: System, id: RunId) returns (a: System, b: System, c: System)
    requires CanPlan(u, id)
    ensures Step(u, Act(id, Acquire)) == Some(a) && Step(a, Act(id, LockWritten(false))) == Some(b) &&
            Step(b, Act(id, Load(true))) == Some(c)
    ensures SameWorld(u, c) && c.disk == u.disk.(lock := Some(id)) && c.nextId == u.nextId + 1 && id in c.runs
    ensures c.runs[id] == u.runs[id].(pc := Planning, owned := true, loaded := LoadManifest(u.disk),
                                      attempt := Some(Opened(u, id)))
  {
    a := RunStep(u, id, Acquire).value;
    b := RunStep(a, id, LockWritten(false)).value;
    c := RunStep(b, id, Load(true)).value;
  }

  function Opened(u: System, id: RunId): BuildAttempt
    requires id in u.runs
  {
    BuildAttempt(u.nextId, SnapshotIdentity(u.nextId, u.nextId, u.site.repository, None), Building,
                 u.runs[id].request.reason, u.clock, None, None)
  }

  function Targeted(u: System, id: RunId): BuildAttempt
    requires id in u.runs
  {
    Opened(u, id).(target := SnapshotIdentity(u.nextId, u.nextId, u.site.repository, u.source.revision))
  }

  /** The run once everything is observed. */
  function Prepared(u: System, id: RunId): Run
    requires CanPlan(u, id)
  {
    Run(Ready, u.runs[id].request, true, LoadManifest(u.disk), Some(Targeted(u, id)), Some(ScopeOf(u, id)),
        u.source.tracked,
        Observe(u.site.repository, u.source, u.source.tracked), Some(u.configuration), None, false, Pending)
  }

  lemma Plans(u: System, id: RunId, c: System) returns (d: System, e: System)
    requires CanPlan(u, id) && SameWorld(u, c) && id in c.runs
    requires c.runs[id] == u.runs[id].(pc := Planning, owned := true, loaded := LoadManifest(u.disk),
                                       attempt := Some(Opened(u, id)))
    ensures Step(c, Act(id, Plan)) == Some(d) && Step(d, Act(id, ObserveSource)) == Some(e)
    ensures e == With(c, id, Prepared(u, id))
  {
    hide Inv, ResolveScope;
    d := RunStep(c, id, Plan).value;
    e := RunStep(d, id, ObserveSource).value;
  }

  /** The announced attempt stands beside the snapshot that was loaded. */
  function Announced(u: System, id: RunId): KnowledgeManifest
    requires id in u.runs
  {
    KnowledgeManifest(LoadManifest(u.disk).lastUsable, Some(Targeted(u, id)))
  }

  lemma AnnouncedIsValid(u: System, id: RunId)
    requires CanPlan(u, id)
    ensures Announced(u, id).Valid() <==> OwnRoot(u)
  {
    assert ManifestInv(u);
  }

  /** Deciding looks at the same root and source as the run found. */
  lemma ServesTheSame(u: System, id: RunId, e: System)
    requires CanPlan(u, id) && SameWorld(u, e) && e.disk == u.disk.(lock := Some(id))
    ensures CanServe(e, Asked(u, id)) == CanServe(u, Asked(u, id))
    ensures CanServe(u, Asked(u, id)) ==> LoadManifest(u.disk).lastUsable.Some? && OwnRoot(u)
  {
    hide Inv, ResolveScope, Observe, ArtifactsIntact;
  }

  lemma Decides(u: System, id: RunId, e: System) returns (f: System)
    requires CanPlan(u, id) && SameWorld(u, e) && id in e.runs && e.runs[id] == Prepared(u, id)
    requires e.disk == u.disk.(lock := Some(id))
    ensures Step(e, Act(id, Decide(false))) == Some(f)
    ensures !Served(u, id) && OwnRoot(u) ==>
              f == Publish(With(e, id, Prepared(u, id).(pc := Working)), Announced(u, id))
    ensures !Served(u, id) && !OwnRoot(u) ==> f == With(e, id, Prepared(u, id).(pc := Recording))
    ensures Served(u, id) ==>
              f == With(e, id, Stop(Prepared(u, id),
                                    if LoadManifest(u.disk).latestAttempt.Some? then Outcome.NoOp else Raised))
  {
    ScopeIsTracked(u, id);
    AnnouncedIsValid(u, id);
    ServesTheSame(u, id, e);
    assert Observe(u.site.repository, u.source, u.source.tracked).value.revision == u.source.revision;
    hide ResolveScope, Observe, CanServe, Inv, LoadManifest;
    f := RunStep(e, id, Decide(false)).value;
  }

  /** Up to the decision, forced or not. */
  lemma Readies(u: System, id: RunId) returns (e: System)
    requires CanPlan(u, id)
    ensures Execute(u, Opening(id)[..5]) == Some(e) && SameWorld(u, e) && id in e.runs && e.runs[id] == Prepared(u, id)
    ensures e.disk == u.disk.(lock := Some(id)) && e.nextId == u.nextId + 1
  {
    hide Step, CanPlan, Opened, Prepared, Execute, LoadManifest;
    var a, b, c := Enters(u, id);
    var d;
    d, e := Plans(u, id, c);
    FiveSteps(u, id, a, b, c, d, e);
  }

  lemma FiveSteps(u: System, id: RunId, a: System, b: System, c: System, d: System, e: System)
    requires Step(u, Act(id, Acquire)) == Some(a) && Step(a, Act(id, LockWritten(false))) == Some(b)
    requires Step(b, Act(id, Load(true))) == Some(c)
    requires Step(c, Act(id, Plan)) == Some(d) && Step(d, Act(id, ObserveSource)) == Some(e)
    ensures Execute(u, Opening(id)[..5]) == Some(e)
  {
    hide Step, Execute;
    var events := Opening(id)[..5];
    Three(u, a, b, c, events[..3]);
    TwoSteps(c, events[3], d, events[4], e);
    assert events[3..] == [events[3], events[4]] && events == events[..3] + events[3..];
    Join(u, events[..3], c, events[3..], e);
  }

  /** From the free lease to the decision. A run that is served leaves the manifest alone and ends in NO_OP, or by
      raising when the manifest names no attempt; every other run, forced or not, announces its build, unless the root
      belongs to another repository: then it goes on to record a failure. */
  lemma DecisionIsExact(u: System, id: RunId) returns (f: System)
    requires CanPlan(u, id)
    ensures Execute(u, Opening(id)) == Some(f)
    ensures SameWorld(u, f) && f.nextId == u.nextId + 1 && f.disk.lock == Some(id) && f.disk.files == u.disk.files
    ensures id in f.runs
    ensures !Served(u, id) && OwnRoot(u) ==>
              f.runs[id] == Prepared(u, id).(pc := Working) && f.disk.manifest == Some(Announced(u, id))
    ensures !Served(u, id) && !OwnRoot(u) ==> f.runs[id].pc == Recording && f.disk.manifest == u.disk.manifest
    ensures Served(u, id) ==>
              && f.runs[id].pc == Releasing && f.runs[id].owned && f.disk.manifest == u.disk.manifest
              && f.runs[id].outcome == if LoadManifest(u.disk).latestAttempt.Some? then Outcome.NoOp else Raised
  {
    var e := Readies(u, id);
    f := Decides(u, id, e);
    hide Step, CanPlan, Execute, LoadManifest, Served, OwnRoot;
    NoOp.Extend(u, Opening(id)[..5], e, Opening(id)[5], f);
    assert Opening(id) == Opening(id)[..5] + [Opening(id)[5]];
  }

  /** A run that is served leaves the disk exactly as it found it. */
  lemma ServedLeavesRoot(u: System, id: RunId) returns (t: System)
    requires CanPlan(u, id) && Served(u, id)
    ensures Execute(u, Opening(id) + [Act(id, Release)]) == Some(t) && id in t.runs && t.disk == u.disk
    ensures t.runs[id].pc == Done
    ensures t.runs[id].outcome == if LoadManifest(u.disk).latestAttempt.Some? then Outcome.NoOp else Raised
  {
    assert u.disk.lock == None;
    var f := DecisionIsExact(u, id);
    hide CanPlan, Served, LoadManifest, Execute, Step;
    t := NoOp.QuietRelease(f, id);
    NoOp.Extend(u, Opening(id), f, Act(id, Release), t);
  }

  lemma Three(s: System, a: System, b: System, c: System, events: seq<Event>)
    requires |events| == 3 && Step(s, events[0]) == Some(a) && Step(a, events[1]) == Some(b) &&
             Step(b, events[2]) == Some(c)
    ensures Execute(s, events) == Some(c)
  {
    hide Step;
    TwoSteps(a, events[1], b, events[2], c);
    assert events[1..] == [events[1], events[2]];
  }

  // ---- Writing and closing --------------------------------------------------------------------------

  predicate HasContent(s: System, path: DiskPath, content: Content) {
    path in s.disk.files && s.disk.files[path].content == content
  }

  lemma Writes(u: System, id: RunId, s: System) returns (t: System)
    requires CanBuild(u, id) && SameWorld(u, s) && id in s.runs && s.runs[id] == Prepared(u, id).(pc := Working)
    ensures Execute(s, Writing(u, id)) == Some(t) && SameWorld(u, t) && t.runs == s.runs
    ensures HasContent(t, GenerationFile(u.nextId, IndexFile), Index(u, id))
    ensures HasContent(t, GraphFile(u.site.repository, u.nextId), Graph(u)) &&
            HasContent(t, GenerationFile(u.nextId, DomainFile), Domain(u))
  {
    hide CanBuild, Index, Graph, Domain;
    var events := Writing(u, id);
    var a := Step(s, events[0]).value;
    var b := Step(a, events[1]).value;
    t := Step(b, events[2]).value;
    Three(s, a, b, t, events);
  }

  /** The files are in place and this is what the run observed. */
  predicate Written(u: System, id: RunId, s: System) {
    && CanBuild(u, id) && SameWorld(u, s) && id in s.runs && s.runs[id] == Prepared(u, id).(pc := Working)
    && HasContent(s, GenerationFile(u.nextId, IndexFile), Index(u, id))
    && HasContent(s, GraphFile(u.site.repository, u.nextId), Graph(u))
    && HasContent(s, GenerationFile(u.nextId, DomainFile), Domain(u))
  }

  lemma BuildsSnapshot(u: System, id: RunId, s: System) returns (k: KnowledgeSnapshot)
    requires Written(u, id, s)
    ensures s.runs[id].attempt.Some? && BuildSnapshot(s, s.runs[id]) == Some(k) && ArtifactsIntact(s.disk.files, k)
  {
    ScopeIsTracked(u, id);
    hide Inv, ResolveScope;
    k := BuildSnapshot(s, s.runs[id]).value;
  }

  lemma Snapshots(u: System, id: RunId, s: System) returns (t: System)
    requires Written(u, id, s)
    ensures Step(s, Act(id, FinishBuild)) == Some(t)
    ensures id in t.runs && t.runs[id].snapshot.Some? && ArtifactsIntact(t.disk.files, t.runs[id].snapshot.value)
    ensures t == With(s, id, Prepared(u, id).(pc := Built, snapshot := t.runs[id].snapshot))
  {
    var k := BuildsSnapshot(u, id, s);
    hide BuildSnapshot, ArtifactsIntact, CanBuild, HasContent, SameWorld;
    t := RunStep(s, id, FinishBuild).value;
  }

  lemma ScopeIsTracked(u: System, id: RunId)
    requires CanPlan(u, id)
    ensures ScopeOf(u, id).Files() <= u.source.tracked
    ensures Observe(u.site.repository, u.source, u.source.tracked).Some?
    ensures Observe(u.site.repository, u.source, u.source.tracked).value.fingerprint.files.Keys == u.source.tracked
  {
    hide Inv;
  }

  lemma Confirms(u: System, id: RunId, s: System) returns (a: System, b: System, c: System)
    requires CanBuild(u, id) && SameWorld(u, s) && id in s.runs && s.runs[id].snapshot.Some?
    requires s.runs[id] == Prepared(u, id).(pc := Built, snapshot := s.runs[id].snapshot)
    requires ArtifactsIntact(s.disk.files, s.runs[id].snapshot.value)
    ensures Step(s, Act(id, Validate)) == Some(a) && Step(a, Act(id, Reobserve)) == Some(b) &&
            Step(b, Act(id, CheckConfiguration)) == Some(c)
    ensures c == With(s, id, s.runs[id].(pc := Confirmed))
  {
    ScopeIsTracked(u, id);
    hide CanBuild, ArtifactsIntact, Observe, RunStep, ScopeOf;
    a := Validates(s, id);
    b := Reobserves(a, id);
    c := Rechecks(b, id);
  }

  lemma Validates(s: System, id: RunId) returns (t: System)
    requires id in s.runs && s.runs[id].pc == Built && s.runs[id].attempt.Some? && s.runs[id].snapshot.Some?
    requires ArtifactsIntact(s.disk.files, s.runs[id].snapshot.value)
    ensures Step(s, Act(id, Validate)) == Some(t) && t == With(s, id, s.runs[id].(pc := Validated))
  {
    hide ArtifactsIntact;
    t := RunStep(s, id, Validate).value;
  }

  lemma Reobserves(s: System, id: RunId) returns (t: System)
    requires id in s.runs && s.runs[id].pc == Validated && s.runs[id].attempt.Some? && s.runs[id].observed.Some?
    requires Observe(s.site.repository, s.source, s.runs[id].inventory) == s.runs[id].observed
    ensures Step(s, Act(id, Reobserve)) == Some(t) && t == With(s, id, s.runs[id].(pc := Reobserved))
  {
    hide Observe;
    t := RunStep(s, id, Reobserve).value;
  }

  lemma Rechecks(s: System, id: RunId) returns (t: System)
    requires id in s.runs && s.runs[id].pc == Reobserved && s.runs[id].attempt.Some? &&
             s.runs[id].configuration == Some(s.configuration)
    ensures Step(s, Act(id, CheckConfiguration)) == Some(t) && t == With(s, id, s.runs[id].(pc := Confirmed))
  {
    t := RunStep(s, id, CheckConfiguration).value;
  }

  /** Every event of a build, up to and with its commit. */
  function BuildRun(u: System, id: RunId): seq<Event>
    requires CanBuild(u, id)
  {
    Opening(id) + Writing(u, id) + Closing(id)
  }

  /** Progress: undisturbed, every run over a clean source that is forced, or not served by what is there, publishes a
      new snapshot of that source, in the scope and configuration it found. */
  lemma BuildPublishes(u: System, id: RunId) returns (t: System)
    requires CanBuild(u, id)
    ensures Execute(u, BuildRun(u, id)) == Some(t) && Inv(t)
    ensures id in t.runs && t.runs[id].pc == Committed && LastUsable(t) == t.runs[id].snapshot != LastUsable(u)
    ensures t.runs[id].loaded.lastUsable == LastUsable(u)
    ensures LastUsable(t).Some?
    ensures var k := LastUsable(t).value;
            && k.identity.revision == u.source.revision && k.scope == ScopeOf(u, id)
            && k.configuration == u.configuration
            && forall p :: p in k.source.files <==> p in u.source.tracked
    ensures forall p :: p in u.source.tracked ==>
              p in u.source.files && LastUsable(t).value.source.files[p] == u.source.files[p].content
  {
    var f := DecisionIsExact(u, id);
    var g := Writes(u, id, f);
    var h := Snapshots(u, id, g);
    var a, b, c := Confirms(u, id, h);
    hide Step, Execute, CanBuild, HasContent, Inv, ArtifactsIntact;
    Join(u, Opening(id), f, Writing(u, id), g);
    t := CommitsAfter(u, id, Opening(id) + Writing(u, id), g, h, a, b, c);
    PublishesWhatItFound(u, id, t);
  }

  /** A committed run that kept what it had found publishes that. */
  lemma PublishesWhatItFound(u: System, id: RunId, t: System)
    requires CanPlan(u, id) && Inv(t) && id in t.runs && t.runs[id].pc == Committed
    requires t.runs[id].attempt == Some(Targeted(u, id)) && t.runs[id].scope == Some(ScopeOf(u, id))
    requires t.runs[id].configuration == Some(u.configuration)
    requires t.runs[id].observed == Observe(u.site.repository, u.source, u.source.tracked)
    ensures t.runs[id].snapshot.Some?
    ensures var k := t.runs[id].snapshot.value;
            && k.identity.revision == u.source.revision && k.scope == ScopeOf(u, id)
            && k.configuration == u.configuration
            && k.source.files.Keys == u.source.tracked
    ensures forall p :: p in u.source.tracked ==>
              p in u.source.files && t.runs[id].snapshot.value.source.files[p] == u.source.files[p].content
  {
    assert RunInv(t, t.runs[id]);
    assert EvidenceInv(t, t.runs[id]);
    hide Inv, ResolveScope, StageInv, AttemptInv, ArtifactsIntact;
  }

  lemma CommitsAfter(u: System, id: RunId, before: seq<Event>, g: System, h: System, a: System, b: System, c: System)
    returns (t: System)
    requires Inv(u) && Execute(u, before) == Some(g) && Step(g, Act(id, FinishBuild)) == Some(h)
    requires Step(h, Act(id, Validate)) == Some(a) && Step(a, Act(id, Reobserve)) == Some(b) &&
             Step(b, Act(id, CheckConfiguration)) == Some(c)
    requires id in c.runs && c.runs[id].pc == Confirmed && c.runs[id].snapshot.Some? && c.runs[id].attempt.Some? &&
             c.runs[id].loaded == LoadManifest(u.disk)
    ensures id in t.runs && t.runs[id] == c.runs[id].(pc := t.runs[id].pc, snapshot := t.runs[id].snapshot)
    ensures Execute(u, before + Closing(id)) == Some(t) && Inv(t)
    ensures id in t.runs && t.runs[id].pc == Committed && LastUsable(t) == t.runs[id].snapshot != LastUsable(u)
    ensures t.runs[id].loaded.lastUsable == LastUsable(u)
  {
    hide Inv, RunStep, Execute;
    var events := Closing(id);
    NoOp.Extend(u, before, g, events[0], h);
    NoOp.Extend(u, before + [events[0]], h, events[1], a);
    NoOp.Extend(u, before + [events[0]] + [events[1]], a, events[2], b);
    NoOp.Extend(u, before + [events[0]] + [events[1]] + [events[2]], b, events[3], c);
    var all := before + [events[0]] + [events[1]] + [events[2]] + [events[3]];
    ExecuteKeeps(u, all, c);
    t := Commits(c, id);
    LoadedIsCurrent(c, id);
    CommitMoves(c, id, t);
    NoOp.Extend(u, all, c, events[4], t);
    assert all + [events[4]] == before + Closing(id);
    StepKeeps(c, events[4], t);
  }

  lemma Commits(c: System, id: RunId) returns (t: System)
    requires id in c.runs && c.runs[id].pc == Confirmed && c.runs[id].snapshot.Some? && c.runs[id].attempt.Some?
    ensures Step(c, Act(id, Commit)) == Some(t) && RunStep(c, id, Commit) == Some(t)
    ensures id in t.runs && t.runs[id] == c.runs[id].(pc := t.runs[id].pc, snapshot := t.runs[id].snapshot)
  {
    t := RunStep(c, id, Commit).value;
  }

  /** Before its commit a building run leaves the last usable snapshot as it loaded it. */
  lemma LoadedIsCurrent(c: System, id: RunId)
    requires Inv(c) && id in c.runs && c.runs[id].pc == Confirmed
    ensures LastUsable(c) == c.runs[id].loaded.lastUsable
  {
    assert RunInv(c, c.runs[id]);
  }

  /** From every state in which a build can start there is a run that publishes a new snapshot and then puts the
      old one back, although the commit had happened: the interrupt came after it and the manifest could not be read. */
  lemma PublicationCanBeDiscarded(u: System, id: RunId) returns (events: seq<Event>, published: System, t: System)
    requires CanBuild(u, id)
    ensures Execute(u, BuildRun(u, id)) == Some(published) && LastUsable(published) != LastUsable(u)
    ensures events == BuildRun(u, id) + [Act(id, Interrupt)] + [Act(id, Inspect(false)), Act(id, Record(true))]
    ensures Execute(u, events) == Some(t) && LastUsable(t) == LastUsable(u)
  {
    published := BuildPublishes(u, id);
    hide CanBuild, Execute, Inv;
    var mid := Interrupts(published, id);
    StepKeeps(published, Act(id, Interrupt), mid);
    t := FailedInspectionDiscards(mid, id);
    events := BuildRun(u, id) + [Act(id, Interrupt)] + [Act(id, Inspect(false)), Act(id, Record(true))];
    NoOp.Extend(u, BuildRun(u, id), published, Act(id, Interrupt), mid);
    Join(u, BuildRun(u, id) + [Act(id, Interrupt)], mid, [Act(id, Inspect(false)), Act(id, Record(true))], t);
  }

  lemma Interrupts(s: System, id: RunId) returns (t: System)
    requires Inv(s) && id in s.runs && s.runs[id].pc == Committed
    ensures Step(s, Act(id, Interrupt)) == Some(t) && FailedInspection(t, Act(id, Inspect(false)), id)
    ensures id in t.runs && t.runs[id].loaded == s.runs[id].loaded
  {
    assert RunInv(s, s.runs[id]);
    t := RunStep(s, id, Interrupt).value;
  }

  // ---- Such states exist ----------------------------------------------------------------------------

  /** A worktree with one source file at one commit, an empty root and one forced request. */
  function Example(): System {
    var scope := BuildScope(SelectedFiles, {}, {}, {"a.cpp"});
    var source := SourceState(Some(7), false, {"a.cpp"}, map["a.cpp" := SourceFile(1, 1)]);
    System(Site("repository", Policy({}, {"a.cpp"}, {}), map[7 := {"a.cpp"}]), Disk(None, None, map[]),
           map[0 := NewRun(Request(scope, 0, true))], source,
           BuildConfiguration(0, 0, 3, 1, 1, 0, 0, P1_INDEX_V1, 0, 0, [], [], None, 0), 0, 0)
  }

  lemma ExampleCanBuild()
    ensures Init(Example()) && CanBuild(Example(), 0)
  {
    InitHolds(Example());
  }
}
