/** One call of the refresh service as the code runs it: objects for the knowledge root, the writer lease and the
    call, whose methods change them in place. Each method is a step of the step system. */
module RefreshService {
  import opened Prelude
  import opened Knowledge
  import opened Refresh
  import opened Freshness
  import RefreshTheorems
  import NoOp

  /** The directory that all calls share. */
  class KnowledgeRoot {
    var lock: Option<RunId>
    var manifest: Option<KnowledgeManifest>
    var files: map<DiskPath, DiskFile>

    ghost function View(): Disk
      reads this
    {
      Disk(lock, manifest, files)
    }

    constructor ()
      ensures View() == Disk(None, None, map[])
    {
      lock, manifest, files := None, None, map[];
    }

    method Load() returns (m: KnowledgeManifest)
      ensures m == LoadManifest(View())
    {
      if manifest.None? {
        return KnowledgeManifest(None, None);
      }
      return manifest.value;
    }

    /** `ManifestPublisher.publish`: the manifest is replaced as a whole. */
    method Publish(m: KnowledgeManifest)
      requires m.Valid()
      modifies this`manifest
      ensures View() == old(View()).(manifest := Some(m))
    {
      manifest := Some(m);
    }

    method Write(path: DiskPath, content: Content, stamp: nat)
      modifies this`files
      ensures View() == old(View()).(files := old(files)[path := DiskFile(content, stamp)])
    {
      files := files[path := DiskFile(content, stamp)];
    }
  }

  datatype Entry = Entered | Refused | Broken

  /** Whether the build was announced, the loaded snapshot served, or neither. */
  datatype Verdict = Announced | Served | Refusal

  /** `_WriterLease`: owns the lock file it created, and removes no other. */
  class WriterLease {
    const root: KnowledgeRoot
    const id: RunId
    var owned: bool

    constructor (root: KnowledgeRoot, id: RunId)
      ensures this.root == root && this.id == id && !owned
    {
      this.root, this.id, owned := root, id, false;
    }

    /** Creates the lock file exclusively; `broken` says that writing to it failed or was interrupted. */
    method Enter(broken: bool) returns (entry: Entry)
      requires !owned
      modifies this`owned, root`lock
      ensures old(root.lock).Some? ==> entry == Refused && !owned && root.View() == old(root.View())
      ensures old(root.lock).None? && broken ==> entry == Broken && !owned && root.View() == old(root.View())
      ensures old(root.lock).None? && !broken ==>
                entry == Entered && owned && root.View() == old(root.View()).(lock := Some(id))
    {
      if root.lock.Some? {
        return Refused;
      }
      root.lock := Some(id);
      owned := true;
      if broken {
        Exit();
        return Broken;
      }
      return Entered;
    }

    method Exit()
      modifies this`owned, root`lock
      ensures !owned
      ensures root.View() == if old(owned) then old(root.View()).(lock := None) else old(root.View())
    {
      if owned {
        root.lock := None;
        owned := false;
      }
    }
  }

  lemma OneStep(s: System, e: Event, t: System)
    requires Step(s, e) == Some(t)
    ensures Execute(s, [e]) == Some(t)
  {
    assert [e][1..] == [] && Execute(t, []) == Some(t);
  }

  /** What a call finds when it looks at its surroundings, some time after it looked before. */
  datatype Surroundings = Surroundings(source: SourceState, configuration: BuildConfiguration, elapsed: nat)

  /** Everything an uninterrupted call gets from outside: what it finds each time, and what the builder writes. */
  datatype World = World(
    leaseBroken: bool, readable: bool, atPlan: Surroundings, atInventory: Surroundings, atDecision: Surroundings,
    builds: bool, artifacts: seq<(FileName, Content)>, graph: Content, atReobservation: Surroundings,
      atCommit: Surroundings,
    recordable: bool)
  {
    predicate Coherent(site: Site) {
      && Refresh.Coherent(site, atPlan.source) && Refresh.Coherent(site, atInventory.source)
      && Refresh.Coherent(site, atDecision.source) && Refresh.Coherent(site, atReobservation.source)
      && Refresh.Coherent(site, atCommit.source)
    }
  }

  /** The surroundings change between two steps of a call. */
  ghost function Moves(w: Surroundings): seq<Event> {
    [EditSource(w.source), ChangeConfiguration(w.configuration), Tick(w.elapsed)]
  }

  ghost function Moved(s: System, w: Surroundings): System {
    s.(source := w.source, configuration := w.configuration, clock := s.clock + w.elapsed)
  }

  lemma Move(start: System, trace: seq<Event>, s: System, w: Surroundings)
    requires Execute(start, trace) == Some(s) && Coherent(s.site, w.source)
    ensures Execute(start, trace + Moves(w)) == Some(Moved(s, w))
  {
    var t := s.(source := w.source);
    var u := t.(configuration := w.configuration);
    NoOp.Extend(start, trace, s, Moves(w)[0], t);
    NoOp.Extend(start, trace + [Moves(w)[0]], t, Moves(w)[1], u);
    NoOp.Extend(start, trace + [Moves(w)[0]] + [Moves(w)[1]], u, Moves(w)[2], Moved(s, w));
    assert trace + [Moves(w)[0]] + [Moves(w)[1]] + [Moves(w)[2]] == trace + Moves(w);
  }

  /** What an uninterrupted call in this world may do: it never gives up by itself, and fails only where the world
      does. */
  predicate Sincere(w: World, id: RunId, e: Event) {
    match e
    case Act(i, a) =>
      && i == id
      && (a.Raise? ==> !w.builds)
      && (a.LockWriteError? ==> w.leaseBroken) && (a.LockWritten? ==> a == LockWritten(false) && !w.leaseBroken)
      && (a.Load? ==> a == Action.Load(w.readable)) && (a.Decide? ==> a == Action.Decide(false))
      && (a.Record? ==> a == Record(w.recordable))
      && !(a.AcquireError? || a.InterruptLoad? || a.RaiseUncaught? || a.Interrupt? || a.Inspect? || a.LeaveHandler?)
      && !a.Crash?
    case EditSource(source) =>
      source in {w.atPlan.source, w.atInventory.source, w.atDecision.source, w.atReobservation.source,
                 w.atCommit.source}
    case _ => true
  }

  predicate AllSincere(w: World, id: RunId, trace: seq<Event>) {
    forall k :: 0 <= k < |trace| ==> Sincere(w, id, trace[k])
  }

  /** The call has come from `start` to `s` by sincere events. */
  ghost predicate Came(w: World, id: RunId, start: System, trace: seq<Event>, s: System) {
    Execute(start, trace) == Some(s) && AllSincere(w, id, trace)
  }

  lemma Begun(w: World, id: RunId, start: System, trace: seq<Event>, s: System)
    requires Execute(start, trace) == Some(s) && AllSincere(w, id, trace)
    ensures Came(w, id, start, trace, s)
  {
  }

  lemma Go(w: World, id: RunId, start: System, trace: seq<Event>, s: System, e: Event, t: System)
    requires Came(w, id, start, trace, s) && Step(s, e) == Some(t) && Sincere(w, id, e)
    ensures Came(w, id, start, trace + [e], t)
  {
    NoOp.Extend(start, trace, s, e, t);
  }

  lemma GoAlong(w: World, id: RunId, start: System, trace: seq<Event>, s: System, at: Surroundings)
    requires Came(w, id, start, trace, s) && Coherent(s.site, at.source)
    requires at in {w.atPlan, w.atInventory, w.atDecision, w.atReobservation, w.atCommit}
    ensures Came(w, id, start, trace + Moves(at), Moved(s, at))
  {
    Move(start, trace, s, at);
    hide Execute;
  }

  /** What the pre-build inspection concludes from the root and the source. */
  predicate Servable(repository: string, manifest: Option<KnowledgeManifest>, files: map<DiskPath, DiskFile>,
                     source: SourceState,
                     requirement: QueryRequirement)
  {
    && manifest.Some? && manifest.value.lastUsable.Some?
    && var k := manifest.value.lastUsable.value;
    Bindable(manifest.value, requirement, Observe(repository, source, k.source.files.Keys),
             Some(if ArtifactsIntact(files, k) then [] else [ArtifactInvalid]))
  }

  /** One call of `refresh`, with the local variables of `_refresh_locked`. */
  class RefreshCall {
    const root: KnowledgeRoot
    const lease: WriterLease
    const site: Site
    const request: Request
    ghost var pc: Pc
    var loaded: KnowledgeManifest
    var attempt: Option<BuildAttempt>
    var scope: Option<BuildScope>
    var inventory: set<RepoPath>
    var observed: Option<SourceObservation>
    var configuration: Option<BuildConfiguration>
    var snapshot: Option<KnowledgeSnapshot>
    var cancelled: bool
    var outcome: Outcome

    ghost function Locals(): Run
      reads this, lease
    {
      Run(pc, request, lease.owned, loaded, attempt, scope, inventory, observed, configuration, snapshot, cancelled,
          outcome)
    }

    /** The call is where the step system says it is. */
    ghost predicate At(s: System)
      reads this, lease, root
    {
      && lease.root == root && lease.id in s.runs && s.runs[lease.id] == Locals()
      && s.disk == root.View() && s.site == site
    }

    constructor (root: KnowledgeRoot, id: RunId, site: Site, request: Request)
      ensures this.root == root && lease.id == id && fresh(lease) && lease.root == root && this.site == site
      ensures Locals() == NewRun(request)
    {
      this.root, this.site, this.request := root, site, request;
      lease := new WriterLease(root, id);
      pc, loaded, attempt, scope, inventory := Idle, KnowledgeManifest(None, None), None, None, {};
      observed, configuration, snapshot, cancelled, outcome := None, None, None, false, Pending;
    }

    /** Taking the lease; without it the call ends at once. */
    method Enter(broken: bool, ghost s: System) returns (entered: bool, ghost t: System)
      requires At(s) && pc == Idle && !lease.owned
      modifies this, lease, root
      ensures t.clock == s.clock && t.nextId == s.nextId
      ensures At(t) && entered == lease.owned && (if entered then pc == Locked else pc == Done)
      ensures Execute(s, if old(root.lock).Some? then [Act(lease.id, Acquire)]
                         else [Act(lease.id, Acquire),
                               Act(lease.id, if broken then LockWriteError else LockWritten(false))]) == Some(t)
      ensures root.View() == if entered then old(root.View()).(lock := Some(lease.id)) else old(root.View())
      ensures if entered then old(root.lock).None? else outcome == Conflict
    {
      var entry := lease.Enter(broken);
      entered := entry == Entered;
      ghost var id := lease.id;
      ghost var mid := Step(s, Act(id, Acquire)).value;
      if entered {
        pc := Locked;
        t := Step(mid, Act(id, LockWritten(false))).value;
        RefreshTheorems.TwoSteps(s, Act(id, Acquire), mid, Act(id, LockWritten(false)), t);
      } else {
        outcome, pc := Conflict, Done;
        if entry == Refused {
          t := mid;
          OneStep(s, Act(id, Acquire), t);
        } else {
          t := Step(mid, Act(id, LockWriteError)).value;
          RefreshTheorems.TwoSteps(s, Act(id, Acquire), mid, Act(id, LockWriteError), t);
        }
      }
    }

    /** Reads the manifest and opens an attempt under fresh identities. */
    method Load(readable: bool, serial: nat, now: int, ghost s: System) returns (ghost t: System)
      requires At(s) && pc == Locked && s.nextId == serial && s.clock == now
      modifies this
      ensures t.clock == s.clock && t.nextId == if readable then s.nextId + 1 else s.nextId
      ensures At(t) && Step(s, Act(lease.id, Action.Load(readable))) == Some(t)
      ensures if readable then pc == Planning && attempt.Some? else pc == Releasing && outcome == FailedRun
    {
      if !readable {
        outcome, pc := FailedRun, Releasing;
      } else {
        loaded := root.Load();
        var identity := SnapshotIdentity(serial, serial, site.repository, None);
        attempt := Some(BuildAttempt(serial, identity, Building, request.reason, now, None, None));
        pc := Planning;
      }
      t := Step(s, Act(lease.id, Action.Load(readable))).value;
    }

    /** First observation: revision, cleanliness and scope. */
    method Plan(source: SourceState, ghost s: System) returns (ok: bool, ghost t: System)
      requires At(s) && pc == Planning && attempt.Some? && s.source == source
      modifies this
      ensures t.clock == s.clock && t.nextId == s.nextId
      ensures At(t) && Step(s, Act(lease.id, Action.Plan)) == Some(t)
      ensures attempt.Some? && (ok ==> scope.Some?) && pc == if ok then Planned else Recording
    {
      hide ResolveScope;
      attempt := Some(attempt.value.(target := attempt.value.target.(revision := source.revision)));
      var resolved := ResolveScope(site.policy, request.scope, source);
      ok := source.revision.Some? && !source.dirty && resolved.Some?;
      if ok {
        scope, inventory, pc := resolved, source.tracked, Planned;
      } else {
        pc := Recording;
      }
      t := Step(s, Act(lease.id, Action.Plan)).value;
    }

    /** Second observation: the whole inventory, and the configuration. */
    method ObserveInventory(source: SourceState, current: BuildConfiguration, ghost s: System)
      returns (ok: bool, ghost t: System)
      requires At(s) && pc == Planned && attempt.Some? && s.source == source && s.configuration == current
      modifies this
      ensures t.clock == s.clock && t.nextId == s.nextId
      ensures At(t) && Step(s, Act(lease.id, ObserveSource)) == Some(t)
      ensures attempt.Some? && pc == (if ok then Ready else Recording)
      ensures ok ==> observed.Some? && configuration.Some? && scope == old(scope)
    {
      hide Observe;
      var o := Observe(site.repository, source, inventory);
      ok := o.Some? && o.value.revision == attempt.value.target.revision && !o.value.dirty;
      if ok {
        observed, configuration, pc := o, Some(current), Ready;
      } else {
        pc := Recording;
      }
      t := Step(s, Act(lease.id, ObserveSource)).value;
    }

    /** Serves the loaded snapshot, or announces the build. */
    method Decide(servable: bool, ghost s: System) returns (verdict: Verdict, ghost t: System)
      requires At(s) && pc == Ready && attempt.Some? && observed.Some? && scope.Some? && configuration.Some?
      requires servable == CanServe(s, QueryRequirement(site.repository, observed.value.revision, scope.value,
                                                        configuration.value))
      modifies this, root
      ensures t.clock == s.clock && t.nextId == s.nextId
      ensures At(t) && Step(s, Act(lease.id, Action.Decide(false))) == Some(t)
      ensures attempt.Some? &&
              pc == (match verdict case Announced => Working case Refusal => Recording case Served => Releasing)
      ensures verdict.Served? <==> !request.force && loaded.lastUsable.Some? && servable
      ensures verdict.Announced? <==> !verdict.Served? && KnowledgeManifest(loaded.lastUsable, attempt).Valid()
      ensures !verdict.Announced? ==> root.View() == old(root.View())
      ensures verdict.Served? ==> outcome == if loaded.latestAttempt.Some? then Outcome.NoOp else Raised
      ensures verdict.Announced? ==> root.manifest == Some(KnowledgeManifest(loaded.lastUsable, attempt))
    {
      hide CanServe, Observe;
      if !request.force && loaded.lastUsable.Some? && servable {
        outcome := if loaded.latestAttempt.Some? then Outcome.NoOp else Raised;
        pc, verdict := Releasing, Served;
      } else {
        var building := KnowledgeManifest(loaded.lastUsable, attempt);
        if building.Valid() {
          root.Publish(building);
          pc, verdict := Working, Announced;
        } else {
          pc, verdict := Recording, Refusal;
        }
      }
      t := Step(s, Act(lease.id, Action.Decide(false))).value;
    }

    /** One file of this generation. */
    method WriteArtifact(path: DiskPath, content: Content, stamp: nat, ghost s: System) returns (ghost t: System)
      requires At(s) && pc == Working && attempt.Some? && s.nextId == stamp
      requires OwnPath(site.repository, attempt.value.target.generation, path)
      modifies root`files
      ensures t.clock == s.clock && t.nextId == s.nextId + 1
      ensures At(t) && Step(s, Act(lease.id, Action.Write(path, content))) == Some(t)
      ensures pc == Working && attempt == old(attempt)
    {
      root.Write(path, content, stamp);
      t := Step(s, Act(lease.id, Action.Write(path, content))).value;
    }

    /** `_snapshot`: digests of the files just written. */
    method Assemble(ghost s: System) returns (built: Option<KnowledgeSnapshot>)
      requires At(s) && attempt.Some?
      ensures built == BuildSnapshot(s, Locals())
    {
      var generation := attempt.value.target.generation;
      var index, graph, domain :=
        GenerationFile(generation, IndexFile), GraphFile(site.repository, generation),
          GenerationFile(generation, DomainFile);
      if || index !in root.files || graph !in root.files || domain !in root.files
         || scope.None? || observed.None? || configuration.None?
      {
        return None;
      }
      var source, target, versions := observed.value.fingerprint, attempt.value.target, configuration.value;
      var indexContent, graphContent, domainContent :=
        root.files[index].content, root.files[graph].content, root.files[domain].content;
      var artifacts := KnowledgeArtifacts(
        ArtifactReference(SymbolArtifact, ContentDigest(indexContent), target, index, indexContent,
                          versions.symbolSchema),
        ArtifactReference(TestArtifact, ContentDigest(indexContent), target, index, indexContent,
                          versions.symbolSchema),
        ArtifactReference(GraphArtifact, GraphKey(generation), target, graph, graphContent, versions.graphSchema),
        ArtifactReference(DomainArtifact, ContentDigest(domainContent), target, domain, domainContent,
                          versions.domainSchema),
        TextKnowledge(source, target, source, versions.textReader));
      var result := KnowledgeSnapshot(
        target, scope.value, source, versions, artifacts,
        SnapshotBuild(attempt.value.attemptId, Succeeded, attempt.value.startedAt, VerifiedBuild, source));
      built := if result.Valid() then Some(result) else None;
    }

    /** Keeps the snapshot if one could be assembled. */
    method TakeSnapshot(ghost s: System) returns (ok: bool, ghost t: System)
      requires At(s) && pc == Working && attempt.Some?
      modifies this
      ensures t.clock == s.clock && t.nextId == s.nextId
      ensures At(t) && Step(s, Act(lease.id, FinishBuild)) == Some(t)
      ensures attempt.Some? && pc == (if ok then Built else Recording) && (ok ==> snapshot.Some?)
      ensures (if ok then snapshot else None) == BuildSnapshot(s, old(Locals()))
    {
      hide BuildSnapshot;
      var built := Assemble(s);
      ok := built.Some?;
      if ok {
        snapshot := built;
      }
      pc := if ok then Built else Recording;
      t := Step(s, Act(lease.id, FinishBuild)).value;
    }

    /** Public validation of the artifacts, then the last look at source and configuration. */
    method CheckArtifacts(intact: bool, ghost s: System) returns (ghost t: System)
      requires At(s) && pc == Built && attempt.Some? && snapshot.Some? &&
               intact == ArtifactsIntact(root.files, snapshot.value)
      modifies this`pc
      ensures t.clock == s.clock && t.nextId == s.nextId
      ensures At(t) && Step(s, Act(lease.id, Validate)) == Some(t) && pc == if intact then Validated else Recording
    {
      hide ArtifactsIntact;
      pc := if intact then Validated else Recording;
      t := Step(s, Act(lease.id, Validate)).value;
    }

    method ObserveAgain(source: SourceState, ghost s: System) returns (ok: bool, ghost t: System)
      requires At(s) && pc == Validated && attempt.Some? && s.source == source
      modifies this`pc
      ensures t.clock == s.clock && t.nextId == s.nextId
      ensures At(t) && Step(s, Act(lease.id, Action.Reobserve)) == Some(t) && pc == if ok then Reobserved else Recording
    {
      hide Observe;
      ok := observed.Some? && Observe(site.repository, source, inventory) == observed;
      pc := if ok then Reobserved else Recording;
      t := Step(s, Act(lease.id, Action.Reobserve)).value;
    }

    method CheckConfiguration(current: BuildConfiguration, ghost s: System) returns (ok: bool, ghost t: System)
      requires At(s) && pc == Reobserved && attempt.Some? && s.configuration == current
      modifies this`pc
      ensures t.clock == s.clock && t.nextId == s.nextId
      ensures At(t) && Step(s, Act(lease.id, Action.CheckConfiguration)) == Some(t) &&
              pc == if ok then Confirmed else Recording
    {
      ok := Some(current) == configuration;
      pc := if ok then Confirmed else Recording;
      t := Step(s, Act(lease.id, Action.CheckConfiguration)).value;
    }

    /** The publication. */
    method Commit(now: int, ghost s: System) returns (ok: bool, ghost t: System)
      requires At(s) && pc == Confirmed && attempt.Some? && snapshot.Some? && s.clock == now
      modifies this, root
      ensures t.clock == s.clock && t.nextId == s.nextId
      ensures At(t) && Step(s, Act(lease.id, Action.Commit)) == Some(t)
      ensures attempt == old(attempt) && pc == if ok then Committed else Recording
      ensures ok ==> snapshot.Some? && root.manifest.Some? && root.manifest.value.lastUsable == snapshot
      ensures !ok ==> root.View() == old(root.View())
    {
      var final := snapshot.value.(build := snapshot.value.build.(builtAt := now));
      var succeeded := attempt.value.(status := Succeeded, finishedAt := Some(now));
      var m := KnowledgeManifest(Some(final), Some(succeeded));
      ok := m.Valid();
      if ok {
        snapshot := Some(final);
        root.Publish(m);
        pc := Committed;
      } else {
        pc := Recording;
      }
      t := Step(s, Act(lease.id, Action.Commit)).value;
    }

    /** The interrupt handler looks whether the commit already happened. */
    method HandleInterrupt(readable: bool, ghost s: System) returns (published: bool, ghost t: System)
      requires At(s) && pc == Interrupted && attempt.Some?
      modifies this
      ensures At(t) && Step(s, Act(lease.id, Inspect(readable))) == Some(t)
      ensures published <==> IsCommitOf(if readable then LoadManifest(root.View()) else loaded, attempt.value)
      ensures if published then outcome == Published && pc == Releasing else pc == Recording && cancelled
    {
      var committed := loaded;
      if readable {
        committed := root.Load();
      }
      published := IsCommitOf(committed, attempt.value);
      if published {
        outcome, pc := Published, Releasing;
      } else {
        cancelled, pc := true, Recording;
      }
      t := Step(s, Act(lease.id, Inspect(readable))).value;
    }

    /** `_record_failure`: publishes the failed attempt beside the snapshot that was loaded. */
    method RecordFailure(publishes: bool, now: int, ghost s: System) returns (ghost t: System)
      requires At(s) && pc == Recording && attempt.Some? && s.clock == now
      modifies this`pc, root
      ensures t.clock == s.clock && t.nextId == s.nextId
      ensures At(t) && Step(s, Act(lease.id, Record(publishes))) == Some(t) && pc == Reporting
    {
      var failed := attempt.value.(status := if cancelled then Cancelled else Failed,
                                   finishedAt := Some(now), failure := Some(0));
      var m := KnowledgeManifest(loaded.lastUsable, Some(failed));
      if publishes && m.Valid() {
        root.Publish(m);
      }
      pc := Reporting;
      t := Step(s, Act(lease.id, Record(publishes))).value;
    }

    /** The result of the call. */
    method Close(done: bool, ghost s: System) returns (ghost t: System)
      requires At(s) && attempt.Some? && pc == if done then Committed else Reporting
      modifies this
      ensures At(t) && pc == Releasing && Step(s, Act(lease.id, if done then Finish else CloseReport)) == Some(t)
      ensures outcome == if done then Published else if cancelled then CancelledRun else FailedRun
      ensures snapshot == old(snapshot)
    {
      outcome := if done then Published else if cancelled then CancelledRun else FailedRun;
      pc := Releasing;
      t := Step(s, Act(lease.id, if done then Finish else CloseReport)).value;
    }

    /** Leaving the lease. */
    method Exit(ghost s: System) returns (ghost t: System)
      requires At(s) && pc == Releasing
      modifies this`pc, lease, root`lock
      ensures At(t) && pc == Done && !lease.owned && Step(s, Act(lease.id, Release)) == Some(t)
      ensures outcome == old(outcome) && (old(lease.owned) ==> root.lock == None)
    {
      lease.Exit();
      pc := Done;
      t := Step(s, Act(lease.id, Release)).value;
    }

    /** The builder or a later check failed. */
    method Fail(ghost s: System) returns (ghost t: System)
      requires At(s) && InBuildBody(pc) && attempt.Some?
      modifies this`pc
      ensures t.clock == s.clock && t.nextId == s.nextId
      ensures At(t) && Step(s, Act(lease.id, Raise)) == Some(t) && pc == Recording
    {
      pc := Recording;
      t := Step(s, Act(lease.id, Raise)).value;
    }

    /** The builder writes its files, each under a path of this generation. */
    method WriteAll(world: World, serial: nat, ghost start: System, ghost before: seq<Event>, ghost s: System)
      returns (ghost trace: seq<Event>, ghost t: System)
      requires At(s) && pc == Working && attempt.Some? && s.nextId == serial && Came(world, lease.id, start, before, s)
      modifies root`files
      ensures Came(world, lease.id, start, trace, t) && At(t) && t.clock == s.clock
    {
      hide Step, Execute, Came;
      var generation := attempt.value.target.generation;
      var stamp := serial;
      trace, t := before, s;
      for i := 0 to |world.artifacts|
        invariant At(t) && t.nextId == stamp && t.clock == s.clock && Came(world, lease.id, start, trace, t)
      {
        var (name, content) := world.artifacts[i];
        ghost var u := WriteArtifact(GenerationFile(generation, name), content, stamp, t);
        Go(world, lease.id, start, trace, t, Act(lease.id, Write(GenerationFile(generation, name), content)), u);
        trace, t, stamp := trace + [Act(lease.id, Write(GenerationFile(generation, name), content))], u, stamp + 1;
      }
      ghost var u := WriteArtifact(GraphFile(site.repository, generation), world.graph, stamp, t);
      ghost var last := Act(lease.id, Write(GraphFile(site.repository, generation), world.graph));
      Go(world, lease.id, start, trace, t, last, u);
      trace, t := trace + [last], u;
    }

    /** The snapshot of what was built, its artifacts read back. */
    method CheckArtifactsBuilt(world: World, ghost start: System, ghost before: seq<Event>, ghost s: System)
      returns (ok: bool, ghost trace: seq<Event>, ghost t: System)
      requires At(s) && pc == Working && attempt.Some? && Came(world, lease.id, start, before, s)
      modifies this
      ensures Came(world, lease.id, start, trace, t) && At(t) && t.clock == s.clock && attempt.Some?
      ensures if ok then pc == Validated && snapshot.Some? else pc == Recording
    {
      hide Step, Execute, Came, BuildSnapshot;
      ghost var u;
      ok, u := TakeSnapshot(s);
      Go(world, lease.id, start, before, s, Act(lease.id, FinishBuild), u);
      trace, t := before + [Act(lease.id, FinishBuild)], u;
      if ok {
        ok := ArtifactsIntact(root.files, snapshot.value);
        u := CheckArtifacts(ok, t);
        Go(world, lease.id, start, trace, t, Act(lease.id, Validate), u);
        trace, t := trace + [Act(lease.id, Validate)], u;
      }
    }

    /** From the finished build to the last check before publication. */
    method CheckBuild(world: World, now: int, ghost start: System, ghost before: seq<Event>, ghost s0: System)
      returns (ok: bool, clock: int, ghost trace: seq<Event>, ghost t: System)
      requires At(s0) && pc == Working && attempt.Some? && s0.clock == now && Came(world, lease.id, start, before, s0)
      requires world.Coherent(site)
      modifies this
      ensures Came(world, lease.id, start, trace, t) && At(t) && t.clock == clock && attempt.Some?
      ensures if ok then pc == Confirmed && snapshot.Some? else pc == Recording
    {
      hide Step, Execute, Came, World.Coherent;
      clock := now;
      ghost var u;
      ok, trace, t := CheckArtifactsBuilt(world, start, before, s0);
      if !ok {
        return;
      }
      CoherentParts(world, site);
      GoAlong(world, lease.id, start, trace, t, world.atReobservation);
      trace, t := trace + Moves(world.atReobservation), Moved(t, world.atReobservation);
      clock := clock + world.atReobservation.elapsed;
      ok, u := ObserveAgain(world.atReobservation.source, t);
      Go(world, lease.id, start, trace, t, Act(lease.id, Reobserve), u);
      trace, t := trace + [Act(lease.id, Reobserve)], u;
      if !ok {
        return;
      }
      GoAlong(world, lease.id, start, trace, t, world.atCommit);
      trace, t, clock := trace + Moves(world.atCommit), Moved(t, world.atCommit), clock + world.atCommit.elapsed;
      ok, u := CheckConfiguration(world.atCommit.configuration, t);
      Go(world, lease.id, start, trace, t, Act(lease.id, Action.CheckConfiguration), u);
      trace, t := trace + [Act(lease.id, Action.CheckConfiguration)], u;
    }

    /** Build, check and publish. */
    method BuildAndPublish(world: World, serial: nat, now: int, ghost start: System, ghost before: seq<Event>,
                           ghost s: System)
      returns (ok: bool, clock: int, ghost trace: seq<Event>, ghost t: System)
      requires At(s) && pc == Working && attempt.Some? && s.clock == now && s.nextId == serial &&
               Came(world, lease.id, start, before, s)
      requires world.Coherent(site)
      modifies this, root
      ensures Came(world, lease.id, start, trace, t) && At(t) && t.clock == clock && attempt.Some?
      ensures if ok then pc == Committed && snapshot.Some? && root.manifest.Some? &&
              root.manifest.value.lastUsable == snapshot
              else pc == Recording
    {
      hide Step, Execute, Came, World.Coherent;
      ghost var u;
      trace, t := WriteAll(world, serial, start, before, s);
      if !world.builds {
        u := Fail(t);
        Go(world, lease.id, start, trace, t, Act(lease.id, Raise), u);
        trace, t := trace + [Act(lease.id, Raise)], u;
        return false, now, trace, t;
      }
      ok, clock, trace, t := CheckBuild(world, now, start, trace, t);
      if ok {
        ok, u := Commit(clock, t);
        Go(world, lease.id, start, trace, t, Act(lease.id, Action.Commit), u);
        trace, t := trace + [Act(lease.id, Action.Commit)], u;
      }
    }

    /** The two observations before a build. */
    method ObserveTwice(world: World, now: int, ghost start: System, ghost before: seq<Event>, ghost s: System)
      returns (ok: bool, clock: int, ghost trace: seq<Event>, ghost t: System)
      requires At(s) && pc == Planning && attempt.Some? && s.clock == now && Came(world, lease.id, start, before, s)
      requires world.Coherent(site)
      modifies this
      ensures Came(world, lease.id, start, trace, t) && At(t) && t.clock == clock && t.nextId == s.nextId
      ensures attempt.Some? && pc == if ok then Ready else Recording
      ensures ok ==> observed.Some? && configuration.Some? && scope.Some?
    {
      hide Step, Execute, Came, World.Coherent, Observe;
      CoherentParts(world, site);
      ghost var u;
      GoAlong(world, lease.id, start, before, s, world.atPlan);
      trace, t, clock := before + Moves(world.atPlan), Moved(s, world.atPlan), now + world.atPlan.elapsed;
      ok, u := Plan(world.atPlan.source, t);
      Go(world, lease.id, start, trace, t, Act(lease.id, Action.Plan), u);
      trace, t := trace + [Act(lease.id, Action.Plan)], u;
      if !ok {
        return;
      }
      GoAlong(world, lease.id, start, trace, t, world.atInventory);
      trace, t, clock := trace + Moves(world.atInventory), Moved(t, world.atInventory),
        clock + world.atInventory.elapsed;
      ok, u := ObserveInventory(world.atInventory.source, world.atInventory.configuration, t);
      Go(world, lease.id, start, trace, t, Act(lease.id, ObserveSource), u);
      trace, t := trace + [Act(lease.id, ObserveSource)], u;
    }

    /** Observations and decision before a build. */
    method Prepare(world: World, now: int, ghost start: System, ghost before: seq<Event>, ghost s0: System)
      returns (verdict: Verdict, clock: int, ghost trace: seq<Event>, ghost t: System)
      requires At(s0) && pc == Planning && attempt.Some? && s0.clock == now && Came(world, lease.id, start, before, s0)
      requires world.Coherent(site)
      modifies this, root
      ensures Came(world, lease.id, start, trace, t) && At(t) && t.clock == clock && t.nextId == s0.nextId
      ensures attempt.Some?
      ensures pc == (match verdict case Announced => Working case Refusal => Recording case Served => Releasing)
      ensures verdict.Served? ==> outcome in {Outcome.NoOp, Raised}
      ensures !verdict.Announced? ==> root.View() == old(root.View())
    {
      hide Step, Execute, Came, World.Coherent, CanServe, Servable, Observe;
      var ok;
      ghost var u;
      ok, clock, trace, t := ObserveTwice(world, now, start, before, s0);
      if !ok {
        return Refusal, clock, trace, t;
      }
      CoherentParts(world, site);
      GoAlong(world, lease.id, start, trace, t, world.atDecision);
      trace, t, clock := trace + Moves(world.atDecision), Moved(t, world.atDecision), clock + world.atDecision.elapsed;
      var requirement := QueryRequirement(site.repository, observed.value.revision, scope.value, configuration.value);
      var servable := Servable(site.repository, root.manifest, root.files, world.atDecision.source, requirement);
      ServableIsCanServe(t, requirement);
      verdict, u := Decide(servable, t);
      Go(world, lease.id, start, trace, t, Act(lease.id, Action.Decide(false)), u);
      trace, t := trace + [Act(lease.id, Action.Decide(false))], u;
    }

    /** The whole call, uninterrupted: whatever it meets, it is a run of the step system that ends with the lease
        given back, and it reports success only for the snapshot that is on disk. */
    method Refresh(world: World, serial: nat, now: int, ghost start: System)
      returns (ghost trace: seq<Event>, ghost t: System)
      requires At(start) && pc == Idle && !lease.owned && start.nextId == serial && start.clock == now &&
               world.Coherent(site)
      modifies this, lease, root
      ensures Came(world, lease.id, start, trace, t) && At(t) && pc == Done && !lease.owned
      ensures old(root.lock).Some? ==> outcome == Conflict && root.View() == old(root.View())
      ensures old(root.lock).None? ==> root.lock == None
      ensures outcome == Published ==>
                 snapshot.Some? && root.manifest.Some? && root.manifest.value.lastUsable == snapshot
    {
      hide Step, Execute, Came, World.Coherent;
      ghost var u;
      var entered;
      ghost var locked := root.lock.Some?;
      entered, t := Enter(world.leaseBroken, start);
      trace := if locked then [Act(lease.id, Acquire)]
               else [Act(lease.id, Acquire),
                     Act(lease.id, if world.leaseBroken then LockWriteError else LockWritten(false))];
      assert AllSincere(world, lease.id, trace);
      Begun(world, lease.id, start, trace, t);
      if !entered {
        return;
      }
      trace, t := UnderLease(world, serial, now, start, trace, t);
      u := Exit(t);
      Go(world, lease.id, start, trace, t, Act(lease.id, Release), u);
      trace, t := trace + [Act(lease.id, Release)], u;
    }

    /** `_refresh_locked`: from the lease to its return. */
    method UnderLease(world: World, serial: nat, now: int, ghost start: System, ghost before: seq<Event>,
                      ghost s: System)
      returns (ghost trace: seq<Event>, ghost t: System)
      requires At(s) && pc == Locked && s.clock == now && s.nextId == serial && Came(world, lease.id, start, before, s)
      requires world.Coherent(site)
      modifies this, root
      ensures Came(world, lease.id, start, trace, t) && At(t) && pc == Releasing && lease.owned == old(lease.owned)
      ensures outcome == Published ==>
                 snapshot.Some? && root.manifest.Some? && root.manifest.value.lastUsable == snapshot
    {
      hide Step, Execute, Came, World.Coherent;
      trace, t := before, s;
      ghost var u := Load(world.readable, serial, now, t);
      Go(world, lease.id, start, trace, t, Act(lease.id, Action.Load(world.readable)), u);
      trace, t := trace + [Act(lease.id, Action.Load(world.readable))], u;
      if world.readable {
        trace, t := Attempt(world, serial + 1, now, start, trace, t);
      }
    }

    /** Everything under the lease once an attempt is open. */
    method Attempt(world: World, serial: nat, now: int, ghost start: System, ghost before: seq<Event>, ghost s: System)
      returns (ghost trace: seq<Event>, ghost t: System)
      requires At(s) && pc == Planning && attempt.Some? && s.clock == now && s.nextId == serial &&
               Came(world, lease.id, start, before, s)
      requires world.Coherent(site)
      modifies this, root
      ensures Came(world, lease.id, start, trace, t) && At(t) && pc == Releasing
      ensures outcome == Published ==>
                 snapshot.Some? && root.manifest.Some? && root.manifest.value.lastUsable == snapshot
    {
      hide Step, Execute, Came, World.Coherent;
      var verdict, clock;
      verdict, clock, trace, t := Prepare(world, now, start, before, s);
      if verdict.Served? {
        return;
      }
      var done := false;
      if verdict.Announced? {
        done, clock, trace, t := BuildAndPublish(world, serial, clock, start, trace, t);
      }
      trace, t := End(world, done, clock, start, trace, t);
    }

    /** Records a failure unless the build was published, and leaves. */
    method End(world: World, done: bool, now: int, ghost start: System, ghost before: seq<Event>, ghost s: System)
      returns (ghost trace: seq<Event>, ghost t: System)
      requires At(s) && attempt.Some? && pc == (if done then Committed else Recording) && s.clock == now
      requires Came(world, lease.id, start, before, s)
      requires done ==> snapshot.Some? && root.manifest.Some? && root.manifest.value.lastUsable == snapshot
      modifies this, root
      ensures Came(world, lease.id, start, trace, t) && At(t) && pc == Releasing
      ensures outcome == Published ==>
                snapshot.Some? && root.manifest.Some? && root.manifest.value.lastUsable == snapshot
      ensures done <==> outcome == Published
    {
      hide Step, Execute, Came;
      trace, t := before, s;
      ghost var u;
      if !done {
        u := RecordFailure(world.recordable, now, t);
        Go(world, lease.id, start, trace, t, Act(lease.id, Record(world.recordable)), u);
        trace, t := trace + [Act(lease.id, Record(world.recordable))], u;
      }
      u := Close(done, t);
      Go(world, lease.id, start, trace, t, Act(lease.id, if done then Finish else CloseReport), u);
      trace, t := trace + [Act(lease.id, if done then Finish else CloseReport)], u;
    }
  }

  lemma CoherentParts(w: World, site: Site)
    requires w.Coherent(site)
    ensures Coherent(site, w.atPlan.source) && Coherent(site, w.atInventory.source) &&
            Coherent(site, w.atDecision.source)
    ensures Coherent(site, w.atReobservation.source) && Coherent(site, w.atCommit.source)
  {
  }

  lemma ServableIsCanServe(s: System, requirement: QueryRequirement)
    ensures CanServe(s, requirement) == Servable(s.site.repository, s.disk.manifest, s.disk.files, s.source,
                                                 requirement)
  {
    hide Bindable, Observe, ArtifactsIntact;
  }
}
