/** Admitting observations under shared budgets, over one revision or over both sides of a change. */
module Expansion {
  import opened Prelude

  datatype NodeKey = NodeKey(key: int)

  datatype EdgeKey = EdgeKey(source: NodeKey, target: NodeKey, relation: int)

  datatype FileKey = FileKey(key: int)

  /** A typed observation: the records that are counted, and everything else that only contains records. */
  datatype Value =
    | NodeValue(node: NodeKey)
    | EdgeValue(edge: EdgeKey, parts: seq<Value>)
    | FileValue(file: FileKey)
    | PathValue(parts: seq<Value>)
    | Other(parts: seq<Value>)

  datatype Inventory = Inventory(nodes: set<NodeKey>, edges: set<EdgeKey>, files: set<FileKey>, paths: nat)

  const Nothing: Inventory := Inventory({}, {}, {}, 0)

  /** Inventories pool. */
  function Plus(a: Inventory, b: Inventory): Inventory {
    Inventory(a.nodes + b.nodes, a.edges + b.edges, a.files + b.files, a.paths + b.paths)
  }

  // ---- Counting what an observation holds -----------------------------------------------------------

  function Parts(v: Value): (r: seq<Value>)
    ensures forall i :: 0 <= i < |r| ==> r[i] < v
  {
    match v
    case NodeValue(_) => []
    case FileValue(_) => []
    case EdgeValue(_, parts) => parts
    case PathValue(parts) => parts
    case Other(parts) => parts
  }

  /** What the value itself contributes. */
  function Own(v: Value): Inventory {
    match v
    case NodeValue(n) => Nothing.(nodes := {n})
    case EdgeValue(e, _) => Nothing.(edges := {e})
    case FileValue(f) => Nothing.(files := {f})
    case PathValue(_) => Nothing.(paths := 1)
    case Other(_) => Nothing
  }

  function InventoryOf(v: Value): Inventory
    decreases v, 1, 0
  {
    Plus(Own(v), InventoryOfParts(v, |Parts(v)|))
  }

  function InventoryOfParts(v: Value, k: nat): Inventory
    requires k <= |Parts(v)|
    decreases v, 0, k
  {
    if k == 0 then Nothing else Plus(InventoryOfParts(v, k - 1), InventoryOf(Parts(v)[k - 1]))
  }

  /** `_walk`: a value, then what it contains. */
  function Walk(v: Value): seq<Value>
    decreases v, 1, 0
  {
    [v] + WalkParts(v, |Parts(v)|)
  }

  function WalkParts(v: Value, k: nat): seq<Value>
    requires k <= |Parts(v)|
    decreases v, 0, k
  {
    if k == 0 then [] else WalkParts(v, k - 1) + Walk(Parts(v)[k - 1])
  }

  function Sum(values: seq<Value>): Inventory {
    if values == [] then Nothing else Plus(Sum(values[..|values| - 1]), Own(values[|values| - 1]))
  }

  lemma {:induction false} SumOfConcat(a: seq<Value>, b: seq<Value>)
    ensures Sum(a + b) == Plus(Sum(a), Sum(b))
    decreases |b|
  {
    if b == [] {
      assert a + b == a;
    } else {
      SumOfConcat(a, b[..|b| - 1]);
      assert (a + b)[..|a + b| - 1] == a + b[..|b| - 1];
    }
  }

  lemma PlusLaws(a: Inventory)
    ensures Plus(Nothing, a) == a && Plus(a, Nothing) == a
  {
  }

  lemma SumOfOne(v: Value)
    ensures Sum([v]) == Own(v)
  {
    hide Plus, Own;
    assert [v][..0] == [];
    PlusLaws(Own(v));
  }

  lemma {:induction false} WalkCountsAll(v: Value)
    ensures Sum(Walk(v)) == InventoryOf(v)
    decreases v, 1, 0
  {
    hide Plus, Own, Parts, Sum;
    WalkPartsCountsAll(v, |Parts(v)|);
    SumOfConcat([v], WalkParts(v, |Parts(v)|));
    SumOfOne(v);
  }

  lemma {:induction false} WalkPartsCountsAll(v: Value, k: nat)
    requires k <= |Parts(v)|
    ensures Sum(WalkParts(v, k)) == InventoryOfParts(v, k)
    decreases v, 0, k
  {
    hide Plus, Own, Parts;
    if k > 0 {
      hide Sum;
      WalkPartsCountsAll(v, k - 1);
      WalkCountsAll(Parts(v)[k - 1]);
      SumOfConcat(WalkParts(v, k - 1), Walk(Parts(v)[k - 1]));
    }
  }

  lemma SumOfNone(values: seq<Value>)
    ensures Sum(values[..0]) == Nothing
  {
  }

  lemma SumMore(values: seq<Value>, i: nat)
    requires i < |values|
    ensures Sum(values[..i + 1]) == Plus(Sum(values[..i]), Own(values[i]))
  {
    assert values[..i + 1][..i] == values[..i];
  }

  /** `_inventory`: one pass over the walk. */
  method TakeInventory(v: Value) returns (r: Inventory)
    ensures r == InventoryOf(v)
  {
    hide InventoryOf, Walk, Sum;
    var walk := Walk(v);
    SumOfNone(walk);
    var nodes: set<NodeKey>, edges: set<EdgeKey>, files: set<FileKey>, paths: nat := {}, {}, {}, 0;
    for i := 0 to |walk|
      invariant Inventory(nodes, edges, files, paths) == Sum(walk[..i])
    {
      SumMore(walk, i);
      match walk[i]
      case NodeValue(n) => nodes := nodes + {n};
      case EdgeValue(e, _) => edges := edges + {e};
      case FileValue(f) => files := files + {f};
      case PathValue(_) => paths := paths + 1;
      case Other(_) =>
    }
    assert walk[..|walk|] == walk;
    WalkCountsAll(v);
    return Inventory(nodes, edges, files, paths);
  }

  // ---- Policy, jobs and answers ---------------------------------------------------------------------

  datatype Policy = Policy(families: set<int>, maxDepth: int, maxNodesPerSeed: int, maxEdgesPerSeed: int,
                           maxQueriesPerSeed: int, maxPathsPerSeed: int, maxStatesPerTrace: int,
                             maxLayoutCandidates: int,
                           maxQueries: int, maxNodes: int, maxEdges: int, maxPaths: int) {
    /** The limits that may be zero, and those that may not. */
    predicate Valid() {
      && maxDepth >= 0 && maxEdgesPerSeed >= 0 && maxQueries >= 0 && maxNodes >= 0 && maxEdges >= 0 && maxPaths >= 0
      && maxNodesPerSeed >= 1 && maxQueriesPerSeed >= 1 && maxPathsPerSeed >= 1
      && maxStatesPerTrace >= 1 && maxLayoutCandidates >= 1
    }
  }

  datatype Job = Job(seed: NodeKey, family: Option<int>)

  /** What a query or trace would return if it were made: an observation, whether it is complete, and whether a query
      did not find its seed in the graph. */
  datatype Answer =
    | Failed
    | Refused(status: Status)
    | Observed(observation: Value, complete: bool, absent: bool)

  datatype Status = Fine | Truncated | Unsupported | Unresolved | Failure | PartialTrace

  datatype Reason = GlobalQueryLimit | SeedQueryLimit | FamilyDisabled | OutsideFingerprint
                  | GlobalNodeLimit | GlobalEdgeLimit | GlobalPathLimit | SeedNodeLimit | SeedEdgeLimit | SeedPathLimit

  datatype Report = Report(seed: NodeKey, status: Status, reasons: set<Reason>, observation: Option<Value>) {
    /** The job was carried out rather than turned away at the door. */
    predicate Queried() {
      GlobalQueryLimit !in reasons && SeedQueryLimit !in reasons && FamilyDisabled !in reasons
    }
  }

  /** The two shared stores of the loop, for everything and for one seed. */
  datatype Tally = Tally(nodes: set<NodeKey>, edges: set<EdgeKey>, paths: nat, queries: nat)

  const Zero: Tally := Tally({}, {}, 0, 0)

  datatype State = State(total: Tally, perSeed: map<NodeKey, Tally>)

  function SeedTally(s: State, seed: NodeKey): Tally {
    if seed in s.perSeed then s.perSeed[seed] else Zero
  }

  function Add(t: Tally, i: Inventory): Tally {
    t.(nodes := t.nodes + i.nodes, edges := t.edges + i.edges, paths := t.paths + i.paths)
  }

  /** Whether a limit is exceeded. */
  predicate Exceeds(p: Policy, total: Tally, seed: Tally, r: Reason) {
    match r
    case GlobalNodeLimit => |total.nodes| > p.maxNodes
    case GlobalEdgeLimit => |total.edges| > p.maxEdges
    case GlobalPathLimit => total.paths > p.maxPaths
    case SeedNodeLimit => |seed.nodes| > p.maxNodesPerSeed
    case SeedEdgeLimit => |seed.edges| > p.maxEdgesPerSeed
    case SeedPathLimit => seed.paths > p.maxPathsPerSeed
    case _ => false
  }

  /** The limits that admitting the inventory would exceed. */
  function Exceeded(p: Policy, total: Tally, seed: Tally, i: Inventory): set<Reason> {
    set r: Reason | Exceeds(p, Add(total, i), Add(seed, i), r)
  }

  // ---- One job --------------------------------------------------------------------------------------

  predicate TurnedAway(p: Policy, s: State, job: Job) {
    || s.total.queries >= p.maxQueries || SeedTally(s, job.seed).queries >= p.maxQueriesPerSeed
    || (job.family.Some? && job.family.value !in p.families)
  }

  function TurnAway(p: Policy, s: State, job: Job): Report
    requires TurnedAway(p, s, job)
  {
    if s.total.queries >= p.maxQueries then Report(job.seed, Truncated, {GlobalQueryLimit}, None)
    else if SeedTally(s, job.seed).queries >= p.maxQueriesPerSeed then
      Report(job.seed, Truncated, {SeedQueryLimit}, None)
    else Report(job.seed, Unsupported, {FamilyDisabled}, None)
  }

  /** The query is spent, whatever comes of it. */
  function Spend(s: State, seed: NodeKey): State {
    var mine := SeedTally(s, seed);
    State(s.total.(queries := s.total.queries + 1), s.perSeed[seed := mine.(queries := mine.queries + 1)])
  }

  function Admit(s: State, seed: NodeKey, i: Inventory): State {
    State(Add(s.total, i), s.perSeed[seed := Add(SeedTally(s, seed), i)])
  }

  /** A query may have been stopped, or have found no seed; a trace may be partial. */
  function AdmittedStatus(job: Job, complete: bool, absent: bool): Status {
    if job.family.None? then if !complete then Truncated else if absent then Unresolved else Fine
    else if complete then Fine else PartialTrace
  }

  /** The state after a job and its report; the observation is admitted whole or not at all. */
  function Step(p: Policy, files: set<FileKey>, s: State, job: Job, answer: Answer): (State, Report) {
    if TurnedAway(p, s, job) then (s, TurnAway(p, s, job))
    else
      var spent := Spend(s, job.seed);
      match answer
      case Failed => (spent, Report(job.seed, Failure, {}, None))
      case Refused(status) => (spent, Report(job.seed, status, {}, None))
      case Observed(v, complete, absent) =>
        var i := InventoryOf(v);
        if !(i.files <= files) then (spent, Report(job.seed, Unresolved, {OutsideFingerprint}, None))
        else
          var exceeded := Exceeded(p, spent.total, SeedTally(spent, job.seed), i);
          if exceeded != {} then (spent, Report(job.seed, Truncated, exceeded, None))
          else (Admit(spent, job.seed, i), Report(job.seed, AdmittedStatus(job, complete, absent), {}, Some(v)))
  }

  /** The state and the reports after the first `k` jobs. */
  function Run(p: Policy, files: set<FileKey>, jobs: seq<Job>, answers: seq<Answer>, k: nat): (State, seq<Report>)
    requires |answers| == |jobs| && k <= |jobs|
  {
    if k == 0 then (State(Zero, map[]), [])
    else
      var (s, reports) := Run(p, files, jobs, answers, k - 1);
      var (next, report) := Step(p, files, s, jobs[k - 1], answers[k - 1]);
      (next, reports + [report])
  }

  datatype Result = Result(reports: seq<Report>, nodeCount: nat, edgeCount: nat, pathCount: nat, queryCount: nat)

  function Expanded(p: Policy, files: set<FileKey>, jobs: seq<Job>, answers: seq<Answer>): Result
    requires |answers| == |jobs|
  {
    var (s, reports) := Run(p, files, jobs, answers, |jobs|);
    Result(reports, |s.total.nodes|, |s.total.edges|, s.total.paths, s.total.queries)
  }

  /** One turn of the admission loop. */
  method CarryOut(p: Policy, files: set<FileKey>, job: Job, answer: Answer, nodes: set<NodeKey>, edges: set<EdgeKey>,
                  paths: nat, queries: nat, perSeed: map<NodeKey, Tally>)
    returns (nodes': set<NodeKey>, edges': set<EdgeKey>, paths': nat, queries': nat, perSeed': map<NodeKey, Tally>,
             report: Report)
    ensures Step(p, files, State(Tally(nodes, edges, paths, queries), perSeed), job, answer)
         == (State(Tally(nodes', edges', paths', queries'), perSeed'), report)
  {
    hide InventoryOf, Exceeded;
    nodes', edges', paths', queries', perSeed' := nodes, edges, paths, queries, perSeed;
    var mine := if job.seed in perSeed then perSeed[job.seed] else Zero;
    if queries >= p.maxQueries {
      report := Report(job.seed, Truncated, {GlobalQueryLimit}, None);
    } else if mine.queries >= p.maxQueriesPerSeed {
      report := Report(job.seed, Truncated, {SeedQueryLimit}, None);
    } else if job.family.Some? && job.family.value !in p.families {
      report := Report(job.seed, Unsupported, {FamilyDisabled}, None);
    } else {
      queries' := queries + 1;
      perSeed' := perSeed[job.seed := mine.(queries := mine.queries + 1)];
      match answer {
        case Failed => report := Report(job.seed, Failure, {}, None);
        case Refused(status) => report := Report(job.seed, status, {}, None);
        case Observed(v, complete, absent) =>
          var found := TakeInventory(v);
          var exceeded := Exceeded(p, Tally(nodes, edges, paths, queries'), perSeed'[job.seed], found);
          if !(found.files <= files) {
            report := Report(job.seed, Unresolved, {OutsideFingerprint}, None);
          } else if exceeded != {} {
            report := Report(job.seed, Truncated, exceeded, None);
          } else {
            nodes', edges', paths' := nodes + found.nodes, edges + found.edges, paths + found.paths;
            perSeed' := perSeed'[job.seed := Tally(mine.nodes + found.nodes, mine.edges + found.edges,
                                                   mine.paths + found.paths, mine.queries + 1)];
            var status := Fine;
            if job.family.None? && absent {
              status := Unresolved;
            }
            if !complete {
              status := if job.family.None? then Truncated else PartialTrace;
            }
            report := Report(job.seed, status, {}, Some(v));
          }
      }
    }
  }

  /** `expand`: the admission loop. */
  method Expand(p: Policy, files: set<FileKey>, jobs: seq<Job>, answers: seq<Answer>) returns (r: Result)
    requires |answers| == |jobs|
    ensures r == Expanded(p, files, jobs, answers)
  {
    hide Step;
    var nodes: set<NodeKey>, edges: set<EdgeKey>, paths: nat, queries: nat := {}, {}, 0, 0;
    var perSeed: map<NodeKey, Tally> := map[];
    var reports: seq<Report> := [];
    for k := 0 to |jobs|
      invariant Run(p, files, jobs, answers, k) == (State(Tally(nodes, edges, paths, queries), perSeed), reports)
    {
      var report;
      nodes, edges, paths, queries, perSeed, report :=
        CarryOut(p, files, jobs[k], answers[k], nodes, edges, paths, queries, perSeed);
      reports := reports + [report];
    }
    return Result(reports, |nodes|, |edges|, paths, queries);
  }

  // ---- What the counts mean -------------------------------------------------------------------------

  /** The nodes, edges and paths of the admitted observations, and the jobs carried out; of one seed, or of all. */
  function Recount(reports: seq<Report>, seed: Option<NodeKey>): Tally {
    if reports == [] then Zero
    else
      var before, last := Recount(reports[..|reports| - 1], seed), reports[|reports| - 1];
      if seed.Some? && seed.value != last.seed then before
      else
        var spent := if last.Queried() then before.(queries := before.queries + 1) else before;
        match last.observation case Some(v) => Add(spent, InventoryOf(v)) case None => spent
  }

  predicate WithinGlobal(p: Policy, t: Tally) {
    |t.nodes| <= p.maxNodes && |t.edges| <= p.maxEdges && t.paths <= p.maxPaths && t.queries <= p.maxQueries
  }

  predicate WithinSeed(p: Policy, t: Tally) {
    && |t.nodes| <= p.maxNodesPerSeed && |t.edges| <= p.maxEdgesPerSeed && t.paths <= p.maxPathsPerSeed
    && t.queries <= p.maxQueriesPerSeed
  }

  lemma StepRecounts(p: Policy, files: set<FileKey>, s: State, job: Job, answer: Answer, reports: seq<Report>,
                     seed: NodeKey)
    requires s.total == Recount(reports, None) && SeedTally(s, seed) == Recount(reports, Some(seed))
    ensures var (next, report) := Step(p, files, s, job, answer);
            && next.total == Recount(reports + [report], None)
            && SeedTally(next, seed) == Recount(reports + [report], Some(seed))
  {
    hide InventoryOf, Exceeded;
    var (next, report) := Step(p, files, s, job, answer);
    if answer.Observed? {
      var spent := Spend(s, job.seed);
      NamesNoQueryLimit(p, spent.total, SeedTally(spent, job.seed), InventoryOf(answer.observation));
    }
    assert (reports + [report])[..|reports|] == reports;
  }

  lemma NamesNoQueryLimit(p: Policy, total: Tally, seed: Tally, i: Inventory)
    ensures var e := Exceeded(p, total, seed, i); GlobalQueryLimit !in e && SeedQueryLimit !in e && FamilyDisabled !in e
  {
  }

  lemma StepKeepsLimits(p: Policy, files: set<FileKey>, s: State, job: Job, answer: Answer, seed: NodeKey)
    requires p.Valid() && WithinGlobal(p, s.total) && WithinSeed(p, SeedTally(s, seed))
    ensures var (next, _) := Step(p, files, s, job, answer);
              WithinGlobal(p, next.total) && WithinSeed(p, SeedTally(next, seed))
  {
    hide InventoryOf, Exceeded, TurnAway;
    if !TurnedAway(p, s, job) {
      SpendKeepsLimits(p, s, job.seed, seed);
      if answer.Observed? {
        var spent, i := Spend(s, job.seed), InventoryOf(answer.observation);
        NothingExceeded(p, spent.total, SeedTally(spent, job.seed), i);
        if Exceeded(p, spent.total, SeedTally(spent, job.seed), i) == {} {
          AdmitKeepsLimits(p, spent, job.seed, i, seed);
        }
        hide WithinGlobal, WithinSeed, Spend, Admit, SeedTally;
      }
    }
  }

  lemma SpendKeepsLimits(p: Policy, s: State, at: NodeKey, seed: NodeKey)
    requires WithinGlobal(p, s.total) && WithinSeed(p, SeedTally(s, seed))
    requires s.total.queries < p.maxQueries && SeedTally(s, at).queries < p.maxQueriesPerSeed
    ensures WithinGlobal(p, Spend(s, at).total) && WithinSeed(p, SeedTally(Spend(s, at), seed))
  {
  }

  lemma AdmitKeepsLimits(p: Policy, s: State, at: NodeKey, i: Inventory, seed: NodeKey)
    requires WithinGlobal(p, s.total) && WithinSeed(p, SeedTally(s, seed))
    requires var t, mine := Add(s.total, i), Add(SeedTally(s, at), i);
             && |t.nodes| <= p.maxNodes && |t.edges| <= p.maxEdges && t.paths <= p.maxPaths
             && |mine.nodes| <= p.maxNodesPerSeed && |mine.edges| <= p.maxEdgesPerSeed
             && mine.paths <= p.maxPathsPerSeed
    requires SeedTally(s, at).queries <= p.maxQueriesPerSeed
    ensures WithinGlobal(p, Admit(s, at, i).total) && WithinSeed(p, SeedTally(Admit(s, at, i), seed))
  {
  }

  /** Nothing is exceeded exactly when both tallies, with the inventory, respect their limits. */
  lemma NothingExceeded(p: Policy, total: Tally, seed: Tally, i: Inventory)
    ensures Exceeded(p, total, seed, i) == {} <==>
              var t, s := Add(total, i), Add(seed, i);
              && |t.nodes| <= p.maxNodes && |t.edges| <= p.maxEdges && t.paths <= p.maxPaths
              && |s.nodes| <= p.maxNodesPerSeed && |s.edges| <= p.maxEdgesPerSeed && s.paths <= p.maxPathsPerSeed
  {
    var t, s := Add(total, i), Add(seed, i);
    var e := Exceeded(p, total, seed, i);
    assert forall r :: r in e <==> Exceeds(p, t, s, r);
    hide Exceeded;
    assert GlobalNodeLimit in e <==> |t.nodes| > p.maxNodes;
    assert GlobalEdgeLimit in e <==> |t.edges| > p.maxEdges;
    assert GlobalPathLimit in e <==> t.paths > p.maxPaths;
    assert SeedNodeLimit in e <==> |s.nodes| > p.maxNodesPerSeed;
    assert SeedEdgeLimit in e <==> |s.edges| > p.maxEdgesPerSeed;
    assert SeedPathLimit in e <==> s.paths > p.maxPathsPerSeed;
    if e != {} {
      var r :| r in e;
    }
  }

  lemma {:induction false} RunKeeps(p: Policy, files: set<FileKey>, jobs: seq<Job>, answers: seq<Answer>, k: nat,
                                    seed: NodeKey)
    requires p.Valid() && |answers| == |jobs| && k <= |jobs|
    ensures var (s, reports) := Run(p, files, jobs, answers, k);
            && s.total == Recount(reports, None) && SeedTally(s, seed) == Recount(reports, Some(seed))
            && WithinGlobal(p, s.total) && WithinSeed(p, SeedTally(s, seed)) && |reports| == k
  {
    if k > 0 {
      RunKeeps(p, files, jobs, answers, k - 1, seed);
      var (s, reports) := Run(p, files, jobs, answers, k - 1);
      StepRecounts(p, files, s, jobs[k - 1], answers[k - 1], reports, seed);
      StepKeepsLimits(p, files, s, jobs[k - 1], answers[k - 1], seed);
      hide Step, Recount, WithinGlobal, WithinSeed;
    }
  }

  /** The reported counts are those of the admitted observations, and they respect every limit, of the whole run and of
      each seed. */
  lemma CountsAreHonest(p: Policy, files: set<FileKey>, jobs: seq<Job>, answers: seq<Answer>, seed: NodeKey)
    requires p.Valid() && |answers| == |jobs|
    ensures var r := Expanded(p, files, jobs, answers);
            var all := Recount(r.reports, None);
            && |r.reports| == |jobs|
            && r.nodeCount == |all.nodes| && r.edgeCount == |all.edges| && r.pathCount == all.paths
            && r.queryCount == all.queries
            && WithinGlobal(p, all) && WithinSeed(p, Recount(r.reports, Some(seed)))
  {
    RunKeeps(p, files, jobs, answers, |jobs|, seed);
  }

  /** In any state: an observation is admitted, whole, exactly when the job is not turned away, its source files are in
      the fingerprint and it fits all six limits; a carried-out job left out for limits names exactly those it
      exceeds. */
  lemma AdmissionIsExact(p: Policy, files: set<FileKey>, s: State, job: Job, answer: Answer)
    requires answer.Observed?
    ensures var (next, report) := Step(p, files, s, job, answer);
            var i := InventoryOf(answer.observation);
            var accepted := && s.total.queries < p.maxQueries && SeedTally(s, job.seed).queries < p.maxQueriesPerSeed
                            && (job.family.None? || job.family.value in p.families);
            var t, mine := Add(s.total, i), Add(SeedTally(s, job.seed), i);
            && report.seed == job.seed
            && (report.observation.Some? <==>
                  (accepted && i.files <= files
                   && |t.nodes| <= p.maxNodes && |t.edges| <= p.maxEdges && t.paths <= p.maxPaths
                   && |mine.nodes| <= p.maxNodesPerSeed && |mine.edges| <= p.maxEdgesPerSeed
                   && mine.paths <= p.maxPathsPerSeed))
            && (report.observation.Some? ==> report.observation.value == answer.observation)
            && (report.observation.None? ==>
                  next.total == s.total || next.total == s.total.(queries := s.total.queries + 1))
                  && (accepted && i.files <= files ==>
                  forall r :: r in report.reasons <==> Exceeds(p, t, mine, r))
  {
    hide InventoryOf;
    var spent, i := Spend(s, job.seed), InventoryOf(answer.observation);
    var mine := SeedTally(spent, job.seed);
    NothingExceeded(p, spent.total, mine, i);
    var t, t' := Add(s.total, i), Add(SeedTally(s, job.seed), i);
    assert forall r :: Exceeds(p, Add(spent.total, i), Add(mine, i), r) <==> Exceeds(p, t, t', r);
    assert forall r :: r in Exceeded(p, spent.total, mine, i) <==> Exceeds(p, t, t', r);
    hide Exceeded, Exceeds;
  }

  /** At the door, in any state: which jobs are carried out, and for which reason the others are turned away. */
  lemma DoorIsExact(p: Policy, files: set<FileKey>, s: State, job: Job, answer: Answer)
    ensures var (next, report) := Step(p, files, s, job, answer);
            var mine := SeedTally(s, job.seed);
            && (GlobalQueryLimit in report.reasons <==> s.total.queries >= p.maxQueries)
            && (SeedQueryLimit in report.reasons <==>
                  s.total.queries < p.maxQueries && mine.queries >= p.maxQueriesPerSeed)
            && (FamilyDisabled in report.reasons <==>
                  && s.total.queries < p.maxQueries && mine.queries < p.maxQueriesPerSeed
                  && job.family.Some? && job.family.value !in p.families)
            && (report.Queried() <==>
                  && s.total.queries < p.maxQueries && mine.queries < p.maxQueriesPerSeed
                  && (job.family.None? || job.family.value in p.families))
            && (report.Queried() ==> next.total.queries == s.total.queries + 1)
            && (report.Queried() ==> SeedTally(next, job.seed).queries == mine.queries + 1)
            && (!report.Queried() ==> next == s && report.observation.None?)
  {
    hide InventoryOf, Exceeded;
    if answer.Observed? {
      var spent := Spend(s, job.seed);
      NamesNoQueryLimit(p, spent.total, SeedTally(spent, job.seed), InventoryOf(answer.observation));
    }
  }

  lemma {:induction false} RunIsPrefix(p: Policy, files: set<FileKey>, jobs: seq<Job>, answers: seq<Answer>, k: nat,
                                       n: nat)
    requires |answers| == |jobs| && k <= n <= |jobs|
    ensures |Run(p, files, jobs, answers, n).1| == n
    ensures Run(p, files, jobs, answers, n).1[..k] == Run(p, files, jobs, answers, k).1
  {
    hide Step;
    RunLength(p, files, jobs, answers, n);
    RunLength(p, files, jobs, answers, k);
    if k < n {
      RunIsPrefix(p, files, jobs, answers, k, n - 1);
      assert Run(p, files, jobs, answers, n).1[..k] == Run(p, files, jobs, answers, n - 1).1[..k];
    }
  }

  /** Each report of a run, from the reports before it, the policy and the answer alone: who is turned away and why, and
      what is admitted. */
  lemma ReportIsExact(p: Policy, files: set<FileKey>, jobs: seq<Job>, answers: seq<Answer>, k: nat)
    requires p.Valid() && |answers| == |jobs| && k < |jobs|
    ensures |Expanded(p, files, jobs, answers).reports| == |jobs|
    ensures var reports := Expanded(p, files, jobs, answers).reports;
            var r, job := reports[k], jobs[k];
            var all, mine := Recount(reports[..k], None), Recount(reports[..k], Some(job.seed));
            && r.seed == job.seed
            && (GlobalQueryLimit in r.reasons <==> all.queries >= p.maxQueries)
            && (SeedQueryLimit in r.reasons <==> all.queries < p.maxQueries && mine.queries >= p.maxQueriesPerSeed)
            && (FamilyDisabled in r.reasons <==>
                  && all.queries < p.maxQueries && mine.queries < p.maxQueriesPerSeed
                  && job.family.Some? && job.family.value !in p.families)
            && (r.observation.Some? <==>
                  && all.queries < p.maxQueries && mine.queries < p.maxQueriesPerSeed
                  && (job.family.None? || job.family.value in p.families)
                  && answers[k].Observed?
                  && Fits(p, files, all, mine, InventoryOf(answers[k].observation)))
            && (r.observation.Some? ==> r.observation.value == answers[k].observation)
            && StatusFits(r, job, answers[k])
  {
    var reports := Expanded(p, files, jobs, answers).reports;
    var (s, before) := Run(p, files, jobs, answers, k);
    RunIsPrefix(p, files, jobs, answers, k, |jobs|);
    ReportOfStep(p, files, jobs, answers, k, |jobs|);
    RunKeeps(p, files, jobs, answers, k, jobs[k].seed);
    DoorIsExact(p, files, s, jobs[k], answers[k]);
    StepFits(p, files, s, jobs[k], answers[k]);
    if answers[k].Observed? {
      AdmissionIsExact(p, files, s, jobs[k], answers[k]);
    } else {
      NothingAdmitted(p, files, s, jobs[k], answers[k]);
    }
    hide Run, Step, Recount, InventoryOf, WithinGlobal, WithinSeed, StatusFits;
  }

  lemma NothingAdmitted(p: Policy, files: set<FileKey>, s: State, job: Job, answer: Answer)
    requires !answer.Observed?
    ensures Step(p, files, s, job, answer).1.observation.None? && Step(p, files, s, job, answer).1.seed == job.seed
  {
  }

  /** The status of a report, from its reasons and the answer: a limit means truncated, a disabled family unsupported,
      an unknown file unresolved; a failure or refusal is passed on; what is admitted is partial for a trace, truncated
      or unresolved for a query, or else fine. */
  predicate StatusFits(r: Report, job: Job, answer: Answer) {
    && (r.reasons != {} ==>
          && (r.status == Unsupported <==> FamilyDisabled in r.reasons)
          && (r.status == Unresolved <==> OutsideFingerprint in r.reasons)
          && (r.status == Truncated <==> FamilyDisabled !in r.reasons && OutsideFingerprint !in r.reasons))
    && (r.reasons == {} && !answer.Observed? ==>
          r.status == if answer.Failed? then Failure else answer.status)
    && (r.reasons == {} && answer.Observed? ==>
          && (r.status == PartialTrace <==> job.family.Some? && !answer.complete)
          && (r.status == Truncated <==> job.family.None? && !answer.complete)
          && (r.status == Unresolved <==> job.family.None? && answer.complete && answer.absent)
          && r.status !in {Unsupported, Failure})
  }

  lemma StepFits(p: Policy, files: set<FileKey>, s: State, job: Job, answer: Answer)
    ensures StatusFits(Step(p, files, s, job, answer).1, job, answer)
  {
    hide InventoryOf, Spend, Admit;
  }

  /** The inventory has its source files in the fingerprint and fits all six limits. */
  predicate Fits(p: Policy, files: set<FileKey>, all: Tally, mine: Tally, i: Inventory) {
    && i.files <= files
    && |all.nodes + i.nodes| <= p.maxNodes && |all.edges + i.edges| <= p.maxEdges && all.paths + i.paths <= p.maxPaths
    && |mine.nodes + i.nodes| <= p.maxNodesPerSeed && |mine.edges + i.edges| <= p.maxEdgesPerSeed
    && mine.paths + i.paths <= p.maxPathsPerSeed
  }

  /** Each report of a run is that of its step from the state before. */
  lemma {:induction false} ReportOfStep(p: Policy, files: set<FileKey>, jobs: seq<Job>, answers: seq<Answer>, k: nat,
                                        n: nat)
    requires |answers| == |jobs| && k < n <= |jobs|
    ensures var reports := Run(p, files, jobs, answers, n).1;
            |reports| == n && reports[k] == Step(p, files, Run(p, files, jobs, answers, k).0, jobs[k], answers[k]).1
  {
    hide Step;
    RunLength(p, files, jobs, answers, n - 1);
    if k < n - 1 {
      ReportOfStep(p, files, jobs, answers, k, n - 1);
    }
  }

  lemma {:induction false} RunLength(p: Policy, files: set<FileKey>, jobs: seq<Job>, answers: seq<Answer>, k: nat)
    requires |answers| == |jobs| && k <= |jobs|
    ensures |Run(p, files, jobs, answers, k).1| == k
  {
    hide Step;
    if k > 0 {
      RunLength(p, files, jobs, answers, k - 1);
    }
  }

  // ---- Both sides of a change -----------------------------------------------------------------------

  /** The policy that is left for the old side once the new side is done. */
  function Residual(p: Policy, done: Option<Result>): Policy {
    match done
    case None => p
    case Some(r) => p.(maxNodes := p.maxNodes - r.nodeCount, maxEdges := p.maxEdges - r.edgeCount,
                       maxPaths := p.maxPaths - r.pathCount, maxQueries := p.maxQueries - r.queryCount)
  }

  datatype Side = Side(files: set<FileKey>, jobs: seq<Job>, answers: seq<Answer>) {
    predicate Valid() {
      |answers| == |jobs|
    }
  }

  /** `expand_change`: the new side first, the old side with what remains. The policy's constructor refuses invalid
      limits, so the method fails to verify if the residual policy could be refused. */
  method ExpandChange(p: Policy, now: Option<Side>, was: Option<Side>)
    returns (newResult: Option<Result>, oldResult: Option<Result>)
    requires p.Valid() && (now.Some? ==> now.value.Valid()) && (was.Some? ==> was.value.Valid())
    ensures newResult == match now case None => None case Some(s) => Some(Expanded(p, s.files, s.jobs, s.answers))
    ensures Residual(p, newResult).Valid()
    ensures oldResult == match was case None => None
                                   case Some(s) => Some(Expanded(Residual(p, newResult), s.files, s.jobs, s.answers))
  {
    hide Expanded;
    newResult, oldResult := None, None;
    if now.Some? {
      var r := Expand(p, now.value.files, now.value.jobs, now.value.answers);
      newResult := Some(r);
      ResidualIsValid(p, now.value);
    }
    var remaining := Residual(p, newResult);
    if was.Some? {
      var r := Expand(remaining, was.value.files, was.value.jobs, was.value.answers);
      oldResult := Some(r);
    }
  }

  lemma ResidualIsValid(p: Policy, side: Side)
    requires p.Valid() && side.Valid()
    ensures Residual(p, Some(Expanded(p, side.files, side.jobs, side.answers))).Valid()
  {
    CountsAreHonest(p, side.files, side.jobs, side.answers, NodeKey(0));
    hide Expanded, Recount;
  }

  /** Both sides together stay within the one policy, and each side within the limits of a seed. */
  lemma SidesShareOnePolicy(p: Policy, now: Side, was: Side, seed: NodeKey)
    requires p.Valid() && now.Valid() && was.Valid()
    ensures var first := Expanded(p, now.files, now.jobs, now.answers);
            var rest := Residual(p, Some(first));
            var second := Expanded(rest, was.files, was.jobs, was.answers);
            && rest.Valid()
            && first.nodeCount + second.nodeCount <= p.maxNodes && first.edgeCount + second.edgeCount <= p.maxEdges
            && first.pathCount + second.pathCount <= p.maxPaths && first.queryCount + second.queryCount <= p.maxQueries
            && WithinSeed(p, Recount(first.reports, Some(seed))) && WithinSeed(p, Recount(second.reports, Some(seed)))
  {
    ResidualIsValid(p, now);
    var first := Expanded(p, now.files, now.jobs, now.answers);
    CountsAreHonest(p, now.files, now.jobs, now.answers, seed);
    CountsAreHonest(Residual(p, Some(first)), was.files, was.jobs, was.answers, seed);
    hide Expanded, Recount;
  }

  /** What the old side is refused for, and what it is given: the limits of the policy, against everything that both
      sides have taken so far. */
  lemma OldSideTakesTheRest(p: Policy, now: Side, was: Side, k: nat)
    requires p.Valid() && now.Valid() && was.Valid() && k < |was.jobs|
    ensures var first := Expanded(p, now.files, now.jobs, now.answers);
            var reports := Expanded(Residual(p, Some(first)), was.files, was.jobs, was.answers).reports;
            |reports| == |was.jobs| &&
              var job, answer, r := was.jobs[k], was.answers[k], reports[k];
              var all, mine := Recount(reports[..k], None), Recount(reports[..k], Some(job.seed));
              && (GlobalQueryLimit in r.reasons <==> first.queryCount + all.queries >= p.maxQueries)
              && (r.observation.Some? <==>
                    && first.queryCount + all.queries < p.maxQueries && mine.queries < p.maxQueriesPerSeed
                    && (job.family.None? || job.family.value in p.families)
                    && answer.Observed?
                    && var i := InventoryOf(answer.observation);
                    && i.files <= was.files
                    && first.nodeCount + |all.nodes + i.nodes| <= p.maxNodes
                    && first.edgeCount + |all.edges + i.edges| <= p.maxEdges
                    && first.pathCount + all.paths + i.paths <= p.maxPaths
                    && |mine.nodes + i.nodes| <= p.maxNodesPerSeed && |mine.edges + i.edges| <= p.maxEdgesPerSeed
                    && mine.paths + i.paths <= p.maxPathsPerSeed)
  {
    ResidualIsValid(p, now);
    var rest := Residual(p, Some(Expanded(p, now.files, now.jobs, now.answers)));
    ReportIsExact(rest, was.files, was.jobs, was.answers, k);
    hide Expanded, Recount, InventoryOf, StatusFits;
  }

  // ---- Seeds ----------------------------------------------------------------------------------------

  /** A reason to expand from an identity. */
  datatype Offer = Offer(identity: NodeKey, candidates: set<FileKey>, queries: set<FileKey>, reason: FileKey,
                         ambiguous: bool,
                         unresolved: bool)

  datatype Seed = Seed(identity: NodeKey, candidates: set<FileKey>, queries: set<FileKey>, reasons: set<FileKey>,
                       ambiguous: bool,
                       unresolved: bool)

  /** The seed carries exactly what was offered for its identity. */
  predicate Carries(offers: set<Offer>, s: Seed) {
    && s.candidates == (set o, c | o in offers && o.identity == s.identity && c in o.candidates :: c)
    && s.queries == (set o, q | o in offers && o.identity == s.identity && q in o.queries :: q)
    && s.reasons == (set o | o in offers && o.identity == s.identity :: o.reason)
    && (s.ambiguous <==> exists o :: o in offers && o.identity == s.identity && o.ambiguous)
    && (s.unresolved <==> exists o :: o in offers && o.identity == s.identity && o.unresolved)
  }

  predicate Offered(offers: set<Offer>, identity: NodeKey) {
    exists o :: o in offers && o.identity == identity
  }

  ghost predicate Merged(offers: set<Offer>, seeds: map<NodeKey, Seed>) {
    && (forall id :: id in seeds <==> Offered(offers, id))
    && forall id :: id in seeds ==> seeds[id].identity == id && Carries(offers, seeds[id])
  }

  /** `expansion_seeds`: offers for one identity are pooled. */
  method MergeOffers(offers: seq<Offer>) returns (seeds: map<NodeKey, Seed>)
    ensures Merged(Elements(offers), seeds)
  {
    seeds := map[];
    for i := 0 to |offers|
      invariant Merged(Elements(offers[..i]), seeds)
    {
      hide Merged;
      var o := offers[i];
      assert offers[..i + 1] == offers[..i] + [o];
      assert Elements(offers[..i + 1]) == Elements(offers[..i]) + {o};
      OfferMerges(Elements(offers[..i]), seeds, o);
      var p := if o.identity in seeds then seeds[o.identity] else Seed(o.identity, {}, {}, {}, false, false);
      seeds := seeds[o.identity := Seed(o.identity, p.candidates + o.candidates, p.queries + o.queries,
                                        p.reasons + {o.reason},
                                        p.ambiguous || o.ambiguous, p.unresolved || o.unresolved)];
    }
    assert offers[..|offers|] == offers;
  }

  lemma OfferMerges(offers: set<Offer>, seeds: map<NodeKey, Seed>, o: Offer)
    requires Merged(offers, seeds)
    ensures var p := if o.identity in seeds then seeds[o.identity] else Seed(o.identity, {}, {}, {}, false, false);
            Merged(offers + {o}, seeds[o.identity := Seed(o.identity, p.candidates + o.candidates,
                                                          p.queries + o.queries,
                                                          p.reasons + {o.reason},
                                                          p.ambiguous || o.ambiguous, p.unresolved || o.unresolved)])
  {
    var p := if o.identity in seeds then seeds[o.identity] else Seed(o.identity, {}, {}, {}, false, false);
    var all := offers + {o};
    forall id ensures Offered(all, id) <==> Offered(offers, id) || id == o.identity {
      if x :| x in offers && x.identity == id {
        assert x in all;
      }
      assert o in all;
    }
    assert Carries(offers, p);
    PooledCarries(offers, p, o);
    forall id | id in seeds && id != o.identity ensures Carries(all, seeds[id]) {
      OtherCarries(offers, seeds[id], o);
    }
    hide Carries;
  }

  lemma PooledCarries(offers: set<Offer>, p: Seed, o: Offer)
    requires Carries(offers, p) && p.identity == o.identity
    ensures Carries(offers + {o}, Seed(o.identity, p.candidates + o.candidates, p.queries + o.queries,
                                       p.reasons + {o.reason},
                                       p.ambiguous || o.ambiguous, p.unresolved || o.unresolved))
  {
  }

  lemma OtherCarries(offers: set<Offer>, s: Seed, o: Offer)
    requires Carries(offers, s) && s.identity != o.identity
    ensures Carries(offers + {o}, s)
  {
  }

  /** Seeds depend only on the set of offers. */
  lemma SeedsAreOrderFree(a: seq<Offer>, b: seq<Offer>, seeds: map<NodeKey, Seed>, seeds': map<NodeKey, Seed>)
    requires Elements(a) == Elements(b) && Merged(Elements(a), seeds) && Merged(Elements(b), seeds')
    ensures seeds == seeds'
  {
    forall id | id in seeds ensures id in seeds' && seeds[id] == seeds'[id] {
      assert Offered(Elements(a), id);
      assert Carries(Elements(a), seeds[id]) && Carries(Elements(a), seeds'[id]);
    }
    forall id | id in seeds' ensures id in seeds {
      assert Offered(Elements(a), id);
    }
  }
}
