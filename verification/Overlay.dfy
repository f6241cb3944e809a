/** Bounded enumeration of the static CALL paths that lead from entry candidates to an overlay operation. */
module Overlay {
  import opened Prelude
  import opened Graph
  import opened MemoryGraphs
  import opened OverlayWalks
  import opened OverlayPromises
  import T = Traversal

  // ---- Reverse reachability -------------------------------------------------------------------------

  /** A set that contains the targets and the callers of its members contains everything that can reach them. */
  lemma {:induction false} ClosedUnderCallers(g: GraphData, targets: set<NodeId>, closed: set<NodeId>, ids: seq<NodeId>)
    requires targets <= closed && forall a, b :: b in closed && Calls(g, a, b) ==> a in closed
    requires IsWalk(g, ids) && ids[|ids| - 1] in targets
    ensures ids[0] in closed
    decreases |ids|
  {
    if |ids| > 1 {
      assert Calls(g, ids[0], ids[1]);
      ClosedUnderCallers(g, targets, closed, ids[1..]);
    }
  }

  const CALL: Option<set<RelationType>> := Some({Call})

  /** Members reach a target; callers of members are members, except around the nodes still to be looked at. */
  ghost predicate ClosedExcept(g: GraphData, targets: set<NodeId>, relevant: set<NodeId>, waiting: seq<NodeId>) {
    && targets <= relevant <= g.nodes.Keys
    && (forall n :: n in waiting ==> n in relevant)
    && (forall n :: n in relevant ==> CanReach(g, targets, n))
    && forall a, b :: b in relevant && b !in waiting && Calls(g, a, b) ==> a in relevant
  }

  /** The worklist over incoming CALL edges computes exactly the nodes from which a target can be reached. */
  method ReverseClosure(graph: MemoryGraph, targets: set<NodeId>) returns (relevant: set<NodeId>)
    requires graph.Valid() && targets <= graph.data.nodes.Keys
    ensures forall n :: n in relevant <==> CanReach(graph.data, targets, n)
  {
    ghost var g := graph.data;
    relevant := targets;
    var pending := Listed(targets);
    TargetsReach(g, targets);
    assert ClosedExcept(g, targets, relevant, pending);
    while pending != []
      invariant ClosedExcept(g, targets, relevant, pending) && relevant <= g.nodes.Keys
      decreases g.nodes.Keys - relevant, |pending|
    {
      assert pending[|pending| - 1] in pending;
      hide ClosedExcept;
      var current := pending[|pending| - 1];
      assert pending == pending[..|pending| - 1] + [current];
      pending := pending[..|pending| - 1];
      var edges := graph.Edges(current, T.Incoming, CALL);
      relevant, pending := AddCallers(g, targets, current, edges, relevant, pending);
    }
    NothingWaits(g, targets, relevant);
  }

  lemma TargetsReach(g: GraphData, targets: set<NodeId>)
    ensures forall n :: n in targets ==> CanReach(g, targets, n)
  {
    forall n | n in targets ensures CanReach(g, targets, n) {
      assert IsWalk(g, [n]) && [n][0] == n;
    }
  }

  lemma NothingWaits(g: GraphData, targets: set<NodeId>, relevant: set<NodeId>)
    requires ClosedExcept(g, targets, relevant, [])
    ensures forall n :: n in relevant <==> CanReach(g, targets, n)
  {
    forall n ensures n in relevant <==> CanReach(g, targets, n) {
      if CanReach(g, targets, n) {
        var ids :| IsWalk(g, ids) && ids[0] == n && ids[|ids| - 1] in targets;
        ClosedUnderCallers(g, targets, relevant, ids);
      }
    }
  }

  method AddCallers(ghost g: GraphData, ghost targets: set<NodeId>, ghost current: NodeId, edges: seq<GraphEdge>,
                    start: set<NodeId>, pending: seq<NodeId>)
    returns (relevant: set<NodeId>, pending': seq<NodeId>)
    requires g.Valid() && ClosedExcept(g, targets, start, pending + [current])
    requires ListsSet(g, edges, T.Incident(T.Query(g, T.Incoming, CALL), current))
    ensures ClosedExcept(g, targets, relevant, pending') && start <= relevant <= g.nodes.Keys
    ensures relevant == start ==> pending' == pending
  {
    IncomingCalls(g, current, edges);
    assert current in pending + [current];
    assert forall n :: n in pending ==> n in pending + [current];
    relevant, pending' := start, pending;
    for i := 0 to |edges|
      invariant start <= relevant <= g.nodes.Keys
      invariant forall n :: n in pending' ==> n in relevant
      invariant forall n :: n in pending ==> n in pending'
      invariant forall n :: n in relevant && n !in start ==> n in pending'
      invariant forall n :: n in relevant ==> CanReach(g, targets, n)
      invariant forall j :: 0 <= j < i ==> edges[j].identity.source in relevant
      invariant relevant == start ==> pending' == pending
    {
      var caller := edges[i].identity.source;
      if caller !in relevant {
        ReachStep(g, targets, caller, current);
        relevant := relevant + {caller};
        pending' := pending' + [caller];
      }
    }
    forall a, b | b in relevant && b !in pending' && Calls(g, a, b) ensures a in relevant {
      assert b in start && b !in pending;
    }
  }

  /** The incoming CALL list of a node names exactly its callers. */
  lemma IncomingCalls(g: GraphData, n: NodeId, edges: seq<GraphEdge>)
    requires g.Valid() && ListsSet(g, edges, T.Incident(T.Query(g, T.Incoming, CALL), n))
    ensures forall i :: 0 <= i < |edges|
               ==> edges[i].identity.source in g.nodes && Calls(g, edges[i].identity.source, n)
    ensures forall a :: Calls(g, a, n) ==> exists i :: 0 <= i < |edges| && edges[i].identity.source == a
  {
    forall i | 0 <= i < |edges| ensures edges[i].identity.source in g.nodes && Calls(g, edges[i].identity.source, n) {
      assert edges[i] in edges;
      assert edges[i].identity == EdgeIdentity(edges[i].identity.source, n, Call);
    }
    forall a | Calls(g, a, n) ensures exists i :: 0 <= i < |edges| && edges[i].identity.source == a {
      assert g.edges[EdgeIdentity(a, n, Call)] in edges;
    }
  }

  /** The outgoing CALL list of a node names exactly its callees, in increasing order. */
  lemma OutgoingCalls(g: GraphData, n: NodeId, edges: seq<GraphEdge>)
    requires g.Valid() && ListsSet(g, edges, T.Incident(T.Query(g, T.Outgoing, CALL), n))
    ensures forall i :: 0 <= i < |edges| ==> edges[i].identity == EdgeIdentity(n, edges[i].identity.target, Call)
    ensures forall i :: 0 <= i < |edges| ==> Calls(g, n, edges[i].identity.target)
    ensures forall a :: Calls(g, n, a) ==> exists i :: 0 <= i < |edges| && edges[i].identity.target == a
    ensures forall i, j :: 0 <= i < j < |edges| ==> edges[i].identity.target < edges[j].identity.target
  {
    forall i | 0 <= i < |edges|
      ensures edges[i].identity == EdgeIdentity(n, edges[i].identity.target, Call) &&
              Calls(g, n, edges[i].identity.target)
    {
      assert edges[i] in edges;
    }
    forall a | Calls(g, n, a) ensures exists i :: 0 <= i < |edges| && edges[i].identity.target == a {
      assert g.edges[EdgeIdentity(n, a, Call)] in edges;
    }
    forall i, j | 0 <= i < j < |edges| ensures edges[i].identity.target < edges[j].identity.target {
      BeforeIsTotal(edges[i].identity, edges[j].identity);
    }
  }

  method Listed(s: set<NodeId>) returns (r: seq<NodeId>)
    ensures Increasing(r) && forall n :: n in r <==> n in s
  {
    r := [];
    var rest := s;
    while rest != {}
      invariant rest <= s && Increasing(r) && forall n :: n in r <==> n in s - rest
      decreases rest
    {
      var n := AnyOf(rest);
      r := InsertNode(r, n);
      rest := rest - {n};
    }
  }

  // ---- Enumeration ----------------------------------------------------------------------------------

  function Limits(gaps: set<Gap>): set<Gap> {
    set g | g in gaps && LimitsExhaustion(g)
  }

  lemma StatusIsExact(gaps: set<Gap>)
    ensures StatusOf(gaps).Complete? <==> gaps == {}
    ensures StatusOf(gaps).Ambiguous? <==> exists g :: g in gaps && IsAmbiguous(g)
  {
    if gaps != {} {
      var g :| g in gaps;
    }
  }

  /** The only limit a path can name is the depth bound. */
  lemma OnlyDepth(q: Search, paths: seq<OverlayPath>, limits: set<Gap>)
    requires LegPromises(q, paths, limits)
    ensures forall g :: g in limits ==> LimitsExhaustion(g)
    ensures forall i, g :: 0 <= i < |paths| && g in paths[i].gaps && LimitsExhaustion(g) ==> g in limits
  {
    forall i, g | 0 <= i < |paths| && g in paths[i].gaps && LimitsExhaustion(g) ensures g in limits {
      LimitOfPath(q, paths[i], g);
    }
  }

  lemma LimitOfPath(q: Search, p: OverlayPath, g: Gap)
    requires q.Valid() && SoundPath(q, p) && g in p.gaps && LimitsExhaustion(g)
    ensures g == DepthLimit && g in p.problems
  {
    assert Answers(q, p);
    hide SoundPath, Explored, Final, IsSound;
    assert g in p.problems || g in BodyGaps(q, p.ids);
    assert g in p.problems ==> IsRoleGap(g) || g in {MissingSeed, MissingOperationCall, DepthLimit};
  }

  lemma BodyIsMatched(q: Search, ids: seq<NodeId>)
    ensures BodyGaps(q, ids) == q.body(ids)
  {
  }

  lemma NamesOne(p: OverlayPath)
    ensures NamesDepth([p]) <==> DepthLimit in p.problems
  {
    assert [p][0] == p;
  }

  lemma CutsAWalk(q: Search, s: State, cut: bool)
    requires s.ids != [] && SearchWalk(q, s.ids) && (cut <==> CutAt(q, s.ids))
    ensures cut <==> CutWalk(q, s.ids)
  {
  }

  lemma NothingMetYet(q: Search)
    ensures Met(q, [], {}, {}) && Counted(q, {}, 0) && !NamesDepth([])
  {
  }

  lemma OneMoreMet(q: Search, rest: seq<State>, s: State, paths: seq<OverlayPath>, taken: set<seq<NodeId>>,
                   limits: set<Gap>, returned: seq<OverlayPath>, limit: set<Gap>)
    requires Met(q, paths, taken, limits) && limit <= {DepthLimit, CycleCut}
    requires (DepthLimit in limit <==> NamesDepth(returned)) && (CycleCut in limit <==> CutWalk(q, s.ids))
    ensures Met(q, paths + returned, taken + {s.ids}, limits + limit)
  {
    hide CutWalk;
    assert NamesDepth(paths + returned) <==> NamesDepth(paths) || NamesDepth(returned) by {
      if NamesDepth(returned) {
        var i :| 0 <= i < |returned| && DepthLimit in returned[i].problems;
        assert (paths + returned)[|paths| + i] == returned[i];
      }
      if NamesDepth(paths) {
        var i :| 0 <= i < |paths| && DepthLimit in paths[i].problems;
        assert (paths + returned)[i] == paths[i];
      }
    }
    hide NamesDepth;
  }

  lemma OneMoreCounted(q: Search, rest: seq<State>, s: State, paths: seq<OverlayPath>, taken: set<seq<NodeId>>,
                       states: nat)
    requires LegInv(q, rest + [s], paths, taken) && Counted(q, taken, states)
    ensures Counted(q, taken + {s.ids}, states + 1)
  {
    TopIsSound(q, rest, s, paths, taken);
  }

  /** What stands in the way of the state, if anything. */
  ghost predicate Diagnosed(q: Search, s: State, problems: seq<Gap>)
    requires s.ids != []
  {
    var named := q.roleGaps + (if Tip(s.ids) !in q.g.nodes then [MissingSeed] else []);
    if named != [] || Tip(s.ids) in q.targets then problems == named
    else if !CanReach(q.g, q.targets, Tip(s.ids)) then problems == [MissingOperationCall]
    else problems == [DepthLimit] && |s.calls| == q.b.maxDepth
  }

  lemma FinalIsNotCut(q: Search, s: State, p: OverlayPath)
    requires SoundPath(q, p) && p.ids == s.ids
    ensures !CutWalk(q, s.ids)
  {
  }

  /** A path that names what its walk ran into is sound. */
  lemma PathIsSound(q: Search, s: State, p: OverlayPath)
    requires q.Valid() && SoundState(q, s) && s.ids != [] && p.ids == s.ids && p.calls == s.calls
    requires p.gaps == PathGaps(p.problems, if p.problems == [] then BodyGaps(q, p.ids) else {})
    requires Diagnosed(q, s, p.problems)
    ensures SoundPath(q, p)
  {
    if Tip(s.ids) !in q.targets {
      ReachesByCall(q, Tip(s.ids));
    }
  }

  class OverlayQuery {
    const graph: MemoryGraph
    const targets: set<NodeId>
    const roleGaps: seq<Gap>
    const body: seq<NodeId> -> set<Gap>

    ghost predicate Valid()
      reads this, graph
    {
      && graph.Valid() && targets <= graph.data.nodes.Keys
      && (forall i :: 0 <= i < |roleGaps| ==> IsRoleGap(roleGaps[i]))
      && forall ids, g :: g in body(ids) ==> g.BodyGap?
    }

    /** The gaps of the manager's role: a manager outside the graph overrides what its role mapping says. */
    constructor (graph: MemoryGraph, manager: NodeId, targets: set<NodeId>, mapped: seq<Gap>,
                 body: seq<NodeId> -> set<Gap>)
      requires graph.Valid() && targets <= graph.data.nodes.Keys && forall ids, g :: g in body(ids) ==> g.BodyGap?
      requires forall i :: 0 <= i < |mapped| ==> mapped[i] in {UnknownRole, AmbiguousRole, AmbiguousRoleConflict,
        AmbiguousComponentRoleConflict}
      ensures Valid() && this.graph == graph && this.targets == targets && this.body == body
      ensures roleGaps == if manager in graph.data.nodes then mapped else [MissingManager]
    {
      this.graph, this.targets, this.body := graph, targets, body;
      roleGaps := if manager in graph.nodes then mapped else [MissingManager];
    }

    /** The callees of a node worth following, in edge order. */
    method RelevantCallees(n: NodeId, relevant: set<NodeId>) returns (callees: seq<NodeId>)
      requires Valid()
      ensures Increasing(callees)
      ensures forall a :: a in callees <==> Calls(graph.data, n, a) && a in relevant
    {
      hide ListsSet, T.Incident, T.EdgesOf, Calls;
      assert graph.Valid();
      hide Valid;
      var edges := graph.Edges(n, T.Outgoing, CALL);
      OutgoingCalls(graph.data, n, edges);
      callees := [];
      for i := 0 to |edges|
        invariant Increasing(callees)
        invariant forall a :: a in callees <==> a in relevant && exists j :: 0 <= j < i && edges[j].identity.target == a
      {
        var target := edges[i].identity.target;
        if target in relevant {
          assert forall j :: 0 <= j < |callees| ==> callees[j] in callees;
          callees := callees + [target];
        }
      }
    }

    /** Push the callees in reverse, leaving out those that would close a cycle. */
    static method Push(s: State, callees: seq<NodeId>) returns (children: seq<State>, cut: bool)
      requires Increasing(callees)
      ensures AreChildren(s, callees, children, cut)
    {
      children, cut := [], false;
      var k := |callees|;
      while k > 0
        invariant 0 <= k <= |callees| && PushedFrom(s, callees, k, children, cut)
      {
        k := k - 1;
        PushOne(s, callees, k, children, cut);
        if callees[k] in s.ids {
          cut := true;
        } else {
          children := children + [Child(s, callees[k])];
        }
      }
    }

    /** One leg of the trace. What it promises is said of the paths and of the limits among its gaps; beyond those,
        the gaps are the ones its paths name, a missing seed, and more than one path. */
    method Leg(seeds: seq<NodeId>, b: OverlayBounds) returns (leg: OverlayLeg, ghost q: Search)
      requires Valid() && b.Valid()
      ensures q.Valid() && q.g == graph.data && q.targets == targets && q.seeds == seeds && q.b == b
      ensures q.roleGaps == roleGaps && q.body == body
      ensures LegPromises(q, leg.paths, Limits(leg.gaps))
      ensures leg.exhaustive <==> Limits(leg.gaps) == {}
      ensures forall g :: g in leg.gaps && !LimitsExhaustion(g) <==>
                || (g == MissingSeed && seeds == []) || (g == AmbiguousPaths && |leg.paths| > 1)
                || (!LimitsExhaustion(g) && exists i :: 0 <= i < |leg.paths| && g in leg.paths[i].gaps)
      ensures leg.status.Complete? <==> leg.gaps == {}
      ensures leg.status.Ambiguous? <==> exists g :: g in leg.gaps && IsAmbiguous(g)
    {
      hide LegPromises, CanReach, ListsSet;
      var relevant := ReverseClosure(graph, targets);
      q := Search(graph.data, targets, relevant, seeds, b, roleGaps, body);
      var paths, limits, exhaustive := Enumerate(q, relevant, seeds, b);
      var gaps := limits + (if seeds == [] then {MissingSeed} else {}) + (if |paths| > 1 then {AmbiguousPaths} else {});
      ghost var start := gaps;
      hide q.Valid, Valid, StatusOf;
      for i := 0 to |paths|
        invariant forall g :: g in gaps <==> g in start || exists j :: 0 <= j < i && g in paths[j].gaps
      {
        gaps := gaps + paths[i].gaps;
      }
      assert Limits(gaps) == limits;
      leg := OverlayLeg(paths, StatusOf(gaps), exhaustive, gaps);
      StatusIsExact(gaps);
    }

    /** The depth-first loop over the stack. `limits` collects the reasons why it is not exhaustive. */
    method Enumerate(ghost q: Search, relevant: set<NodeId>, seeds: seq<NodeId>, b: OverlayBounds)
      returns (paths: seq<OverlayPath>, limits: set<Gap>, exhaustive: bool)
      requires Valid() && q == Search(graph.data, targets, relevant, seeds, b, roleGaps, body) && q.Valid()
      ensures LegPromises(q, paths, limits)
      ensures exhaustive <==> limits == {}
      ensures forall g :: g in limits ==> LimitsExhaustion(g)
      ensures forall i, g :: 0 <= i < |paths| && g in paths[i].gaps && LimitsExhaustion(g) ==> g in limits
    {
      hide *;
      SeedsHold(q);
      NothingMetYet(q);
      var stack := SeedStack(seeds);
      var states := 0;
      ghost var taken: set<seq<NodeId>> := {};
      paths, limits, exhaustive := [], {}, true;
      while stack != []
        invariant LegInv(q, stack, paths, taken) && Met(q, paths, taken, limits) && Counted(q, taken, states)
        invariant |paths| <= b.maxPaths && states <= b.maxStates
        invariant exhaustive <==> limits == {}
        decreases b.maxStates - states
      {
        var s := stack[|stack| - 1];
        assert stack == stack[..|stack| - 1] + [s];
        if states >= b.maxStates || |paths| >= b.maxPaths {
          var limit := if states >= b.maxStates then StateLimit else PathLimit;
          StoppedPromises(q, stack[..|stack| - 1], s, paths, taken, states, limits, limit);
          limits := limits + {limit};
          exhaustive := false;
          OnlyDepth(q, paths, limits);
          return;
        }
        stack := stack[..|stack| - 1];
        states := states + 1;
        var children, returned, limit := Visit(q, relevant, b, stack, s, paths, taken);
        OneMoreMet(q, stack, s, paths, taken, limits, returned, limit);
        OneMoreCounted(q, stack, s, paths, taken, states - 1);
        taken := taken + {s.ids};
        stack, paths, limits := stack + children, paths + returned, limits + limit;
        exhaustive := exhaustive && limit == {};
      }
      FinishedPromises(q, paths, taken, states, limits);
      OnlyDepth(q, paths, limits);
    }

    /** What becomes of one popped state: children to push or one path to return, and any limit it ran into. */
    method Visit(ghost q: Search, relevant: set<NodeId>, b: OverlayBounds, ghost rest: seq<State>, s: State,
                 ghost paths: seq<OverlayPath>, ghost taken: set<seq<NodeId>>)
      returns (children: seq<State>, returned: seq<OverlayPath>, limit: set<Gap>)
      requires Valid() && q == Search(graph.data, targets, relevant, q.seeds, b, roleGaps, body)
      requires LegInv(q, rest + [s], paths, taken)
      ensures LegInv(q, rest + children, paths + returned, taken + {s.ids})
      ensures |returned| <= 1
      ensures limit <= {DepthLimit, CycleCut}
      ensures DepthLimit in limit <==> NamesDepth(returned)
      ensures CycleCut in limit <==> CutWalk(q, s.ids)
    {
      hide *;
      children, returned, limit := [], [], {};
      TopIsSound(q, rest, s, paths, taken);
      NothingMetYet(q);
      var problems, callees := Inspect(q, relevant, b, s);
      if callees != [] {
        var cut;
        children, cut := Push(s, callees);
        PushKeeps(q, rest, s, paths, taken, callees, children, cut);
        CutsAWalk(q, s, cut);
        assert paths + [] == paths;
        limit := if cut then {CycleCut} else {};
        return;
      }
      limit := if DepthLimit in problems then {DepthLimit} else {};
      var gaps := PathGaps(problems, if problems == [] then body(s.ids) else {});
      returned := [OverlayPath(s.ids, s.calls, problems, gaps)];
      BodyIsMatched(q, s.ids);
      PathIsSound(q, s, returned[0]);
      ReturnKeeps(q, rest, s, paths, taken, returned[0]);
      FinalIsNotCut(q, s, returned[0]);
      NamesOne(returned[0]);
      assert rest + [] == rest;
    }

    /** The callees to follow from a state, or what stands in the way of it. */
    method Inspect(ghost q: Search, relevant: set<NodeId>, b: OverlayBounds, s: State)
      returns (problems: seq<Gap>, callees: seq<NodeId>)
      requires Valid() && q == Search(graph.data, targets, relevant, q.seeds, b, roleGaps, body) && q.Valid()
      requires s.ids != [] && |s.calls| <= b.maxDepth
      ensures callees == [] ==> Diagnosed(q, s, problems)
      ensures callees != [] ==> Expands(q, Tip(s.ids)) && |s.calls| < b.maxDepth
      ensures callees != [] ==> Increasing(callees) && forall n :: n in callees <==> GoesTo(q, Tip(s.ids), n)
    {
      hide CanReach;
      var current := s.ids[|s.ids| - 1];
      assert current == Tip(s.ids);
      problems, callees := roleGaps + (if current !in graph.nodes then [MissingSeed] else []), [];
      if problems == [] && current !in targets {
        ReachesByCall(q, current);
        callees := RelevantCallees(current, relevant);
        assert forall n :: n in callees <==> GoesTo(q, current, n);
        if callees == [] {
          problems := [MissingOperationCall];
        } else if |s.calls| >= b.maxDepth {
          assert callees[0] in callees;
          problems, callees := [DepthLimit], [];
        }
      }
    }
  }

  /** The callees from the `k`-th on have been handled. */
  ghost predicate PushedFrom(s: State, callees: seq<NodeId>, k: nat, children: seq<State>, cut: bool)
    requires k <= |callees|
  {
    AreChildren(s, callees[k..], children, cut)
  }

  lemma PushOne(s: State, callees: seq<NodeId>, k: nat, children: seq<State>, cut: bool)
    requires k < |callees| && PushedFrom(s, callees, k + 1, children, cut)
    requires Increasing(callees)
    ensures callees[k] in s.ids ==> PushedFrom(s, callees, k, children, true)
    ensures callees[k] !in s.ids ==> PushedFrom(s, callees, k, children + [Child(s, callees[k])], cut)
  {
    var head, tail := callees[k], callees[k + 1..];
    assert callees[k..] == [head] + tail;
    assert forall i :: 0 <= i < |tail| ==> tail[i] == callees[k + 1 + i];
    hide AreChildren;
    if head in s.ids {
      SkipHead(s, head, tail, children, cut);
    } else {
      AddHead(s, head, tail, children, cut);
    }
  }

  lemma SkipHead(s: State, head: NodeId, tail: seq<NodeId>, children: seq<State>, cut: bool)
    requires AreChildren(s, tail, children, cut) && head in s.ids
    ensures AreChildren(s, [head] + tail, children, true)
  {
    var all := [head] + tail;
    assert forall n :: n in all <==> n == head || n in tail;
    forall i | 0 <= i < |children| ensures Extends(s, all, children[i]) {
      assert Extends(s, tail, children[i]);
    }
    hide Extends;
  }

  lemma AddHead(s: State, head: NodeId, tail: seq<NodeId>, children: seq<State>, cut: bool)
    requires AreChildren(s, tail, children, cut) && head !in s.ids && forall n :: n in tail ==> head < n
    ensures AreChildren(s, [head] + tail, children + [Child(s, head)], cut)
  {
    var all, more := [head] + tail, children + [Child(s, head)];
    assert forall n :: n in all <==> n == head || n in tail;
    forall i | 0 <= i < |more| ensures Extends(s, all, more[i]) {
      assert i < |children| ==> Extends(s, tail, children[i]);
    }
    forall i | 0 <= i < |children| ensures LastOf(Child(s, head)) < LastOf(children[i]) {
      assert Extends(s, tail, children[i]);
      assert LastOf(Child(s, head)) == head && LastOf(children[i]) in tail;
    }
    hide Extends;
    forall n | n in all && n !in s.ids ensures Child(s, n) in more {
      assert n == head ==> more[|children|] == Child(s, n);
    }
    hide Child;
  }
}
