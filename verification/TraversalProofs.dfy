/** What a bounded traversal returns: true shortest distances in every run, everything within reach when no
    budget interferes, an honest reason when one does, and growth when a budget is raised. */
module TraversalProofs {
  import opened Prelude
  import opened Graph
  import opened Traversal

  // ---- The invariant of the search ------------------------------------------------------------------

  ghost predicate SeenBy(s: Search, n: NodeId, d: nat) {
    exists i :: 0 <= i < |s.visits| && s.visits[i].node == n && s.visits[i].depth <= d
  }

  /** Every matching edge of visit `c` is admitted, and its far end is seen no more than one step further. */
  ghost predicate Settled(q: Query, s: Search, c: Visit, edges: set<EdgeIdentity>) {
    forall e :: e in edges ==> e in s.edges && SeenBy(s, Other(e, c.node), c.depth + 1)
  }

  /** The first `m` visits have been expanded completely. */
  ghost predicate ClosedTo(q: Query, b: Bounds, s: Search, m: nat)
    requires m <= |s.visits|
  {
    forall i :: 0 <= i < m && s.visits[i].depth < b.maxDepth ==>
      Settled(q, s, s.visits[i], Incident(q, s.visits[i].node))
  }

  ghost predicate Ordered(q: Query, seed: NodeId, b: Bounds, s: Search) {
    && Tame(q, s) && s.visits != [] && s.visits[0] == Visit(seed, 0)
    && (forall i, j :: 0 <= i < j < |s.visits| ==> s.visits[i].depth <= s.visits[j].depth)
    && (forall i :: 0 <= i < |s.visits| ==> s.visits[i].depth <= b.maxDepth)
    && (forall i :: 0 <= i < |s.visits| && s.head > 0 ==> s.visits[i].depth <= s.visits[s.head - 1].depth + 1)
    && (s.head == 0 ==> |s.visits| == 1)
    && forall i :: 0 <= i < |s.visits| ==> IsDistance(q, seed, s.visits[i].node, s.visits[i].depth)
  }

  ghost predicate Budgeted(b: Bounds, s: Search) {
    && |s.visits| <= b.maxNodes && |s.edges| <= b.maxEdges
    && forall i, j :: 0 <= i < j < |s.edges| ==> s.edges[i] != s.edges[j]
  }

  /** Admitted edges belong to expanded visits, and both of their ends have been seen. */
  ghost predicate Sourced(q: Query, b: Bounds, s: Search) {
    && (forall e :: e in s.edges ==> s.Saw(e.source) && s.Saw(e.target))
    && forall e :: e in s.edges ==>
      exists i :: 0 <= i < s.head && i < |s.visits| && s.visits[i].depth < b.maxDepth &&
        e in Incident(q, s.visits[i].node)
  }

  ghost predicate SearchInv(q: Query, seed: NodeId, b: Bounds, s: Search) {
    && Ordered(q, seed, b, s) && Budgeted(b, s) && Sourced(q, b, s)
    && (s.stop.None? ==> ClosedTo(q, b, s, s.head))
    && (s.stop.Some? ==>
          s.head > 0 && ClosedTo(q, b, s, s.head - 1) && Refused(q, b, s, s.visits[s.head - 1], s.stop.value)) }

  /** The reported budget is exactly full, and it kept out an edge of the visit being expanded. */
  ghost predicate Refused(q: Query, b: Bounds, s: Search, c: Visit, stop: Stop) {
    && c.depth < b.maxDepth
    && match stop
       case EdgeLimit => |s.edges| == b.maxEdges && exists e :: e in Incident(q, c.node) && e !in s.edges
       case NodeLimit =>
         && |s.visits| == b.maxNodes && |s.edges| < b.maxEdges
         && exists e :: e in Incident(q, c.node) && e !in s.edges && !s.Saw(Other(e, c.node))
  }

  // ---- Distances ------------------------------------------------------------------------------------

  /** While every visit nearer than `d` is settled, everything reachable in at most `d` steps has been seen. */
  lemma {:induction false} NearIsSeen(q: Query, seed: NodeId, b: Bounds, s: Search, m: nat, d: nat, n: NodeId, k: nat)
    requires Ordered(q, seed, b, s) && m <= |s.visits| && ClosedTo(q, b, s, m)
    requires forall i :: 0 <= i < |s.visits| && s.visits[i].depth < d ==> i < m
    requires k <= d <= b.maxDepth && Reaches(q, seed, n, k)
    ensures SeenBy(s, n, k)
    decreases k
  {
    if k == 0 {
      assert s.visits[0].node == n;
    } else {
      var p :| p in q.graph.nodes && Reaches(q, seed, p, k - 1) && Adjacent(q, p, n);
      NearIsSeen(q, seed, b, s, m, d, p, k - 1);
      var i :| 0 <= i < |s.visits| && s.visits[i].node == p && s.visits[i].depth <= k - 1;
      var e :| e in Incident(q, p) && Other(e, p) == n;
      assert Settled(q, s, s.visits[i], Incident(q, p));
    }
  }

  /** A node seen for the first time from the `m`-th visit is exactly one step further away. */
  lemma DiscoveryDistance(q: Query, seed: NodeId, b: Bounds, s: Search, m: nat, e: EdgeIdentity)
    requires Ordered(q, seed, b, s) && m < |s.visits| && ClosedTo(q, b, s, m) && s.visits[m].depth < b.maxDepth
    requires e in Incident(q, s.visits[m].node) && !s.Saw(Other(e, s.visits[m].node))
    ensures IsDistance(q, seed, Other(e, s.visits[m].node), s.visits[m].depth + 1)
  {
    var c := s.visits[m];
    var n := Other(e, c.node);
    assert Adjacent(q, c.node, n);
    assert Reaches(q, seed, n, c.depth + 1);
    forall k: nat | k < c.depth + 1 ensures !Reaches(q, seed, n, k) {
      if Reaches(q, seed, n, k) {
        NearIsSeen(q, seed, b, s, m, c.depth, n, k);
        assert s.Saw(n);
      }
    }
  }

  // ---- Every step keeps the invariant ---------------------------------------------------------------

  /** The state while visit `m` is being expanded: its edges in `done` are settled. */
  ghost predicate Expanding(q: Query, seed: NodeId, b: Bounds, s: Search, m: nat, done: set<EdgeIdentity>) {
    && s.head == m + 1 && m < |s.visits| && s.visits[m].depth < b.maxDepth && s.stop.None?
    && Ordered(q, seed, b, s) && Budgeted(b, s) && Sourced(q, b, s)
    && ClosedTo(q, b, s, m) && Settled(q, s, s.visits[m], done)
  }

  lemma SettledGrows(q: Query, s: Search, t: Search, c: Visit, edges: set<EdgeIdentity>)
    requires Settled(q, s, c, edges) && s.visits <= t.visits && s.edges <= t.edges
    ensures Settled(q, t, c, edges)
  {
    forall e | e in edges ensures e in t.edges && SeenBy(t, Other(e, c.node), c.depth + 1) {
      var i :| 0 <= i < |s.visits| && s.visits[i].node == Other(e, c.node) && s.visits[i].depth <= c.depth + 1;
      assert t.visits[i] == s.visits[i];
      var j :| 0 <= j < |s.edges| && s.edges[j] == e;
      assert t.edges[j] == e;
    }
  }

  lemma ClosedGrows(q: Query, b: Bounds, s: Search, t: Search, m: nat)
    requires m <= |s.visits| && ClosedTo(q, b, s, m) && s.visits <= t.visits && s.edges <= t.edges
    ensures ClosedTo(q, b, t, m)
  {
    forall i | 0 <= i < m && t.visits[i].depth < b.maxDepth
      ensures Settled(q, t, t.visits[i], Incident(q, t.visits[i].node))
    {
      SettledGrows(q, s, t, s.visits[i], Incident(q, s.visits[i].node));
    }
  }

  lemma SawGrows(s: Search, t: Search, n: NodeId)
    requires s.Saw(n) && s.visits <= t.visits
    ensures t.Saw(n)
  {
    var i :| 0 <= i < |s.visits| && s.visits[i].node == n;
    assert t.visits[i].node == n;
  }

  lemma SourcedGrows(q: Query, b: Bounds, s: Search, t: Search, m: nat, e: EdgeIdentity)
    requires Sourced(q, b, s) && s.visits <= t.visits && t.head == s.head == m + 1 && m < |s.visits|
    requires s.visits[m].depth < b.maxDepth && e in Incident(q, s.visits[m].node)
    requires t.edges == s.edges + [e] && t.Saw(Other(e, s.visits[m].node))
    ensures Sourced(q, b, t)
  {
    assert t.visits[m] == s.visits[m];
    forall x | x in t.edges
      ensures t.Saw(x.source) && t.Saw(x.target)
      ensures exists i ::
                && 0 <= i < t.head && i < |t.visits| && t.visits[i].depth < b.maxDepth
                && x in Incident(q, t.visits[i].node)
    {
      if x in s.edges {
        SawGrows(s, t, x.source);
        SawGrows(s, t, x.target);
        var i :| 0 <= i < s.head && i < |s.visits| && s.visits[i].depth < b.maxDepth &&
              x in Incident(q, s.visits[i].node);
        assert t.visits[i] == s.visits[i];
      } else {
        assert x == e && t.Saw(s.visits[m].node);
      }
    }
  }

  /** An admitted edge keeps the order of the queue; a newly seen node gets its true distance. */
  lemma AdmitOrders(q: Query, seed: NodeId, b: Bounds, s: Search, m: nat, done: set<EdgeIdentity>, e: EdgeIdentity)
    requires Expanding(q, seed, b, s, m, done) && e in Incident(q, s.visits[m].node)
    ensures Ordered(q, seed, b, Admit(b, s, s.visits[m], e))
    ensures Admit(b, s, s.visits[m], e).visits <= s.visits + [Visit(Other(e, s.visits[m].node), s.visits[m].depth + 1)]
    ensures s.visits <= Admit(b, s, s.visits[m], e).visits
  {
    var c, t := s.visits[m], Admit(b, s, s.visits[m], e);
    if t.visits != s.visits {
      OtherIsKnown(q, c.node, e);
      DiscoveryDistance(q, seed, b, s, m, e);
    }
  }

  lemma AdmitKeeps(q: Query, seed: NodeId, b: Bounds, s: Search, m: nat, done: set<EdgeIdentity>, e: EdgeIdentity)
    requires Expanding(q, seed, b, s, m, done) && e in Incident(q, s.visits[m].node)
    ensures var t := Admit(b, s, s.visits[m], e);
            t.stop.None? ==> Expanding(q, seed, b, t, m, done + {e})
  {
    var c, t := s.visits[m], Admit(b, s, s.visits[m], e);
    AdmitOrders(q, seed, b, s, m, done, e);
    if t.stop.None? {
      ClosedGrows(q, b, s, t, m);
      SettledGrows(q, s, t, c, done);
      FarEndIsSeen(q, seed, b, s, m, done, e);
      if e !in s.edges {
        SourcedGrows(q, b, s, t, m, e);
      }
    }
  }

  lemma FarEndIsSeen(q: Query, seed: NodeId, b: Bounds, s: Search, m: nat, done: set<EdgeIdentity>, e: EdgeIdentity)
    requires Expanding(q, seed, b, s, m, done) && e in Incident(q, s.visits[m].node)
    requires Admit(b, s, s.visits[m], e).stop.None?
    ensures SeenBy(Admit(b, s, s.visits[m], e), Other(e, s.visits[m].node), s.visits[m].depth + 1)
    ensures e in Admit(b, s, s.visits[m], e).edges
  {
    var c, t := s.visits[m], Admit(b, s, s.visits[m], e);
    var n := Other(e, c.node);
    assert e in s.edges ==> s.Saw(n);
    if s.Saw(n) {
      var i :| 0 <= i < |s.visits| && s.visits[i].node == n;
      assert t.visits[i] == s.visits[i];
    } else {
      assert t.visits[|s.visits|] == Visit(n, c.depth + 1);
    }
  }

  predicate Remaining(all: set<EdgeIdentity>, done: set<EdgeIdentity>, edges: seq<EdgeIdentity>) {
    && (forall e :: e in edges ==> e in all)
    && forall e :: e in all ==> e in done || e in edges
  }

  lemma NextRemains(all: set<EdgeIdentity>, done: set<EdgeIdentity>, edges: seq<EdgeIdentity>)
    requires Remaining(all, done, edges) && edges != []
    ensures edges[0] in all && Remaining(all, done + {edges[0]}, edges[1..])
  {
    assert edges[0] in edges;
    forall e | e in all ensures e in done + {edges[0]} || e in edges[1..] {
      if e in edges && e != edges[0] {
        var i :| 0 <= i < |edges| && edges[i] == e;
        assert edges[1..][i - 1] == e;
      }
    }
  }

  lemma {:induction false} InspectKeeps(q: Query, seed: NodeId, b: Bounds, s: Search, m: nat, done: set<EdgeIdentity>,
                                        edges: seq<EdgeIdentity>)
    requires Expanding(q, seed, b, s, m, done) && Remaining(Incident(q, s.visits[m].node), done, edges)
    ensures SearchInv(q, seed, b, Inspect(b, s, s.visits[m], edges))
    decreases |edges|
  {
    var c, all := s.visits[m], Incident(q, s.visits[m].node);
    assert s.stop.None?;
    if edges == [] {
      ExpandedIsClosed(q, seed, b, s, m, done);
    } else {
      hide Expanding, SearchInv, Admit, Incident, Remaining;
      var e, t := edges[0], Admit(b, s, c, edges[0]);
      NextRemains(all, done, edges);
      AdmitKeeps(q, seed, b, s, m, done, e);
      AdmitOrders(q, seed, b, s, m, done, e);
      if t.stop.None? {
        assert t.visits[m] == c;
        InspectKeeps(q, seed, b, t, m, done + {e}, edges[1..]);
      } else {
        StoppedIsRefused(q, seed, b, s, m, done, e);
        assert Inspect(b, t, c, edges[1..]) == t;
      }
    }
  }

  lemma ExpandedIsClosed(q: Query, seed: NodeId, b: Bounds, s: Search, m: nat, done: set<EdgeIdentity>)
    requires Expanding(q, seed, b, s, m, done) && Incident(q, s.visits[m].node) <= done
    ensures SearchInv(q, seed, b, s)
  {
    assert Settled(q, s, s.visits[m], Incident(q, s.visits[m].node));
  }

  lemma StoppedIsRefused(q: Query, seed: NodeId, b: Bounds, s: Search, m: nat, done: set<EdgeIdentity>, e: EdgeIdentity)
    requires Expanding(q, seed, b, s, m, done) && e in Incident(q, s.visits[m].node)
    requires Admit(b, s, s.visits[m], e).stop.Some?
    ensures SearchInv(q, seed, b, Admit(b, s, s.visits[m], e))
  {
    var t := Admit(b, s, s.visits[m], e);
    assert t.visits == s.visits && t.edges == s.edges;
    assert !s.Saw(Other(e, s.visits[m].node)) ==> !t.Saw(Other(e, s.visits[m].node));
    assert Refused(q, b, t, t.visits[m], t.stop.value);
    assert Sourced(q, b, t);
    ClosedGrows(q, b, s, t, m);
  }

  lemma TakeKeeps(q: Query, seed: NodeId, b: Bounds, s: Search)
    requires SearchInv(q, seed, b, s) && s.stop.None? && s.head < |s.visits|
    ensures var taken := s.(head := s.head + 1);
            && (s.visits[s.head].depth < b.maxDepth ==> Expanding(q, seed, b, taken, s.head, {}))
            && (s.visits[s.head].depth == b.maxDepth ==> SearchInv(q, seed, b, taken))
  {
    var taken := s.(head := s.head + 1);
    assert forall n :: s.Saw(n) <==> taken.Saw(n);
    assert Ordered(q, seed, b, taken);
    assert Sourced(q, b, taken);
    ClosedGrows(q, b, s, taken, s.head);
  }

  lemma AllRemain(q: Query, n: NodeId)
    ensures Remaining(Incident(q, n), {}, EdgesOf(q, n))
  {
    assert Elements(EdgesOf(q, n)) == Incident(q, n);
    assert forall e :: e in EdgesOf(q, n) <==> e in Elements(EdgesOf(q, n));
  }

  lemma ExpandKeeps(q: Query, seed: NodeId, b: Bounds, s: Search)
    requires SearchInv(q, seed, b, s) && b.Valid() && s.stop.None? && s.head < |s.visits|
    ensures SearchInv(q, seed, b, Expand(q, b, s))
  {
    var m := s.head;
    var c, taken := s.visits[m], s.(head := m + 1);
    assert c.depth <= b.maxDepth;
    TakeKeeps(q, seed, b, s);
    hide SearchInv, Expanding, Incident, Remaining, EdgesOf;
    if c.depth < b.maxDepth {
      AllRemain(q, c.node);
      InspectKeeps(q, seed, b, taken, m, {}, EdgesOf(q, c.node));
    }
  }

  lemma StartHolds(q: Query, seed: NodeId, b: Bounds)
    requires q.graph.Valid() && b.Valid() && seed in q.graph.nodes
    ensures SearchInv(q, seed, b, Start(seed))
  {
    assert IsDistance(q, seed, seed, 0);
  }

  lemma {:induction false} ExploreKeeps(q: Query, seed: NodeId, b: Bounds, s: Search)
    requires SearchInv(q, seed, b, s) && b.Valid()
    ensures SearchInv(q, seed, b, Explore(q, b, s))
    decreases |q.graph.nodes.Keys| - s.head
  {
    if s.head != |s.visits| && s.stop.None? {
      ExpandIsTame(q, b, s);
      ExpandKeeps(q, seed, b, s);
      ExploreKeeps(q, seed, b, Expand(q, b, s));
    }
  }

  // ---- Main results ---------------------------------------------------------------------------------

  ghost predicate Visited(r: TraversalResult, n: NodeId) {
    exists i :: 0 <= i < |r.visits| && r.visits[i].node == n
  }

  lemma FinalState(q: Query, b: Bounds, seed: NodeId) returns (s: Search)
    requires q.graph.Valid() && b.Valid() && seed in q.graph.nodes
    ensures SearchInv(q, seed, b, s) && (s.stop.None? ==> s.head == |s.visits|)
    ensures Traverse(q, b, seed) == TraversalResult(s.visits, Sort(Elements(s.edges)), s.stop)
  {
    StartHolds(q, seed, b);
    ExploreKeeps(q, seed, b, Start(seed));
    s := Explore(q, b, Start(seed));
  }

  /** Every visit carries the true shortest filtered distance from the seed, each node is visited once, and
      no cap is exceeded, also when a budget cuts the traversal short. */
  lemma VisitsAreShortest(q: Query, b: Bounds, seed: NodeId)
    requires q.graph.Valid() && b.Valid()
    ensures var r := Traverse(q, b, seed);
            && (forall i :: 0 <= i < |r.visits| ==> IsDistance(q, seed, r.visits[i].node, r.visits[i].depth))
            && (forall i, j :: 0 <= i < j < |r.visits| ==>
                  r.visits[i].node != r.visits[j].node && r.visits[i].depth <= r.visits[j].depth)
            && |r.visits| <= b.maxNodes && |r.edges| <= b.maxEdges
  {
    if seed in q.graph.nodes {
      var s := FinalState(q, b, seed);
      DistinctCount(s.edges);
      SortedCount(Sort(Elements(s.edges)));
    }
  }

  lemma {:induction false} DistinctCount(s: seq<EdgeIdentity>)
    ensures |Elements(s)| <= |s|
  {
    if s != [] {
      DistinctCount(s[1..]);
      assert Elements(s) == {s[0]} + Elements(s[1..]);
    }
  }

  lemma {:induction false} SortedCount(s: seq<EdgeIdentity>)
    requires StrictlySorted(s)
    ensures |s| == |Elements(s)|
  {
    if s != [] {
      TailElements(s);
      SortedCount(s[1..]);
      assert s[0] in Elements(s);
    }
  }

  /** Without a stop, the visits are exactly the nodes within the depth bound, and the edges exactly those
      incident, in the chosen direction, to nodes nearer than the bound. */
  lemma CompleteWithoutStop(q: Query, b: Bounds, seed: NodeId)
    requires q.graph.Valid() && b.Valid() && seed in q.graph.nodes && Traverse(q, b, seed).stoppedBy.None?
    ensures forall n :: Visited(Traverse(q, b, seed), n) <==> Within(q, seed, n, b.maxDepth)
    ensures forall e :: e in Traverse(q, b, seed).edges <==>
              exists n :: b.maxDepth > 0 && Within(q, seed, n, b.maxDepth - 1) && e in Incident(q, n)
  {
    var r := Traverse(q, b, seed);
    var s := FinalState(q, b, seed);
    forall n ensures Visited(r, n) <==> Within(q, seed, n, b.maxDepth) {
      NodesWithin(q, b, seed, s, n);
    }
    forall e
      ensures e in r.edges <==>
                 exists n :: b.maxDepth > 0 && Within(q, seed, n, b.maxDepth - 1) && e in Incident(q, n)
    {
      EdgesWithin(q, b, seed, s, e);
      assert e in r.edges <==> e in Elements(r.edges);
    }
  }

  lemma NodesWithin(q: Query, b: Bounds, seed: NodeId, s: Search, n: NodeId)
    requires SearchInv(q, seed, b, s) && s.stop.None? && s.head == |s.visits|
    ensures s.Saw(n) <==> Within(q, seed, n, b.maxDepth)
  {
    if s.Saw(n) {
      var i :| 0 <= i < |s.visits| && s.visits[i].node == n;
      assert Reaches(q, seed, n, s.visits[i].depth);
    }
    if Within(q, seed, n, b.maxDepth) {
      var k: nat :| k <= b.maxDepth && Reaches(q, seed, n, k);
      NearIsSeen(q, seed, b, s, s.head, b.maxDepth, n, k);
    }
  }

  lemma EdgesWithin(q: Query, b: Bounds, seed: NodeId, s: Search, e: EdgeIdentity)
    requires SearchInv(q, seed, b, s) && s.stop.None? && s.head == |s.visits|
    ensures e in s.edges <==> exists n :: b.maxDepth > 0 && Within(q, seed, n, b.maxDepth - 1) && e in Incident(q, n)
  {
    if e in s.edges {
      EdgeIsNear(q, b, seed, s, e);
    }
    if n :| b.maxDepth > 0 && Within(q, seed, n, b.maxDepth - 1) && e in Incident(q, n) {
      NearEdgeIsIn(q, b, seed, s, e, n);
    }
  }

  lemma EdgeIsNear(q: Query, b: Bounds, seed: NodeId, s: Search, e: EdgeIdentity)
    requires SearchInv(q, seed, b, s) && e in s.edges
    ensures b.maxDepth > 0 && exists n :: Within(q, seed, n, b.maxDepth - 1) && e in Incident(q, n)
  {
    var i :| 0 <= i < s.head && i < |s.visits| && s.visits[i].depth < b.maxDepth && e in Incident(q, s.visits[i].node);
    assert Reaches(q, seed, s.visits[i].node, s.visits[i].depth);
    assert Within(q, seed, s.visits[i].node, b.maxDepth - 1);
  }

  lemma NearEdgeIsIn(q: Query, b: Bounds, seed: NodeId, s: Search, e: EdgeIdentity, n: NodeId)
    requires SearchInv(q, seed, b, s) && s.stop.None? && s.head == |s.visits|
    requires b.maxDepth > 0 && Within(q, seed, n, b.maxDepth - 1) && e in Incident(q, n)
    ensures e in s.edges
  {
    var k: nat :| k <= b.maxDepth - 1 && Reaches(q, seed, n, k);
    NearIsSeen(q, seed, b, s, s.head, b.maxDepth, n, k);
    var i :| 0 <= i < |s.visits| && s.visits[i].node == n && s.visits[i].depth <= k;
    assert Settled(q, s, s.visits[i], Incident(q, n));
  }

  /** A reported stop names a budget that is exactly full, and a matching edge of an expanded node was refused:
      for the node budget, one that leads to a node not visited. */
  lemma StopIsHonest(q: Query, b: Bounds, seed: NodeId)
    requires q.graph.Valid() && b.Valid() && seed in q.graph.nodes && Traverse(q, b, seed).stoppedBy.Some?
    ensures var r := Traverse(q, b, seed);
            exists c, e :: c in r.visits && c.depth < b.maxDepth && e in Incident(q, c.node) && e !in r.edges &&
              (r.stoppedBy.value == EdgeLimit ==> |r.edges| == b.maxEdges) &&
              (r.stoppedBy.value == NodeLimit ==> |r.visits| == b.maxNodes && !Visited(r, Other(e, c.node)))
  {
    var r := Traverse(q, b, seed);
    var s := FinalState(q, b, seed);
    var c := s.visits[s.head - 1];
    ExactCount(s.edges);
    SortedCount(r.edges);
    assert forall e :: e in r.edges <==> e in Elements(s.edges) by {
      assert forall e :: e in r.edges <==> e in Elements(r.edges);
    }
    if s.stop.value == EdgeLimit {
      var e :| e in Incident(q, c.node) && e !in s.edges;
      assert c in r.visits && e !in r.edges;
    } else {
      var e :| e in Incident(q, c.node) && e !in s.edges && !s.Saw(Other(e, c.node));
      assert c in r.visits && e !in r.edges;
    }
  }

  lemma {:induction false} ExactCount(s: seq<EdgeIdentity>)
    requires forall i, j :: 0 <= i < j < |s| ==> s[i] != s[j]
    ensures |Elements(s)| == |s|
  {
    if s != [] {
      ExactCount(s[1..]);
      assert Elements(s) == {s[0]} + Elements(s[1..]);
    }
  }

  // ---- Raising a budget -----------------------------------------------------------------------------

  predicate AtMost(b: Bounds, c: Bounds) {
    b.maxDepth <= c.maxDepth && b.maxNodes <= c.maxNodes && b.maxEdges <= c.maxEdges
  }

  ghost predicate Extends(s: Search, t: Search) {
    s.visits <= t.visits && s.edges <= t.edges
  }

  lemma AdmitAgrees(b: Bounds, c: Bounds, s: Search, current: Visit, e: EdgeIdentity)
    requires AtMost(b, c) && Budgeted(b, s) && s.stop.None?
    ensures Admit(b, s, current, e).stop.None? ==> Admit(c, s, current, e) == Admit(b, s, current, e)
    ensures Extends(Admit(b, s, current, e), Admit(c, s, current, e))
  {
  }

  lemma AdmitBudgets(b: Bounds, s: Search, current: Visit, e: EdgeIdentity)
    requires Budgeted(b, s)
    ensures Budgeted(b, Admit(b, s, current, e))
  {
  }

  /** The larger budget repeats the inspection as long as the smaller one goes on, and adds to it afterwards. */
  lemma {:induction false} InspectAgrees(q: Query, b: Bounds, c: Bounds, s: Search, current: Visit,
                                         edges: seq<EdgeIdentity>)
    requires AtMost(b, c) && Budgeted(b, s) && s.stop.None? && Tame(q, s) && forall e :: e in edges ==>
               e in q.graph.edges
    ensures var t := Inspect(b, s, current, edges);
            && (t.stop.None? ==> Inspect(c, s, current, edges) == t)
            && Extends(t, Inspect(c, s, current, edges))
    decreases |edges|
  {
    if edges != [] {
      AdmitAgrees(b, c, s, current, edges[0]);
      AdmitBudgets(b, s, current, edges[0]);
      assert edges[0] in edges;
      OtherIsKnown(q, current.node, edges[0]);
      var t := Admit(b, s, current, edges[0]);
      if t.stop.None? {
        InspectAgrees(q, b, c, t, current, edges[1..]);
      } else {
        InspectIsTame(q, c, s, current, edges);
      }
    }
  }

  /** Once the nearest waiting visit is at the depth bound, the rest of the queue adds nothing. */
  lemma {:induction false} DepthEnds(q: Query, seed: NodeId, b: Bounds, s: Search)
    requires SearchInv(q, seed, b, s) && b.Valid() && s.stop.None?
    requires s.head < |s.visits| ==> s.visits[s.head].depth == b.maxDepth
    ensures Explore(q, b, s).visits == s.visits && Explore(q, b, s).edges == s.edges
    decreases |q.graph.nodes.Keys| - s.head
  {
    if s.head < |s.visits| {
      ExpandIsTame(q, b, s);
      ExpandKeeps(q, seed, b, s);
      DepthEnds(q, seed, b, Expand(q, b, s));
    }
  }

  lemma {:induction false} ExploreGrows(q: Query, seed: NodeId, b: Bounds, c: Bounds, s: Search)
    requires SearchInv(q, seed, b, s) && b.Valid() && AtMost(b, c) && s.stop.None?
    ensures Extends(Explore(q, b, s), Explore(q, c, s))
    decreases |q.graph.nodes.Keys| - s.head
  {
    SearchIsTame(q, seed, b, s);
    if s.head < |s.visits| {
      ExpandKeeps(q, seed, b, s);
      hide SearchInv, Tame, Budgeted, Expand, AtMost, Explore;
      ExploreSteps(q, b, s);
      ExploreSteps(q, c, s);
      if s.visits[s.head].depth == b.maxDepth {
        DepthEnds(q, seed, b, s);
      } else {
        ExpandAgrees(q, b, c, s);
        if Expand(q, b, s).stop.None? {
          ExploreGrows(q, seed, b, c, Expand(q, b, s));
        }
      }
    }
  }

  lemma ExploreSteps(q: Query, b: Bounds, s: Search)
    requires Tame(q, s) && s.stop.None? && s.head < |s.visits|
    ensures Tame(q, Expand(q, b, s)) && Expand(q, b, s).head == s.head + 1 <= |q.graph.nodes.Keys|
    ensures Explore(q, b, s) == Explore(q, b, Expand(q, b, s))
    ensures Expand(q, b, s).stop.Some? ==> Explore(q, b, s) == Expand(q, b, s)
    ensures s.visits <= Expand(q, b, s).visits && s.edges <= Expand(q, b, s).edges
  {
    hide Tame, Expand;
    ExpandIsTame(q, b, s);
  }

  lemma SearchIsTame(q: Query, seed: NodeId, b: Bounds, s: Search)
    requires SearchInv(q, seed, b, s)
    ensures Tame(q, s) && Budgeted(b, s) && s.head <= |s.visits| &&
            (s.head < |s.visits| ==> s.visits[s.head].depth <= b.maxDepth)
  {
  }

  lemma ExpandAgrees(q: Query, b: Bounds, c: Bounds, s: Search)
    requires AtMost(b, c) && Tame(q, s) && Budgeted(b, s) && s.stop.None?
    requires s.head < |s.visits| && s.visits[s.head].depth < b.maxDepth
    ensures Expand(q, b, s).stop.None? ==> Expand(q, c, s) == Expand(q, b, s)
    ensures Extends(Expand(q, b, s), Expand(q, c, s))
  {
    var edges, taken := EdgesOf(q, s.visits[s.head].node), s.(head := s.head + 1);
    EdgesAreKnown(q, s.visits[s.head].node);
    assert Tame(q, taken) && Budgeted(b, taken);
    hide Tame, Budgeted, Inspect, EdgesOf, Expand;
    ExpandInspects(q, b, s);
    ExpandInspects(q, c, s);
    InspectAgrees(q, b, c, taken, s.visits[s.head], edges);
  }

  lemma ExpandInspects(q: Query, b: Bounds, s: Search)
    requires s.head < |s.visits| && s.visits[s.head].depth != b.maxDepth
    ensures Expand(q, b, s) == Inspect(b, s.(head := s.head + 1), s.visits[s.head], EdgesOf(q, s.visits[s.head].node))
  {
    hide Inspect, EdgesOf;
  }

  lemma EdgesAreKnown(q: Query, n: NodeId)
    ensures forall e :: e in EdgesOf(q, n) ==> e in q.graph.edges
  {
    var edges := EdgesOf(q, n);
    assert forall e :: e in edges ==> e in Elements(edges);
  }

  /** Raising any budget extends the visit list only at its end and only adds edges. */
  lemma RaisingBudgetsExtends(q: Query, b: Bounds, c: Bounds, seed: NodeId)
    requires q.graph.Valid() && b.Valid() && AtMost(b, c)
    ensures Traverse(q, b, seed).visits <= Traverse(q, c, seed).visits
    ensures forall e :: e in Traverse(q, b, seed).edges ==> e in Traverse(q, c, seed).edges
  {
    if seed in q.graph.nodes {
      StartHolds(q, seed, b);
      ExploreGrows(q, seed, b, c, Start(seed));
      var s, t := Explore(q, b, Start(seed)), Explore(q, c, Start(seed));
      forall e | e in Sort(Elements(s.edges)) ensures e in Sort(Elements(t.edges)) {
        assert e in Elements(Sort(Elements(s.edges)));
        assert e in Elements(Sort(Elements(t.edges)));
      }
    }
  }
}
