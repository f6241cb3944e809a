/** Breadth-first traversal with depth, node and edge budgets: what it means, and that it means it. */
module Traversal {
  import opened Prelude
  import opened Graph

  datatype Direction = Outgoing | Incoming | Both

  /** One consistent graph under a direction and a relation filter (`None` matches every relation). */
  datatype Query = Query(graph: GraphData, direction: Direction, relations: Option<set<RelationType>>)

  datatype Bounds = Bounds(maxDepth: nat, maxNodes: nat, maxEdges: nat) {
    predicate Valid() {
      maxNodes >= 1
    }
  }

  datatype Visit = Visit(node: NodeId, depth: nat)

  datatype Stop = NodeLimit | EdgeLimit

  datatype TraversalResult = TraversalResult(visits: seq<Visit>, edges: seq<EdgeIdentity>, stoppedBy: Option<Stop>)

  predicate Touches(e: EdgeIdentity, n: NodeId, direction: Direction) {
    match direction
    case Outgoing => e.source == n
    case Incoming => e.target == n
    case Both => e.source == n || e.target == n
  }

  predicate Allows(relations: Option<set<RelationType>>, r: RelationType) {
    relations.None? || r in relations.value
  }

  function Other(e: EdgeIdentity, n: NodeId): NodeId {
    if e.source == n then e.target else e.source
  }

  ghost function Incident(q: Query, n: NodeId): set<EdgeIdentity> {
    set e | e in q.graph.edges && Touches(e, n, q.direction) && Allows(q.relations, e.relation)
  }

  ghost function EdgesOf(q: Query, n: NodeId): seq<EdgeIdentity> {
    Sort(Incident(q, n))
  }

  // ---- Distance -------------------------------------------------------------------------------------

  ghost predicate Adjacent(q: Query, m: NodeId, n: NodeId) {
    exists e :: e in Incident(q, m) && Other(e, m) == n
  }

  /** Some walk of exactly `k` filtered edges leads from the seed to `n`. */
  ghost predicate Reaches(q: Query, seed: NodeId, n: NodeId, k: nat)
    decreases k
  {
    if k == 0 then n == seed
    else exists m :: m in q.graph.nodes && Reaches(q, seed, m, k - 1) && Adjacent(q, m, n)
  }

  ghost predicate IsDistance(q: Query, seed: NodeId, n: NodeId, d: nat) {
    Reaches(q, seed, n, d) && forall k: nat :: k < d ==> !Reaches(q, seed, n, k)
  }

  ghost predicate Within(q: Query, seed: NodeId, n: NodeId, d: nat) {
    exists k: nat :: k <= d && Reaches(q, seed, n, k)
  }

  // ---- The search -----------------------------------------------------------------------------------

  /** The visits in discovery order, how many of them have been taken from the queue, and the admitted edges. */
  datatype Search = Search(visits: seq<Visit>, head: nat, edges: seq<EdgeIdentity>, stop: Option<Stop>) {
    predicate Saw(n: NodeId) {
      exists i :: 0 <= i < |visits| && visits[i].node == n
    }
  }

  function Admit(b: Bounds, s: Search, current: Visit, e: EdgeIdentity): Search {
    var other := Other(e, current.node);
    if e in s.edges then s
    else if |s.edges| == b.maxEdges then s.(stop := Some(EdgeLimit))
    else if !s.Saw(other) && |s.visits| == b.maxNodes then s.(stop := Some(NodeLimit))
    else
      s.(edges := s.edges + [e],
         visits := if s.Saw(other) then s.visits else s.visits + [Visit(other, current.depth + 1)])
  }

  function Inspect(b: Bounds, s: Search, current: Visit, edges: seq<EdgeIdentity>): Search
    decreases |edges|
  {
    if edges == [] || s.stop.Some? then s
    else Inspect(b, Admit(b, s, current, edges[0]), current, edges[1..])
  }

  ghost function Expand(q: Query, b: Bounds, s: Search): Search
    requires s.head < |s.visits|
  {
    var current := s.visits[s.head];
    var taken := s.(head := s.head + 1);
    if current.depth == b.maxDepth then taken else Inspect(b, taken, current, EdgesOf(q, current.node))
  }

  /** Visits name distinct nodes of the graph, so there are finitely many left. */
  ghost predicate Tame(q: Query, s: Search) {
    && q.graph.Valid()
    && s.head <= |s.visits|
    && (forall i :: 0 <= i < |s.visits| ==> s.visits[i].node in q.graph.nodes)
    && (forall i, j :: 0 <= i < j < |s.visits| ==> s.visits[i].node != s.visits[j].node)
  }

  lemma {:induction false} VisitsFit(q: Query, visits: seq<Visit>, among: set<NodeId>)
    requires forall i :: 0 <= i < |visits| ==> visits[i].node in among
    requires forall i, j :: 0 <= i < j < |visits| ==> visits[i].node != visits[j].node
    ensures |visits| <= |among|
  {
    if visits != [] {
      var last := visits[|visits| - 1];
      VisitsFit(q, visits[..|visits| - 1], among - {last.node});
    }
  }

  lemma OtherIsKnown(q: Query, n: NodeId, e: EdgeIdentity)
    requires q.graph.Valid() && e in q.graph.edges
    ensures Other(e, n) in q.graph.nodes
  {
  }

  lemma {:induction false} InspectIsTame(q: Query, b: Bounds, s: Search, current: Visit, edges: seq<EdgeIdentity>)
    requires Tame(q, s) && forall e :: e in edges ==> e in q.graph.edges
    ensures var t := Inspect(b, s, current, edges);
            Tame(q, t) && t.head == s.head && s.visits <= t.visits && s.edges <= t.edges
    decreases |edges|
  {
    if edges != [] && s.stop.None? {
      assert edges[0] in edges;
      OtherIsKnown(q, current.node, edges[0]);
      InspectIsTame(q, b, Admit(b, s, current, edges[0]), current, edges[1..]);
    }
  }

  lemma ExpandIsTame(q: Query, b: Bounds, s: Search)
    requires Tame(q, s) && s.head < |s.visits|
    ensures Tame(q, Expand(q, b, s)) && Expand(q, b, s).head == s.head + 1 <= |q.graph.nodes.Keys|
    ensures s.visits <= Expand(q, b, s).visits && s.edges <= Expand(q, b, s).edges
  {
    var current, taken := s.visits[s.head], s.(head := s.head + 1);
    VisitsFit(q, s.visits, q.graph.nodes.Keys);
    var edges := EdgesOf(q, current.node);
    assert forall e :: e in edges ==> e in Elements(edges);
    assert Tame(q, taken);
    hide Tame, Inspect, EdgesOf;
    InspectIsTame(q, b, taken, current, edges);
  }

  /** Take visits from the queue until it is empty or a budget refuses an edge. */
  ghost function Explore(q: Query, b: Bounds, s: Search): (t: Search)
    requires Tame(q, s)
    ensures Tame(q, t) && s.visits <= t.visits && s.edges <= t.edges
    ensures t.stop.Some? || t.head == |t.visits|
    decreases |q.graph.nodes.Keys| - s.head
  {
    if s.head == |s.visits| || s.stop.Some? then s
    else
      ExpandIsTame(q, b, s);
      Explore(q, b, Expand(q, b, s))
  }

  function Start(seed: NodeId): Search {
    Search([Visit(seed, 0)], 0, [], None)
  }

  ghost function Traverse(q: Query, b: Bounds, seed: NodeId): TraversalResult
    requires q.graph.Valid()
  {
    if seed !in q.graph.nodes then TraversalResult([], [], None)
    else
      var s := Explore(q, b, Start(seed));
      TraversalResult(s.visits, Sort(Elements(s.edges)), s.stop)
  }
}
