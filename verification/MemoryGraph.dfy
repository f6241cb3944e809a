/** The in-memory graph: adjacency lists built once, and the queries over them. */
module MemoryGraphs {
  import opened Prelude
  import opened Graph
  import T = Traversal

  predicate SortedList(edges: seq<GraphEdge>) {
    forall i, j :: 0 <= i < j < |edges| ==> Before(edges[i].identity, edges[j].identity)
  }

  function Identities(edges: seq<GraphEdge>): (ids: seq<EdgeIdentity>)
    ensures |ids| == |edges| && forall i :: 0 <= i < |edges| ==> ids[i] == edges[i].identity
  {
    seq(|edges|, i requires 0 <= i < |edges| => edges[i].identity)
  }

  function At(lists: map<NodeId, seq<GraphEdge>>, n: NodeId): seq<GraphEdge> {
    if n in lists then lists[n] else []
  }

  /** The list holds exactly the records of `data` whose identity is in `ids`, in global order. */
  ghost predicate ListsSet(data: GraphData, edges: seq<GraphEdge>, ids: set<EdgeIdentity>) {
    && SortedList(edges)
    && forall x :: x in edges <==> x.identity in ids && x.identity in data.edges && x == data.edges[x.identity]
  }

  lemma ListedIdentities(data: GraphData, edges: seq<GraphEdge>, ids: set<EdgeIdentity>)
    requires ListsSet(data, edges, ids) && data.Valid() && ids <= data.edges.Keys
    ensures Identities(edges) == Sort(ids)
  {
    var listed := Identities(edges);
    forall id ensures id in Elements(listed) <==> id in ids {
      if id in ids {
        assert data.edges[id] in edges;
        var i :| 0 <= i < |edges| && edges[i] == data.edges[id];
        assert listed[i] == id;
      }
      if id in Elements(listed) {
        var i :| 0 <= i < |listed| && listed[i] == id;
        assert edges[i] in edges;
      }
    }
    assert Elements(listed) == ids;
    SortedIsUnique(listed, Sort(ids));
  }

  /** Appending the next edge in global order to the list of one node. */
  function Append(lists: map<NodeId, seq<GraphEdge>>, n: NodeId, edge: GraphEdge): map<NodeId, seq<GraphEdge>> {
    lists[n := At(lists, n) + [edge]]
  }

  ghost function From(data: GraphData, n: NodeId): set<EdgeIdentity> {
    set e | e in data.edges && e.source == n
  }

  ghost function Into(data: GraphData, n: NodeId): set<EdgeIdentity> {
    set e | e in data.edges && e.target == n
  }

  class MemoryGraph {
    ghost const data: GraphData
    var nodes: map<NodeId, GraphNode>
    var incoming: map<NodeId, seq<GraphEdge>>
    var outgoing: map<NodeId, seq<GraphEdge>>

    ghost predicate Valid()
      reads this
    {
      && data.Valid() && nodes == data.nodes
      && (forall n :: ListsSet(data, At(outgoing, n), From(data, n)))
      && (forall n :: ListsSet(data, At(incoming, n), Into(data, n)))
    }

    constructor (g: GraphData)
      requires g.Valid()
      ensures Valid() && data == g
    {
      data := g;
      nodes := g.nodes;
      var into, from := FileEdges(g);
      incoming, outgoing := into, from;
    }

    /** An edge is in its source's outgoing list exactly when it is in its target's incoming list. */
    lemma ListsAgree(edge: GraphEdge)
      requires Valid()
      ensures edge in At(outgoing, edge.identity.source) <==> edge in At(incoming, edge.identity.target)
    {
      assert ListsSet(data, At(outgoing, edge.identity.source), From(data, edge.identity.source));
      assert ListsSet(data, At(incoming, edge.identity.target), Into(data, edge.identity.target));
    }

    method Edges(n: NodeId, direction: T.Direction, relations: Option<set<RelationType>>) returns (r: seq<GraphEdge>)
      requires Valid()
      ensures ListsSet(data, r, T.Incident(T.Query(data, direction, relations), n))
      ensures Identities(r) == T.EdgesOf(T.Query(data, direction, relations), n)
    {
      var candidates: seq<GraphEdge>;
      assert ListsSet(data, At(outgoing, n), From(data, n)) && ListsSet(data, At(incoming, n), Into(data, n));
      match direction {
        case Incoming => candidates := At(incoming, n);
        case Outgoing => candidates := At(outgoing, n);
        case Both => candidates := Union(At(incoming, n), At(outgoing, n));
      }
      var touching := T.Incident(T.Query(data, direction, None), n);
      assert ListsSet(data, candidates, touching);
      r := [];
      for i := 0 to |candidates|
        invariant SortedList(r) && forall x :: x in r <==>
                    x in candidates[..i] && T.Allows(relations, x.identity.relation)
      {
        assert candidates[..i + 1] == candidates[..i] + [candidates[i]];
        if T.Allows(relations, candidates[i].identity.relation) {
          r := r + [candidates[i]];
        }
      }
      assert candidates[..|candidates|] == candidates;
      ListedIdentities(data, r, T.Incident(T.Query(data, direction, relations), n));
    }

    /** Both directions together, each edge once, in global order. */
    method Union(a: seq<GraphEdge>, b: seq<GraphEdge>) returns (r: seq<GraphEdge>)
      requires Valid() && forall x :: x in a + b ==> x.identity in data.edges && x == data.edges[x.identity]
      ensures SortedList(r) && forall x :: x in r <==> x in a || x in b
    {
      var unique: map<EdgeIdentity, GraphEdge> := map[];
      var both := a + b;
      for i := 0 to |both|
        invariant forall id :: id in unique ==> unique[id] in both[..i] && unique[id].identity == id
        invariant forall x :: x in both[..i] ==> x.identity in unique && unique[x.identity] == x
      {
        assert both[..i + 1] == both[..i] + [both[i]];
        unique := unique[both[i].identity := both[i]];
      }
      assert both[..|both|] == both;
      r := ListOf(unique);
    }

    method Neighbors(n: NodeId, direction: T.Direction, relations: Option<set<RelationType>>)
      returns (r: seq<GraphNode>)
      requires Valid()
      ensures forall i, j :: 0 <= i < j < |r| ==> r[i].identity < r[j].identity
      ensures forall m :: (exists i :: 0 <= i < |r| && r[i].identity == m) <==>
                T.Adjacent(T.Query(data, direction, relations), n, m)
      ensures forall i :: 0 <= i < |r| ==> r[i].identity in data.nodes && r[i] == data.nodes[r[i].identity]
    {
      var edges := Edges(n, direction, relations);
      ghost var q := T.Query(data, direction, relations);
      var identities := OtherIdentities(edges, n);
      OtherEnds(data, q, n, edges, identities);
      assert data.Valid() && nodes == data.nodes;
      assert forall i :: 0 <= i < |identities| ==> identities[i] in identities;
      r := NodesOf(identities, nodes);
      hide Valid, T.Adjacent;
      assert forall m :: m in identities <==> exists i :: 0 <= i < |r| && r[i].identity == m;
    }

    static method OtherIdentities(edges: seq<GraphEdge>, n: NodeId) returns (identities: seq<NodeId>)
      ensures Increasing(identities)
      ensures forall m :: m in identities <==> exists k :: 0 <= k < |edges| && T.Other(edges[k].identity, n) == m
    {
      identities := [];
      for i := 0 to |edges|
        invariant Increasing(identities)
        invariant forall m :: m in identities <==> exists k :: 0 <= k < i && T.Other(edges[k].identity, n) == m
      {
        identities := InsertNode(identities, T.Other(edges[i].identity, n));
      }
    }

    static method NodesOf(identities: seq<NodeId>, nodes: map<NodeId, GraphNode>) returns (r: seq<GraphNode>)
      requires forall i :: 0 <= i < |identities| ==> identities[i] in nodes
      requires forall m :: m in nodes ==> nodes[m].identity == m
      ensures |r| == |identities| && forall i :: 0 <= i < |r| ==>
                r[i].identity == identities[i] && identities[i] in nodes && r[i] == nodes[identities[i]]
    {
      r := seq(|identities|, i requires 0 <= i < |identities| => nodes[identities[i]]);
    }

    /** The breadth-first loop over a queue: it computes the specified traversal. */
    method Traverse(identity: NodeId, b: T.Bounds, direction: T.Direction, relations: Option<set<RelationType>>)
      returns (visits: seq<T.Visit>, edges: seq<GraphEdge>, stoppedBy: Option<T.Stop>)
      requires Valid() && b.Valid()
      ensures T.TraversalResult(visits, Identities(edges), stoppedBy) ==
                T.Traverse(T.Query(data, direction, relations), b, identity)
      ensures forall x :: x in edges ==> x.identity in data.edges && x == data.edges[x.identity]
    {
      ghost var q := T.Query(data, direction, relations);
      if identity !in nodes {
        return [], [], None;
      }
      visits, stoppedBy := [T.Visit(identity, 0)], None;
      var pending := visits;
      var seen := {identity};
      var admitted: map<EdgeIdentity, GraphEdge> := map[];
      ghost var s := T.Start(identity);
      StartFollows(data, identity);
      assert T.Tame(q, s);
      hide Valid, Follows, Drawn, ListsSet, T.Tame, T.Expand;
      while pending != [] && stoppedBy.None?
        invariant Follows(s, visits, pending, seen, admitted, stoppedBy) && T.Tame(q, s) && Drawn(data, admitted)
        invariant s.head + |pending| == |s.visits| && s.stop == stoppedBy
        invariant T.Explore(q, b, s) == T.Explore(q, b, T.Start(identity))
        decreases |q.graph.nodes.Keys| - s.head
      {
        T.ExpandIsTame(q, b, s);
        TakeFollows(q, b, s, visits, pending, seen, admitted);
        var current := pending[0];
        pending := pending[1..];
        if current.depth != b.maxDepth {
          ghost var taken := s.(head := s.head + 1);
          var candidates := Edges(current.node, direction, relations);
          visits, pending, seen, admitted, stoppedBy :=
            Expand(b, current, candidates, taken, visits, pending, seen, admitted);
        }
        s := T.Expand(q, b, s);
        FollowedSizes(s, visits, pending, seen, admitted, stoppedBy);
      }
      edges := ListOfDrawn(admitted);
      FollowedEdges(s, visits, pending, seen, admitted, stoppedBy);
    }

    /** The inner loop: inspect the edges of the visit just taken from the queue. */
    method Expand(b: T.Bounds, current: T.Visit, candidates: seq<GraphEdge>, ghost start: T.Search,
                  visits: seq<T.Visit>, pending: seq<T.Visit>, seen: set<NodeId>,
                  admitted: map<EdgeIdentity, GraphEdge>)
      returns (visits': seq<T.Visit>, pending': seq<T.Visit>, seen': set<NodeId>,
               admitted': map<EdgeIdentity, GraphEdge>, stoppedBy: Option<T.Stop>)
      requires Valid() && Follows(start, visits, pending, seen, admitted, None)
      requires Drawn(data, admitted) && forall x :: x in candidates ==>
                 x.identity in data.edges && x == data.edges[x.identity]
      ensures Follows(T.Inspect(b, start, current, Identities(candidates)), visits', pending', seen', admitted',
                      stoppedBy)
      ensures Drawn(data, admitted')
    {
      visits', pending', seen', admitted', stoppedBy := visits, pending, seen, admitted, None;
      ghost var s := start;
      assert s.stop.None?;
      hide Follows, T.Admit, T.Inspect, ListsSet, Drawn;
      var i := 0;
      assert Identities(candidates)[0..] == Identities(candidates);
      while i < |candidates| && stoppedBy.None?
        invariant 0 <= i <= |candidates| && Follows(s, visits', pending', seen', admitted', stoppedBy) &&
                  Drawn(data, admitted')
        invariant s.stop == stoppedBy
        invariant T.Inspect(b, s, current, Identities(candidates)[i..]) ==
                    T.Inspect(b, start, current, Identities(candidates))
      {
        assert candidates[i] in candidates;
        InspectStep(b, s, current, Identities(candidates), i);
        visits', pending', seen', admitted', stoppedBy :=
          InspectEdge(b, current, candidates[i], s, visits', pending', seen', admitted');
        s := T.Admit(b, s, current, candidates[i].identity);
        i := i + 1;
      }
      InspectEnds(b, s, current, Identities(candidates), i);
    }

    /** One candidate edge: skipped if known, refused if a budget is full, otherwise admitted with the node it
        leads to. */
    method InspectEdge(b: T.Bounds, current: T.Visit, edge: GraphEdge, ghost s: T.Search, visits: seq<T.Visit>,
                       pending: seq<T.Visit>, seen: set<NodeId>, admitted: map<EdgeIdentity, GraphEdge>)
      returns (visits': seq<T.Visit>, pending': seq<T.Visit>, seen': set<NodeId>,
               admitted': map<EdgeIdentity, GraphEdge>, stoppedBy: Option<T.Stop>)
      requires Follows(s, visits, pending, seen, admitted, None) && s.stop.None?
      requires Drawn(data, admitted) && edge.identity in data.edges && edge == data.edges[edge.identity]
      ensures Follows(T.Admit(b, s, current, edge.identity), visits', pending', seen', admitted', stoppedBy)
      ensures Drawn(data, admitted') && T.Admit(b, s, current, edge.identity).stop == stoppedBy
    {
      hide Follows, T.Admit, Drawn;
      visits', pending', seen', admitted', stoppedBy := visits, pending, seen, admitted, None;
      var other := T.Other(edge.identity, current.node);
      if edge.identity in admitted {
        AdmitSkips(b, s, current, edge.identity, visits, pending, seen, admitted);
      } else if |admitted| == b.maxEdges {
        stoppedBy := Some(T.EdgeLimit);
        AdmitStops(b, s, current, edge.identity, visits, pending, seen, admitted, T.EdgeLimit);
      } else if other !in seen && |seen| == b.maxNodes {
        stoppedBy := Some(T.NodeLimit);
        AdmitStops(b, s, current, edge.identity, visits, pending, seen, admitted, T.NodeLimit);
      } else {
        AdmitAdds(b, s, current, edge, visits, pending, seen, admitted);
        DrawnMore(data, admitted, edge);
        admitted' := admitted[edge.identity := edge];
        if other !in seen {
          var discovered := T.Visit(other, current.depth + 1);
          seen', visits', pending' := seen + {other}, visits + [discovered], pending + [discovered];
        }
      }
    }

    method ListOfDrawn(admitted: map<EdgeIdentity, GraphEdge>) returns (r: seq<GraphEdge>)
      requires Valid() && Drawn(data, admitted)
      ensures Identities(r) == Sort(admitted.Keys)
      ensures forall x :: x in r ==> x.identity in data.edges && x == data.edges[x.identity]
    {
      r := ListOf(admitted);
    }

    method ListOf(records: map<EdgeIdentity, GraphEdge>) returns (r: seq<GraphEdge>)
      requires forall id :: id in records ==> records[id].identity == id
      ensures SortedList(r) && Identities(r) == Sort(records.Keys)
      ensures forall x: GraphEdge :: x in r <==> x.identity in records && records[x.identity] == x
    {
      var ids := SortEdges(records.Keys);
      assert forall id :: id in ids <==> id in Elements(ids);
      assert forall i :: 0 <= i < |ids| ==> ids[i] in ids;
      hide Sort;
      r := seq(|ids|, i requires 0 <= i < |ids| => records[ids[i]]);
      assert Identities(r) == ids;
      forall x: GraphEdge | x.identity in records && records[x.identity] == x ensures x in r {
        var i :| 0 <= i < |ids| && ids[i] == x.identity;
        assert r[i] == x;
      }
    }
  }

  lemma InspectStep(b: T.Bounds, s: T.Search, current: T.Visit, edges: seq<EdgeIdentity>, i: nat)
    requires i < |edges| && s.stop.None?
    ensures T.Inspect(b, s, current, edges[i..]) ==
              T.Inspect(b, T.Admit(b, s, current, edges[i]), current, edges[i + 1..])
  {
    hide T.Admit;
    assert edges[i..][1..] == edges[i + 1..];
  }

  lemma InspectEnds(b: T.Bounds, s: T.Search, current: T.Visit, edges: seq<EdgeIdentity>, i: nat)
    requires i <= |edges| && (i == |edges| || s.stop.Some?)
    ensures T.Inspect(b, s, current, edges[i..]) == s
  {
  }

  /** The list of every node holds, in order, the edges among `ids` that end there on the given side. */
  ghost predicate Filed(g: GraphData, lists: map<NodeId, seq<GraphEdge>>, ids: seq<EdgeIdentity>, byTarget: bool) {
    forall n :: FiledAt(g, At(lists, n), ids, byTarget, n)
  }

  ghost predicate FiledAt(g: GraphData, list: seq<GraphEdge>, ids: seq<EdgeIdentity>, byTarget: bool, n: NodeId) {
    && SortedList(list)
    && forall x :: x in list <==>
         x.identity in ids && x.identity in g.edges && x == g.edges[x.identity] &&
         (if byTarget then x.identity.target else x.identity.source) == n
  }

  lemma AppendFiles(g: GraphData, lists: map<NodeId, seq<GraphEdge>>, ids: seq<EdgeIdentity>, id: EdgeIdentity,
                    byTarget: bool)
    requires g.Valid() && Filed(g, lists, ids, byTarget) && id in g.edges && StrictlySorted(ids + [id])
    ensures Filed(g, Append(lists, if byTarget then id.target else id.source, g.edges[id]), ids + [id], byTarget)
  {
    var n, edge := if byTarget then id.target else id.source, g.edges[id];
    forall m ensures FiledAt(g, At(Append(lists, n, edge), m), ids + [id], byTarget, m) {
      assert FiledAt(g, At(lists, m), ids, byTarget, m);
      AppendFilesAt(g, At(lists, m), ids, id, byTarget, m);
    }
  }

  lemma AppendFilesAt(g: GraphData, list: seq<GraphEdge>, ids: seq<EdgeIdentity>, id: EdgeIdentity, byTarget: bool,
                      m: NodeId)
    requires g.Valid() && FiledAt(g, list, ids, byTarget, m) && id in g.edges && StrictlySorted(ids + [id])
    ensures FiledAt(g, if (if byTarget then id.target else id.source) == m then list + [g.edges[id]]
                    else list, ids + [id], byTarget, m)
  {
    var edge := g.edges[id];
    forall i | 0 <= i < |list| ensures Before(list[i].identity, id) {
      assert list[i] in list;
      var k :| 0 <= k < |ids| && ids[k] == list[i].identity;
      assert (ids + [id])[k] == ids[k] && (ids + [id])[|ids|] == id;
    }
    assert forall x :: x in list + [edge] <==> x in list || x == edge;
    assert forall x :: x in ids + [id] <==> x in ids || x == id;
  }

  lemma PrefixSorted(ids: seq<EdgeIdentity>, i: nat)
    requires StrictlySorted(ids) && i < |ids|
    ensures ids[..i + 1] == ids[..i] + [ids[i]] && StrictlySorted(ids[..i] + [ids[i]])
  {
    assert ids[..i + 1] == ids[..i] + [ids[i]];
  }

  /** One pass over the edges in global order fills both adjacency maps. */
  method FileEdges(g: GraphData) returns (into: map<NodeId, seq<GraphEdge>>, from: map<NodeId, seq<GraphEdge>>)
    requires g.Valid()
    ensures forall n :: ListsSet(g, At(from, n), From(g, n))
    ensures forall n :: ListsSet(g, At(into, n), Into(g, n))
  {
    var ids := SortEdges(g.edges.Keys);
    assert forall e :: e in ids <==> e in Elements(ids);
    into, from := map[], map[];
    assert Filed(g, from, [], false) && Filed(g, into, [], true);
    hide Filed, FiledAt, ListsSet, From, Into, StrictlySorted, Append;
    assert ids[..0] == [];
    for i := 0 to |ids|
      invariant Filed(g, from, ids[..i], false) && Filed(g, into, ids[..i], true)
    {
      var edge := g.edges[ids[i]];
      PrefixSorted(ids, i);
      AppendFiles(g, from, ids[..i], ids[i], false);
      AppendFiles(g, into, ids[..i], ids[i], true);
      into := Append(into, edge.identity.target, edge);
      from := Append(from, edge.identity.source, edge);
    }
    assert ids[..|ids|] == ids;
    FiledFrom(g, from, ids);
    FiledInto(g, into, ids);
  }

  lemma FiledFrom(g: GraphData, from: map<NodeId, seq<GraphEdge>>, ids: seq<EdgeIdentity>)
    requires Filed(g, from, ids, false) && forall e :: e in ids <==> e in g.edges
    ensures forall n :: ListsSet(g, At(from, n), From(g, n))
  {
    forall n ensures ListsSet(g, At(from, n), From(g, n)) {
      assert FiledAt(g, At(from, n), ids, false, n);
    }
  }

  lemma FiledInto(g: GraphData, into: map<NodeId, seq<GraphEdge>>, ids: seq<EdgeIdentity>)
    requires Filed(g, into, ids, true) && forall e :: e in ids <==> e in g.edges
    ensures forall n :: ListsSet(g, At(into, n), Into(g, n))
  {
    forall n ensures ListsSet(g, At(into, n), Into(g, n)) {
      assert FiledAt(g, At(into, n), ids, true, n);
    }
  }

  lemma OtherEnds(data: GraphData, q: T.Query, n: NodeId, edges: seq<GraphEdge>, identities: seq<NodeId>)
    requires data.Valid() && q.graph == data && ListsSet(data, edges, T.Incident(q, n))
    requires forall m :: m in identities <==> exists k :: 0 <= k < |edges| && T.Other(edges[k].identity, n) == m
    ensures forall m :: m in identities <==> T.Adjacent(q, n, m)
    ensures forall m :: m in identities ==> m in data.nodes
  {
    forall m ensures m in identities <==> T.Adjacent(q, n, m) {
      if T.Adjacent(q, n, m) {
        var e :| e in T.Incident(q, n) && T.Other(e, n) == m;
        assert data.edges[e] in edges;
      }
      if m in identities {
        var k :| 0 <= k < |edges| && T.Other(edges[k].identity, n) == m;
        assert edges[k] in edges;
      }
    }
  }

  predicate Increasing(s: seq<NodeId>) {
    forall i, j :: 0 <= i < j < |s| ==> s[i] < s[j]
  }

  function InsertNode(s: seq<NodeId>, n: NodeId): (r: seq<NodeId>)
    requires Increasing(s)
    ensures Increasing(r) && forall x :: x in r <==> x in s || x == n
  {
    if s == [] || n < s[0] then [n] + s
    else if s[0] == n then s
    else
      assert forall x :: x in s[1..] ==> s[0] < x;
      var rest := InsertNode(s[1..], n);
      var r := [s[0]] + rest;
      assert Increasing(r) by {
        assert forall i :: 0 <= i < |rest| ==> rest[i] in rest;
      }
      assert forall x :: x in s <==> x == s[0] || x in s[1..];
      assert forall x :: x in r <==> x == s[0] || x in rest;
      r
  }

  /** The loop variables of `traverse` represent a search state. */
  ghost predicate Follows(s: T.Search, visits: seq<T.Visit>, pending: seq<T.Visit>, seen: set<NodeId>,
                          admitted: map<EdgeIdentity, GraphEdge>, stoppedBy: Option<T.Stop>) {
    && s.visits == visits && s.head <= |visits| && pending == visits[s.head..] && s.stop == stoppedBy
    && (forall n :: n in seen <==> s.Saw(n)) && |seen| == |visits|
    && (forall id :: id in admitted <==> id in s.edges) && |admitted| == |s.edges|
  }

  ghost predicate Drawn(data: GraphData, admitted: map<EdgeIdentity, GraphEdge>) {
    forall id :: id in admitted ==> id in data.edges && admitted[id] == data.edges[id]
  }

  lemma DrawnMore(data: GraphData, admitted: map<EdgeIdentity, GraphEdge>, edge: GraphEdge)
    requires Drawn(data, admitted) && edge.identity in data.edges && edge == data.edges[edge.identity]
    ensures Drawn(data, admitted[edge.identity := edge])
  {
  }

  lemma StartFollows(data: GraphData, seed: NodeId)
    ensures Follows(T.Start(seed), [T.Visit(seed, 0)], [T.Visit(seed, 0)], {seed}, map[], None) && Drawn(data, map[])
  {
    var s := T.Start(seed);
    assert s.visits[0].node == seed;
  }

  /** Taking the first waiting visit from the queue advances the head. */
  lemma TakeFollows(q: T.Query, b: T.Bounds, s: T.Search, visits: seq<T.Visit>, pending: seq<T.Visit>,
                    seen: set<NodeId>, admitted: map<EdgeIdentity, GraphEdge>)
    requires Follows(s, visits, pending, seen, admitted, None) && pending != []
    ensures s.head < |s.visits| && pending[0] == s.visits[s.head]
    ensures Follows(s.(head := s.head + 1), visits, pending[1..], seen, admitted, None)
    ensures pending[0].depth != b.maxDepth ==>
              T.Expand(q, b, s) == T.Inspect(b, s.(head := s.head + 1), pending[0], T.EdgesOf(q, pending[0].node))
    ensures pending[0].depth == b.maxDepth ==> T.Expand(q, b, s) == s.(head := s.head + 1)
  {
    var taken := s.(head := s.head + 1);
    assert forall n :: taken.Saw(n) <==> s.Saw(n);
  }

  lemma FollowedSizes(s: T.Search, visits: seq<T.Visit>, pending: seq<T.Visit>, seen: set<NodeId>,
                      admitted: map<EdgeIdentity, GraphEdge>, stoppedBy: Option<T.Stop>)
    requires Follows(s, visits, pending, seen, admitted, stoppedBy)
    ensures s.head + |pending| == |s.visits| && s.stop == stoppedBy
  {
  }

  lemma FollowedEdges(s: T.Search, visits: seq<T.Visit>, pending: seq<T.Visit>, seen: set<NodeId>,
                      admitted: map<EdgeIdentity, GraphEdge>, stoppedBy: Option<T.Stop>)
    requires Follows(s, visits, pending, seen, admitted, stoppedBy)
    ensures s.visits == visits && admitted.Keys == Elements(s.edges)
  {
  }

  lemma AdmitSkips(b: T.Bounds, s: T.Search, current: T.Visit, e: EdgeIdentity, visits: seq<T.Visit>,
                   pending: seq<T.Visit>,
                   seen: set<NodeId>, admitted: map<EdgeIdentity, GraphEdge>)
    requires Follows(s, visits, pending, seen, admitted, None) && e in admitted
    ensures T.Admit(b, s, current, e).stop.None?
    ensures Follows(T.Admit(b, s, current, e), visits, pending, seen, admitted, None)
  {
  }

  lemma AdmitStops(b: T.Bounds, s: T.Search, current: T.Visit, e: EdgeIdentity, visits: seq<T.Visit>,
                   pending: seq<T.Visit>,
                   seen: set<NodeId>, admitted: map<EdgeIdentity, GraphEdge>, stop: T.Stop)
    requires Follows(s, visits, pending, seen, admitted, None) && e !in admitted
    requires stop == if |admitted| == b.maxEdges then T.EdgeLimit else T.NodeLimit
    requires |admitted| == b.maxEdges || (T.Other(e, current.node) !in seen && |seen| == b.maxNodes)
    ensures T.Admit(b, s, current, e).stop == Some(stop)
    ensures Follows(T.Admit(b, s, current, e), visits, pending, seen, admitted, Some(stop))
  {
    var t := T.Admit(b, s, current, e);
    assert t.visits == s.visits && forall n :: t.Saw(n) <==> s.Saw(n);
  }

  lemma AdmitAdds(b: T.Bounds, s: T.Search, current: T.Visit, edge: GraphEdge, visits: seq<T.Visit>,
                  pending: seq<T.Visit>,
                  seen: set<NodeId>, admitted: map<EdgeIdentity, GraphEdge>)
    requires Follows(s, visits, pending, seen, admitted, None) && edge.identity !in admitted && |admitted| != b.maxEdges
    requires T.Other(edge.identity, current.node) in seen || |seen| != b.maxNodes
    ensures T.Admit(b, s, current, edge.identity).stop.None?
    ensures var other := T.Other(edge.identity, current.node);
            var discovered := T.Visit(other, current.depth + 1);
            if other in seen then
              Follows(T.Admit(b, s, current, edge.identity), visits, pending, seen, admitted[edge.identity := edge],
                      None)
            else
              Follows(T.Admit(b, s, current, edge.identity), visits + [discovered], pending + [discovered],
                      seen + {other},
                      admitted[edge.identity := edge], None)
  {
    var other := T.Other(edge.identity, current.node);
    var t := T.Admit(b, s, current, edge.identity);
    if other in seen {
      assert t.visits == s.visits && forall n :: t.Saw(n) <==> s.Saw(n);
    } else {
      SawAppended(s, t, T.Visit(other, current.depth + 1));
    }
  }

  lemma SawAppended(s: T.Search, t: T.Search, v: T.Visit)
    requires t.visits == s.visits + [v]
    ensures forall n :: t.Saw(n) <==> s.Saw(n) || n == v.node
  {
    forall n ensures t.Saw(n) <==> s.Saw(n) || n == v.node {
      if s.Saw(n) {
        var i :| 0 <= i < |s.visits| && s.visits[i].node == n;
        assert t.visits[i].node == n;
      }
      assert t.visits[|s.visits|] == v;
    }
  }
}
