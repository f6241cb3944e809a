/** Canonical graph snapshots: whatever order records arrive in, one listing comes out, and it comes out of itself. */
module GraphSnapshots {
  import opened Prelude
  import opened Graph
  import opened MemoryGraphs
  import T = Traversal

  datatype GraphSnapshot = GraphSnapshot(nodes: seq<GraphNode>, edges: seq<GraphEdge>)

  /** Nodes by identity, edges in the global edge order, nothing twice and nothing missing. */
  ghost predicate Canonical(g: GraphData, s: GraphSnapshot) {
    && (forall i, j :: 0 <= i < j < |s.nodes| ==> s.nodes[i].identity < s.nodes[j].identity)
    && (forall n :: n in s.nodes <==> n.identity in g.nodes && g.nodes[n.identity] == n)
    && SortedList(s.edges)
    && (forall e :: e in s.edges <==> e.identity in g.edges && g.edges[e.identity] == e)
  }

  /** The loop over the sorted nodes, each contributing its outgoing edges. */
  method Canonicalize(nodes: seq<GraphNode>, edges: seq<GraphEdge>) returns (r: Result<GraphSnapshot, GraphError>)
    ensures r.Err? ==> Constructs(Err(r.error), Elements(nodes), Elements(edges))
    ensures r.Ok? ==> exists g :: Denotes(g, Elements(nodes), Elements(edges)) && Canonical(g, r.value)
    ensures r.Ok? <==> !Conflicting(Elements(nodes)) && !Dangling(Elements(nodes), Elements(edges))
  {
    var graph := Construct(nodes, edges);
    if graph.Err? {
      return Err(graph.error);
    }
    var g := graph.value;
    var memory := new MemoryGraph(g);
    var ids := SortedNodes(nodes);
    var sorted: seq<GraphNode>, all: seq<GraphEdge> := [], [];
    NodesKnown(g, nodes, edges, ids);
    hide Denotes, ListedSoFar, ListsSet, Increasing, Conflicting, Dangling;
    for i := 0 to |ids|
      invariant memory.Valid() && memory.data == g
      invariant |sorted| == i && forall k :: 0 <= k < i ==> ids[k] in g.nodes && sorted[k] == g.nodes[ids[k]]
      invariant ListedSoFar(g, ids, i, all)
    {
      var more := memory.Edges(ids[i], T.Outgoing, None);
      MoreListed(g, ids, i, all, more);
      sorted := sorted + [g.nodes[ids[i]]];
      all := all + more;
    }
    CanonicalListing(g, ids, GraphSnapshot(sorted, all));
    return Ok(GraphSnapshot(sorted, all));
  }

  method SortedNodes(nodes: seq<GraphNode>) returns (ids: seq<NodeId>)
    ensures Increasing(ids) && forall n :: n in ids <==> exists k :: 0 <= k < |nodes| && nodes[k].identity == n
  {
    ids := [];
    for i := 0 to |nodes|
      invariant Increasing(ids) && forall n :: n in ids <==> exists k :: 0 <= k < i && nodes[k].identity == n
    {
      ids := InsertNode(ids, nodes[i].identity);
    }
  }

  lemma NodesKnown(g: GraphData, nodes: seq<GraphNode>, edges: seq<GraphEdge>, ids: seq<NodeId>)
    requires Denotes(g, Elements(nodes), Elements(edges))
    requires forall n :: n in ids <==> exists k :: 0 <= k < |nodes| && nodes[k].identity == n
    ensures forall n :: n in ids <==> n in g.nodes
  {
    forall n ensures n in ids <==> n in g.nodes {
      if n in ids {
        var k :| 0 <= k < |nodes| && nodes[k].identity == n;
        assert nodes[k] in Elements(nodes);
      }
      if n in g.nodes {
        assert g.nodes[n] in Elements(nodes);
        var k :| 0 <= k < |nodes| && nodes[k] == g.nodes[n];
      }
    }
  }

  /** The edges that start at one of the first `k` nodes, in global order. */
  ghost predicate ListedSoFar(g: GraphData, ids: seq<NodeId>, k: nat, edges: seq<GraphEdge>)
    requires k <= |ids|
  {
    && SortedList(edges)
    && forall e :: e in edges <==> e.identity in g.edges && g.edges[e.identity] == e && e.identity.source in ids[..k]
  }

  lemma MoreListed(g: GraphData, ids: seq<NodeId>, k: nat, edges: seq<GraphEdge>, more: seq<GraphEdge>)
    requires k < |ids| && Increasing(ids) && ListedSoFar(g, ids, k, edges)
    requires ListsSet(g, more, T.Incident(T.Query(g, T.Outgoing, None), ids[k]))
    ensures ListedSoFar(g, ids, k + 1, edges + more)
  {
    var all := edges + more;
    assert ids[..k + 1] == ids[..k] + [ids[k]];
    forall e | e in edges ensures e.identity.source < ids[k] {
      assert e.identity.source in ids[..k];
    }
    forall e | e in more ensures e.identity.source == ids[k] {
      assert e.identity in T.Incident(T.Query(g, T.Outgoing, None), ids[k]);
    }
    forall i, j | 0 <= i < j < |all| ensures Before(all[i].identity, all[j].identity) {
      if i < |edges| <= j {
        assert all[i] == edges[i] && edges[i] in edges && all[j] == more[j - |edges|] && more[j - |edges|] in more;
      }
    }
    forall e ensures e in all <==> e in edges || e in more {
    }
  }

  lemma CanonicalListing(g: GraphData, ids: seq<NodeId>, s: GraphSnapshot)
    requires g.Valid() && Increasing(ids) && (forall n :: n in ids <==> n in g.nodes)
    requires |s.nodes| == |ids| && forall k :: 0 <= k < |ids| ==> ids[k] in g.nodes && s.nodes[k] == g.nodes[ids[k]]
    requires ListedSoFar(g, ids, |ids|, s.edges)
    ensures Canonical(g, s)
  {
    assert ids[..|ids|] == ids;
    forall n ensures n in s.nodes <==> n.identity in g.nodes && g.nodes[n.identity] == n {
      if n in s.nodes {
        var k :| 0 <= k < |s.nodes| && s.nodes[k] == n;
        assert g.nodes[ids[k]].identity == ids[k];
      }
      if n.identity in g.nodes && g.nodes[n.identity] == n {
        var k :| 0 <= k < |ids| && ids[k] == n.identity;
        assert s.nodes[k] == n;
      }
    }
  }

  // ---- One listing for one graph --------------------------------------------------------------------

  lemma {:induction false} SameNodes(a: seq<GraphNode>, b: seq<GraphNode>)
    requires forall i, j :: 0 <= i < j < |a| ==> a[i].identity < a[j].identity
    requires forall i, j :: 0 <= i < j < |b| ==> b[i].identity < b[j].identity
    requires forall n :: n in a <==> n in b
    ensures a == b
    decreases |a|
  {
    if a != [] {
      assert a[0] in b;
      assert b[0] in a;
      var k :| 0 <= k < |b| && b[k] == a[0];
      var l :| 0 <= l < |a| && a[l] == b[0];
      assert k == 0;
      forall n ensures n in a[1..] <==> n in b[1..] {
        TailMember(a, n);
        TailMember(b, n);
      }
      SameNodes(a[1..], b[1..]);
    } else {
      forall n ensures n !in multiset(b) {
        assert n in multiset(b) <==> n in b;
      }
      assert |b| == |multiset(b)|;
    }
  }

  lemma TailMember(a: seq<GraphNode>, n: GraphNode)
    requires a != [] && forall i, j :: 0 <= i < j < |a| ==> a[i].identity < a[j].identity
    ensures n in a[1..] <==> n in a && n != a[0]
  {
    if n in a && n != a[0] {
      var k :| 0 <= k < |a| && a[k] == n;
      assert a[1..][k - 1] == n;
    }
  }

  /** A graph has one canonical listing. */
  lemma CanonicalIsUnique(g: GraphData, s: GraphSnapshot, t: GraphSnapshot)
    requires g.Valid() && Canonical(g, s) && Canonical(g, t)
    ensures s == t
  {
    SameNodes(s.nodes, t.nodes);
    ListedIdentities(g, s.edges, g.edges.Keys);
    ListedIdentities(g, t.edges, g.edges.Keys);
    assert Identities(s.edges) == Identities(t.edges);
    forall i | 0 <= i < |s.edges| ensures |t.edges| == |s.edges| && s.edges[i] == t.edges[i] {
      assert Identities(s.edges)[i] == Identities(t.edges)[i];
      assert s.edges[i] in s.edges && t.edges[i] in t.edges;
    }
    assert |s.edges| == |Identities(s.edges)| == |t.edges|;
  }

  /** The canonical listing denotes the graph it lists. */
  lemma ListingDenotes(g: GraphData, s: GraphSnapshot)
    requires g.Valid() && Canonical(g, s)
    ensures Denotes(g, Elements(s.nodes), Elements(s.edges))
    ensures !Conflicting(Elements(s.nodes)) && !Dangling(Elements(s.nodes), Elements(s.edges))
  {
    forall id | id in g.nodes ensures g.nodes[id] in Elements(s.nodes) {
      assert g.nodes[id] in s.nodes;
    }
    var listed := set e | e in Elements(s.edges) :: e.identity;
    forall id ensures id in listed <==> id in g.edges {
      if id in g.edges {
        assert g.edges[id] in s.edges;
      }
    }
    assert g.edges.Keys == listed;
    forall id, x | id in g.edges
      ensures x in g.edges[id].evidence <==> exists e :: e in Elements(s.edges) && e.identity == id && x in e.evidence
    {
      if x in g.edges[id].evidence {
        assert g.edges[id] in Elements(s.edges);
      }
    }
    forall e | e in Elements(s.edges)
      ensures Known(Elements(s.nodes), e.identity.source) && Known(Elements(s.nodes), e.identity.target)
    {
      assert g.nodes[e.identity.source] in s.nodes && g.nodes[e.identity.target] in s.nodes;
    }
  }

  /** Canonicalising a canonical listing leaves it as it is: every run on it returns it. */
  lemma CanonicalizingAgainChangesNothing(g: GraphData, s: GraphSnapshot, h: GraphData, t: GraphSnapshot)
    requires g.Valid() && Canonical(g, s)
    requires Denotes(h, Elements(s.nodes), Elements(s.edges)) && Canonical(h, t)
    ensures t == s
  {
    ListingDenotes(g, s);
    DenotesOne(g, h, Elements(s.nodes), Elements(s.edges));
    CanonicalIsUnique(g, s, t);
  }
}
