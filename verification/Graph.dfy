/** Graph records, their global order, and graph construction as a function of the set of records. */
module Graph {
  import opened Prelude

  /** Namespaced node identities are totally ordered; a number stands for the place in that order. */
  type NodeId = int

  /** Declared in the order of the relations' names, which is the order edges are sorted by. */
  datatype RelationType =
    | Call | Close | Create | Declare | Define | Inherit | Layout | Measure
    | Mock | Override | Reference | Show | Test | UpdateProperty

  function Rank(r: RelationType): nat {
    match r
    case Call => 0 case Close => 1 case Create => 2 case Declare => 3 case Define => 4
    case Inherit => 5 case Layout => 6 case Measure => 7 case Mock => 8 case Override => 9
    case Reference => 10 case Show => 11 case Test => 12 case UpdateProperty => 13
  }

  datatype EdgeIdentity = EdgeIdentity(source: NodeId, target: NodeId, relation: RelationType)

  /** `EdgeIdentity.sort_key`, compared lexicographically. */
  predicate Before(a: EdgeIdentity, b: EdgeIdentity) {
    || a.source < b.source
    || (a.source == b.source && a.target < b.target)
    || (a.source == b.source && a.target == b.target && Rank(a.relation) < Rank(b.relation))
  }

  lemma BeforeIsTotal(a: EdgeIdentity, b: EdgeIdentity)
    ensures a == b || Before(a, b) || Before(b, a)
    ensures !(Before(a, b) && (a == b || Before(b, a)))
  {
    assert Rank(a.relation) == Rank(b.relation) <==> a.relation == b.relation;
  }

  /** Kind, display name and anchors are one comparable record. */
  datatype GraphNode = GraphNode(identity: NodeId, record: int)

  datatype GraphEdge = GraphEdge(identity: EdgeIdentity, evidence: set<int>)

  datatype GraphData = GraphData(nodes: map<NodeId, GraphNode>, edges: map<EdgeIdentity, GraphEdge>) {
    /** Every edge is filed under its identity and joins nodes of the graph. */
    predicate Valid() {
      && (forall n :: n in nodes ==> nodes[n].identity == n)
      && forall e :: e in edges ==> edges[e].identity == e && e.source in nodes && e.target in nodes
    }
  }

  // ---- Strictly sorted edge lists -------------------------------------------------------------------

  predicate StrictlySorted(s: seq<EdgeIdentity>) {
    forall i, j :: 0 <= i < j < |s| ==> Before(s[i], s[j])
  }

  lemma SortedHeads(a: seq<EdgeIdentity>, b: seq<EdgeIdentity>)
    requires StrictlySorted(a) && StrictlySorted(b) && Elements(a) == Elements(b) && a != []
    ensures b != [] && a[0] == b[0]
  {
    assert a[0] in Elements(b);
    assert b[0] in Elements(a);
    BeforeIsTotal(a[0], b[0]);
  }

  lemma TailElements(a: seq<EdgeIdentity>)
    requires StrictlySorted(a) && a != []
    ensures StrictlySorted(a[1..]) && Elements(a[1..]) == Elements(a) - {a[0]}
  {
    forall x | x in a[1..] ensures x != a[0] {
      BeforeIsTotal(a[0], x);
    }
  }

  /** A set of edges has one sorted listing. */
  lemma {:induction false} SortedIsUnique(a: seq<EdgeIdentity>, b: seq<EdgeIdentity>)
    requires StrictlySorted(a) && StrictlySorted(b) && Elements(a) == Elements(b)
    ensures a == b
  {
    if a != [] {
      SortedHeads(a, b);
      TailElements(a);
      TailElements(b);
      SortedIsUnique(a[1..], b[1..]);
    } else if b != [] {
      SortedHeads(b, a);
    }
  }

  /** Insert into a sorted list; the list so far never shrinks. */
  function Insert(s: seq<EdgeIdentity>, e: EdgeIdentity): (r: seq<EdgeIdentity>)
    requires StrictlySorted(s)
    ensures StrictlySorted(r) && Elements(r) == Elements(s) + {e}
  {
    if s == [] then [e]
    else if s[0] == e then s
    else
      BeforeIsTotal(s[0], e);
      if Before(e, s[0]) then [e] + s
      else
        TailElements(s);
        var rest := Insert(s[1..], e);
        assert forall x :: x in rest ==> Before(s[0], x) by {
          forall x | x in rest ensures Before(s[0], x) {
            assert x in Elements(s[1..]) + {e};
          }
        }
        assert Elements([s[0]] + rest) == {s[0]} + Elements(rest);
        [s[0]] + rest
  }

  /** The sorted listing of a set of edges. */
  ghost function Sort(s: set<EdgeIdentity>): (r: seq<EdgeIdentity>)
    ensures StrictlySorted(r) && Elements(r) == s
  {
    if s == {} then []
    else
      var e :| e in s;
      Insert(Sort(s - {e}), e)
  }

  method SortEdges(s: set<EdgeIdentity>) returns (r: seq<EdgeIdentity>)
    ensures r == Sort(s)
  {
    r := [];
    var rest := s;
    while rest != {}
      invariant rest <= s && StrictlySorted(r) && Elements(r) == s - rest
      decreases rest
    {
      var e :| e in rest;
      r := Insert(r, e);
      rest := rest - {e};
    }
    SortedIsUnique(r, Sort(s));
  }

  // ---- Construction ---------------------------------------------------------------------------------

  datatype GraphError = ConflictingNode | DanglingEdge

  predicate Conflicting(nodes: set<GraphNode>) {
    exists a, b :: a in nodes && b in nodes && a.identity == b.identity && a != b
  }

  predicate Dangling(nodes: set<GraphNode>, edges: set<GraphEdge>) {
    exists e :: e in edges && !(Known(nodes, e.identity.source) && Known(nodes, e.identity.target))
  }

  predicate Known(nodes: set<GraphNode>, identity: NodeId) {
    exists n :: n in nodes && n.identity == identity
  }

  /** The graph that a set of records denotes: evidence of equal edges is united. */
  ghost predicate Denotes(g: GraphData, nodes: set<GraphNode>, edges: set<GraphEdge>) {
    && g.Valid()
    && (forall n :: n in nodes ==> n.identity in g.nodes && g.nodes[n.identity] == n)
    && (forall id :: id in g.nodes ==> g.nodes[id] in nodes)
    && g.edges.Keys == (set e | e in edges :: e.identity)
    && forall id, x :: id in g.edges ==> (x in g.edges[id].evidence <==>
                                            exists e :: e in edges && e.identity == id && x in e.evidence)
  }

  lemma DenotesOne(g: GraphData, h: GraphData, nodes: set<GraphNode>, edges: set<GraphEdge>)
    requires Denotes(g, nodes, edges) && Denotes(h, nodes, edges)
    ensures g == h
  {
    forall n | n in g.nodes ensures n in h.nodes && h.nodes[n] == g.nodes[n] {
      assert g.nodes[n] in nodes;
    }
    forall n | n in h.nodes ensures n in g.nodes {
      assert h.nodes[n] in nodes;
    }
    assert g.nodes == h.nodes;
    forall id | id in g.edges ensures g.edges[id] == h.edges[id] {
      forall x ensures x in g.edges[id].evidence <==> x in h.edges[id].evidence {
      }
      assert g.edges[id].evidence == h.edges[id].evidence;
    }
  }

  /** Construction reports a conflict before a dangling edge, and otherwise builds the denoted graph. */
  ghost predicate Constructs(r: Result<GraphData, GraphError>, nodes: set<GraphNode>, edges: set<GraphEdge>) {
    if Conflicting(nodes) then r == Err(ConflictingNode)
    else if Dangling(nodes, edges) then r == Err(DanglingEdge)
    else r.Ok? && Denotes(r.value, nodes, edges)
  }

  /** Construction depends on the set of records only: reordering or repeating nodes and edges gives the same
      graph or the same failure. */
  lemma ConstructionIsOrderFree(nodes: seq<GraphNode>, edges: seq<GraphEdge>, nodes': seq<GraphNode>,
                                edges': seq<GraphEdge>,
                                r: Result<GraphData, GraphError>, r': Result<GraphData, GraphError>)
    requires Elements(nodes) == Elements(nodes') && Elements(edges) == Elements(edges')
    requires Constructs(r, Elements(nodes), Elements(edges)) && Constructs(r', Elements(nodes'), Elements(edges'))
    ensures r == r'
  {
    if r.Ok? {
      DenotesOne(r.value, r'.value, Elements(nodes), Elements(edges));
    }
  }

  method CollectNodes(nodes: seq<GraphNode>) returns (r: Result<map<NodeId, GraphNode>, GraphError>)
    ensures r.Err? ==> Conflicting(Elements(nodes)) && r.error == ConflictingNode
    ensures r.Ok? ==> !Conflicting(Elements(nodes))
    ensures r.Ok? ==> forall n :: n in nodes ==> n.identity in r.value && r.value[n.identity] == n
    ensures r.Ok? ==> forall id :: id in r.value ==> r.value[id] in nodes
    ensures r.Ok? ==> forall n :: n in r.value ==> r.value[n].identity == n
  {
    var known: map<NodeId, GraphNode> := map[];
    for i := 0 to |nodes|
      invariant forall n :: n in known ==> known[n].identity == n && known[n] in nodes[..i]
      invariant forall j :: 0 <= j < i ==> nodes[j].identity in known && known[nodes[j].identity] == nodes[j]
    {
      var node := nodes[i];
      if node.identity in known && known[node.identity] != node {
        assert known[node.identity] in Elements(nodes) && node in Elements(nodes);
        return Err(ConflictingNode);
      }
      known := known[node.identity := node];
      assert nodes[..i + 1] == nodes[..i] + [node];
    }
    r := Ok(known);
  }

  method CollectEdges(nodes: map<NodeId, GraphNode>, edges: seq<GraphEdge>)
    returns (r: Result<map<EdgeIdentity, GraphEdge>, GraphError>)
    ensures r.Err? ==>
              r.error == DanglingEdge && exists e ::
                e in edges && !(e.identity.source in nodes && e.identity.target in nodes)
    ensures r.Ok? ==> forall e :: e in edges ==> e.identity.source in nodes && e.identity.target in nodes
    ensures r.Ok? ==> r.value.Keys == (set e | e in edges :: e.identity) && forall id :: id in r.value ==>
              r.value[id].identity == id
    ensures r.Ok? ==> forall id, x :: id in r.value ==>
              (x in r.value[id].evidence <==> exists e :: e in edges && e.identity == id && x in e.evidence)
  {
    var unique: map<EdgeIdentity, GraphEdge> := map[];
    for i := 0 to |edges|
      invariant forall j :: 0 <= j < i ==> edges[j].identity.source in nodes && edges[j].identity.target in nodes
      invariant forall j :: 0 <= j < i ==>
                   edges[j].identity in unique && edges[j].evidence <= unique[edges[j].identity].evidence
      invariant forall id :: id in unique ==>
                  unique[id].identity == id && exists j :: 0 <= j < i && edges[j].identity == id
      invariant forall id, x :: id in unique && x in unique[id].evidence ==>
                  exists j :: 0 <= j < i && edges[j].identity == id && x in edges[j].evidence
    {
      var edge := edges[i];
      if !(edge.identity.source in nodes && edge.identity.target in nodes) {
        return Err(DanglingEdge);
      }
      var merged := if edge.identity in unique then GraphEdge(edge.identity,
                                                              unique[edge.identity].evidence + edge.evidence) else edge;
      unique := unique[edge.identity := merged];
    }
    r := Ok(unique);
  }

  method Construct(nodes: seq<GraphNode>, edges: seq<GraphEdge>) returns (r: Result<GraphData, GraphError>)
    ensures Constructs(r, Elements(nodes), Elements(edges))
  {
    var known := CollectNodes(nodes);
    if known.Err? {
      return Err(known.error);
    }
    var all := Elements(nodes);
    forall identity ensures identity in known.value <==> Known(all, identity) {
      if identity in known.value {
        assert known.value[identity] in all;
      }
      if Known(all, identity) {
        var n :| n in all && n.identity == identity;
      }
    }
    var unique := CollectEdges(known.value, edges);
    if unique.Err? {
      return Err(unique.error);
    }
    assert (set e | e in edges :: e.identity) == (set e | e in Elements(edges) :: e.identity);
    r := Ok(GraphData(known.value, unique.value));
    forall id | id in unique.value ensures id.source in known.value && id.target in known.value {
      assert id in (set e | e in edges :: e.identity);
    }
  }
}
