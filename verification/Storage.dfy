/** The stored form of a graph snapshot: encoding to JSON and the checks that decoding repeats. */
module Storage {
  import opened Prelude
  import opened Codec
  import opened Diff

  datatype Identity = Identity(space: string, key: string) {
    predicate Valid() {
      !Blank(space) && !Blank(key)
    }
  }

  datatype Location = Location(file: string, line: int, column: int) {
    predicate Valid() {
      line >= 1 && column >= 1 && IsCanonicalPath(file)
    }
  }

  datatype Range = Range(start: Location, end: Location) {
    predicate Valid() {
      && start.Valid() && end.Valid() && start.file == end.file
      && (start.line < end.line || (start.line == end.line && start.column <= end.column))
    }
  }

  /** A range brings its file with it. */
  datatype Anchor = Anchor(symbol: Option<string>, file: Option<string>, range: Option<Range>) {
    predicate Valid() {
      && (symbol.Some? ==> !Blank(symbol.value)) && (file.Some? ==> IsCanonicalPath(file.value))
      && (range.Some? ==> range.value.Valid() && file == Some(range.value.start.file))
      && (symbol.Some? || file.Some?)
    }
  }

  datatype Node = Node(identity: Identity, kind: string, name: string, anchors: set<Anchor>) {
    predicate Valid() {
      && identity.Valid() && kind in NodeKinds && !Blank(name) && anchors != {}
      && (forall a :: a in anchors ==> a.Valid())
      && (identity.space == "symbol" ==> exists a :: a in anchors && a.symbol == Some(identity.key))
      && (identity.space == "file" ==> exists a :: a in anchors && a.file == Some(identity.key))
    }
  }

  datatype Evidence = Evidence(provenance: string, anchor: Anchor, description: string) {
    predicate Valid() {
      !Blank(provenance) && !Blank(description) && anchor.Valid()
    }
  }

  datatype EdgeIdentity = EdgeIdentity(source: Identity, target: Identity, relation: string) {
    predicate Valid() {
      source.Valid() && target.Valid() && relation in Relations
    }
  }

  datatype Edge = Edge(identity: EdgeIdentity, evidence: set<Evidence>) {
    predicate Valid() {
      identity.Valid() && evidence != {} && forall e :: e in evidence ==> e.Valid()
    }
  }

  const NodeKinds: set<string> := {
    "file", "symbol", "function", "method", "class", "component", "arkts_api", "bridge", "model", "pattern",
    "layout_property", "paint_property", "layout_algorithm", "overlay_manager", "test_fixture", "test_case"}

  const Relations: set<string> := {
    "DECLARE", "DEFINE", "CALL", "REFERENCE", "INHERIT", "OVERRIDE", "CREATE", "UPDATE_PROPERTY", "MEASURE", "LAYOUT",
    "SHOW", "CLOSE", "TEST", "MOCK"}

  /** Canonical tuples of records are represented by their sets. */
  datatype Snapshot = Snapshot(repository: string, key: string, nodes: set<Node>, edges: set<Edge>) {
    ghost predicate Valid() {
      && !Blank(repository) && !Blank(key) && (forall n :: n in nodes ==> n.Valid()) &&
           (forall e :: e in edges ==> e.Valid())
      && (forall m, n :: m in nodes && n in nodes && m.identity == n.identity ==> m == n)
      && (forall d, e :: d in edges && e in edges && d.identity == e.identity ==> d == e)
      && forall e :: e in edges ==> Known(nodes, e.identity.source) && Known(nodes, e.identity.target)
    }
  }

  predicate Known(nodes: set<Node>, id: Identity) {
    exists n :: n in nodes && n.identity == id
  }

  predicate IsSpace(c: char) {
    || '\t' <= c <= '\r' || '\U{1C}' <= c <= ' ' || c == '\U{85}' || c == '\U{A0}' || c == '\U{1680}'
    || '\U{2000}' <= c <= '\U{200A}' || c in {'\U{2028}', '\U{2029}', '\U{202F}', '\U{205F}', '\U{3000}'}
  }

  predicate Blank(s: string) {
    forall i :: 0 <= i < |s| ==> IsSpace(s[i])
  }

  // ---- Encoding -------------------------------------------------------------------------------------

  /** The order in which a set of records is listed. */
  datatype Listing = Listing(anchors: set<Anchor> -> seq<Anchor>, evidence: set<Evidence> -> seq<Evidence>,
                             nodes: set<Node> -> seq<Node>, edges: set<Edge> -> seq<Edge>)
  {
    ghost predicate Valid() {
      && (forall s :: Elements(anchors(s)) == s) && (forall s :: Elements(evidence(s)) == s)
      && (forall s :: Elements(nodes(s)) == s) && (forall s :: Elements(edges(s)) == s)
    }
  }

  function EncodeOptional(s: Option<string>): Json {
    match s case None => Null case Some(t) => Str(t)
  }

  function EncodeIdentity(id: Identity): Json {
    Arr([Str(id.space), Str(id.key)])
  }

  function EncodeLocation(l: Location): Json {
    Obj(map["file" := Str(l.file), "line" := Int(l.line), "column" := Int(l.column)])
  }

  function EncodeRange(r: Option<Range>): Json {
    match r
    case None => Null
    case Some(r) => Obj(map["start" := EncodeLocation(r.start), "end" := EncodeLocation(r.end)])
  }

  function EncodeAnchor(a: Anchor): Json {
    Obj(map["symbol" := EncodeOptional(a.symbol), "file" := EncodeOptional(a.file), "range" := EncodeRange(a.range)])
  }

  function EncodeEvidence(e: Evidence): Json {
    Obj(map["provenance" := Str(e.provenance), "anchor" := EncodeAnchor(e.anchor), "description" := Str(e.description)])
  }

  function Each<T>(s: seq<T>, f: T -> Json): seq<Json> {
    seq(|s|, i requires 0 <= i < |s| => f(s[i]))
  }

  function EncodeNode(l: Listing, n: Node): Json {
    Obj(map["identity" := EncodeIdentity(n.identity), "kind" := Str(n.kind), "display_name" := Str(n.name),
            "anchors" := Arr(Each(l.anchors(n.anchors), EncodeAnchor))])
  }

  function EncodeEdge(l: Listing, e: Edge): Json {
    Obj(map["source" := EncodeIdentity(e.identity.source), "target" := EncodeIdentity(e.identity.target),
            "relation" := Str(e.identity.relation), "evidence" := Arr(Each(l.evidence(e.evidence), EncodeEvidence))])
  }

  function EncodeSnapshot(l: Listing, s: Snapshot): Json {
    Obj(map["schema_version" := Int(1), "projection" := Str("p1-index-v1"),
            "repository_key" := Str(s.repository), "snapshot_key" := Str(s.key),
            "nodes" := Arr(Each(l.nodes(s.nodes), n => EncodeNode(l, n))),
            "edges" := Arr(Each(l.edges(s.edges), e => EncodeEdge(l, e)))])
  }

  // ---- Decoding -------------------------------------------------------------------------------------

  function Field(j: Json, name: string): Option<Json> {
    if j.Obj? && name in j.members then Some(j.members[name]) else None
  }

  function TextField(j: Json, name: string): Option<string> {
    match Field(j, name) case Some(Str(t)) => Some(t) case _ => None
  }

  function IntField(j: Json, name: string): Option<int> {
    match Field(j, name) case Some(Int(n)) => Some(n) case _ => None
  }

  function ItemsField(j: Json, name: string): Option<seq<Json>> {
    match Field(j, name) case Some(Arr(items)) => Some(items) case _ => None
  }

  /** A text or null; anything else is refused. */
  function OptionalField(j: Json, name: string): Option<Option<string>> {
    match Field(j, name) case Some(Str(t)) => Some(Some(t)) case Some(Null) => Some(None) case _ => None
  }

  function DecodeIdentity(j: Option<Json>): Option<Identity> {
    match j
    case Some(Arr(items)) =>
      if |items| == 2 && items[0].Str? && items[1].Str? then
        var id := Identity(items[0].text, items[1].text);
        if id.Valid() then Some(id) else None
      else None
    case _ => None
  }

  function DecodeLocation(j: Option<Json>): Option<Location> {
    if j.None? then None
    else match (TextField(j.value, "file"), IntField(j.value, "line"), IntField(j.value, "column"))
      case (Some(file), Some(line), Some(column)) => Some(Location(file, line, column))
      case _ => None
  }

  function DecodeRange(j: Option<Json>): Option<Option<Range>> {
    match j
    case None => None
    case Some(Null) => Some(None)
    case Some(r) =>
      match (DecodeLocation(Field(r, "start")), DecodeLocation(Field(r, "end")))
      case (Some(start), Some(end)) => if Range(start, end).Valid() then Some(Some(Range(start, end))) else None
      case _ => None
  }

  /** The anchor's constructor supplies the file of a range, and refuses another one. */
  function MakeAnchor(symbol: Option<string>, file: Option<string>, range: Option<Range>): Option<Anchor> {
    if range.Some? && file.Some? && file.value != range.value.start.file then None
    else
      var a := Anchor(symbol, if range.Some? then Some(range.value.start.file) else file, range);
      if a.Valid() then Some(a) else None
  }

  function DecodeAnchor(j: Json): Option<Anchor> {
    match (OptionalField(j, "symbol"), OptionalField(j, "file"), DecodeRange(Field(j, "range")))
    case (Some(symbol), Some(file), Some(range)) =>
      if file.Some? && !IsCanonicalPath(file.value) then None else MakeAnchor(symbol, file, range)
    case _ => None
  }

  function DecodeEvidence(j: Json): Option<Evidence> {
    match (TextField(j, "provenance"), TextField(j, "description"), Field(j, "anchor"))
    case (Some(provenance), Some(description), Some(anchor)) =>
      var a := DecodeAnchor(anchor);
      if a.Some? && Evidence(provenance, a.value, description).Valid() then Some(Evidence(provenance, a.value,
          description)) else None
    case _ => None
  }

  /** All items, or nothing. */
  function All<T>(items: seq<Json>, decode: Json -> Option<T>): Option<seq<T>> {
    var parts := seq(|items|, i requires 0 <= i < |items| => decode(items[i]));
    if forall i :: 0 <= i < |parts| ==> parts[i].Some? then
      Some(seq(|parts|, i requires 0 <= i < |parts| => parts[i].value))
    else None
  }

  function DecodeNode(j: Json): Option<Node> {
    match (DecodeIdentity(Field(j, "identity")), TextField(j, "kind"), TextField(j, "display_name"),
           ItemsField(j, "anchors"))
    case (Some(id), Some(kind), Some(name), Some(items)) =>
      var anchors := All(items, DecodeAnchor);
      if anchors.Some? && Node(id, kind, name, Elements(anchors.value)).Valid() then
        Some(Node(id, kind, name, Elements(anchors.value)))
      else None
    case _ => None
  }

  function DecodeEdge(j: Json): Option<Edge> {
    match (DecodeIdentity(Field(j, "source")), DecodeIdentity(Field(j, "target")), TextField(j, "relation"),
           ItemsField(j, "evidence"))
    case (Some(source), Some(target), Some(relation), Some(items)) =>
      var evidence := All(items, DecodeEvidence);
      if evidence.Some? && Edge(EdgeIdentity(source, target, relation), Elements(evidence.value)).Valid() then
        Some(Edge(EdgeIdentity(source, target, relation), Elements(evidence.value)))
      else None
    case _ => None
  }

  /** Evidence of repeated edges is united. */
  function Unite(edges: set<Edge>): set<Edge> {
    set e | e in edges :: Edge(e.identity, set f, x | f in edges && f.identity == e.identity && x in f.evidence :: x)
  }

  /** The snapshot's constructor. */
  ghost function MakeSnapshot(repository: string, key: string, nodes: set<Node>, edges: set<Edge>): Option<Snapshot> {
    var s := Snapshot(repository, key, nodes, Unite(edges));
    if s.Valid() then Some(s) else None
  }

  ghost function DecodeSnapshot(j: Json, repository: string, key: string): Option<Snapshot> {
    if IntField(j, "schema_version") != Some(1) || TextField(j, "projection") != Some("p1-index-v1")
       || TextField(j, "repository_key") != Some(repository) || TextField(j, "snapshot_key") != Some(key) then None
    else match (ItemsField(j, "nodes"), ItemsField(j, "edges"))
      case (Some(nodeItems), Some(edgeItems)) =>
        var nodes, edges := All(nodeItems, DecodeNode), All(edgeItems, DecodeEdge);
        if nodes.Some? && edges.Some? then MakeSnapshot(repository, key, Elements(nodes.value), Elements(edges.value))
          else None
      case _ => None
  }

  // ---- The round trip -------------------------------------------------------------------------------

  lemma AllOfEach<T>(s: seq<T>, encode: T -> Json, decode: Json -> Option<T>)
    requires forall x :: x in s ==> decode(encode(x)) == Some(x)
    ensures All(Each(s, encode), decode) == Some(s)
  {
    var items := Each(s, encode);
    forall i | 0 <= i < |items| ensures decode(items[i]) == Some(s[i]) {
      assert s[i] in s;
    }
    var parts := seq(|items|, i requires 0 <= i < |items| => decode(items[i]));
    assert forall i :: 0 <= i < |parts| ==> parts[i] == Some(s[i]);
    assert seq(|parts|, i requires 0 <= i < |parts| => parts[i].value) == s;
  }

  lemma IdentityIsRead(id: Identity)
    requires id.Valid()
    ensures DecodeIdentity(Some(EncodeIdentity(id))) == Some(id)
  {
  }

  lemma LocationIsRead(l: Location)
    ensures DecodeLocation(Some(EncodeLocation(l))) == Some(l)
  {
  }

  lemma RangeIsRead(r: Option<Range>)
    requires r.Some? ==> r.value.Valid()
    ensures DecodeRange(Some(EncodeRange(r))) == Some(r)
  {
    if r.Some? {
      LocationIsRead(r.value.start);
      LocationIsRead(r.value.end);
    }
  }

  lemma AnchorIsRead(a: Anchor)
    requires a.Valid()
    ensures DecodeAnchor(EncodeAnchor(a)) == Some(a)
  {
    hide IsCanonicalPath, Blank, DecodeRange, EncodeRange;
    RangeIsRead(a.range);
  }

  lemma EvidenceIsRead(e: Evidence)
    requires e.Valid()
    ensures DecodeEvidence(EncodeEvidence(e)) == Some(e)
  {
    hide Blank, DecodeAnchor, EncodeAnchor;
    AnchorIsRead(e.anchor);
  }

  lemma NodeIsRead(l: Listing, n: Node)
    requires l.Valid() && n.Valid()
    ensures DecodeNode(EncodeNode(l, n)) == Some(n)
  {
    assert Elements(l.anchors(n.anchors)) == n.anchors;
    hide Blank, DecodeAnchor, EncodeAnchor, DecodeIdentity, EncodeIdentity, All, Each;
    IdentityIsRead(n.identity);
    forall a | a in l.anchors(n.anchors) ensures DecodeAnchor(EncodeAnchor(a)) == Some(a) {
      assert a in Elements(l.anchors(n.anchors));
      AnchorIsRead(a);
    }
    AllOfEach(l.anchors(n.anchors), EncodeAnchor, DecodeAnchor);
  }

  lemma EdgeIsRead(l: Listing, e: Edge)
    requires l.Valid() && e.Valid()
    ensures DecodeEdge(EncodeEdge(l, e)) == Some(e)
  {
    assert Elements(l.evidence(e.evidence)) == e.evidence;
    hide Blank, DecodeEvidence, EncodeEvidence, DecodeIdentity, EncodeIdentity, All, Each;
    IdentityIsRead(e.identity.source);
    IdentityIsRead(e.identity.target);
    forall x | x in l.evidence(e.evidence) ensures DecodeEvidence(EncodeEvidence(x)) == Some(x) {
      assert x in Elements(l.evidence(e.evidence));
      EvidenceIsRead(x);
    }
    AllOfEach(l.evidence(e.evidence), EncodeEvidence, DecodeEvidence);
    FieldsOfEdge(l, e);
    hide EncodeEdge, TextField, ItemsField, Field;
  }

  lemma FieldsOfEdge(l: Listing, e: Edge)
    ensures var j := EncodeEdge(l, e);
            && Field(j, "source") == Some(EncodeIdentity(e.identity.source))
            && Field(j, "target") == Some(EncodeIdentity(e.identity.target))
            && TextField(j, "relation") == Some(e.identity.relation)
            && ItemsField(j, "evidence") == Some(Each(l.evidence(e.evidence), EncodeEvidence))
  {
  }

  lemma NothingToUnite(s: Snapshot)
    requires s.Valid()
    ensures Unite(s.edges) == s.edges
  {
    forall e | e in s.edges
      ensures Edge(e.identity, set f, x | f in s.edges && f.identity == e.identity && x in f.evidence :: x) == e
    {
    }
  }

  /** Decoding an encoded snapshot gives it back, under its own scope and under no other, for every listing order. */
  lemma SnapshotIsRead(l: Listing, s: Snapshot, repository: string, key: string)
    requires l.Valid() && s.Valid()
    ensures DecodeSnapshot(EncodeSnapshot(l, s), repository, key) == if (repository, key) ==
              (s.repository, s.key) then Some(s) else None
  {
    hide Node.Valid, Edge.Valid, DecodeNode, EncodeNode, DecodeEdge, EncodeEdge, All, Each, Unite, Blank, Known;
    assert Elements(l.nodes(s.nodes)) == s.nodes && Elements(l.edges(s.edges)) == s.edges;
    forall n | n in l.nodes(s.nodes) ensures DecodeNode(EncodeNode(l, n)) == Some(n) {
      assert n in Elements(l.nodes(s.nodes));
      ValidParts(s);
      NodeIsRead(l, n);
    }
    forall e | e in l.edges(s.edges) ensures DecodeEdge(EncodeEdge(l, e)) == Some(e) {
      assert e in Elements(l.edges(s.edges));
      ValidParts(s);
      EdgeIsRead(l, e);
    }
    AllOfEach(l.nodes(s.nodes), n => EncodeNode(l, n), DecodeNode);
    AllOfEach(l.edges(s.edges), e => EncodeEdge(l, e), DecodeEdge);
    NothingToUnite(s);
    FieldsOfSnapshot(l, s);
    hide EncodeSnapshot, Snapshot.Valid, TextField, IntField, ItemsField;
  }

  lemma FieldsOfSnapshot(l: Listing, s: Snapshot)
    ensures var j := EncodeSnapshot(l, s);
            && IntField(j, "schema_version") == Some(1) && TextField(j, "projection") == Some("p1-index-v1")
            && TextField(j, "repository_key") == Some(s.repository) && TextField(j, "snapshot_key") == Some(s.key)
            && ItemsField(j, "nodes") == Some(Each(l.nodes(s.nodes), n => EncodeNode(l, n)))
            && ItemsField(j, "edges") == Some(Each(l.edges(s.edges), e => EncodeEdge(l, e)))
  {
  }

  lemma ValidParts(s: Snapshot)
    requires s.Valid()
    ensures (forall n :: n in s.nodes ==> n.Valid()) && forall e :: e in s.edges ==> e.Valid()
  {
  }

  // ---- Stored rows ----------------------------------------------------------------------------------

  /** A document that lists any rows, repeated ones and several for one edge included. */
  function Document(l: Listing, repository: string, key: string, nodes: seq<Node>, edges: seq<Edge>): Json {
    Obj(map["schema_version" := Int(1), "projection" := Str("p1-index-v1"),
            "repository_key" := Str(repository), "snapshot_key" := Str(key),
            "nodes" := Arr(Each(nodes, n => EncodeNode(l, n))), "edges" := Arr(Each(edges, e => EncodeEdge(l, e)))])
  }

  /** Nodes of one identity agree, and every edge joins listed nodes. */
  ghost predicate Loadable(repository: string, key: string, nodes: seq<Node>, edges: seq<Edge>) {
    && !Blank(repository) && !Blank(key)
    && (forall m, n :: m in nodes && n in nodes && m.identity == n.identity ==> m == n)
    && forall e :: e in edges ==>
         && (exists n :: n in nodes && n.identity == e.identity.source)
         && (exists n :: n in nodes && n.identity == e.identity.target)
  }

  /** A row gives the edge this evidence. */
  ghost predicate Attests(edges: set<Edge>, id: EdgeIdentity, x: Evidence) {
    exists e :: e in edges && e.identity == id && x in e.evidence
  }

  lemma UniteKeepsEvidence(edges: set<Edge>)
    ensures forall id, x :: Attests(Unite(edges), id, x) <==> Attests(edges, id, x)
    ensures forall d, e :: d in Unite(edges) && e in Unite(edges) && d.identity == e.identity ==> d == e
    ensures (forall e :: e in edges ==> e.Valid()) ==> forall e :: e in Unite(edges) ==> e.Valid()
    ensures forall e :: e in edges ==> exists d :: d in Unite(edges) && d.identity == e.identity
    ensures forall d :: d in Unite(edges) ==> exists e :: e in edges && e.identity == d.identity
  {
    hide Blank;
    forall e | e in edges ensures exists d :: d in Unite(edges) && d.identity == e.identity {
      var evidence := set f, x | f in edges && f.identity == e.identity && x in f.evidence :: x;
      assert Edge(e.identity, evidence) in Unite(edges);
    }
    forall id, x | Attests(edges, id, x) ensures Attests(Unite(edges), id, x) {
      var e :| e in edges && e.identity == id && x in e.evidence;
      assert Edge(id, set f, y | f in edges && f.identity == id && y in f.evidence :: y) in Unite(edges);
    }
    if forall e :: e in edges ==> e.Valid() {
      forall d | d in Unite(edges) ensures d.Valid() {
        var e :| e in edges && d == Edge(e.identity,
                                         set f, x | f in edges && f.identity == e.identity && x in f.evidence :: x);
        var x :| x in e.evidence;
        assert x in d.evidence;
      }
    }
  }

  /** The snapshot's constructor accepts exactly loadable rows. */
  lemma MadeExactly(repository: string, key: string, nodes: seq<Node>, edges: seq<Edge>)
    requires (forall n :: n in nodes ==> n.Valid()) && forall e :: e in edges ==> e.Valid()
    ensures var r := MakeSnapshot(repository, key, Elements(nodes), Elements(edges));
            && (r.Some? <==> Loadable(repository, key, nodes, edges))
            && (r.Some? ==>
                  && r.value.Valid() && r.value.repository == repository && r.value.key == key
                  && r.value.nodes == Elements(nodes)
                  && forall id, x :: Attests(r.value.edges, id, x) <==> Attests(Elements(edges), id, x))
  {
    hide Node.Valid, Edge.Valid, Unite, Blank, Attests;
    var united := Unite(Elements(edges));
    UniteKeepsEvidence(Elements(edges));
    assert forall e :: e in edges <==> e in Elements(edges);
    assert forall n :: n in nodes <==> n in Elements(nodes);
    forall id: Identity ensures Known(Elements(nodes), id) <==> exists n :: n in nodes && n.identity == id {
    }
    if Loadable(repository, key, nodes, edges) {
      forall d | d in united
        ensures Known(Elements(nodes), d.identity.source) && Known(Elements(nodes), d.identity.target)
      {
        var e :| e in edges && e.identity == d.identity;
      }
    } else if Snapshot(repository, key, Elements(nodes), united).Valid() {
      forall e | e in edges
        ensures Known(Elements(nodes), e.identity.source) && Known(Elements(nodes), e.identity.target)
      {
        var d :| d in united && d.identity == e.identity;
      }
      assert false;
    }
  }

  /** Stored rows are accepted exactly when nodes of one identity agree and no edge dangles; then the snapshot holds
      each node once, and one edge per identity with the evidence of all its rows. */
  lemma RowsAreRead(l: Listing, repository: string, key: string, nodes: seq<Node>, edges: seq<Edge>)
    requires l.Valid() && (forall n :: n in nodes ==> n.Valid()) && forall e :: e in edges ==> e.Valid()
    ensures var r := DecodeSnapshot(Document(l, repository, key, nodes, edges), repository, key);
            && (r.Some? <==> Loadable(repository, key, nodes, edges))
            && (r.Some? ==>
                  && r.value.Valid() && r.value.repository == repository && r.value.key == key
                  && r.value.nodes == Elements(nodes)
                  && forall id, x :: Attests(r.value.edges, id, x) <==> Attests(Elements(edges), id, x))
  {
    forall n | n in nodes ensures DecodeNode(EncodeNode(l, n)) == Some(n) {
      NodeIsRead(l, n);
    }
    forall e | e in edges ensures DecodeEdge(EncodeEdge(l, e)) == Some(e) {
      EdgeIsRead(l, e);
    }
    hide Node.Valid, Edge.Valid, DecodeNode, EncodeNode, DecodeEdge, EncodeEdge, All, Each;
    AllOfEach(nodes, n => EncodeNode(l, n), DecodeNode);
    AllOfEach(edges, e => EncodeEdge(l, e), DecodeEdge);
    DecodesRows(l, repository, key, nodes, edges);
    MadeExactly(repository, key, nodes, edges);
    hide *;
  }

  lemma FieldsOfDocument(l: Listing, repository: string, key: string, nodes: seq<Node>, edges: seq<Edge>)
    ensures var j := Document(l, repository, key, nodes, edges);
            && IntField(j, "schema_version") == Some(1) && TextField(j, "projection") == Some("p1-index-v1")
            && TextField(j, "repository_key") == Some(repository) && TextField(j, "snapshot_key") == Some(key)
            && ItemsField(j, "nodes") == Some(Each(nodes, n => EncodeNode(l, n)))
            && ItemsField(j, "edges") == Some(Each(edges, e => EncodeEdge(l, e)))
  {
  }

  lemma DecodesRows(l: Listing, repository: string, key: string, nodes: seq<Node>, edges: seq<Edge>)
    requires All(Each(nodes, n => EncodeNode(l, n)), DecodeNode) == Some(nodes)
    requires All(Each(edges, e => EncodeEdge(l, e)), DecodeEdge) == Some(edges)
    ensures DecodeSnapshot(Document(l, repository, key, nodes, edges), repository, key)
         == MakeSnapshot(repository, key, Elements(nodes), Elements(edges))
  {
    FieldsOfDocument(l, repository, key, nodes, edges);
    hide Document, TextField, IntField, ItemsField, MakeSnapshot, All, Each, DecodeNode, DecodeEdge;
  }

  /** Whatever is loaded is a valid snapshot of the scope that was asked for, and saving it loads the same again. */
  lemma LoadedIsSaved(l: Listing, j: Json, repository: string, key: string)
    requires l.Valid() && DecodeSnapshot(j, repository, key).Some?
    ensures var s := DecodeSnapshot(j, repository, key).value;
            && s.Valid() && s.repository == repository && s.key == key
            && DecodeSnapshot(EncodeSnapshot(l, s), repository, key) == Some(s)
  {
    var s := DecodeSnapshot(j, repository, key).value;
    SnapshotIsRead(l, s, repository, key);
  }
}
