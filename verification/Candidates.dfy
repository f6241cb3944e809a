/** Extracting a dependency-closed candidate set from typed observations. */
module Candidates {
  import opened Prelude

  /** The record types that become candidates; everything else only contains them. */
  datatype Tag =
    | Container | RangeTag | NodeTag | EvidenceTag | GraphNodeTag | SymbolTag | RangeFactTag | FixtureTag | CaseTag
    | TestMappingTag | EdgeTag | CallTag | RoleTag | ComponentTag | ArgumentTag | LayoutTag | BindingTag | CreationTag
    | PropertyTag | OverlayTag | ChangeTag

  /** A typed value: `id` is what identifies a record among those of its type, symbol identities are node records. */
  datatype Value = Value(tag: Tag, id: int, parts: seq<Value>) {
    predicate IsRecord() {
      !tag.Container?
    }

    predicate IsRelation() {
      tag.EdgeTag? || tag.CallTag?
    }

    /** Records that say something about one node. */
    predicate Describes() {
      tag.GraphNodeTag? || tag.SymbolTag? || tag.CaseTag? || tag.FixtureTag?
    }
  }

  /** The record types that the fields of a record type can hold. */
  function Fields(t: Tag): set<Tag> {
    match t
    case Container => {}
    case RangeTag => {}
    case NodeTag => {}
    case EvidenceTag => {NodeTag, RangeTag}
    case GraphNodeTag => {NodeTag, RangeTag}
    case SymbolTag => {NodeTag, RangeTag}
    case RangeFactTag => {NodeTag, RangeTag}
    case FixtureTag => {NodeTag, RangeTag}
    case CaseTag => {NodeTag, RangeTag}
    case TestMappingTag => {NodeTag, RangeTag}
    case EdgeTag => {NodeTag, EvidenceTag}
    case CallTag => {NodeTag, SymbolTag, RangeTag}
    case RoleTag => {NodeTag, EvidenceTag}
    case ComponentTag => {GraphNodeTag, EvidenceTag}
    case ArgumentTag => {NodeTag, EdgeTag, EvidenceTag}
    case LayoutTag => {NodeTag, EdgeTag, EvidenceTag}
    case BindingTag => {NodeTag, EdgeTag, EvidenceTag}
    case CreationTag => {GraphNodeTag, EvidenceTag, EdgeTag, ArgumentTag, NodeTag}
    case PropertyTag => {GraphNodeTag, EvidenceTag, EdgeTag, BindingTag, NodeTag}
    case OverlayTag => {GraphNodeTag, EvidenceTag, EdgeTag}
    case ChangeTag => {NodeTag, RangeTag}
  }

  /** Every record sits where a field of the enclosing record can hold it; relations and descriptions begin with their
      nodes. */
  predicate Typed(v: Value, allowed: set<Tag>) {
    && (v.IsRecord() ==> v.tag in allowed)
    && (v.IsRelation() ==> |v.parts| >= 2 && v.parts[0].tag.NodeTag? && v.parts[1].tag.NodeTag?)
    && (v.Describes() ==> |v.parts| >= 1 && v.parts[0].tag.NodeTag?)
    && forall i :: 0 <= i < |v.parts| ==> Typed(v.parts[i], if v.IsRecord() then Fields(v.tag) else allowed)
  }

  const AllTags: set<Tag> := set t: Tag | t != Container

  // ---- Keys -----------------------------------------------------------------------------------------

  datatype Kind = NodeKind | FactKind | RangeKind | RelationKind | AssociationKind | BindingKind
                | EvidenceKind | ChangeKind

  /** What identifies a candidate: an edge and a direct call between the same nodes share one. */
  datatype Key = RelationKey(source: int, target: int, relation: int) | PlainKey(tag: Tag, id: int)

  function KeyOf(v: Value): Key {
    if v.IsRelation() && |v.parts| >= 2 then RelationKey(v.parts[0].id, v.parts[1].id, v.id) else PlainKey(v.tag, v.id)
  }

  function KindOf(t: Tag): Kind {
    match t
    case NodeTag => NodeKind
    case EdgeTag => RelationKind
    case CallTag => RelationKind
    case RangeTag => RangeKind
    case EvidenceTag => EvidenceKind
    case ArgumentTag => AssociationKind
    case LayoutTag => AssociationKind
    case CreationTag => AssociationKind
    case PropertyTag => AssociationKind
    case OverlayTag => AssociationKind
    case BindingTag => BindingKind
    case ChangeTag => ChangeKind
    case _ => FactKind
  }

  datatype Side = Target | Old | New

  /** The snapshot and side an observation belongs to; repository and revision follow from the input and the side. */
  datatype Scope = Scope(snapshot: Option<int>, side: Side)

  /** Digests of scope and key are injective, so a candidate is identified by both. */
  datatype Cid = Cid(scope: Scope, key: Key)

  datatype Candidate = Candidate(kind: Kind, observations: set<Value>, ranges: set<Value>, dependencies: set<Cid>)

  // ---- Walking --------------------------------------------------------------------------------------

  /** `walk`: every value inside, with the path that leads to it. */
  function Walk(v: Value, path: seq<nat>): seq<(seq<nat>, Value)>
    decreases v, 1, 0
  {
    [(path, v)] + WalkParts(v, path, |v.parts|)
  }

  function WalkParts(v: Value, path: seq<nat>, k: nat): seq<(seq<nat>, Value)>
    requires k <= |v.parts|
    decreases v, 0, k
  {
    if k == 0 then [] else WalkParts(v, path, k - 1) + Walk(v.parts[k - 1], path + [k - 1])
  }

  /** The value at a relative path. */
  function Sub(v: Value, path: seq<nat>): Option<Value>
    decreases path
  {
    if path == [] then Some(v)
    else if path[0] < |v.parts| then Sub(v.parts[path[0]], path[1..])
    else None
  }

  predicate Extends(path: seq<nat>, longer: seq<nat>) {
    |path| <= |longer| && longer[..|path|] == path
  }

  /** The walk yields exactly the subterms, each at its path. */
  lemma {:induction false} WalkIsSub(v: Value, path: seq<nat>, q: seq<nat>, y: Value)
    ensures (q, y) in Walk(v, path) <==> Extends(path, q) && Sub(v, q[|path|..]) == Some(y)
    decreases v, 1, 0
  {
    WalkPartsIsSub(v, path, |v.parts|, q, y);
    if Extends(path, q) && |q| == |path| {
      assert q == path;
    }
    assert (q, y) in Walk(v, path) <==> (q, y) == (path, v) || (q, y) in WalkParts(v, path, |v.parts|);
  }

  lemma {:induction false} WalkPartsIsSub(v: Value, path: seq<nat>, k: nat, q: seq<nat>, y: Value)
    requires k <= |v.parts|
    ensures (q, y) in WalkParts(v, path, k) <==>
            Extends(path, q) && |q| > |path| && q[|path|] < k && Sub(v, q[|path|..]) == Some(y)
    decreases v, 0, k
  {
    if k > 0 {
      WalkPartsIsSub(v, path, k - 1, q, y);
      WalkIsSub(v.parts[k - 1], path + [k - 1], q, y);
      OneDeeper(v, path, k - 1, q);
    }
  }

  lemma OneDeeper(v: Value, path: seq<nat>, i: nat, q: seq<nat>)
    requires i < |v.parts|
    ensures Extends(path + [i], q) <==> Extends(path, q) && |q| > |path| && q[|path|] == i
    ensures Extends(path + [i], q) ==> Sub(v, q[|path|..]) == Sub(v.parts[i], q[|path| + 1..])
  {
    if Extends(path + [i], q) {
      assert q[..|path|] == q[..|path| + 1][..|path|] == path;
      assert q[|path|] == q[..|path| + 1][|path|] == i;
      assert q[|path|..][1..] == q[|path| + 1..];
    }
    if Extends(path, q) && |q| > |path| && q[|path|] == i {
      assert q[..|path| + 1] == path + [i];
    }
  }

  lemma {:induction false} SubOfSub(v: Value, p: seq<nat>, q: seq<nat>)
    requires Sub(v, p).Some?
    ensures Sub(v, p + q) == Sub(Sub(v, p).value, q)
    decreases |p|
  {
    if p == [] {
      assert p + q == q;
    } else {
      assert (p + q)[1..] == p[1..] + q;
      SubOfSub(v.parts[p[0]], p[1..], q);
    }
  }

  // ---- Ranks ----------------------------------------------------------------------------------------

  /** Records of a type hold only records of smaller rank. */
  function Rank(t: Tag): nat {
    match t
    case Container => 0
    case RangeTag => 0
    case NodeTag => 1
    case EvidenceTag => 2
    case GraphNodeTag => 3 case SymbolTag => 3 case RangeFactTag => 3 case FixtureTag => 3 case CaseTag => 3
    case TestMappingTag => 3
    case EdgeTag => 4 case CallTag => 4
    case RoleTag => 5 case ComponentTag => 5 case ArgumentTag => 5 case LayoutTag => 5 case BindingTag => 5
    case CreationTag => 6 case PropertyTag => 6 case OverlayTag => 6
    case ChangeTag => 7
  }

  function KeyRank(k: Key): nat {
    match k
    case RelationKey(_, _, _) => Rank(EdgeTag)
    case PlainKey(t, _) => Rank(t)
  }

  lemma FieldsDescend(t: Tag)
    ensures forall u :: u in Fields(t) ==> Rank(u) < Rank(t)
  {
  }

  /** A record inside a typed value has the rank of what the place allows, or less. */
  lemma {:induction false} SubIsTyped(v: Value, allowed: set<Tag>, path: seq<nat>, bound: nat)
    requires Typed(v, allowed) && Sub(v, path).Some? && forall t :: t in allowed ==> Rank(t) <= bound
    ensures exists inner :: Typed(Sub(v, path).value, inner) && forall t :: t in inner ==> Rank(t) <= bound
    decreases |path|
  {
    if path != [] {
      var inner := if v.IsRecord() then Fields(v.tag) else allowed;
      FieldsDescend(v.tag);
      SubIsTyped(v.parts[path[0]], inner, path[1..], bound);
    }
  }

  /** Strictly inside a record, ranks are strictly smaller. */
  lemma InsideRanksLower(v: Value, allowed: set<Tag>, path: seq<nat>)
    requires Typed(v, allowed) && v.IsRecord() && path != [] && Sub(v, path).Some? && Sub(v, path).value.IsRecord()
    ensures Rank(Sub(v, path).value.tag) < Rank(v.tag)
  {
    FieldsDescend(v.tag);
    if Fields(v.tag) != {} {
      var t := The(Fields(v.tag));
      SubIsTyped(v.parts[path[0]], Fields(v.tag), path[1..], Rank(v.tag) - 1);
    } else {
      NoRecordsInside(v.parts[path[0]], path[1..]);
    }
  }

  lemma {:induction false} NoRecordsInside(v: Value, path: seq<nat>)
    requires Typed(v, {}) && Sub(v, path).Some?
    ensures !Sub(v, path).value.IsRecord()
    decreases |path|
  {
    if path != [] {
      NoRecordsInside(v.parts[path[0]], path[1..]);
    }
  }

  // ---- What one value contributes -------------------------------------------------------------------

  /** The path leads to this record inside the value. */
  predicate RecordAt(value: Value, path: seq<nat>, item: Value) {
    Sub(value, path) == Some(item) && item.IsRecord()
  }

  predicate IsItem(v: Value) {
    Typed(v, AllTags) && v.IsRecord()
  }

  lemma RecordsAreItems(value: Value, path: seq<nat>, item: Value)
    requires Typed(value, AllTags) && RecordAt(value, path, item)
    ensures IsItem(item)
  {
    SubIsTypedAnywhere(value, AllTags, path);
  }

  lemma {:induction false} SubIsTypedAnywhere(v: Value, allowed: set<Tag>, path: seq<nat>)
    requires Typed(v, allowed) && allowed <= AllTags && Sub(v, path).Some?
    ensures Typed(Sub(v, path).value, AllTags)
    decreases |path|
  {
    if path == [] {
      Widen(v, allowed);
    } else {
      var inner := if v.IsRecord() then Fields(v.tag) else allowed;
      FieldsAreTags(v.tag);
      SubIsTypedAnywhere(v.parts[path[0]], inner, path[1..]);
    }
  }

  lemma FieldsAreTags(t: Tag)
    ensures Fields(t) <= AllTags
  {
  }

  lemma {:induction false} Widen(v: Value, allowed: set<Tag>)
    requires Typed(v, allowed) && allowed <= AllTags
    ensures Typed(v, AllTags)
    decreases v
  {
    if !v.IsRecord() {
      forall i | 0 <= i < |v.parts| ensures Typed(v.parts[i], AllTags) {
        Widen(v.parts[i], allowed);
      }
    }
  }

  /** The ranges anywhere in a record, itself included. */
  ghost predicate HasRange(item: Value, r: Value) {
    exists path :: RecordAt(item, path, r) && r.tag.RangeTag?
  }

  /** `d` lies strictly inside `item`. */
  ghost predicate Inside(item: Value, d: Value) {
    exists path :: path != [] && RecordAt(item, path, d)
  }

  ghost predicate Occurs(value: Value, item: Value) {
    exists path :: RecordAt(value, path, item)
  }
}
