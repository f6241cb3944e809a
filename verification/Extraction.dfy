/** The extractor that collects candidates, and the closure and order of what it collects. */
module Extraction {
  import opened Prelude
  import opened Candidates

  type Selection = seq<(seq<nat>, Value)>

  ghost predicate IsSelection(value: Value, s: Selection) {
    forall path, item :: (path, item) in s <==> (path, item) in Walk(value, []) && item.IsRecord()
  }

  /** The records of a value, in walk order. */
  method Select(value: Value) returns (s: Selection)
    ensures IsSelection(value, s)
  {
    var walk := Walk(value, []);
    s := [];
    for i := 0 to |walk|
      invariant forall path, item :: (path, item) in s <==> (path, item) in walk[..i] && item.IsRecord()
    {
      assert walk[..i + 1] == walk[..i] + [walk[i]];
      if walk[i].1.IsRecord() {
        s := s + [walk[i]];
      }
    }
    assert walk[..|walk|] == walk;
  }

  lemma SelectedOccur(value: Value, s: Selection, path: seq<nat>, item: Value)
    requires IsSelection(value, s)
    ensures (path, item) in s <==> RecordAt(value, path, item)
  {
    WalkIsSub(value, [], path, item);
    assert path[0..] == path;
  }

  /** The ranges inside a record. */
  function RangesOf(item: Value): set<Value> {
    set i | 0 <= i < |Walk(item, [])| && Walk(item, [])[i].1.tag.RangeTag? :: Walk(item, [])[i].1
  }

  lemma RangesAreInside(item: Value, r: Value)
    ensures r in RangesOf(item) <==> HasRange(item, r)
  {
    var walk := Walk(item, []);
    if r in RangesOf(item) {
      var i :| 0 <= i < |walk| && walk[i].1 == r && r.tag.RangeTag?;
      assert (walk[i].0, r) in walk;
      WalkIsSub(item, [], walk[i].0, r);
      assert walk[i].0[0..] == walk[i].0;
      assert RecordAt(item, walk[i].0, r);
    }
    if HasRange(item, r) {
      var path :| RecordAt(item, path, r) && r.tag.RangeTag?;
      WalkIsSub(item, [], path, r);
      assert path[0..] == path;
      var i :| 0 <= i < |walk| && walk[i] == (path, r);
    }
  }

  predicate WellSelected(s: Selection) {
    forall i :: 0 <= i < |s| ==> IsItem(s[i].1)
  }

  function CidAt(s: Selection, scope: Scope, i: nat): Cid
    requires WellSelected(s) && i < |s|
  {
    Cid(scope, KeyOf(s[i].1))
  }

  /** The candidates of the records strictly below the `i`-th one, itself excepted. */
  function DependenciesAt(s: Selection, scope: Scope, i: nat): set<Cid>
    requires WellSelected(s) && i < |s|
  {
    set k | 0 <= k < |s| && |s[k].0| > |s[i].0| && Extends(s[i].0, s[k].0) &&
      CidAt(s, scope, k) != CidAt(s, scope, i) :: CidAt(s, scope, k)
  }

  // ---- Merging one record ---------------------------------------------------------------------------

  function Merge(records: map<Cid, Candidate>, cid: Cid, c: Candidate): map<Cid, Candidate> {
    records[cid := if cid in records then
                     Candidate(c.kind, records[cid].observations + c.observations, records[cid].ranges + c.ranges,
                               records[cid].dependencies + c.dependencies)
                   else c]
  }

  function CandidateAt(s: Selection, scope: Scope, i: nat): Candidate
    requires WellSelected(s) && i < |s|
  {
    Candidate(KindOf(s[i].1.tag), {s[i].1}, RangesOf(s[i].1), DependenciesAt(s, scope, i))
  }

  /** The records after the first `k` selected ones are merged in. */
  function MergeAll(records: map<Cid, Candidate>, s: Selection, scope: Scope, k: nat): map<Cid, Candidate>
    requires WellSelected(s) && k <= |s|
  {
    if k == 0 then records else Merge(MergeAll(records, s, scope, k - 1), CidAt(s, scope, k - 1),
                                      CandidateAt(s, scope, k - 1))
  }

  // ---- What is kept ---------------------------------------------------------------------------------

  function KindOfKey(k: Key): Kind {
    match k
    case RelationKey(_, _, _) => RelationKind
    case PlainKey(t, _) => KindOf(t)
  }

  function NodeCid(scope: Scope, node: int): Cid {
    Cid(scope, PlainKey(NodeTag, node))
  }

  function RangeCid(scope: Scope, r: Value): Cid {
    Cid(scope, PlainKey(RangeTag, r.id))
  }

  /** One candidate is sound; what it refers to is among `known`. */
  predicate SoundCandidate(cid: Cid, c: Candidate, known: set<Cid>) {
    && c.observations != {} && c.kind == KindOfKey(cid.key)
    && (forall x :: x in c.observations ==> IsItem(x) && KeyOf(x) == cid.key)
    && (forall r :: r in c.ranges ==> r.tag.RangeTag? && RangeCid(cid.scope, r) in known)
    && (forall d :: d in c.dependencies ==> d in known && d.scope == cid.scope && KeyRank(d.key) < KeyRank(cid.key))
    && (cid.key.RelationKey? ==> {NodeCid(cid.scope, cid.key.source),
      NodeCid(cid.scope, cid.key.target)} <= c.dependencies)
  }

  predicate Sound(records: map<Cid, Candidate>, known: set<Cid>) {
    forall cid :: cid in records ==> SoundCandidate(cid, records[cid], known)
  }

  lemma KeyOfItem(x: Value)
    requires IsItem(x)
    ensures KindOfKey(KeyOf(x)) == KindOf(x.tag) && KeyRank(KeyOf(x)) == Rank(x.tag)
  {
  }

  function CidsOf(s: Selection, scope: Scope): set<Cid>
    requires WellSelected(s)
  {
    set i | 0 <= i < |s| :: CidAt(s, scope, i)
  }

  /** The candidate of one selected record is sound among the candidates of the selection. */
  lemma SelectedIsSound(value: Value, s: Selection, scope: Scope, i: nat)
    requires Typed(value, AllTags) && IsSelection(value, s) && WellSelected(s) && i < |s|
    ensures SoundCandidate(CidAt(s, scope, i), CandidateAt(s, scope, i), CidsOf(s, scope))
  {
    var (path, item) := s[i];
    assert s[i] in s;
    SelectedOccur(value, s, path, item);
    KeyOfItem(item);
    forall r | r in RangesOf(item) ensures r.tag.RangeTag? && RangeCid(scope, r) in CidsOf(s, scope) {
      RangeIsSelected(value, s, scope, i, r);
    }
    forall d | d in DependenciesAt(s, scope, i) ensures d.scope == scope && KeyRank(d.key) < KeyRank(KeyOf(item)) {
      var k :| 0 <= k < |s| && |s[k].0| > |path| && Extends(path, s[k].0) && CidAt(s, scope, k) == d;
      DependencyRanksLower(value, s, path, item, s[k].0, s[k].1, k);
    }
    if item.IsRelation() {
      EndpointIsSelected(value, s, scope, i, 0);
      EndpointIsSelected(value, s, scope, i, 1);
    }
    hide IsItem, Typed, RangesOf, DependenciesAt, IsSelection;
  }

  lemma InnerIsSelected(value: Value, s: Selection, path: seq<nat>, item: Value, q: seq<nat>, x: Value)
    requires IsSelection(value, s) && RecordAt(value, path, item) && RecordAt(item, q, x)
    ensures (path + q, x) in s
  {
    SubOfSub(value, path, q);
    SelectedOccur(value, s, path + q, x);
  }

  lemma RangeIsSelected(value: Value, s: Selection, scope: Scope, i: nat, r: Value)
    requires IsSelection(value, s) && WellSelected(s) && i < |s| && r in RangesOf(s[i].1)
    ensures r.tag.RangeTag? && RangeCid(scope, r) in CidsOf(s, scope)
  {
    hide Typed, Sub, Walk, IsItem;
    var (path, item) := s[i];
    assert s[i] in s;
    SelectedOccur(value, s, path, item);
    RangesAreInside(item, r);
    hide RangesOf, IsSelection;
    var q :| RecordAt(item, q, r);
    InnerIsSelected(value, s, path, item, q, r);
    var k :| 0 <= k < |s| && s[k] == (path + q, r);
    assert CidAt(s, scope, k) == RangeCid(scope, r);
  }

  lemma DependencyRanksLower(value: Value, s: Selection, path: seq<nat>, item: Value, q: seq<nat>, x: Value, k: nat)
    requires Typed(value, AllTags) && IsSelection(value, s) && WellSelected(s) && RecordAt(value, path, item) &&
             IsItem(item)
    requires k < |s| && s[k] == (q, x) && |q| > |path| && Extends(path, q)
    ensures KeyRank(KeyOf(x)) < KeyRank(KeyOf(item))
  {
    assert s[k] in s;
    SelectedOccur(value, s, q, x);
    var rest := q[|path|..];
    assert q == path + rest;
    SubOfSub(value, path, rest);
    InsideRanksLower(item, AllTags, rest);
    KeyOfItem(item);
    KeyOfItem(x);
  }

  lemma EndpointIsSelected(value: Value, s: Selection, scope: Scope, i: nat, side: nat)
    requires IsSelection(value, s) && WellSelected(s) && i < |s| && s[i].1.IsRelation() && side < 2
    ensures NodeCid(scope, s[i].1.parts[side].id) in DependenciesAt(s, scope, i)
  {
    var (path, item) := s[i];
    var node := item.parts[side];
    assert s[i] in s;
    SelectedOccur(value, s, path, item);
    assert [side][1..] == [];
    assert RecordAt(item, [side], node);
    InnerIsSelected(value, s, path, item, [side], node);
    var k :| 0 <= k < |s| && s[k] == (path + [side], node);
    assert Extends(path, path + [side]);
    assert CidAt(s, scope, k) == NodeCid(scope, node.id);
    assert CidAt(s, scope, i) != CidAt(s, scope, k);
  }

  lemma MergeIsSound(records: map<Cid, Candidate>, cid: Cid, c: Candidate, known: set<Cid>)
    requires Sound(records, known) && SoundCandidate(cid, c, known)
    ensures Sound(Merge(records, cid, c), known)
  {
    hide IsItem;
    if cid in records {
      assert SoundCandidate(cid, records[cid], known);
    }
    forall k | k in records && k != cid ensures SoundCandidate(k, Merge(records, cid, c)[k], known) {
      assert SoundCandidate(k, records[k], known);
    }
  }

  lemma {:induction false} MergeAllIsSound(records: map<Cid, Candidate>, value: Value, s: Selection, scope: Scope,
                                           k: nat)
    requires Sound(records, records.Keys) && Typed(value, AllTags) && IsSelection(value, s) && WellSelected(s) &&
             k <= |s|
    ensures Sound(MergeAll(records, s, scope, k), records.Keys + CidsOf(s, scope))
    ensures MergeAll(records, s, scope, k).Keys == records.Keys + set i | 0 <= i < k :: CidAt(s, scope, i)
  {
    hide SoundCandidate, CandidateAt, Typed, IsSelection;
    if k > 0 {
      MergeAllIsSound(records, value, s, scope, k - 1);
      SelectedIsSound(value, s, scope, k - 1);
      MoreKnown(CidAt(s, scope, k - 1), CandidateAt(s, scope, k - 1), CidsOf(s, scope),
                records.Keys + CidsOf(s, scope));
      MergeIsSound(MergeAll(records, s, scope, k - 1), CidAt(s, scope, k - 1), CandidateAt(s, scope, k - 1),
                   records.Keys + CidsOf(s, scope));
    } else {
      forall cid | cid in records ensures SoundCandidate(cid, records[cid], records.Keys + CidsOf(s, scope)) {
        assert SoundCandidate(cid, records[cid], records.Keys);
        MoreKnown(cid, records[cid], records.Keys, records.Keys + CidsOf(s, scope));
      }
    }
  }

  lemma MoreKnown(cid: Cid, c: Candidate, known: set<Cid>, more: set<Cid>)
    requires SoundCandidate(cid, c, known) && known <= more
    ensures SoundCandidate(cid, c, more)
  {
    hide IsItem;
  }

  // ---- What merging collects ------------------------------------------------------------------------

  function ObservationsIn(records: map<Cid, Candidate>, cid: Cid): set<Value> {
    if cid in records then records[cid].observations else {}
  }

  function DependenciesIn(records: map<Cid, Candidate>, cid: Cid): set<Cid> {
    if cid in records then records[cid].dependencies else {}
  }

  lemma {:induction false} MergeAllCollects(records: map<Cid, Candidate>, s: Selection, scope: Scope, k: nat, cid: Cid)
    requires WellSelected(s) && k <= |s|
    ensures forall x :: x in ObservationsIn(MergeAll(records, s, scope, k), cid) <==>
              x in ObservationsIn(records, cid) || exists i :: 0 <= i < k && CidAt(s, scope, i) == cid && s[i].1 == x
    ensures forall d :: d in DependenciesIn(MergeAll(records, s, scope, k), cid) <==>
              d in DependenciesIn(records, cid) ||
                 exists i :: 0 <= i < k && CidAt(s, scope, i) == cid && d in DependenciesAt(s, scope, i)
  {
    hide IsItem, DependenciesAt, CidAt, RangesOf, KindOf, ObservationsIn, DependenciesIn, Merge;
    if k > 0 {
      MergeAllCollects(records, s, scope, k - 1, cid);
      MergeCollects(MergeAll(records, s, scope, k - 1), CidAt(s, scope, k - 1), CandidateAt(s, scope, k - 1), cid);
    }
  }

  lemma MergeCollects(records: map<Cid, Candidate>, at: Cid, c: Candidate, cid: Cid)
    ensures ObservationsIn(Merge(records, at, c), cid) == ObservationsIn(records, cid) +
              if cid == at then c.observations else {}
    ensures DependenciesIn(Merge(records, at, c), cid) == DependenciesIn(records, cid) +
              if cid == at then c.dependencies else {}
  {
  }

  /** Every record of the value has its candidate, which lists it and depends on the records inside it. */
  ghost predicate Contains(records: map<Cid, Candidate>, value: Value, scope: Scope) {
    forall path, item :: RecordAt(value, path, item) && IsItem(item) ==> Covers(records, item, scope)
  }

  ghost predicate Covers(records: map<Cid, Candidate>, item: Value, scope: Scope)
    requires IsItem(item)
  {
    var cid := Cid(scope, KeyOf(item));
    && item in ObservationsIn(records, cid)
    && forall q, d :: q != [] && RecordAt(item, q, d) && IsItem(d) && KeyOf(d) != KeyOf(item) ==>
         Cid(scope, KeyOf(d)) in DependenciesIn(records, cid)
  }

  /** Nothing that was collected is lost. */
  ghost predicate Grows(before: map<Cid, Candidate>, after: map<Cid, Candidate>) {
    forall cid :: cid in before ==>
      cid in after && before[cid].observations <= after[cid].observations &&
        before[cid].dependencies <= after[cid].dependencies
  }

  lemma AddedIsContained(records: map<Cid, Candidate>, value: Value, s: Selection, scope: Scope)
    requires IsSelection(value, s) && WellSelected(s)
    ensures Contains(MergeAll(records, s, scope, |s|), value, scope)
  {
    hide IsSelection, MergeAll, Typed, Sub;
    forall path, item | RecordAt(value, path, item) && IsItem(item)
      ensures Covers(MergeAll(records, s, scope, |s|), item, scope)
    {
      RecordIsCovered(records, value, s, scope, path, item);
    }
  }

  /** Whatever lies inside a selected record is among its dependencies. */
  lemma InnerIsDependency(value: Value, s: Selection, scope: Scope, i: nat, q: seq<nat>, d: Value)
    requires IsSelection(value, s) && WellSelected(s) && i < |s|
    requires q != [] && RecordAt(s[i].1, q, d) && KeyOf(d) != KeyOf(s[i].1)
    ensures Cid(scope, KeyOf(d)) in DependenciesAt(s, scope, i)
  {
    hide Typed, Sub, IsItem, KeyOf;
    var (path, item) := s[i];
    assert s[i] in s;
    SelectedOccur(value, s, path, item);
    InnerIsSelected(value, s, path, item, q, d);
    var k :| 0 <= k < |s| && s[k] == (path + q, d);
    assert Extends(path, path + q);
    assert CidAt(s, scope, k) == Cid(scope, KeyOf(d));
  }

  lemma RecordIsCovered(records: map<Cid, Candidate>, value: Value, s: Selection, scope: Scope, path: seq<nat>,
                        item: Value)
    requires IsSelection(value, s) && WellSelected(s) && RecordAt(value, path, item) && IsItem(item)
    ensures Covers(MergeAll(records, s, scope, |s|), item, scope)
  {
    hide IsSelection, MergeAll, Typed, Sub, IsItem, KeyOf, DependenciesAt;
    var cid := Cid(scope, KeyOf(item));
    SelectedOccur(value, s, path, item);
    var i :| 0 <= i < |s| && s[i] == (path, item);
    assert CidAt(s, scope, i) == cid;
    MergeAllCollects(records, s, scope, |s|, cid);
    forall q, d | q != [] && RecordAt(item, q, d) && IsItem(d) && KeyOf(d) != KeyOf(item)
      ensures Cid(scope, KeyOf(d)) in DependenciesIn(MergeAll(records, s, scope, |s|), cid)
    {
      InnerIsDependency(value, s, scope, i, q, d);
    }
  }

  lemma MergingGrows(records: map<Cid, Candidate>, s: Selection, scope: Scope)
    requires WellSelected(s)
    ensures Grows(records, MergeAll(records, s, scope, |s|))
  {
    hide WellSelected, CidAt, DependenciesAt;
    forall cid | cid in records
      ensures var after := MergeAll(records, s, scope, |s|);
              cid in after && records[cid].observations <= after[cid].observations &&
                records[cid].dependencies <= after[cid].dependencies
    {
      MergeAllCollects(records, s, scope, |s|, cid);
      MergeAllKeeps(records, s, scope, |s|);
      hide MergeAll;
      assert ObservationsIn(records, cid) == records[cid].observations &&
             DependenciesIn(records, cid) == records[cid].dependencies;
    }
  }

  lemma {:induction false} MergeAllKeeps(records: map<Cid, Candidate>, s: Selection, scope: Scope, k: nat)
    requires WellSelected(s) && k <= |s|
    ensures records.Keys <= MergeAll(records, s, scope, k).Keys
  {
    hide WellSelected, CidAt, CandidateAt;
    if k > 0 {
      MergeAllKeeps(records, s, scope, k - 1);
    }
  }

  lemma GrowthKeeps(before: map<Cid, Candidate>, after: map<Cid, Candidate>, value: Value, scope: Scope)
    requires Grows(before, after) && Contains(before, value, scope)
    ensures Contains(after, value, scope)
  {
    hide IsItem, Sub;
    forall path, item | RecordAt(value, path, item) && IsItem(item) ensures Covers(after, item, scope) {
      assert Covers(before, item, scope);
    }
  }

  lemma GrowthChains(a: map<Cid, Candidate>, b: map<Cid, Candidate>, c: map<Cid, Candidate>)
    requires Grows(a, b) && Grows(b, c)
    ensures Grows(a, c)
  {
    forall cid | cid in a
      ensures cid in c && a[cid].observations <= c[cid].observations && a[cid].dependencies <= c[cid].dependencies
    {
      assert cid in b;
    }
  }

  /** What was observed for a candidate comes from the value, if it was not there before. */
  ghost predicate AddsOnly(before: map<Cid, Candidate>, after: map<Cid, Candidate>, value: Value, scope: Scope) {
    forall cid, x {:trigger x in ObservationsIn(after, cid)} :: x in ObservationsIn(after, cid) ==>
      x in ObservationsIn(before, cid) || (cid.scope == scope && Occurs(value, x))
  }

  lemma SameObservationsAdd(before: map<Cid, Candidate>, added: map<Cid, Candidate>, after: map<Cid, Candidate>,
                            value: Value, scope: Scope)
    requires AddsOnly(before, added, value, scope) &&
             forall cid :: ObservationsIn(after, cid) == ObservationsIn(added, cid)
    ensures AddsOnly(before, after, value, scope)
  {
    forall cid, x
      ensures x in ObservationsIn(after, cid) ==>
                 x in ObservationsIn(before, cid) || (cid.scope == scope && Occurs(value, x))
    {
      assert ObservationsIn(after, cid) == ObservationsIn(added, cid);
    }
  }

  lemma MergingAddsOnly(records: map<Cid, Candidate>, value: Value, s: Selection, scope: Scope)
    requires IsSelection(value, s) && WellSelected(s)
    ensures AddsOnly(records, MergeAll(records, s, scope, |s|), value, scope)
  {
    hide IsItem, MergeAll, DependenciesAt, IsSelection;
    var after := MergeAll(records, s, scope, |s|);
    forall cid, x
      ensures x in ObservationsIn(after, cid) ==>
                 x in ObservationsIn(records, cid) || (cid.scope == scope && Occurs(value, x))
    {
      MergeAllCollects(records, s, scope, |s|, cid);
      if x in ObservationsIn(after, cid) && x !in ObservationsIn(records, cid) {
        var i :| 0 <= i < |s| && CidAt(s, scope, i) == cid && s[i].1 == x;
        assert s[i] in s;
        SelectedOccur(value, s, s[i].0, x);
        assert RecordAt(value, s[i].0, x);
      }
    }
  }

  /** A candidate holds exactly the ranges inside its observations. */
  ghost predicate Ranged(records: map<Cid, Candidate>) {
    forall cid, r :: cid in records ==> (r in records[cid].ranges <==> RangeSeen(records[cid].observations, r))
  }

  ghost predicate RangeSeen(observations: set<Value>, r: Value) {
    exists x :: x in observations && HasRange(x, r)
  }

  lemma RangeSeenInEither(a: set<Value>, b: set<Value>, r: Value)
    ensures RangeSeen(a + b, r) <==> RangeSeen(a, r) || RangeSeen(b, r)
  {
    hide HasRange;
    if RangeSeen(a, r) {
      var x :| x in a && HasRange(x, r);
      assert x in a + b;
    }
    if RangeSeen(b, r) {
      var x :| x in b && HasRange(x, r);
      assert x in a + b;
    }
  }

  lemma MergeKeepsRanged(records: map<Cid, Candidate>, s: Selection, scope: Scope, i: nat)
    requires WellSelected(s) && i < |s| && Ranged(records)
    ensures Ranged(Merge(records, CidAt(s, scope, i), CandidateAt(s, scope, i)))
  {
    hide RangesOf, HasRange, IsItem, DependenciesAt, KeyOf, KindOf;
    var at, c, item := CidAt(s, scope, i), CandidateAt(s, scope, i), s[i].1;
    var after := Merge(records, at, c);
    forall r ensures r in c.ranges <==> RangeSeen(c.observations, r) {
      RangesAreInside(item, r);
    }
    hide RangeSeen, CandidateAt;
    forall cid, r | cid in after ensures r in after[cid].ranges <==> RangeSeen(after[cid].observations, r) {
      if cid == at && at in records {
        RangeSeenInEither(records[at].observations, c.observations, r);
      }
    }
  }

  lemma {:induction false} MergingKeepsRanged(records: map<Cid, Candidate>, s: Selection, scope: Scope, k: nat)
    requires WellSelected(s) && k <= |s| && Ranged(records)
    ensures Ranged(MergeAll(records, s, scope, k))
  {
    hide Ranged, Merge, CandidateAt, CidAt;
    if k > 0 {
      MergingKeepsRanged(records, s, scope, k - 1);
      MergeKeepsRanged(MergeAll(records, s, scope, k - 1), s, scope, k - 1);
    }
  }

  // ---- The extractor --------------------------------------------------------------------------------

  class Extractor {
    var records: map<Cid, Candidate>

    ghost predicate Valid()
      reads this
    {
      Sound(records, records.Keys)
    }

    constructor ()
      ensures Valid() && records == map[]
    {
      records := map[];
    }

    /** Adds every record of the value, merging with what is already there. */
    method Add(value: Value, scope: Scope) returns (ids: set<Cid>)
      requires Valid() && Typed(value, AllTags)
      modifies this
      ensures Valid() && old(records).Keys + ids == records.Keys
      ensures exists s :: IsSelection(value, s) && WellSelected(s) && ids == CidsOf(s, scope)
                       && records == MergeAll(old(records), s, scope, |s|)
      ensures Grows(old(records), records) && Contains(records, value, scope) &&
              AddsOnly(old(records), records, value, scope)
      ensures Ranged(old(records)) ==> Ranged(records)
    {
      hide Sound, Contains, Grows, AddsOnly, Ranged;
      var s := Select(value);
      forall i | 0 <= i < |s| ensures IsItem(s[i].1) {
        assert s[i] in s;
        SelectedOccur(value, s, s[i].0, s[i].1);
        RecordsAreItems(value, s[i].0, s[i].1);
      }
      for i := 0 to |s|
        invariant records == MergeAll(old(records), s, scope, i)
      {
        var candidate := Candidate(KindOf(s[i].1.tag), {s[i].1}, RangesOf(s[i].1), DependenciesAt(s, scope, i));
        records := Merge(records, CidAt(s, scope, i), candidate);
      }
      ids := CidsOf(s, scope);
      MergeAllIsSound(old(records), value, s, scope, |s|);
      AddedIsContained(old(records), value, s, scope);
      MergingGrows(old(records), s, scope);
      MergingAddsOnly(old(records), value, s, scope);
      if Ranged(old(records)) {
        MergingKeepsRanged(old(records), s, scope, |s|);
      }
    }

    /** A changed range becomes a dependency of its mapping. */
    method LinkRange(mapping: Cid, range: Value, scope: Scope)
      requires Valid() && mapping in records && mapping.scope == scope && mapping.key.PlainKey? &&
               mapping.key.tag.ChangeTag?
      requires Typed(range, AllTags) && range.tag.RangeTag?
      modifies this
      ensures Valid() && mapping in records && RangeCid(scope, range) in records &&
              RangeCid(scope, range) in records[mapping].dependencies
      ensures Grows(old(records), records) && Contains(records, range, scope) &&
              AddsOnly(old(records), records, range, scope)
      ensures Ranged(old(records)) ==> Ranged(records)
    {
      hide IsSelection, WellSelected, Sound, Typed, MergeAll, CidsOf, IsItem, Sub;
      var ids := Add(range, scope);
      RangeAdded(range, ids, scope);
      LinkIsSound(records, mapping, RangeCid(scope, range));
      ghost var added := records;
      records := records[mapping := records[mapping].(dependencies := records[mapping].dependencies + ids)];
      assert records.Keys == added.Keys;
      assert Grows(added, records);
      GrowthChains(old(records), added, records);
      GrowthKeeps(added, records, range, scope);
      SameObservationsAdd(old(records), added, records, range, scope);
      SameRangesStay(added, records);
    }

    /** Nodes depend on the ranges observed for them, not on the records that were observed. */
    method LinkNodes()
      requires Valid()
      modifies this
      ensures Valid() && records == Linked(old(records))
    {
      hide LinkedCandidate, Sound;
      var rest := records.Keys;
      var before := records;
      while rest != {}
        invariant rest <= before.Keys && records.Keys == before.Keys
        invariant forall cid :: cid in records ==>
                     records[cid] == if cid in rest then before[cid] else LinkedCandidate(before, cid)
        decreases rest
      {
        var cid := AnyOf(rest);
        records := records[cid := LinkedCandidate(before, cid)];
        rest := rest - {cid};
      }
      LinkedIsSound(before);
      assert records == Linked(before);
    }
  }

  lemma SameRangesStay(before: map<Cid, Candidate>, after: map<Cid, Candidate>)
    requires after.Keys == before.Keys
    requires forall cid :: cid in before ==>
               after[cid].ranges == before[cid].ranges && after[cid].observations == before[cid].observations
    ensures Ranged(before) ==> Ranged(after)
  {
    hide RangeSeen;
  }

  lemma RangeAdded(range: Value, ids: set<Cid>, scope: Scope)
    requires Typed(range, AllTags) && range.tag.RangeTag?
    requires exists s :: IsSelection(range, s) && WellSelected(s) && ids == CidsOf(s, scope)
    ensures ids == {RangeCid(scope, range)}
  {
    hide Typed, WellSelected, IsSelection, CidsOf;
    var s :| IsSelection(range, s) && WellSelected(s) && ids == CidsOf(s, scope);
    OnlyTheRange(range, s, scope);
  }

  lemma LinkIsSound(records: map<Cid, Candidate>, mapping: Cid, d: Cid)
    requires Sound(records, records.Keys) && mapping in records && mapping.key.PlainKey? && mapping.key.tag.ChangeTag?
    requires d in records && d.scope == mapping.scope && d.key.PlainKey? && d.key.tag.RangeTag?
    ensures var c := records[mapping].(dependencies := records[mapping].dependencies + {d});
            Sound(records[mapping := c], records.Keys)
  {
    hide IsItem;
    var c := records[mapping].(dependencies := records[mapping].dependencies + {d});
    assert SoundCandidate(mapping, records[mapping], records.Keys);
    assert SoundCandidate(mapping, c, records.Keys);
    hide SoundCandidate;
  }

  lemma OnlyTheRange(range: Value, s: Selection, scope: Scope)
    requires Typed(range, AllTags) && range.tag.RangeTag? && IsSelection(range, s) && WellSelected(s)
    ensures CidsOf(s, scope) == {RangeCid(scope, range)}
  {
    forall i | 0 <= i < |s| ensures s[i].1 == range {
      assert s[i] in s;
      SelectedOccur(range, s, s[i].0, s[i].1);
      if s[i].0 != [] {
        InsideRanksLower(range, AllTags, s[i].0);
      }
    }
    SelectedOccur(range, s, [], range);
    var k :| 0 <= k < |s| && s[k] == ([], range);
    assert CidAt(s, scope, k) == RangeCid(scope, range);
  }

  // ---- Nodes and their evidence ---------------------------------------------------------------------

  /** The record describes the node of this candidate. */
  predicate DescribesNode(records: map<Cid, Candidate>, cid: Cid, node: Cid)
    requires cid in records && node.key.PlainKey?
  {
    cid.scope == node.scope &&
    exists x :: x in records[cid].observations && x.Describes() && |x.parts| > 0 && x.parts[0].id == node.key.id
  }

  function EvidenceRanges(records: map<Cid, Candidate>, node: Cid): set<Value>
    requires node.key.PlainKey?
  {
    set cid, r | cid in records && DescribesNode(records, cid, node) && r in records[cid].ranges :: r
  }

  function LinkedCandidate(records: map<Cid, Candidate>, cid: Cid): Candidate
    requires cid in records
  {
    if cid.key.PlainKey? && cid.key.tag.NodeTag? then
      var ranges := EvidenceRanges(records, cid);
      records[cid].(ranges := ranges, dependencies := set r | r in ranges :: RangeCid(cid.scope, r))
    else records[cid]
  }

  function Linked(records: map<Cid, Candidate>): map<Cid, Candidate> {
    map cid | cid in records :: LinkedCandidate(records, cid)
  }

  lemma LinkedIsSound(records: map<Cid, Candidate>)
    requires Sound(records, records.Keys)
    ensures Sound(Linked(records), records.Keys)
  {
    hide SoundCandidate, LinkedCandidate;
    forall cid | cid in records ensures SoundCandidate(cid, LinkedCandidate(records, cid), records.Keys) {
      assert SoundCandidate(cid, records[cid], records.Keys);
      if cid.key.PlainKey? && cid.key.tag.NodeTag? {
        LinkedNodeIsSound(records, cid);
      } else {
        LinkedElsewhere(records, cid);
      }
    }
  }

  lemma LinkedElsewhere(records: map<Cid, Candidate>, cid: Cid)
    requires cid in records && !(cid.key.PlainKey? && cid.key.tag.NodeTag?)
    ensures LinkedCandidate(records, cid) == records[cid]
  {
  }

  lemma LinkedNodeIsSound(records: map<Cid, Candidate>, cid: Cid)
    requires Sound(records, records.Keys) && cid in records && cid.key.PlainKey? && cid.key.tag.NodeTag?
    ensures SoundCandidate(cid, LinkedCandidate(records, cid), records.Keys)
  {
    hide IsItem;
    assert SoundCandidate(cid, records[cid], records.Keys);
    forall r | r in EvidenceRanges(records, cid) ensures r.tag.RangeTag? && RangeCid(cid.scope, r) in records {
      EvidenceIsKnown(records, cid, r);
    }
    hide EvidenceRanges, Sound;
  }

  lemma EvidenceIsKnown(records: map<Cid, Candidate>, cid: Cid, r: Value)
    requires Sound(records, records.Keys) && cid.key.PlainKey? && r in EvidenceRanges(records, cid)
    ensures r.tag.RangeTag? && RangeCid(cid.scope, r) in records
  {
    hide IsItem;
    var other :| other in records && DescribesNode(records, other, cid) && r in records[other].ranges;
    assert SoundCandidate(other, records[other], records.Keys);
  }

  // ---- The candidate set ----------------------------------------------------------------------------

  datatype Input = Observation(value: Value, scope: Scope) | ChangedRange(mapping: Value, range: Option<Value>,
      scope: Scope)
  {
    predicate Valid() {
      match this
      case Observation(v, _) => Typed(v, AllTags)
      case ChangedRange(m, r, _) =>
              Typed(m, AllTags) && m.tag.ChangeTag? && (r.Some? ==> Typed(r.value, AllTags) && r.value.tag.RangeTag?)
    }
  }

  /** The structural checks of the candidate set's constructor. */
  predicate Checked(candidates: map<Cid, Candidate>) {
    forall cid :: cid in candidates ==>
      var c := candidates[cid];
      && c.observations != {}
      && (forall x :: x in c.observations ==> IsItem(x) && Cid(cid.scope, KeyOf(x)) == cid && KindOf(x.tag) == c.kind)
      && cid !in c.dependencies && c.dependencies <= candidates.Keys
      && forall x :: x in c.observations && x.IsRelation() ==>
           NodeCid(cid.scope, x.parts[0].id) in c.dependencies && NodeCid(cid.scope, x.parts[1].id) in c.dependencies
  }

  ghost predicate Collected(candidates: map<Cid, Candidate>, input: Input) {
    match input
    case Observation(value, scope) => Contains(candidates, value, scope)
    case ChangedRange(mapping, range, scope) =>
      && Contains(candidates, mapping, scope)
      && (range.Some? ==> Contains(candidates, range.value, scope))
      && (range.Some? ==> RangeCid(scope, range.value) in DependenciesIn(candidates,
             Cid(scope, PlainKey(ChangeTag, mapping.id))))
  }

  ghost predicate Supplies(input: Input, cid: Cid, x: Value) {
    match input
    case Observation(value, scope) => cid.scope == scope && Occurs(value, x)
    case ChangedRange(mapping, range, scope) =>
            cid.scope == scope && (Occurs(mapping, x) || (range.Some? && Occurs(range.value, x)))
  }

  ghost predicate OnlyFrom(candidates: map<Cid, Candidate>, inputs: seq<Input>, k: nat)
    requires k <= |inputs|
  {
    forall cid, x :: x in ObservationsIn(candidates, cid) ==> exists i :: 0 <= i < k && Supplies(inputs[i], cid, x)
  }

  ghost predicate AddsFrom(before: map<Cid, Candidate>, after: map<Cid, Candidate>, input: Input) {
    forall cid, x {:trigger x in ObservationsIn(after, cid)} :: x in ObservationsIn(after, cid) ==>
      x in ObservationsIn(before, cid) || Supplies(input, cid, x)
  }

  lemma ObservationSupplies(before: map<Cid, Candidate>, after: map<Cid, Candidate>, value: Value, scope: Scope)
    requires AddsOnly(before, after, value, scope)
    ensures AddsFrom(before, after, Observation(value, scope))
  {
    forall cid, x | x in ObservationsIn(after, cid)
      ensures x in ObservationsIn(before, cid) || Supplies(Observation(value, scope), cid, x)
    {
      AddedAt(before, after, value, scope, cid, x);
    }
  }

  lemma AddedAt(before: map<Cid, Candidate>, after: map<Cid, Candidate>, value: Value, scope: Scope, cid: Cid, x: Value)
    requires AddsOnly(before, after, value, scope) && x in ObservationsIn(after, cid)
    ensures x in ObservationsIn(before, cid) || (cid.scope == scope && Occurs(value, x))
  {
  }

  lemma ChangeSupplies(a: map<Cid, Candidate>, b: map<Cid, Candidate>, c: map<Cid, Candidate>, mapping: Value,
                       range: Option<Value>, scope: Scope)
    requires AddsOnly(a, b, mapping, scope) && if range.Some? then AddsOnly(b, c, range.value, scope) else b == c
    ensures AddsFrom(a, c, ChangedRange(mapping, range, scope))
  {
    forall cid, x | x in ObservationsIn(c, cid)
      ensures x in ObservationsIn(a, cid) || Supplies(ChangedRange(mapping, range, scope), cid, x)
    {
      if range.Some? {
        AddedAt(b, c, range.value, scope, cid, x);
      }
      if x in ObservationsIn(b, cid) {
        AddedAt(a, b, mapping, scope, cid, x);
      }
    }
  }

  /** One input. */
  method AddInput(extractor: Extractor, input: Input)
    requires extractor.Valid() && input.Valid()
    modifies extractor
    ensures extractor.Valid() && Grows(old(extractor.records), extractor.records) && Collected(extractor.records, input)
    ensures AddsFrom(old(extractor.records), extractor.records, input)
    ensures Ranged(old(extractor.records)) ==> Ranged(extractor.records)
  {
    hide Ranged, Sound, Typed, Contains, Grows, AddsOnly, AddsFrom, IsSelection, MergeAll;
    match input {
      case Observation(value, scope) =>
        ghost var before := extractor.records;
        var _ := extractor.Add(value, scope);
        ObservationSupplies(before, extractor.records, value, scope);
      case ChangedRange(mapping, range, scope) =>
        AddChange(extractor, mapping, range, scope);
    }
  }

  method AddChange(extractor: Extractor, mapping: Value, range: Option<Value>, scope: Scope)
    requires extractor.Valid() && ChangedRange(mapping, range, scope).Valid()
    modifies extractor
    ensures extractor.Valid() && Grows(old(extractor.records), extractor.records)
    ensures Collected(extractor.records, ChangedRange(mapping, range, scope))
    ensures AddsFrom(old(extractor.records), extractor.records, ChangedRange(mapping, range, scope))
    ensures Ranged(old(extractor.records)) ==> Ranged(extractor.records)
  {
    hide Ranged, Sound, Typed, Contains, Grows, AddsOnly, AddsFrom, IsSelection, MergeAll, WellSelected, CidsOf;
    ghost var start := extractor.records;
    var ids := extractor.Add(mapping, scope);
    ghost var middle := extractor.records;
    MappingIsSelected(mapping, ids, scope);
    if range.Some? {
      extractor.LinkRange(Cid(scope, PlainKey(ChangeTag, mapping.id)), range.value, scope);
      GrowthChains(start, middle, extractor.records);
      GrowthKeeps(middle, extractor.records, mapping, scope);
    }
    ChangeSupplies(start, middle, extractor.records, mapping, range, scope);
  }

  lemma GrowthCollects(before: map<Cid, Candidate>, after: map<Cid, Candidate>, input: Input)
    requires Grows(before, after) && Collected(before, input)
    ensures Collected(after, input)
  {
    hide Contains;
    match input {
      case Observation(value, scope) => GrowthKeeps(before, after, value, scope);
      case ChangedRange(mapping, range, scope) =>
        GrowthKeeps(before, after, mapping, scope);
        if range.Some? {
          GrowthKeeps(before, after, range.value, scope);
        }
    }
  }

  /** `materialize_context`, up to the snippets: the candidates are exactly the records of the inputs, closed under what
      they contain, and they pass the checks. */
  method Extract(inputs: seq<Input>) returns (candidates: map<Cid, Candidate>)
    requires forall i :: 0 <= i < |inputs| ==> inputs[i].Valid()
    ensures Sound(candidates, candidates.Keys) && Checked(candidates)
    ensures forall i :: 0 <= i < |inputs| ==> Collected(candidates, inputs[i])
    ensures OnlyFrom(candidates, inputs, |inputs|)
    ensures NodesShowEvidence(candidates, inputs)
  {
    hide Ranged, NodesShowEvidence, Sound, Collected, OnlyFrom, AddsFrom, Grows, Input.Valid, Checked;
    var extractor := new Extractor();
    NothingYet(inputs);
    for i := 0 to |inputs|
      invariant extractor.Valid() && fresh(extractor)
      invariant forall k :: 0 <= k < i ==> Collected(extractor.records, inputs[k])
      invariant OnlyFrom(extractor.records, inputs, i) && Ranged(extractor.records)
    {
      ghost var before := extractor.records;
      AddInput(extractor, inputs[i]);
      OnlyFromMore(before, extractor.records, inputs, i);
      forall k | 0 <= k < i ensures Collected(extractor.records, inputs[k]) {
        GrowthCollects(before, extractor.records, inputs[k]);
      }
    }
    ghost var before := extractor.records;
    extractor.LinkNodes();
    candidates := extractor.records;
    SoundIsChecked(candidates);
    LinkingKeeps(before, inputs);
    LinkingShowsEvidence(before, inputs);
  }

  /** The record occurs in the inputs of this scope. */
  ghost predicate Provided(inputs: seq<Input>, scope: Scope, x: Value) {
    exists i :: 0 <= i < |inputs| && Supplies(inputs[i], Cid(scope, KeyOf(x)), x)
  }

  /** Among the inputs of the scope, a record that describes the node shares its identity with a record that shows the
      range. */
  ghost predicate Evidenced(inputs: seq<Input>, scope: Scope, node: int, r: Value) {
    exists x, y :: Provided(inputs, scope, x) && Provided(inputs, scope, y) && KeyOf(x) == KeyOf(y)
      && Describing(x, node) && HasRange(y, r)
  }

  predicate Describing(x: Value, node: int) {
    x.Describes() && |x.parts| > 0 && x.parts[0].id == node
  }

  /** A node has exactly the ranges observed for it in the inputs, and depends on exactly those. */
  ghost predicate NodesShowEvidence(candidates: map<Cid, Candidate>, inputs: seq<Input>) {
    forall cid :: cid in candidates && cid.key.PlainKey? && cid.key.tag.NodeTag? ==>
      && (forall r :: r in candidates[cid].ranges <==> Evidenced(inputs, cid.scope, cid.key.id, r))
      && (forall d :: d in candidates[cid].dependencies <==>
            exists r :: Evidenced(inputs, cid.scope, cid.key.id, r) && d == RangeCid(cid.scope, r))
  }

  /** What was collected of one scope is exactly what the inputs of that scope provide. */
  lemma CollectedExactly(records: map<Cid, Candidate>, inputs: seq<Input>, cid: Cid, x: Value)
    requires Sound(records, records.Keys) && OnlyFrom(records, inputs, |inputs|)
    requires forall i :: 0 <= i < |inputs| ==> inputs[i].Valid() && Collected(records, inputs[i])
    ensures x in ObservationsIn(records, cid) <==> KeyOf(x) == cid.key && Provided(inputs, cid.scope, x)
  {
    hide Typed, IsItem;
    if x in ObservationsIn(records, cid) {
      assert SoundCandidate(cid, records[cid], records.Keys);
      assert Cid(cid.scope, KeyOf(x)) == cid;
      var i :| 0 <= i < |inputs| && Supplies(inputs[i], cid, x);
    }
    if KeyOf(x) == cid.key && Provided(inputs, cid.scope, x) {
      var i :| 0 <= i < |inputs| && Supplies(inputs[i], Cid(cid.scope, KeyOf(x)), x);
      SuppliedIsCollected(records, inputs[i], cid, x);
    }
  }

  lemma SuppliedIsCollected(records: map<Cid, Candidate>, input: Input, cid: Cid, x: Value)
    requires input.Valid() && Collected(records, input) && KeyOf(x) == cid.key && Supplies(input, cid, x)
    ensures x in ObservationsIn(records, cid)
  {
    hide Typed, ObservationsIn, DependenciesIn, IsItem;
    match input
    case Observation(value, scope) => OccurringIsCovered(records, value, scope, x);
    case ChangedRange(mapping, range, scope) =>
      if Occurs(mapping, x) {
        OccurringIsCovered(records, mapping, scope, x);
      } else {
        OccurringIsCovered(records, range.value, scope, x);
      }
  }

  lemma OccurringIsCovered(records: map<Cid, Candidate>, value: Value, scope: Scope, x: Value)
    requires Typed(value, AllTags) && Contains(records, value, scope) && Occurs(value, x)
    ensures x in ObservationsIn(records, Cid(scope, KeyOf(x)))
  {
    hide Typed, ObservationsIn, DependenciesIn, IsItem;
    var path :| RecordAt(value, path, x);
    RecordsAreItems(value, path, x);
    assert Covers(records, x, scope);
  }

  lemma EvidenceExactly(records: map<Cid, Candidate>, inputs: seq<Input>, node: Cid, r: Value)
    requires Sound(records, records.Keys) && OnlyFrom(records, inputs, |inputs|) && Ranged(records)
    requires forall i :: 0 <= i < |inputs| ==> inputs[i].Valid() && Collected(records, inputs[i])
    requires node.key.PlainKey?
    ensures r in EvidenceRanges(records, node) <==> Evidenced(inputs, node.scope, node.key.id, r)
  {
    hide Sound, OnlyFrom, Collected, Input.Valid, HasRange, Provided;
    if r in EvidenceRanges(records, node) {
      var cid :| cid in records && DescribesNode(records, cid, node) && r in records[cid].ranges;
      var x :| x in records[cid].observations && Describing(x, node.key.id);
      assert RangeSeen(records[cid].observations, r);
      var y :| y in records[cid].observations && HasRange(y, r);
      CollectedExactly(records, inputs, cid, x);
      CollectedExactly(records, inputs, cid, y);
    }
    if Evidenced(inputs, node.scope, node.key.id, r) {
      var x, y :| Provided(inputs, node.scope, x) && Provided(inputs, node.scope, y) && KeyOf(x) == KeyOf(y)
        && Describing(x, node.key.id) && HasRange(y, r);
      var cid := Cid(node.scope, KeyOf(x));
      CollectedExactly(records, inputs, cid, x);
      CollectedExactly(records, inputs, cid, y);
      assert RangeSeen(records[cid].observations, r);
      assert DescribesNode(records, cid, node);
    }
  }

  lemma LinkingShowsEvidence(records: map<Cid, Candidate>, inputs: seq<Input>)
    requires Sound(records, records.Keys) && OnlyFrom(records, inputs, |inputs|) && Ranged(records)
    requires forall i :: 0 <= i < |inputs| ==> inputs[i].Valid() && Collected(records, inputs[i])
    ensures NodesShowEvidence(Linked(records), inputs)
  {
    hide Sound, OnlyFrom, Ranged, Collected, Input.Valid, EvidenceRanges, Evidenced;
    forall cid | cid in records && cid.key.PlainKey? && cid.key.tag.NodeTag?
      ensures forall r :: r in EvidenceRanges(records, cid) <==> Evidenced(inputs, cid.scope, cid.key.id, r)
    {
      forall r ensures r in EvidenceRanges(records, cid) <==> Evidenced(inputs, cid.scope, cid.key.id, r) {
        EvidenceExactly(records, inputs, cid, r);
      }
    }
  }

  lemma OnlyFromMore(before: map<Cid, Candidate>, after: map<Cid, Candidate>, inputs: seq<Input>, k: nat)
    requires k < |inputs| && OnlyFrom(before, inputs, k) && AddsFrom(before, after, inputs[k])
    ensures OnlyFrom(after, inputs, k + 1)
  {
    hide ObservationsIn, Supplies;
  }

  lemma NothingYet(inputs: seq<Input>)
    ensures OnlyFrom(map[], inputs, 0) && Ranged(map[])
  {
  }

  lemma LinkingKeeps(records: map<Cid, Candidate>, inputs: seq<Input>)
    requires Sound(records, records.Keys)
    requires forall i :: 0 <= i < |inputs| ==> inputs[i].Valid() && Collected(records, inputs[i])
    requires OnlyFrom(records, inputs, |inputs|)
    ensures forall i :: 0 <= i < |inputs| ==> Collected(Linked(records), inputs[i])
    ensures OnlyFrom(Linked(records), inputs, |inputs|)
  {
    hide Sound, Supplies, Input.Valid;
    SameObservations(records);
    forall i | 0 <= i < |inputs| ensures Collected(Linked(records), inputs[i]) {
      LinkedCollects(records, inputs[i]);
    }
    hide Collected, Linked, ObservationsIn;
  }

  lemma SameObservations(records: map<Cid, Candidate>)
    ensures forall cid :: ObservationsIn(Linked(records), cid) == ObservationsIn(records, cid)
    ensures forall cid: Cid :: !(cid.key.PlainKey? && cid.key.tag.NodeTag?) ==>
              DependenciesIn(Linked(records), cid) == DependenciesIn(records, cid)
  {
    hide EvidenceRanges;
  }

  lemma LinkedCollects(records: map<Cid, Candidate>, input: Input)
    requires Collected(records, input)
    ensures Collected(Linked(records), input)
  {
    hide Contains, Linked;
    SameObservations(records);
    match input {
      case Observation(value, scope) => LinkedContains(records, value, scope);
      case ChangedRange(mapping, range, scope) =>
        LinkedContains(records, mapping, scope);
        if range.Some? {
          LinkedContains(records, range.value, scope);
        }
    }
  }

  lemma LinkedContains(records: map<Cid, Candidate>, value: Value, scope: Scope)
    requires Contains(records, value, scope)
    ensures Contains(Linked(records), value, scope)
  {
    hide Linked, Covers, Sub;
    forall path, item | RecordAt(value, path, item) && IsItem(item) ensures Covers(Linked(records), item, scope) {
      assert Covers(records, item, scope);
      LinkedCovers(records, item, scope);
    }
  }

  lemma LinkedCovers(records: map<Cid, Candidate>, item: Value, scope: Scope)
    requires IsItem(item) && Covers(records, item, scope)
    ensures Covers(Linked(records), item, scope)
  {
    hide Linked, ObservationsIn, DependenciesIn, Typed, Sub;
    SameObservations(records);
    if item.tag.NodeTag? {
      NodesHoldNothing(item);
    }
  }

  lemma NodesHoldNothing(item: Value)
    requires IsItem(item) && item.tag.NodeTag?
    ensures forall q, d :: q != [] ==> !RecordAt(item, q, d)
  {
    forall q, d | q != [] && Sub(item, q) == Some(d) ensures !d.IsRecord() {
      NoRecordsInside(item.parts[q[0]], q[1..]);
    }
  }

  lemma MappingIsSelected(mapping: Value, ids: set<Cid>, scope: Scope)
    requires mapping.tag.ChangeTag? && exists s :: IsSelection(mapping, s) && WellSelected(s) && ids == CidsOf(s, scope)
    ensures Cid(scope, PlainKey(ChangeTag, mapping.id)) in ids
  {
    hide Typed, IsItem;
    var s :| IsSelection(mapping, s) && WellSelected(s) && ids == CidsOf(s, scope);
    MappingInSelection(mapping, s, scope);
  }

  lemma MappingInSelection(mapping: Value, s: Selection, scope: Scope)
    requires mapping.tag.ChangeTag? && IsSelection(mapping, s) && WellSelected(s)
    ensures Cid(scope, PlainKey(ChangeTag, mapping.id)) in CidsOf(s, scope)
  {
    hide Typed, IsItem, Walk;
    SelectedOccur(mapping, s, [], mapping);
    var k :| 0 <= k < |s| && s[k] == ([], mapping);
    assert CidAt(s, scope, k) == Cid(scope, PlainKey(ChangeTag, mapping.id));
  }

  lemma SoundIsChecked(candidates: map<Cid, Candidate>)
    requires Sound(candidates, candidates.Keys)
    ensures Checked(candidates)
  {
    forall cid | cid in candidates
      ensures forall x :: x in candidates[cid].observations ==> KindOf(x.tag) == candidates[cid].kind
    {
      assert SoundCandidate(cid, candidates[cid], candidates.Keys);
      forall x | x in candidates[cid].observations ensures KindOf(x.tag) == candidates[cid].kind {
        KeyOfItem(x);
      }
    }
  }

  /** A chain of dependencies. */
  predicate IsChain(candidates: map<Cid, Candidate>, chain: seq<Cid>) {
    && (forall i :: 0 <= i < |chain| ==> chain[i] in candidates)
    && forall i :: 0 < i < |chain| ==> chain[i] in candidates[chain[i - 1]].dependencies
  }

  lemma {:induction false} ChainsDescend(candidates: map<Cid, Candidate>, chain: seq<Cid>)
    requires Sound(candidates, candidates.Keys) && |chain| > 1 && IsChain(candidates, chain)
    ensures KeyRank(chain[|chain| - 1].key) < KeyRank(chain[0].key)
    decreases |chain|
  {
    hide IsItem, KeyRank;
    var last := |chain| - 1;
    assert SoundCandidate(chain[last - 1], candidates[chain[last - 1]], candidates.Keys);
    if last > 1 {
      ChainsDescend(candidates, chain[..last]);
    }
  }

  /** No candidate depends on itself, however indirectly. */
  lemma DependenciesAreAcyclic(candidates: map<Cid, Candidate>, chain: seq<Cid>)
    requires Sound(candidates, candidates.Keys) && |chain| > 1 && IsChain(candidates, chain)
    ensures chain[0] != chain[|chain| - 1]
  {
    ChainsDescend(candidates, chain);
  }
}
