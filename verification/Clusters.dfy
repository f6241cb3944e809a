/** Grouping the offset intervals of one file into backings, and emitting snippets from them. */
module Clusters {
  import opened Snippets

  datatype Interval = Interval(start: nat, end: nat, id: int, range: SourceRange) {
    predicate Valid() {
      start <= end
    }

    predicate Covers(x: int) {
      start <= x < end
    }
  }

  predicate Precedes(a: Interval, b: Interval) {
    a.start < b.start || (a.start == b.start && (a.end < b.end || (a.end == b.end && a.id <= b.id)))
  }

  predicate Sorted(s: seq<Interval>) {
    forall i, j :: 0 <= i < j < |s| ==> Precedes(s[i], s[j])
  }

  predicate AllValid(s: seq<Interval>) {
    forall i :: 0 <= i < |s| ==> s[i].Valid()
  }

  function Insert(s: seq<Interval>, x: Interval): (r: seq<Interval>)
    requires Sorted(s)
    ensures Sorted(r) && multiset(r) == multiset(s) + multiset{x}
    ensures forall y :: y in r <==> y in s || y == x
  {
    if s == [] || Precedes(x, s[0]) then
      assert forall y :: y in [x] + s <==> y in s || y == x;
      [x] + s
    else
      var rest := Insert(s[1..], x);
      InsertAhead(s, x, rest);
      [s[0]] + rest
  }

  lemma InsertAhead(s: seq<Interval>, x: Interval, rest: seq<Interval>)
    requires Sorted(s) && s != [] && !Precedes(x, s[0]) && Sorted(rest)
    requires multiset(rest) == multiset(s[1..]) + multiset{x} && forall y :: y in rest <==> y in s[1..] || y == x
    ensures Sorted([s[0]] + rest) && multiset([s[0]] + rest) == multiset(s) + multiset{x}
    ensures forall y :: y in [s[0]] + rest <==> y in s || y == x
  {
    forall k | 0 <= k < |rest| ensures Precedes(s[0], rest[k]) {
      assert rest[k] in rest;
    }
    assert s == [s[0]] + s[1..];
  }

  function SortIntervals(s: seq<Interval>): (r: seq<Interval>)
    ensures Sorted(r) && multiset(r) == multiset(s)
  {
    if s == [] then []
    else
      assert s == s[..|s| - 1] + [s[|s| - 1]];
      Insert(SortIntervals(s[..|s| - 1]), s[|s| - 1])
  }

  // ---- Clusters -------------------------------------------------------------------------------------

  function MaxEnd(c: seq<Interval>): (m: nat)
    requires c != []
    ensures forall i :: 0 <= i < |c| ==> c[i].end <= m
    ensures exists i :: 0 <= i < |c| && c[i].end == m
  {
    if |c| == 1 then c[0].end
    else
      var before := MaxEnd(c[..|c| - 1]);
      if c[|c| - 1].end > before then c[|c| - 1].end else before
  }

  function Flatten(clusters: seq<seq<Interval>>): seq<Interval> {
    if clusters == [] then [] else Flatten(clusters[..|clusters| - 1]) + clusters[|clusters| - 1]
  }

  /** Each member after the first starts before the end of everything in front of it. */
  predicate IsChain(c: seq<Interval>) {
    c != [] && forall k :: 0 < k < |c| ==> c[k].start < MaxEnd(c[..k])
  }

  /** The merged list: chains in order, each beginning at or after the end of the one before. */
  predicate IsClustering(clusters: seq<seq<Interval>>, s: seq<Interval>) {
    Flatten(clusters) == s && AllChains(clusters) && InOrder(clusters)
  }

  predicate AllChains(clusters: seq<seq<Interval>>) {
    forall i :: 0 <= i < |clusters| ==> IsChain(clusters[i])
  }

  predicate InOrder(clusters: seq<seq<Interval>>)
    requires AllChains(clusters)
  {
    forall i :: 0 < i < |clusters| ==> MaxEnd(clusters[i - 1]) <= clusters[i][0].start
  }

  /** The loop over the sorted intervals. */
  method Merge(s: seq<Interval>) returns (merged: seq<seq<Interval>>)
    ensures IsClustering(merged, s)
  {
    merged := [];
    for i := 0 to |s|
      invariant IsClustering(merged, s[..i])
    {
      var interval := s[i];
      assert s[..i + 1] == s[..i] + [interval];
      if merged != [] && interval.start < MaxEnd(merged[|merged| - 1]) {
        ExtendLast(merged, s[..i], interval);
        merged := merged[..|merged| - 1] + [merged[|merged| - 1] + [interval]];
      } else {
        OpenNew(merged, s[..i], interval);
        merged := merged + [[interval]];
      }
    }
    assert s[..|s|] == s;
  }

  lemma ExtendLast(merged: seq<seq<Interval>>, s: seq<Interval>, x: Interval)
    requires IsClustering(merged, s) && merged != [] && x.start < MaxEnd(merged[|merged| - 1])
    ensures IsClustering(merged[..|merged| - 1] + [merged[|merged| - 1] + [x]], s + [x])
  {
    hide Flatten, AllChains, IsChain, InOrder, MaxEnd;
    var front, last := merged[..|merged| - 1], merged[|merged| - 1];
    assert front + [last] == merged;
    WithLast(front, last);
    GrownChain(last, x);
    WithLast(front, last + [x]);
    FlattenMore(front, last);
    FlattenMore(front, last + [x]);
    ChainsAreNonEmpty(last);
    assert (last + [x])[0] == last[0];
    assert Flatten(front) + (last + [x]) == s + [x];
  }

  lemma ChainsAreNonEmpty(c: seq<Interval>)
    requires IsChain(c)
    ensures c != []
  {
  }

  /** A last chain may follow what ends where it starts, or before. */
  lemma WithLast(front: seq<seq<Interval>>, last: seq<Interval>)
    ensures AllChains(front + [last]) <==> AllChains(front) && IsChain(last)
    ensures AllChains(front + [last]) && front != [] ==> last != [] && front[|front| - 1] != []
    ensures AllChains(front + [last]) ==>
              (InOrder(front + [last]) <==>
                 InOrder(front) && (front != [] ==> MaxEnd(front[|front| - 1]) <= last[0].start))
  {
    hide IsChain, MaxEnd;
    var all := front + [last];
    assert forall i :: 0 <= i < |front| ==> all[i] == front[i];
    assert all[|front|] == last;
    if AllChains(all) {
      ChainsAreNonEmpty(last);
      if front != [] {
        assert IsChain(all[|front| - 1]);
        ChainsAreNonEmpty(front[|front| - 1]);
      }
      assert forall i :: 0 <= i < |front| ==> IsChain(all[i]) && all[i] == front[i];
    }
  }

  lemma GrownChain(c: seq<Interval>, x: Interval)
    requires IsChain(c) && x.start < MaxEnd(c)
    ensures IsChain(c + [x])
  {
    var grown := c + [x];
    forall k | 0 < k < |grown| ensures grown[k].start < MaxEnd(grown[..k]) {
      if k < |c| {
        assert grown[..k] == c[..k];
      } else {
        assert grown[..k] == c;
      }
    }
  }

  lemma FlattenMore(merged: seq<seq<Interval>>, c: seq<Interval>)
    ensures Flatten(merged + [c]) == Flatten(merged) + c
  {
    assert (merged + [c])[..|merged|] == merged;
  }

  lemma OpenNew(merged: seq<seq<Interval>>, s: seq<Interval>, x: Interval)
    requires IsClustering(merged, s) && (merged != [] ==> MaxEnd(merged[|merged| - 1]) <= x.start)
    ensures IsClustering(merged + [[x]], s + [x])
  {
    assert IsChain([x]);
    hide Flatten, AllChains, IsChain, InOrder, MaxEnd;
    WithLast(merged, [x]);
    FlattenMore(merged, [x]);
  }

  // ---- What a clustering of sorted intervals means --------------------------------------------------

  lemma {:induction false} FlattenMember(clusters: seq<seq<Interval>>, i: nat)
    requires i < |clusters|
    ensures forall x :: x in clusters[i] ==> x in Flatten(clusters)
  {
    if i < |clusters| - 1 {
      FlattenMember(clusters[..|clusters| - 1], i);
    }
  }

  lemma {:induction false} MemberOfSome(clusters: seq<seq<Interval>>, x: Interval)
    requires x in Flatten(clusters)
    ensures exists i :: 0 <= i < |clusters| && x in clusters[i]
  {
    if x !in clusters[|clusters| - 1] {
      var before := clusters[..|clusters| - 1];
      MemberOfSome(before, x);
      var i :| 0 <= i < |before| && x in before[i];
      assert clusters[i] == before[i];
    }
  }

  /** The first member of a chain of a sorted list starts it. */
  lemma {:induction false} ChainStart(clusters: seq<seq<Interval>>, i: nat)
    requires Sorted(Flatten(clusters)) && i < |clusters| && clusters[i] != []
    ensures forall x :: x in clusters[i] ==> clusters[i][0].start <= x.start
    ensures Sorted(clusters[i])
  {
    var before, last := clusters[..|clusters| - 1], clusters[|clusters| - 1];
    var all := Flatten(clusters);
    assert all == Flatten(before) + last;
    if i < |before| {
      assert forall j :: 0 <= j < |Flatten(before)| ==> all[j] == Flatten(before)[j];
      ChainStart(before, i);
    } else {
      assert forall j :: 0 <= j < |last| ==> all[|Flatten(before)| + j] == last[j];
    }
  }

  /** Hulls are ordered and do not overlap. */
  lemma {:induction false} HullsDisjoint(clusters: seq<seq<Interval>>, s: seq<Interval>, i: nat, j: nat)
    requires IsClustering(clusters, s) && Sorted(s) && AllValid(s) && i < j < |clusters|
    ensures MaxEnd(clusters[i]) <= clusters[j][0].start
    decreases j - i
  {
    if i + 1 < j {
      HullsDisjoint(clusters, s, i, j - 1);
      FlattenMember(clusters, j - 1);
      assert clusters[j - 1][0] in clusters[j - 1];
      assert clusters[j - 1][0].Valid();
      assert clusters[j - 1][0].end <= MaxEnd(clusters[j - 1]);
    }
  }

  /** Intervals that share a character are in the same cluster. */
  lemma OverlapsShareCluster(clusters: seq<seq<Interval>>, s: seq<Interval>, i: nat, j: nat, x: Interval, y: Interval,
                             at: int)
    requires IsClustering(clusters, s) && Sorted(s) && AllValid(s)
    requires i < |clusters| && j < |clusters| && x in clusters[i] && y in clusters[j] && x.Covers(at) && y.Covers(at)
    ensures i == j
  {
    ChainStart(clusters, i);
    ChainStart(clusters, j);
    if i < j {
      HullsDisjoint(clusters, s, i, j);
    } else if j < i {
      HullsDisjoint(clusters, s, j, i);
    }
  }

  /** Some member covers the offset. */
  predicate CoversSome(c: seq<Interval>, at: int) {
    exists i :: 0 <= i < |c| && c[i].Covers(at)
  }

  lemma LastOrEarlier(c: seq<Interval>, at: int)
    requires c != []
    ensures CoversSome(c, at) <==> CoversSome(c[..|c| - 1], at) || c[|c| - 1].Covers(at)
  {
    var shorter := c[..|c| - 1];
    if i :| 0 <= i < |shorter| && shorter[i].Covers(at) {
      assert c[i].Covers(at);
    }
    if i :| 0 <= i < |c| && c[i].Covers(at) {
      assert i < |shorter| ==> shorter[i].Covers(at);
    }
  }

  /** The hull of a chain is exactly the union of its members. */
  lemma {:induction false} HullIsUnion(c: seq<Interval>, at: int)
    requires IsChain(c) && Sorted(c) && AllValid(c)
    ensures c[0].start <= at < MaxEnd(c) <==> CoversSome(c, at)
    decreases |c|
  {
    hide MaxEnd, CoversSome, Sorted, AllValid;
    LastOrEarlier(c, at);
    if |c| > 1 {
      ShorterChain(c);
      HullIsUnion(c[..|c| - 1], at);
      MaxEndOfLonger(c);
    } else {
      HullOfOne(c[0], at);
      assert c == [c[0]] && c[..0] == [];
    }
  }

  lemma HullOfOne(x: Interval, at: int)
    ensures MaxEnd([x]) == x.end && !CoversSome([], at)
  {
  }

  lemma ShorterChain(c: seq<Interval>)
    requires IsChain(c) && Sorted(c) && AllValid(c) && |c| > 1
    ensures var shorter := c[..|c| - 1]; IsChain(shorter) && Sorted(shorter) && AllValid(shorter)
    ensures c[|c| - 1].start < MaxEnd(c[..|c| - 1]) && c[0].start <= c[|c| - 1].start && c[|c| - 1].Valid()
  {
    hide MaxEnd;
    var shorter := c[..|c| - 1];
    forall k | 0 < k < |shorter| ensures shorter[k].start < MaxEnd(shorter[..k]) {
      assert shorter[..k] == c[..k];
    }
    assert Precedes(c[0], c[|c| - 1]);
  }

  lemma MaxEndOfLonger(c: seq<Interval>)
    requires |c| > 1
    ensures var before := MaxEnd(c[..|c| - 1]); MaxEnd(c) == if c[|c| - 1].end > before then c[|c| - 1].end else before
  {
  }

  // ---- Conservation of characters -------------------------------------------------------------------

  /** The offsets covered by some interval. */
  function Covered(s: seq<Interval>, n: nat): set<int> {
    set at | at in Span(0, n) && CoversSome(s, at)
  }

  /** The integers from `lo` up to, but not including, `hi`. */
  function Span(lo: int, hi: int): (r: set<int>)
    ensures forall at :: at in r <==> lo <= at < hi
    ensures |r| == if lo <= hi then hi - lo else 0
    decreases hi - lo
  {
    if lo >= hi then {} else Span(lo, hi - 1) + {hi - 1}
  }

  function TotalLength(clusters: seq<seq<Interval>>): int
    requires forall i :: 0 <= i < |clusters| ==> clusters[i] != []
  {
    if clusters == [] then 0
    else
      var last := clusters[|clusters| - 1];
      TotalLength(clusters[..|clusters| - 1]) + (MaxEnd(last) - last[0].start)
  }

  lemma PrefixClustering(clusters: seq<seq<Interval>>, s: seq<Interval>)
    requires IsClustering(clusters, s) && Sorted(s) && AllValid(s) && clusters != []
    ensures var before := clusters[..|clusters| - 1];
            IsClustering(before, Flatten(before)) && Sorted(Flatten(before)) && AllValid(Flatten(before))
    ensures s == Flatten(clusters[..|clusters| - 1]) + clusters[|clusters| - 1]
    ensures AllValid(clusters[|clusters| - 1])
  {
    var before, last := clusters[..|clusters| - 1], clusters[|clusters| - 1];
    assert forall j :: 0 <= j < |Flatten(before)| ==> s[j] == Flatten(before)[j];
    assert forall j :: 0 <= j < |last| ==> s[|Flatten(before)| + j] == last[j];
  }

  lemma EarlierEndBefore(clusters: seq<seq<Interval>>, s: seq<Interval>, x: Interval)
    requires IsClustering(clusters, s) && Sorted(s) && AllValid(s) && clusters != []
    requires x in Flatten(clusters[..|clusters| - 1])
    ensures x.end <= clusters[|clusters| - 1][0].start
  {
    assert forall i :: 0 <= i < |clusters| ==> clusters[i] != [];
    hide IsClustering, Sorted, AllValid, Flatten, MaxEnd;
    var before := clusters[..|clusters| - 1];
    MemberOfSome(before, x);
    var i :| 0 <= i < |before| && x in before[i];
    assert before[i] == clusters[i];
    HullsDisjoint(clusters, s, i, |clusters| - 1);
    EndsWithin(clusters[i], x);
  }

  lemma EndsWithin(c: seq<Interval>, x: Interval)
    requires x in c
    ensures x.end <= MaxEnd(c)
  {
    var k :| 0 <= k < |c| && c[k] == x;
  }

  /** The total length of the hulls equals the number of covered characters: nothing is duplicated or added. */
  lemma {:induction false} LengthsAddUp(clusters: seq<seq<Interval>>, s: seq<Interval>, n: nat)
    requires IsClustering(clusters, s) && Sorted(s) && AllValid(s) && forall i :: 0 <= i < |s| ==> s[i].end <= n
    ensures TotalLength(clusters) == |Covered(s, n)|
    decreases |clusters|
  {
    if clusters != [] {
      var before, last := clusters[..|clusters| - 1], clusters[|clusters| - 1];
      PrefixClustering(clusters, s);
      assert forall i :: 0 <= i < |Flatten(before)| ==> Flatten(before)[i] == s[i];
      assert forall i :: 0 <= i < |last| ==> last[i] == s[|Flatten(before)| + i];
      LengthsAddUp(before, Flatten(before), n);
      ChainStart(clusters, |clusters| - 1);
      HullSize(last, n);
      CoveredApart(clusters, s, n);
      CoveredConcat(Flatten(before), last, n);
    } else {
      assert Covered(s, n) == {};
    }
  }

  lemma CoveredApart(clusters: seq<seq<Interval>>, s: seq<Interval>, n: nat)
    requires IsClustering(clusters, s) && Sorted(s) && AllValid(s) && clusters != []
    ensures Covered(Flatten(clusters[..|clusters| - 1]), n) !! Covered(clusters[|clusters| - 1], n)
  {
    var before, last := Flatten(clusters[..|clusters| - 1]), clusters[|clusters| - 1];
    ChainStart(clusters, |clusters| - 1);
    forall at | at in Covered(before, n) ensures at !in Covered(last, n) {
      var i :| 0 <= i < |before| && before[i].Covers(at);
      EarlierEndBefore(clusters, s, before[i]);
      assert forall j :: 0 <= j < |last| ==> last[j] in last;
    }
  }

  lemma CoveredConcat(a: seq<Interval>, b: seq<Interval>, n: nat)
    ensures Covered(a + b, n) == Covered(a, n) + Covered(b, n)
  {
    forall at ensures at in Covered(a + b, n) <==> at in Covered(a, n) + Covered(b, n) {
      if at in Covered(a, n) {
        var i :| 0 <= i < |a| && a[i].Covers(at);
        assert (a + b)[i].Covers(at);
      }
      if at in Covered(b, n) {
        var i :| 0 <= i < |b| && b[i].Covers(at);
        assert (a + b)[|a| + i].Covers(at);
      }
    }
  }

  lemma HullSize(c: seq<Interval>, n: nat)
    requires IsChain(c) && Sorted(c) && AllValid(c) && forall i :: 0 <= i < |c| ==> c[i].end <= n
    ensures |Covered(c, n)| == MaxEnd(c) - c[0].start
  {
    assert c != [];
    hide MaxEnd, CoversSome, IsChain, Sorted;
    forall at ensures at in Covered(c, n) <==> at in Span(c[0].start, MaxEnd(c)) {
      HullIsUnion(c, at);
      CoveredIsInside(c, n, at);
    }
    assert Covered(c, n) == Span(c[0].start, MaxEnd(c));
    EndsWithin(c, c[0]);
    assert c[0].Valid();
  }

  lemma CoveredIsInside(c: seq<Interval>, n: nat, at: int)
    requires forall i :: 0 <= i < |c| ==> c[i].end <= n
    ensures CoversSome(c, at) ==> 0 <= at < n
  {
  }
}
