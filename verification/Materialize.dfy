/** From observed ranges of one file to backings and snippets, and the validator that checks them again. */
module Materialize {
  import opened Prelude
  import opened TextLines
  import opened Snippets
  import opened Clusters

  datatype Candidate = Candidate(id: int, range: SourceRange)

  datatype Backing = Backing(range: SourceRange, text: string)

  datatype Snippet =
    | Available(id: int, range: SourceRange, backing: nat, startOffset: nat, endOffset: nat)
    | RangeInvalid(id: int, range: SourceRange)
    | Limit(id: int, range: SourceRange)

  predicate InText(text: string, r: SourceRange) {
    r.Valid() && Offset(text, r.start).Some? && Offset(text, r.end).Some?
  }

  /** An interval carries the offsets of its range. */
  predicate Locates(text: string, x: Interval) {
    InText(text, x.range) && Offset(text, x.range.start) == Some(x.start) && Offset(text, x.range.end) == Some(x.end)
  }

  predicate AllLocate(text: string, s: seq<Interval>) {
    forall i :: 0 <= i < |s| ==> Locates(text, s[i])
  }

  /** The validator of the candidate set: it recomputes both offsets from the declared lines and columns. */
  predicate Validates(b: Backing, s: Snippet)
    requires s.Available?
  {
    && s.startOffset <= s.endOffset <= |b.text|
    && NotAfter(b.range.start, s.range.start) && NotAfter(b.range.start, s.range.end)
    && Offset(b.text, Relative(s.range.start, b.range.start)) == Some(s.startOffset)
    && Offset(b.text, Relative(s.range.end, b.range.start)) == Some(s.endOffset)
  }

  /** An emitted snippet shows the characters of its range, inside a backing that shows those of the hull. */
  predicate Shows(text: string, b: Backing, s: Snippet)
    requires s.Available?
  {
    && InText(text, s.range) && InText(text, b.range)
    && NotAfter(b.range.start, s.range.start)
    && var a, o, e := Offset(text, b.range.start).value, Offset(text, s.range.start).value,
         Offset(text, s.range.end).value;
    && a <= o <= e <= a + |b.text| <= |text|
    && b.text == text[a..a + |b.text|]
    && s.startOffset == o - a && s.endOffset == e - a
    && b.text[s.startOffset..s.endOffset] == text[o..e]
  }

  /** The validator accepts an emitted snippet exactly when its backing does not start past an unbroken line
      that the snippet leaves. */
  lemma EmittedSnippetValidates(text: string, b: Backing, s: Snippet)
    requires s.Available? && Shows(text, b, s)
    ensures Validates(b, s) <==> !(StartsPastUnbroken(text, b.range.start) && s.range.end.line > b.range.start.line)
  {
    var a := Offset(text, b.range.start).value;
    RelativeOffset(text, b.range.start, s.range.start, a + |b.text|);
    RelativeOffset(text, b.range.start, s.range.end, a + |b.text|);
  }

  /** In particular always, when LF, CR and CRLF are the only breaks and the text is empty or ends in one. */
  lemma PlainSnippetsValidate(text: string, b: Backing, s: Snippet)
    requires s.Available? && Shows(text, b, s) && PlainlyBroken(text)
    ensures Validates(b, s)
  {
    OffsetIsWalk(text, b.range.start);
    NeverPast(text, 0, b.range.start);
    EmittedSnippetValidates(text, b, s);
  }

  // ---- The hull of a cluster ------------------------------------------------------------------------

  method Hull(text: string, c: seq<Interval>) returns (hull: SourceRange)
    requires GoodCluster(text, c)
    ensures c != []
    ensures InText(text, hull) && Offset(text, hull.start) == Some(c[0].start) &&
            Offset(text, hull.end) == Some(MaxEnd(c))
    ensures forall i :: 0 <= i < |c| ==> NotAfter(hull.start, c[i].range.start)
  {
    hide Offset, IsChain, Sorted, AllLocate;
    var left, right := c[0].range.start, c[0].range.end;
    ghost var l, r := 0, 0;
    for i := 1 to |c|
      invariant l < |c| && r < |c| && left == c[l].range.start && right == c[r].range.end
      invariant forall j :: 0 <= j < i ==> NotAfter(left, c[j].range.start) && NotAfter(c[j].range.end, right)
    {
      if !NotAfter(left, c[i].range.start) {
        left, l := c[i].range.start, i;
      }
      if !NotAfter(c[i].range.end, right) {
        right, r := c[i].range.end, i;
      }
    }
    hull := SourceRange(left, right);
    HullOffsets(text, c, l, r);
  }

  lemma HullOffsets(text: string, c: seq<Interval>, l: nat, r: nat)
    requires IsChain(c) && Sorted(c) && AllLocate(text, c) && l < |c| && r < |c|
    requires forall j :: 0 <= j < |c| ==>
                NotAfter(c[l].range.start, c[j].range.start) && NotAfter(c[j].range.end, c[r].range.end)
    ensures Offset(text, c[l].range.start) == Some(c[0].start) && Offset(text, c[r].range.end) == Some(MaxEnd(c))
    ensures InText(text, SourceRange(c[l].range.start, c[r].range.end))
  {
    MembersInside(text, c);
    var m :| 0 <= m < |c| && c[m].end == MaxEnd(c);
    hide Offset, IsChain, Sorted, AllLocate, MaxEnd;
    OffsetsFollowPositions(text, c[l].range.start, c[0].range.start);
    OffsetsFollowPositions(text, c[m].range.end, c[r].range.end);
    assert NotAfter(c[l].range.start, c[r].range.start);
  }

  lemma MembersInside(text: string, c: seq<Interval>)
    requires c != [] && IsChain(c) && Sorted(c) && AllLocate(text, c)
    ensures MaxEnd(c) <= |text|
    ensures forall i :: 0 <= i < |c| ==> Locates(text, c[i]) && c[0].start <= c[i].start <= c[i].end <= MaxEnd(c)
  {
    hide Offset;
    LocatedIsValid(text, c);
    forall i | 0 <= i < |c| ensures c[0].start <= c[i].start <= c[i].end <= |text| {
      assert Locates(text, c[i]) && c[i].Valid();
      assert i > 0 ==> Precedes(c[0], c[i]);
      OffsetsFollowPositions(text, c[i].range.end, c[i].range.end);
    }
  }

  // ---- The whole file -------------------------------------------------------------------------------

  /** Which candidate a snippet answers. */
  function Answered(snippets: seq<Snippet>): (r: seq<Candidate>)
    ensures |r| == |snippets| && forall i :: 0 <= i < |snippets| ==>
              r[i] == Candidate(snippets[i].id, snippets[i].range)
  {
    seq(|snippets|, i requires 0 <= i < |snippets| => Candidate(snippets[i].id, snippets[i].range))
  }

  function Asked(s: seq<Interval>): (r: seq<Candidate>)
    ensures |r| == |s| && forall i :: 0 <= i < |s| ==> r[i] == Candidate(s[i].id, s[i].range)
  {
    seq(|s|, i requires 0 <= i < |s| => Candidate(s[i].id, s[i].range))
  }

  /** Every answer is right: an available snippet shows its range within the size limit, an invalid one has a
      position outside the text, and a deferred one lies inside the text. */
  predicate Right(text: string, backings: seq<Backing>, limit: nat, s: Snippet) {
    match s
    case Available(_, _, k, _, _) => k < |backings| && |backings[k].text| <= limit && Shows(text, backings[k], s)
    case RangeInvalid(_, r) => !InText(text, r)
    case Limit(_, r) => InText(text, r)
  }

  predicate AllRight(text: string, backings: seq<Backing>, limit: nat, snippets: seq<Snippet>) {
    forall i :: 0 <= i < |snippets| ==> Right(text, backings, limit, snippets[i])
  }

  /** Turn the candidates into intervals, setting aside those whose positions are outside the text. */
  method Locate(text: string, candidates: seq<Candidate>) returns (intervals: seq<Interval>, invalid: seq<Snippet>)
    requires forall i :: 0 <= i < |candidates| ==> candidates[i].range.Valid()
    ensures AllLocate(text, intervals)
    ensures forall i :: 0 <= i < |invalid| ==> invalid[i].RangeInvalid? && !InText(text, invalid[i].range)
    ensures multiset(Asked(intervals)) + multiset(Answered(invalid)) == multiset(candidates)
  {
    hide Offset;
    intervals, invalid := [], [];
    for i := 0 to |candidates|
      invariant AllLocate(text, intervals)
      invariant forall j :: 0 <= j < |invalid| ==> invalid[j].RangeInvalid? && !InText(text, invalid[j].range)
      invariant multiset(Asked(intervals)) + multiset(Answered(invalid)) == multiset(candidates[..i])
    {
      var c := candidates[i];
      assert candidates[..i + 1] == candidates[..i] + [c];
      var start, end := Offset(text, c.range.start), Offset(text, c.range.end);
      if start.Some? && end.Some? {
        var x := Interval(start.value, end.value, c.id, c.range);
        assert Asked(intervals + [x]) == Asked(intervals) + [c];
        intervals := intervals + [x];
      } else {
        var s := RangeInvalid(c.id, c.range);
        assert Answered(invalid + [s]) == Answered(invalid) + [c];
        invalid := invalid + [s];
      }
    }
    assert candidates[..|candidates|] == candidates;
  }

  lemma LocatedIsValid(text: string, s: seq<Interval>)
    requires AllLocate(text, s)
    ensures AllValid(s)
  {
    hide Offset;
    forall i | 0 <= i < |s| ensures s[i].Valid() {
      assert Locates(text, s[i]);
      OffsetsFollowPositions(text, s[i].range.start, s[i].range.end);
    }
  }

  /** One cluster: a backing with one snippet per member, or all members deferred together. */
  method Emit(text: string, c: seq<Interval>, limit: nat, index: nat)
    returns (backing: Option<Backing>, snippets: seq<Snippet>)
    requires GoodCluster(text, c)
    ensures c != [] && EmittedOne(text, c, limit, index, backing, snippets)
  {
    hide Offset, GoodCluster, AllInText, InText, NotAfter, MaxEnd, ShownAs, Shows;
    EndInside(text, c);
    var start, end := c[0].start, MaxEnd(c);
    if end - start > limit {
      snippets := seq(|c|, i requires 0 <= i < |c| => Limit(c[i].id, c[i].range));
      backing := None;
      AllDeferred(text, c, snippets);
    } else {
      var hull := Hull(text, c);
      var b := Backing(hull, text[start..end]);
      snippets := seq(|c|, i requires 0 <= i < |c| => Available(c[i].id, c[i].range, index, c[i].start - start,
                                                                c[i].end - start));
      AllShown(text, c, limit, index, b, snippets);
      backing := Some(b);
    }
  }

  lemma EndInside(text: string, c: seq<Interval>)
    requires GoodCluster(text, c)
    ensures c != [] && c[0].start <= MaxEnd(c) <= |text|
    ensures forall i :: 0 <= i < |c| ==> c[0].start <= c[i].start <= c[i].end
  {
    MembersInside(text, c);
  }

  lemma AllDeferred(text: string, c: seq<Interval>, snippets: seq<Snippet>)
    requires GoodCluster(text, c)
    requires |snippets| == |c| && forall i :: 0 <= i < |c| ==> snippets[i] == Limit(c[i].id, c[i].range)
    ensures Answered(snippets) == Asked(c) && AllInText(text, snippets)
  {
    forall i | 0 <= i < |snippets| ensures InText(text, snippets[i].range) {
      hide Offset, IsChain, Sorted;
      assert Locates(text, c[i]);
    }
    hide InText, GoodCluster;
  }

  lemma AllShown(text: string, c: seq<Interval>, limit: nat, index: nat, b: Backing, snippets: seq<Snippet>)
    requires GoodCluster(text, c) && MaxEnd(c) - c[0].start <= limit && c[0].start <= MaxEnd(c) <= |text|
    requires InText(text, b.range) && Offset(text, b.range.start) == Some(c[0].start) &&
             b.text == text[c[0].start..MaxEnd(c)]
    requires forall i :: 0 <= i < |c| ==> NotAfter(b.range.start, c[i].range.start)
    requires |snippets| == |c| && forall i :: 0 <= i < |c| ==>
               c[i].end >= c[i].start >= c[0].start &&
               snippets[i] == Available(c[i].id, c[i].range, index, c[i].start - c[0].start, c[i].end - c[0].start)
    ensures Answered(snippets) == Asked(c) && forall i :: 0 <= i < |snippets| ==> ShownAs(text, index, b, snippets[i])
  {
    assert Answered(snippets) == Asked(c);
    hide *;
    forall i | 0 <= i < |c| ensures ShownAs(text, index, b, snippets[i]) {
      MemberAt(text, c, i);
      MemberShows(text, c[i], b, c[0].start, MaxEnd(c), index, snippets[i]);
    }
  }

  lemma MemberAt(text: string, c: seq<Interval>, i: nat)
    requires GoodCluster(text, c) && i < |c|
    ensures Locates(text, c[i]) && c[0].start <= c[i].start <= c[i].end <= MaxEnd(c)
  {
    MembersInside(text, c);
  }

  lemma MemberShows(text: string, x: Interval, b: Backing, start: nat, end: nat, index: nat, s: Snippet)
    requires Locates(text, x) && InText(text, b.range) && Offset(text, b.range.start) == Some(start)
    requires start <= x.start <= x.end <= end <= |text| && b.text == text[start..end] &&
             NotAfter(b.range.start, x.range.start)
    requires s.Available? && s.backing == index && s.range == x.range && s.startOffset == x.start - start &&
             s.endOffset == x.end - start
    ensures ShownAs(text, index, b, s)
  {
    hide Offset;
    var shown := b.text[s.startOffset..s.endOffset];
    assert forall k :: 0 <= k < |shown| ==> shown[k] == b.text[s.startOffset + k] == text[start + (s.startOffset + k)];
    assert shown == text[x.start..x.end];
  }

  function BackedLength(backings: seq<Backing>): nat {
    if backings == [] then 0 else BackedLength(backings[..|backings| - 1]) + |backings[|backings| - 1].text|
  }

  /** The loop over the clusters: every candidate is answered once and rightly, and when nothing is deferred
      the backings hold each covered character exactly once. */
  method MaterializeFile(text: string, candidates: seq<Candidate>, limit: nat)
    returns (snippets: seq<Snippet>, backings: seq<Backing>, ghost intervals: seq<Interval>,
             ghost clusters: seq<seq<Interval>>)
    requires limit >= 1 && forall i :: 0 <= i < |candidates| ==> candidates[i].range.Valid()
    ensures multiset(Answered(snippets)) == multiset(candidates)
    ensures AllRight(text, backings, limit, snippets)
    ensures Sorted(intervals) && AllLocate(text, intervals) && IsClustering(clusters, intervals)
    ensures OnlyLongDeferred(clusters, limit, snippets)
    ensures NothingDeferred(snippets) ==> BackedLength(backings) == |Covered(intervals, |text|)|
  {
    hide *;
    var located;
    located, snippets := Locate(text, candidates);
    var sorted := SortIntervals(located);
    intervals := sorted;
    SortingKeeps(text, located, sorted);
    var merged := Merge(sorted);
    clusters := merged;
    AllClusters(text, merged, sorted);
    backings := [];
    ghost var invalid := snippets;
    NoneEmitted(text, limit, invalid, merged);
    for i := 0 to |merged|
      invariant Emitted(text, limit, invalid, merged[..i], snippets, backings)
    {
      var backing, more := Emit(text, merged[i], limit, |backings|);
      OneMoreCluster(text, limit, invalid, merged, i, snippets, backings, backing, more);
      if backing.Some? {
        backings := backings + [backing.value];
      }
      snippets := snippets + more;
    }
    assert merged[..|merged|] == merged;
    AllEmitted(text, limit, invalid, merged, intervals, snippets, backings);
  }

  /** What the loop has done after the given clusters. */
  predicate Emitted(text: string, limit: nat, invalid: seq<Snippet>, done: seq<seq<Interval>>, snippets: seq<Snippet>,
                    backings: seq<Backing>)
  {
    && (forall i :: 0 <= i < |done| ==> done[i] != [])
    && AllRight(text, backings, limit, snippets)
    && multiset(Answered(snippets)) == multiset(Answered(invalid)) + multiset(Asked(Flatten(done)))
    && OnlyLongDeferred(done, limit, snippets)
    && (NothingDeferred(snippets) ==> BackedLength(backings) == TotalLength(done))
  }

  /** A deferred snippet answers a member of a cluster whose hull exceeds the limit. */
  predicate OnlyLongDeferred(clusters: seq<seq<Interval>>, limit: nat, snippets: seq<Snippet>) {
    forall i :: 0 <= i < |snippets| && snippets[i].Limit? ==> InLongCluster(clusters, limit, snippets[i])
  }

  predicate InLongCluster(clusters: seq<seq<Interval>>, limit: nat, s: Snippet) {
    exists j :: 0 <= j < |clusters| && TooLong(clusters[j], limit) && Candidate(s.id, s.range) in Asked(clusters[j])
  }

  predicate TooLong(c: seq<Interval>, limit: nat) {
    c != [] && MaxEnd(c) - c[0].start > limit
  }

  lemma DeferralsKept(text: string, limit: nat, merged: seq<seq<Interval>>, i: nat, snippets: seq<Snippet>, index: nat,
                      backing: Option<Backing>, more: seq<Snippet>)
    requires i < |merged| && OnlyLongDeferred(merged[..i], limit, snippets)
    requires merged[i] != [] && EmittedOne(text, merged[i], limit, index, backing, more)
    ensures OnlyLongDeferred(merged[..i + 1], limit, snippets + more)
  {
    hide Shows, InText, MaxEnd;
    var now, all := merged[..i + 1], snippets + more;
    forall k | 0 <= k < |all| && all[k].Limit? ensures InLongCluster(now, limit, all[k]) {
      if k < |snippets| {
        assert InLongCluster(merged[..i], limit, snippets[k]);
        var j :| 0 <= j < i && TooLong(merged[..i][j], limit) &&
              Candidate(all[k].id, all[k].range) in Asked(merged[..i][j]);
        assert now[j] == merged[..i][j];
      } else {
        assert all[k] == more[k - |snippets|];
        assert Answered(more)[k - |snippets|] == Candidate(all[k].id, all[k].range);
        assert now[i] == merged[i];
      }
    }
  }

  predicate GoodCluster(text: string, c: seq<Interval>) {
    c != [] && IsChain(c) && Sorted(c) && AllLocate(text, c)
  }

  predicate ShownAs(text: string, index: nat, b: Backing, s: Snippet) {
    s.Available? && s.backing == index && Shows(text, b, s)
  }

  /** An admitted cluster: one backing, as long as the hull, that shows every member. */
  predicate ShownOne(text: string, c: seq<Interval>, limit: nat, index: nat, b: Backing, snippets: seq<Snippet>)
    requires c != []
  {
    && Answered(snippets) == Asked(c) && |b.text| == MaxEnd(c) - c[0].start <= limit
    && forall i :: 0 <= i < |snippets| ==> ShownAs(text, index, b, snippets[i])
  }

  /** An over-long cluster: all members are deferred. */
  predicate DeferredOne(text: string, c: seq<Interval>, limit: nat, snippets: seq<Snippet>)
    requires c != []
  {
    && Answered(snippets) == Asked(c) && MaxEnd(c) - c[0].start > limit
    && (forall i :: 0 <= i < |snippets| ==> snippets[i].Limit?) && AllInText(text, snippets)
  }

  predicate AllInText(text: string, snippets: seq<Snippet>) {
    forall i :: 0 <= i < |snippets| ==> InText(text, snippets[i].range)
  }

  predicate EmittedOne(text: string, c: seq<Interval>, limit: nat, index: nat, backing: Option<Backing>,
                       snippets: seq<Snippet>)
    requires c != []
  {
    match backing
    case Some(b) => ShownOne(text, c, limit, index, b, snippets)
    case None => DeferredOne(text, c, limit, snippets)
  }

  lemma NoneEmitted(text: string, limit: nat, invalid: seq<Snippet>, merged: seq<seq<Interval>>)
    requires forall i :: 0 <= i < |invalid| ==> invalid[i].RangeInvalid? && !InText(text, invalid[i].range)
    ensures Emitted(text, limit, invalid, merged[..0], invalid, [])
  {
    hide Offset;
    InvalidAreRight(text, limit, invalid);
    assert merged[..0] == [];
    assert Asked([]) == [];
  }

  lemma OneMoreCluster(text: string, limit: nat, invalid: seq<Snippet>, merged: seq<seq<Interval>>, i: nat,
                       snippets: seq<Snippet>, backings: seq<Backing>, backing: Option<Backing>, more: seq<Snippet>)
    requires i < |merged| && forall j :: 0 <= j < |merged| ==> merged[j] != []
    requires Emitted(text, limit, invalid, merged[..i], snippets, backings)
    requires merged[i] != [] && EmittedOne(text, merged[i], limit, |backings|, backing, more)
    ensures Emitted(text, limit, invalid, merged[..i + 1],
                    snippets + more, if backing.Some? then backings + [backing.value] else backings)
  {
    hide Offset, ShownAs, AllInText, AllRight, OnlyLongDeferred, MaxEnd, Answered, Asked;
    var c := merged[i];
    NextCluster(merged, i);
    DeferralsKept(text, limit, merged, i, snippets, |backings|, backing, more);
    EmittedAreRight(text, backings, limit, snippets, backing, more);
    AnswersAddUp(snippets, more, c);
    if backing.Some? {
      assert (backings + [backing.value])[..|backings|] == backings;
    }
  }

  lemma AllEmitted(text: string, limit: nat, invalid: seq<Snippet>, merged: seq<seq<Interval>>,
                   intervals: seq<Interval>,
                   snippets: seq<Snippet>, backings: seq<Backing>)
    requires Emitted(text, limit, invalid, merged, snippets, backings)
    requires IsClustering(merged, intervals) && Sorted(intervals) && AllLocate(text, intervals)
    requires forall i :: 0 <= i < |intervals| ==> intervals[i].end <= |text|
    ensures multiset(Answered(snippets)) == multiset(Answered(invalid)) + multiset(Asked(intervals))
    ensures AllRight(text, backings, limit, snippets) && OnlyLongDeferred(merged, limit, snippets)
    ensures NothingDeferred(snippets) ==> BackedLength(backings) == |Covered(intervals, |text|)|
  {
    hide AllRight, Covered, Offset;
    LocatedIsValid(text, intervals);
    LengthsAddUp(merged, intervals, |text|);
  }

  lemma InvalidAreRight(text: string, limit: nat, invalid: seq<Snippet>)
    requires forall i :: 0 <= i < |invalid| ==> invalid[i].RangeInvalid? && !InText(text, invalid[i].range)
    ensures AllRight(text, [], limit, invalid)
  {
  }

  predicate NothingDeferred(snippets: seq<Snippet>) {
    forall i :: 0 <= i < |snippets| ==> !snippets[i].Limit?
  }

  lemma AllClusters(text: string, merged: seq<seq<Interval>>, s: seq<Interval>)
    requires IsClustering(merged, s) && Sorted(s) && AllLocate(text, s)
    ensures Flatten(merged) == s
    ensures forall i :: 0 <= i < |merged| ==> GoodCluster(text, merged[i]) && merged[i] != []
  {
    forall i | 0 <= i < |merged| ensures GoodCluster(text, merged[i])
    {
      ClusterLocates(text, merged, s, i);
    }
  }

  lemma AnswersAddUp(snippets: seq<Snippet>, more: seq<Snippet>, c: seq<Interval>)
    requires Answered(more) == Asked(c) && c != []
    ensures multiset(Answered(snippets + more)) == multiset(Answered(snippets)) + multiset(Asked(c))
    ensures NothingDeferred(snippets + more) ==> NothingDeferred(snippets) && !more[0].Limit?
  {
    assert Answered(snippets + more) == Answered(snippets) + Asked(c);
    assert forall j :: 0 <= j < |snippets| ==> (snippets + more)[j] == snippets[j];
    assert |more| == |Answered(more)| > 0;
    assert (snippets + more)[|snippets|] == more[0];
  }

  lemma SortingKeeps(text: string, s: seq<Interval>, t: seq<Interval>)
    requires AllLocate(text, s) && multiset(t) == multiset(s)
    ensures AllLocate(text, t) && multiset(Asked(t)) == multiset(Asked(s))
    ensures forall i :: 0 <= i < |t| ==> t[i].end <= |text|
  {
    hide Offset;
    forall i | 0 <= i < |t| ensures Locates(text, t[i]) && t[i].end <= |text| {
      assert t[i] in multiset(s);
      var j :| 0 <= j < |s| && s[j] == t[i];
      OffsetsFollowPositions(text, t[i].range.end, t[i].range.end);
    }
    SameAsked(s, t);
  }

  lemma {:induction false} SameAsked(s: seq<Interval>, t: seq<Interval>)
    requires multiset(t) == multiset(s)
    ensures multiset(Asked(t)) == multiset(Asked(s))
    decreases |s|
  {
    hide Asked;
    if s == [] {
      assert |t| == |multiset(t)| == 0;
    } else {
      var x := s[0];
      assert x in multiset(t);
      var j :| 0 <= j < |t| && t[j] == x;
      var before, after := s[..0] + s[1..], t[..j] + t[j + 1..];
      WithoutOne(s, 0);
      WithoutOne(t, j);
      Cancel(multiset(before), multiset(after), x);
      SameAsked(before, after);
    }
  }

  lemma Cancel<T>(a: multiset<T>, b: multiset<T>, x: T)
    requires a + multiset{x} == b + multiset{x}
    ensures a == b
  {
    assert a == a + multiset{x} - multiset{x};
    assert b == b + multiset{x} - multiset{x};
  }

  lemma WithoutOne(t: seq<Interval>, j: nat)
    requires j < |t|
    ensures multiset(t) == multiset(t[..j] + t[j + 1..]) + multiset{t[j]}
    ensures multiset(Asked(t)) == multiset(Asked(t[..j] + t[j + 1..])) + multiset{Candidate(t[j].id, t[j].range)}
  {
    assert t == t[..j] + [t[j]] + t[j + 1..];
    assert Asked(t) == Asked(t[..j]) + [Candidate(t[j].id, t[j].range)] + Asked(t[j + 1..]);
    assert Asked(t[..j] + t[j + 1..]) == Asked(t[..j]) + Asked(t[j + 1..]);
  }

  lemma ClusterLocates(text: string, merged: seq<seq<Interval>>, s: seq<Interval>, i: nat)
    requires IsClustering(merged, s) && Sorted(s) && AllLocate(text, s) && i < |merged|
    ensures IsChain(merged[i]) && Sorted(merged[i]) && AllLocate(text, merged[i])
  {
    FlattenMember(merged, i);
    ChainStart(merged, i);
    forall k | 0 <= k < |merged[i]| ensures Locates(text, merged[i][k]) {
      assert merged[i][k] in s;
    }
  }

  lemma NextCluster(merged: seq<seq<Interval>>, i: nat)
    requires i < |merged| && forall j :: 0 <= j < |merged| ==> merged[j] != []
    ensures Asked(Flatten(merged[..i + 1])) == Asked(Flatten(merged[..i])) + Asked(merged[i])
    ensures TotalLength(merged[..i + 1]) == TotalLength(merged[..i]) + (MaxEnd(merged[i]) - merged[i][0].start)
  {
    assert merged[..i + 1][..i] == merged[..i];
  }

  lemma EmittedAreRight(text: string, backings: seq<Backing>, limit: nat, snippets: seq<Snippet>,
                        backing: Option<Backing>, more: seq<Snippet>)
    requires AllRight(text, backings, limit, snippets)
    requires backing.Some? ==> |backing.value.text| <= limit && forall i :: 0 <= i < |more| ==>
               ShownAs(text, |backings|, backing.value, more[i])
    requires backing.None? ==> AllInText(text, more) && forall i :: 0 <= i < |more| ==> more[i].Limit?
    ensures AllRight(text, if backing.Some? then backings + [backing.value] else backings, limit, snippets + more)
  {
    var all := if backing.Some? then backings + [backing.value] else backings;
    forall i | 0 <= i < |snippets + more| ensures Right(text, all, limit, (snippets + more)[i]) {
      if i < |snippets| {
        assert Right(text, backings, limit, snippets[i]);
      }
    }
  }
}
