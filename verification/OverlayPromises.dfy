/** What a bounded leg promises: which walks it answers, in which order, which limits it may name, and that it is
    exhaustive exactly when the bounds suffice. */
module OverlayPromises {
  import opened Prelude
  import opened Graph
  import opened OverlayWalks

  /** The bounds are enough for everything an unbounded search would explore. */
  ghost predicate FitsBudgets(q: Search) {
    exists walks: set<seq<NodeId>> :: Exactly(q, walks) && Fits(q, walks)
  }

  ghost predicate Exactly(q: Search, walks: set<seq<NodeId>>) {
    forall w :: w in walks <==> Explored(q, w)
  }

  ghost predicate Fits(q: Search, walks: set<seq<NodeId>>) {
    && |walks| <= q.b.maxStates
    && (forall w :: w in walks ==> IsSimple(w) && |w| - 1 <= q.b.maxDepth)
    && |Ending(q, walks)| <= q.b.maxPaths
  }

  ghost function Ending(q: Search, walks: set<seq<NodeId>>): set<seq<NodeId>> {
    set w | w in walks && w != [] && Ends(q, w)
  }

  /** A search walk that the returned paths leave for later. */
  ghost predicate Beyond(q: Search, paths: seq<OverlayPath>, w: seq<NodeId>) {
    SearchWalk(q, w) && (Distinct(q.seeds) ==> forall i :: 0 <= i < |paths| ==> Left(q.seeds, paths[i].ids, w))
  }

  /** A search walk that goes on to a node it has already visited. */
  ghost predicate CutWalk(q: Search, w: seq<NodeId>) {
    SearchWalk(q, w) && CutAt(q, w)
  }

  predicate NamesDepth(paths: seq<OverlayPath>) {
    exists i :: 0 <= i < |paths| && DepthLimit in paths[i].problems
  }

  predicate Full(limits: set<Gap>) {
    StateLimit in limits || PathLimit in limits
  }

  /** One search walk more than the state budget allows. */
  ghost predicate TooMany(q: Search, ws: set<seq<NodeId>>) {
    |ws| == q.b.maxStates + 1 && forall w :: w in ws ==> SearchWalk(q, w)
  }

  /** A limit is named only where it was met, and a cycle or the depth bound wherever the search met them. */
  ghost predicate HonestLimits(q: Search, paths: seq<OverlayPath>, limits: set<Gap>) {
    && (forall g :: g in limits ==> LimitsExhaustion(g))
    && (DepthLimit in limits <==> NamesDepth(paths))
    && (CycleCut in limits ==> exists w :: CutWalk(q, w))
    && (!Full(limits) ==> CycleCut in limits || forall w :: !CutWalk(q, w))
    && (PathLimit in limits ==> |paths| == q.b.maxPaths && exists w :: Beyond(q, paths, w))
    && (StateLimit in limits && Distinct(q.seeds) ==> exists ws :: TooMany(q, ws))
  }

  /** Every final search walk is answered, unless a budget ran out; then those answered come first. */
  ghost predicate AnswersAll(q: Search, paths: seq<OverlayPath>, limits: set<Gap>) {
    && (forall w :: !Full(limits) && SearchWalk(q, w) && Final(q, w) ==> Listed(paths, w))
    && (Distinct(q.seeds) ==>
          forall w, i :: 0 <= i < |paths| && SearchWalk(q, w) && Final(q, w) && !Listed(paths, w) ==>
            Left(q.seeds, paths[i].ids, w))
  }

  /** Everything a leg promises. */
  ghost predicate LegPromises(q: Search, paths: seq<OverlayPath>, limits: set<Gap>) {
    && q.Valid()
    && (forall i :: 0 <= i < |paths| ==> SoundPath(q, paths[i]))
    && |paths| <= q.b.maxPaths
    && (Distinct(q.seeds) ==> forall i, j :: 0 <= i < j < |paths| ==> Left(q.seeds, paths[i].ids, paths[j].ids))
    && HonestLimits(q, paths, limits)
    && AnswersAll(q, paths, limits)
    && (limits == {} ==> forall w :: Explored(q, w) ==> SearchWalk(q, w))
    && (Distinct(q.seeds) ==> (limits == {} <==> FitsBudgets(q)))
  }

  // ---- Counting -------------------------------------------------------------------------------------

  function PathIds(paths: seq<OverlayPath>): (ids: set<seq<NodeId>>)
    ensures forall w :: w in ids <==> exists i :: 0 <= i < |paths| && paths[i].ids == w
  {
    set i | 0 <= i < |paths| :: paths[i].ids
  }

  lemma {:induction false} FewerIds(paths: seq<OverlayPath>)
    ensures |PathIds(paths)| <= |paths|
    ensures (forall i, j :: 0 <= i < j < |paths| ==> paths[i].ids != paths[j].ids) ==> |PathIds(paths)| == |paths|
    decreases |paths|
  {
    if paths != [] {
      var n := |paths| - 1;
      FewerIds(paths[..n]);
      assert PathIds(paths) == PathIds(paths[..n]) + {paths[n].ids};
    }
  }

  lemma {:induction false} Smaller<T>(a: set<T>, b: set<T>)
    requires a <= b
    ensures |a| <= |b|
  {
    assert b == a + (b - a);
  }

  // ---- When the stack is empty ----------------------------------------------------------------------

  /** What the loop knows of the limits it met, apart from the budgets. */
  ghost predicate Met(q: Search, paths: seq<OverlayPath>, taken: set<seq<NodeId>>, limits: set<Gap>) {
    && limits <= {DepthLimit, CycleCut}
    && (DepthLimit in limits <==> NamesDepth(paths))
    && (CycleCut in limits <==> exists w :: w in taken && CutWalk(q, w))
  }

  ghost predicate Counted(q: Search, taken: set<seq<NodeId>>, states: nat) {
    Distinct(q.seeds) ==> |taken| == states
  }

  /** With nothing cut, every explored walk has been taken. */
  lemma {:induction false} AllTaken(q: Search, paths: seq<OverlayPath>, taken: set<seq<NodeId>>, w: seq<NodeId>)
    requires LegInv(q, [], paths, taken) && Met(q, paths, taken, {}) && Explored(q, w)
    ensures w in taken
    decreases |w|
  {
    if |w| == 1 {
      assert SearchWalk(q, w);
    } else {
      var before, last := w[..|w| - 1], w[|w| - 1];
      ExploredBefore(q, w, |w| - 1);
      AllTaken(q, paths, taken, before);
      GoesInside(q, w, |w| - 2);
      assert Tip(before) == w[|w| - 2] && last == w[|w| - 2 + 1];
      NextIsSearchWalk(q, paths, taken, before, last);
      assert before + [last] == w;
    }
    assert !Waits([], w);
  }

  lemma NextIsSearchWalk(q: Search, paths: seq<OverlayPath>, taken: set<seq<NodeId>>, w: seq<NodeId>, m: NodeId)
    requires LegInv(q, [], paths, taken) && Met(q, paths, taken, {}) && w in taken && w != []
    requires Expands(q, Tip(w)) && GoesTo(q, Tip(w), m)
    ensures SearchWalk(q, w + [m])
  {
    assert SearchWalk(q, w);
    assert !Ends(q, w);
    if |w| - 1 == q.b.maxDepth {
      assert Listed(paths, w);
      var i :| 0 <= i < |paths| && paths[i].ids == w;
      assert SoundPath(q, paths[i]);
      ReachesByCall(q, Tip(w));
    }
    assert !CutWalk(q, w);
    ExploredGoesOn(q, w, m);
  }

  lemma NothingMetFits(q: Search, paths: seq<OverlayPath>, taken: set<seq<NodeId>>, states: nat)
    requires LegInv(q, [], paths, taken) && Met(q, paths, taken, {}) && Counted(q, taken, states)
    requires states <= q.b.maxStates && |paths| <= q.b.maxPaths
    ensures forall w :: Explored(q, w) ==> SearchWalk(q, w)
    ensures Distinct(q.seeds) ==> FitsBudgets(q)
  {
    forall w ensures w in taken <==> Explored(q, w) {
      if Explored(q, w) {
        AllTaken(q, paths, taken, w);
      }
    }
    FewerIds(paths);
    assert Ending(q, taken) <= PathIds(paths);
    Smaller(Ending(q, taken), PathIds(paths));
    if Distinct(q.seeds) {
      assert Exactly(q, taken) && Fits(q, taken);
    }
  }

  lemma PathsInOrder(q: Search, stack: seq<State>, paths: seq<OverlayPath>, taken: set<seq<NodeId>>)
    requires LegInv(q, stack, paths, taken) && Distinct(q.seeds)
    ensures forall i, j :: 0 <= i < j < |paths| ==> Left(q.seeds, paths[i].ids, paths[j].ids)
  {
    hide Left;
  }

  /** What still waits lies behind everything that was returned. */
  lemma WaitsBehind(q: Search, stack: seq<State>, paths: seq<OverlayPath>, taken: set<seq<NodeId>>, w: seq<NodeId>)
    requires LegInv(q, stack, paths, taken) && Distinct(q.seeds) && Waits(stack, w)
    ensures forall i :: 0 <= i < |paths| ==> Left(q.seeds, paths[i].ids, w)
  {
    var k :| 0 <= k < |stack| && stack[k].ids <= w;
    assert w == stack[k].ids + w[|stack[k].ids|..];
    forall i | 0 <= i < |paths| ensures Left(q.seeds, paths[i].ids, w) {
      LeftContinues(q.seeds, paths[i].ids, stack[k].ids, w[|stack[k].ids|..]);
    }
  }

  lemma AnswersSoFar(q: Search, stack: seq<State>, paths: seq<OverlayPath>, taken: set<seq<NodeId>>, limits: set<Gap>)
    requires LegInv(q, stack, paths, taken) && (stack == [] || Full(limits))
    ensures AnswersAll(q, paths, limits)
  {
    hide Left;
    if Distinct(q.seeds) {
      forall w, i | 0 <= i < |paths| && SearchWalk(q, w) && Final(q, w) && !Listed(paths, w)
        ensures Left(q.seeds, paths[i].ids, w)
      {
        WaitsBehind(q, stack, paths, taken, w);
      }
    }
    hide SearchWalk, Final, Listed;
  }

  /** The loop has emptied its stack. */
  lemma FinishedPromises(q: Search, paths: seq<OverlayPath>, taken: set<seq<NodeId>>, states: nat, limits: set<Gap>)
    requires LegInv(q, [], paths, taken) && Met(q, paths, taken, limits) && Counted(q, taken, states)
    requires states <= q.b.maxStates && |paths| <= q.b.maxPaths
    ensures LegPromises(q, paths, limits)
  {
    AnswersSoFar(q, [], paths, taken, limits);
    HonestAtEnd(q, paths, taken, limits);
    if Distinct(q.seeds) {
      PathsInOrder(q, [], paths, taken);
    }
    if limits == {} {
      NothingMetFits(q, paths, taken, states);
    } else if Distinct(q.seeds) && FitsBudgets(q) {
      LimitsDoNotFit(q, paths, limits);
    }
  }

  lemma HonestAtEnd(q: Search, paths: seq<OverlayPath>, taken: set<seq<NodeId>>, limits: set<Gap>)
    requires LegInv(q, [], paths, taken) && Met(q, paths, taken, limits)
    ensures HonestLimits(q, paths, limits)
  {
    assert forall w :: SearchWalk(q, w) ==> w in taken;
    hide CutAt, SearchWalk, LegInv;
  }

  /** The loop stops with work left because a budget is used up. */
  lemma StoppedPromises(q: Search, rest: seq<State>, s: State, paths: seq<OverlayPath>, taken: set<seq<NodeId>>,
                        states: nat, met: set<Gap>, limit: Gap)
    requires LegInv(q, rest + [s], paths, taken) && Met(q, paths, taken, met) && Counted(q, taken, states)
    requires states <= q.b.maxStates && |paths| <= q.b.maxPaths
    requires (limit == StateLimit && states == q.b.maxStates) || (limit == PathLimit && |paths| == q.b.maxPaths)
    ensures LegPromises(q, paths, met + {limit})
  {
    var limits := met + {limit};
    AnswersSoFar(q, rest + [s], paths, taken, limits);
    HonestAtStop(q, rest, s, paths, taken, states, met, limit);
    if Distinct(q.seeds) {
      PathsInOrder(q, rest + [s], paths, taken);
      if FitsBudgets(q) {
        LimitsDoNotFit(q, paths, limits);
      }
    }
  }

  lemma HonestAtStop(q: Search, rest: seq<State>, s: State, paths: seq<OverlayPath>, taken: set<seq<NodeId>>,
                     states: nat, met: set<Gap>, limit: Gap)
    requires LegInv(q, rest + [s], paths, taken) && Met(q, paths, taken, met) && Counted(q, taken, states)
    requires (limit == StateLimit && states == q.b.maxStates) || (limit == PathLimit && |paths| == q.b.maxPaths)
    ensures HonestLimits(q, paths, met + {limit})
  {
    hide LegInv, Beyond, TooMany, CutWalk, NamesDepth, Distinct;
    TopIsBeyond(q, rest, s, paths, taken);
    if limit == StateLimit && Distinct(q.seeds) {
      OneMoreTaken(q, rest, s, paths, taken);
    }
    assert forall g :: g in met + {limit} <==> g in met || g == limit;
  }

  lemma TopIsBeyond(q: Search, rest: seq<State>, s: State, paths: seq<OverlayPath>, taken: set<seq<NodeId>>)
    requires LegInv(q, rest + [s], paths, taken)
    ensures Beyond(q, paths, s.ids)
  {
    TopIsSound(q, rest, s, paths, taken);
    assert (rest + [s])[|rest|] == s && s.ids <= s.ids;
    if Distinct(q.seeds) {
      WaitsBehind(q, rest + [s], paths, taken, s.ids);
    }
  }

  lemma OneMoreTaken(q: Search, rest: seq<State>, s: State, paths: seq<OverlayPath>, taken: set<seq<NodeId>>)
    requires LegInv(q, rest + [s], paths, taken) && Distinct(q.seeds) && |taken| == q.b.maxStates
    ensures TooMany(q, taken + {s.ids})
  {
    TopIsSound(q, rest, s, paths, taken);
  }

  // ---- Why a limit means that the bounds do not suffice ---------------------------------------------

  lemma DepthDoesNotFit(q: Search, paths: seq<OverlayPath>, walks: set<seq<NodeId>>)
    requires q.Valid() && (forall i :: 0 <= i < |paths| ==> SoundPath(q, paths[i])) && NamesDepth(paths)
    requires Exactly(q, walks)
    ensures !Fits(q, walks)
  {
    var i :| 0 <= i < |paths| && DepthLimit in paths[i].problems;
    var p := paths[i];
    assert SoundPath(q, p);
    ReachesByCall(q, Tip(p.ids));
    var m :| GoesTo(q, Tip(p.ids), m);
    ExploredGoesOn(q, p.ids, m);
    assert |p.calls| == |p.ids| - 1;
    assert p.ids + [m] in walks;
  }

  lemma CycleDoesNotFit(q: Search, w: seq<NodeId>, walks: set<seq<NodeId>>)
    requires CutWalk(q, w) && Exactly(q, walks)
    ensures !Fits(q, walks)
  {
    var m :| GoesTo(q, Tip(w), m) && m in w;
    ExploredGoesOn(q, w, m);
    var k :| 0 <= k < |w| && w[k] == m;
    var next := w + [m];
    assert next[k] == next[|w|];
    assert next in walks;
  }

  lemma StatesDoNotFit(q: Search, ws: set<seq<NodeId>>, walks: set<seq<NodeId>>)
    requires TooMany(q, ws) && Exactly(q, walks)
    ensures !Fits(q, walks)
  {
    Smaller(ws, walks);
  }

  /** A walk can be followed to its end when the depth bound suffices. */
  lemma {:induction false} FollowToEnd(q: Search, w: seq<NodeId>, walks: set<seq<NodeId>>) returns (e: seq<NodeId>)
    requires Explored(q, w) && Exactly(q, walks) && Fits(q, walks)
    ensures Explored(q, e) && w <= e && Ends(q, e)
    decreases q.b.maxDepth + 2 - |w|
  {
    assert w in walks;
    if Ends(q, w) {
      return w;
    }
    var m :| GoesTo(q, Tip(w), m);
    ExploredGoesOn(q, w, m);
    assert w + [m] in walks;
    e := FollowToEnd(q, w + [m], walks);
  }

  lemma PathsDoNotFit(q: Search, paths: seq<OverlayPath>, w: seq<NodeId>, walks: set<seq<NodeId>>)
    requires q.Valid() && Distinct(q.seeds) && (forall i :: 0 <= i < |paths| ==> SoundPath(q, paths[i]))
    requires forall i, j :: 0 <= i < j < |paths| ==> Left(q.seeds, paths[i].ids, paths[j].ids)
    requires |paths| == q.b.maxPaths && Beyond(q, paths, w) && Exactly(q, walks)
    ensures !Fits(q, walks)
  {
    if NamesDepth(paths) {
      DepthDoesNotFit(q, paths, walks);
    } else if Fits(q, walks) {
      var e := FollowToEnd(q, w, walks);
      assert e == w + e[|w|..];
      forall i | 0 <= i < |paths| ensures paths[i].ids != e && paths[i].ids in Ending(q, walks) {
        LeftContinues(q.seeds, paths[i].ids, w, e[|w|..]);
        LeftIsApart(q.seeds, paths[i].ids, e);
        EndsUnlessDepth(q, paths, i);
      }
      forall i, j | 0 <= i < j < |paths| ensures paths[i].ids != paths[j].ids {
        LeftIsApart(q.seeds, paths[i].ids, paths[j].ids);
      }
      FewerIds(paths);
      assert PathIds(paths) + {e} <= Ending(q, walks);
      Smaller(PathIds(paths) + {e}, Ending(q, walks));
    }
  }

  lemma EndsUnlessDepth(q: Search, paths: seq<OverlayPath>, i: nat)
    requires q.Valid() && i < |paths| && SoundPath(q, paths[i]) && !NamesDepth(paths)
    ensures paths[i].ids != [] && Explored(q, paths[i].ids) && Ends(q, paths[i].ids)
  {
    assert DepthLimit !in paths[i].problems;
    if Expands(q, Tip(paths[i].ids)) {
      ReachesByCall(q, Tip(paths[i].ids));
    }
  }

  lemma LimitsDoNotFit(q: Search, paths: seq<OverlayPath>, limits: set<Gap>)
    requires q.Valid() && Distinct(q.seeds) && (forall i :: 0 <= i < |paths| ==> SoundPath(q, paths[i]))
    requires forall i, j :: 0 <= i < j < |paths| ==> Left(q.seeds, paths[i].ids, paths[j].ids)
    requires HonestLimits(q, paths, limits) && limits != {}
    ensures !FitsBudgets(q)
  {
    hide SoundPath, Left, CutWalk, TooMany, Beyond, NamesDepth;
    forall walks | Exactly(q, walks) ensures !Fits(q, walks) {
      hide Fits, Exactly;
      if DepthLimit in limits {
        DepthDoesNotFit(q, paths, walks);
      } else if CycleCut in limits {
        var w :| CutWalk(q, w);
        CycleDoesNotFit(q, w, walks);
      } else if StateLimit in limits {
        var ws :| TooMany(q, ws);
        StatesDoNotFit(q, ws, walks);
      } else {
        var g :| g in limits;
        assert PathLimit in limits;
        var w :| Beyond(q, paths, w);
        PathsDoNotFit(q, paths, w, walks);
      }
    }
  }

  // ---- What follows for a leg -----------------------------------------------------------------------

  /** An exhaustive leg with a recognised role lists exactly all CALL walks from the seeds to their first target. */
  lemma ExhaustiveListsTargets(q: Search, paths: seq<OverlayPath>, walk: seq<NodeId>)
    requires LegPromises(q, paths, {}) && q.roleGaps == []
    ensures Returned(paths, walk) <==> IsFirstTargetWalk(q.g, q.targets, walk) && walk[0] in q.seeds
  {
    if Returned(paths, walk) {
      var i :| 0 <= i < |paths| && paths[i].ids == walk && Operates(paths[i]);
      assert SoundPath(q, paths[i]);
    }
    if IsFirstTargetWalk(q.g, q.targets, walk) && walk[0] in q.seeds {
      FirstTargetIsExplored(q, walk);
      assert Listed(paths, walk);
      var i :| 0 <= i < |paths| && paths[i].ids == walk;
      assert SoundPath(q, paths[i]);
    }
  }

  /** So an exhaustive leg is also proof that no such walk repeats a node or is longer than the depth bound, and
      it lists each of them once. */
  lemma ExhaustiveMeansBounded(q: Search, paths: seq<OverlayPath>, walk: seq<NodeId>)
    requires LegPromises(q, paths, {}) && q.roleGaps == []
    requires IsFirstTargetWalk(q.g, q.targets, walk) && walk[0] in q.seeds
    ensures IsSimple(walk) && |walk| - 1 <= q.b.maxDepth
    ensures Distinct(q.seeds) ==>
              exists i :: 0 <= i < |paths| && paths[i].ids == walk &&
                forall j :: 0 <= j < |paths| && paths[j].ids == walk ==> j == i
  {
    ExhaustiveListsTargets(q, paths, walk);
    var i :| 0 <= i < |paths| && paths[i].ids == walk && Operates(paths[i]);
    assert SoundPath(q, paths[i]);
    if Distinct(q.seeds) {
      forall j | 0 <= j < |paths| && paths[j].ids == walk ensures j == i {
        if i < j {
          LeftIsApart(q.seeds, paths[i].ids, paths[j].ids);
        } else if j < i {
          LeftIsApart(q.seeds, paths[j].ids, paths[i].ids);
        }
      }
    }
  }

  /** No path continues another. */
  lemma PathsAreApart(q: Search, paths: seq<OverlayPath>, limits: set<Gap>)
    requires LegPromises(q, paths, limits) && Distinct(q.seeds)
    ensures forall i, j :: 0 <= i < j < |paths| ==> Apart(paths[i].ids, paths[j].ids)
  {
    forall i, j | 0 <= i < j < |paths| ensures Apart(paths[i].ids, paths[j].ids) {
      LeftIsApart(q.seeds, paths[i].ids, paths[j].ids);
    }
  }

  /** A missing operation call is reported only for a seed that reaches no target. */
  lemma MissingCallIsSeed(q: Search, p: OverlayPath)
    requires q.Valid() && SoundPath(q, p) && MissingOperationCall in p.problems
    ensures |p.ids| == 1 && !CanReach(q.g, q.targets, p.ids[0])
  {
    if |p.ids| > 1 {
      LaterIsRelevant(q, p.ids);
    }
  }
}
