/** What a bounded enumeration of CALL paths means: the walks it explores, where they end, in which order, and when the
    bounds suffice. */
module OverlayWalks {
  import opened Prelude
  import opened Graph
  import opened MemoryGraphs

  datatype Gap =
    | MissingManager | UnknownRole | AmbiguousRole | AmbiguousRoleConflict | AmbiguousComponentRoleConflict
    | MissingSeed | MissingOperationCall | DepthLimit | StateLimit | PathLimit | CycleCut | AmbiguousPaths
    | BodyGap(ambiguous: bool, name: string)

  datatype Status = Complete | Incomplete | Ambiguous

  datatype OverlayBounds = OverlayBounds(maxDepth: nat, maxPaths: nat, maxStates: nat) {
    predicate Valid() {
      maxDepth >= 1 && maxPaths >= 1 && maxStates >= 1
    }
  }

  /** A returned path: its nodes, the CALL edges between them, why it does not reach an operation (if so), and
      the gaps that matching the operation's body adds. */
  datatype OverlayPath = OverlayPath(ids: seq<NodeId>, calls: seq<EdgeIdentity>, problems: seq<Gap>, gaps: set<Gap>)

  datatype OverlayLeg = OverlayLeg(paths: seq<OverlayPath>, status: Status, exhaustive: bool, gaps: set<Gap>)

  datatype State = State(ids: seq<NodeId>, calls: seq<EdgeIdentity>)

  predicate IsRoleGap(g: Gap) {
    g in {MissingManager, UnknownRole, AmbiguousRole, AmbiguousRoleConflict, AmbiguousComponentRoleConflict}
  }

  predicate LimitsExhaustion(g: Gap) {
    g in {DepthLimit, StateLimit, PathLimit, CycleCut}
  }

  predicate IsAmbiguous(g: Gap) {
    g in {AmbiguousRole, AmbiguousRoleConflict, AmbiguousComponentRoleConflict, AmbiguousPaths} ||
      (g.BodyGap? && g.ambiguous)
  }

  function StatusOf(gaps: set<Gap>): Status {
    if exists g :: g in gaps && IsAmbiguous(g) then Ambiguous else if gaps != {} then Incomplete else Complete
  }

  // ---- What the paths mean --------------------------------------------------------------------------

  predicate Calls(g: GraphData, a: NodeId, b: NodeId) {
    EdgeIdentity(a, b, Call) in g.edges
  }

  predicate IsWalk(g: GraphData, ids: seq<NodeId>) {
    |ids| > 0 && forall i :: 0 <= i < |ids| - 1 ==> Calls(g, ids[i], ids[i + 1])
  }

  /** A CALL walk that stops at the first target it meets. */
  predicate IsFirstTargetWalk(g: GraphData, targets: set<NodeId>, ids: seq<NodeId>) {
    && IsWalk(g, ids)
    && ids[|ids| - 1] in targets
    && forall i :: 0 <= i < |ids| - 1 ==> ids[i] !in targets
  }

  ghost predicate CanReach(g: GraphData, targets: set<NodeId>, n: NodeId) {
    exists ids :: IsWalk(g, ids) && ids[0] == n && ids[|ids| - 1] in targets
  }

  predicate IsSimple(ids: seq<NodeId>) {
    forall i, j :: 0 <= i < j < |ids| ==> ids[i] != ids[j]
  }

  function EdgesAlong(ids: seq<NodeId>): seq<EdgeIdentity>
    requires |ids| > 0
  {
    seq(|ids| - 1, i requires 0 <= i < |ids| - 1 => EdgeIdentity(ids[i], ids[i + 1], Call))
  }

  /** Contiguous, simple, from a seed, within the depth bound, and not beyond a target. */
  predicate IsSound(g: GraphData, targets: set<NodeId>, seeds: seq<NodeId>, b: OverlayBounds, ids: seq<NodeId>,
                    calls: seq<EdgeIdentity>)
  {
    && IsWalk(g, ids) && IsSimple(ids) && ids[0] in seeds
    && |ids| - 1 <= b.maxDepth && calls == EdgesAlong(ids)
    && forall i :: 0 <= i < |ids| - 1 ==> ids[i] !in targets
  }

  /** Neither list of nodes continues the other. */
  predicate Apart(a: seq<NodeId>, b: seq<NodeId>) {
    !(a <= b) && !(b <= a)
  }

  predicate Distinct(seeds: seq<NodeId>) {
    forall i, j :: 0 <= i < j < |seeds| ==> seeds[i] != seeds[j]
  }

  predicate Operates(p: OverlayPath) {
    p.problems == []
  }

  ghost predicate Returned(paths: seq<OverlayPath>, ids: seq<NodeId>) {
    exists i :: 0 <= i < |paths| && paths[i].ids == ids && Operates(paths[i])
  }

  /** What the enumeration works on: the graph, the operation's methods, the manager's role gaps, and the
      outcome of matching an operation's body at the end of a path. */
  datatype Search = Search(g: GraphData, targets: set<NodeId>, relevant: set<NodeId>, seeds: seq<NodeId>,
                           b: OverlayBounds, roleGaps: seq<Gap>, body: seq<NodeId> -> set<Gap>)
  {
    ghost predicate Valid() {
      && g.Valid() && b.Valid() && targets <= g.nodes.Keys
      && (forall n :: n in relevant <==> CanReach(g, targets, n))
      && (forall i :: 0 <= i < |roleGaps| ==> IsRoleGap(roleGaps[i]))
      && forall ids, g :: g in body(ids) ==> g.BodyGap?
    }
  }

  // ---- The walks ------------------------------------------------------------------------------------

  /** The search goes on from a node of the graph that is no target, unless the manager's role is not recognised. */
  predicate Expands(q: Search, n: NodeId) {
    q.roleGaps == [] && n in q.g.nodes && n !in q.targets
  }

  /** A call towards a target. */
  ghost predicate GoesTo(q: Search, a: NodeId, b: NodeId) {
    Calls(q.g, a, b) && CanReach(q.g, q.targets, b)
  }

  /** The walks an unbounded search would explore. */
  ghost predicate Explored(q: Search, w: seq<NodeId>) {
    && w != [] && w[0] in q.seeds
    && forall i :: 0 <= i < |w| - 1 ==> Expands(q, w[i]) && GoesTo(q, w[i], w[i + 1])
  }

  /** Where a walk has come to. */
  function Tip(w: seq<NodeId>): NodeId
    requires w != []
  {
    w[|w| - 1]
  }

  /** Nothing lies beyond the walk. */
  ghost predicate Ends(q: Search, w: seq<NodeId>)
    requires w != []
  {
    !Expands(q, Tip(w)) || forall m :: !GoesTo(q, Tip(w), m)
  }

  /** An explored walk without repetition, within the depth bound. */
  ghost predicate SearchWalk(q: Search, w: seq<NodeId>) {
    Explored(q, w) && IsSimple(w) && |w| - 1 <= q.b.maxDepth
  }

  /** A walk that is answered by a path: it ends, or the depth bound is used up. */
  ghost predicate Final(q: Search, w: seq<NodeId>)
    requires w != []
  {
    Ends(q, w) || |w| - 1 == q.b.maxDepth
  }

  /** The walk goes on to a node it has already visited. */
  ghost predicate CutAt(q: Search, w: seq<NodeId>)
    requires w != []
  {
    !Final(q, w) && exists m :: GoesTo(q, Tip(w), m) && m in w
  }

  predicate Precedes(seeds: seq<NodeId>, x: NodeId, y: NodeId) {
    exists i, j :: 0 <= i < j < |seeds| && seeds[i] == x && seeds[j] == y
  }

  /** Depth-first order: at the first difference, the earlier seed or the callee with the smaller identity is first. */
  predicate LeftAt(seeds: seq<NodeId>, a: seq<NodeId>, b: seq<NodeId>, k: nat) {
    && k < |a| && k < |b| && a[..k] == b[..k]
    && if k == 0 then Precedes(seeds, a[0], b[0]) else a[k] < b[k]
  }

  ghost predicate Left(seeds: seq<NodeId>, a: seq<NodeId>, b: seq<NodeId>) {
    exists k: nat :: LeftAt(seeds, a, b, k)
  }

  lemma LeftContinues(seeds: seq<NodeId>, a: seq<NodeId>, b: seq<NodeId>, more: seq<NodeId>)
    requires Left(seeds, a, b)
    ensures Left(seeds, a + more, b) && Left(seeds, a, b + more)
  {
    var k: nat :| LeftAt(seeds, a, b, k);
    assert (a + more)[..k] == a[..k] && (b + more)[..k] == b[..k];
    assert LeftAt(seeds, a + more, b, k) && LeftAt(seeds, a, b + more, k);
  }

  lemma LeftIsApart(seeds: seq<NodeId>, a: seq<NodeId>, b: seq<NodeId>)
    requires Distinct(seeds) && Left(seeds, a, b)
    ensures Apart(a, b) && a != b
  {
    var k: nat :| LeftAt(seeds, a, b, k);
    assert a[k] != b[k];
  }

  // ---- Facts about walks ----------------------------------------------------------------------------

  lemma ReachStep(g: GraphData, targets: set<NodeId>, a: NodeId, b: NodeId)
    requires Calls(g, a, b) && CanReach(g, targets, b)
    ensures CanReach(g, targets, a)
  {
    var ids :| IsWalk(g, ids) && ids[0] == b && ids[|ids| - 1] in targets;
    var longer := [a] + ids;
    assert longer[|longer| - 1] == ids[|ids| - 1];
    assert IsWalk(g, longer);
  }

  /** A node that can reach a target and is not one itself has a callee that can. */
  lemma RelevantGoesOn(q: Search, n: NodeId)
    requires CanReach(q.g, q.targets, n) && n !in q.targets
    ensures exists m :: GoesTo(q, n, m)
  {
    var ids :| IsWalk(q.g, ids) && ids[0] == n && ids[|ids| - 1] in q.targets;
    assert Calls(q.g, ids[0], ids[1]);
    var tail := ids[1..];
    assert IsWalk(q.g, tail) by {
      forall i | 0 <= i < |tail| - 1 ensures Calls(q.g, tail[i], tail[i + 1]) {
        assert Calls(q.g, ids[i + 1], ids[i + 2]);
      }
    }
    assert CanReach(q.g, q.targets, ids[1]);
    assert GoesTo(q, n, ids[1]);
  }

  lemma ExploredIsWalk(q: Search, w: seq<NodeId>)
    requires Explored(q, w)
    ensures IsWalk(q.g, w)
  {
    forall i | 0 <= i < |w| - 1 ensures Calls(q.g, w[i], w[i + 1]) {
      assert GoesTo(q, w[i], w[i + 1]);
    }
  }

  lemma ExploredGoesOn(q: Search, w: seq<NodeId>, m: NodeId)
    requires Explored(q, w) && Expands(q, Tip(w)) && GoesTo(q, Tip(w), m)
    ensures Explored(q, w + [m])
  {
  }

  lemma ExploredBefore(q: Search, w: seq<NodeId>, k: nat)
    requires Explored(q, w) && 0 < k <= |w|
    ensures Explored(q, w[..k])
  {
  }

  /** A walk from a seed to its first target is explored. */
  lemma {:induction false} FirstTargetIsExplored(q: Search, w: seq<NodeId>)
    requires q.Valid() && q.roleGaps == [] && IsFirstTargetWalk(q.g, q.targets, w) && w[0] in q.seeds
    ensures Explored(q, w) && Ends(q, w)
  {
    forall i | 0 <= i < |w| - 1 ensures Expands(q, w[i]) && GoesTo(q, w[i], w[i + 1]) {
      assert Calls(q.g, w[i], w[i + 1]);
      var rest := w[i + 1..];
      forall j | 0 <= j < |rest| - 1 ensures Calls(q.g, rest[j], rest[j + 1]) {
        assert Calls(q.g, w[i + 1 + j], w[i + 1 + j + 1]);
      }
      assert IsWalk(q.g, rest) && rest[0] == w[i + 1] && rest[|rest| - 1] == Tip(w);
    }
  }

  lemma GoesInside(q: Search, w: seq<NodeId>, k: nat)
    requires Explored(q, w) && k + 1 < |w|
    ensures Expands(q, w[k]) && GoesTo(q, w[k], w[k + 1])
  {
  }

  /** Behind its seed a walk stays in the graph and can reach a target. */
  lemma LaterIsRelevant(q: Search, w: seq<NodeId>)
    requires q.Valid() && Explored(q, w) && |w| > 1
    ensures Tip(w) in q.g.nodes && CanReach(q.g, q.targets, Tip(w))
  {
    assert GoesTo(q, w[|w| - 2], w[|w| - 2 + 1]);
  }

  /** A node from which the search goes on can reach a target exactly when it calls one that can. */
  lemma ReachesByCall(q: Search, n: NodeId)
    requires q.Valid() && n !in q.targets
    ensures CanReach(q.g, q.targets, n) <==> exists m :: GoesTo(q, n, m)
  {
    if CanReach(q.g, q.targets, n) {
      RelevantGoesOn(q, n);
    }
    if m :| GoesTo(q, n, m) {
      ReachStep(q.g, q.targets, n, m);
    }
  }

  // ---- States and paths -----------------------------------------------------------------------------

  ghost predicate SoundState(q: Search, s: State) {
    IsSound(q.g, q.targets, q.seeds, q.b, s.ids, s.calls) && Explored(q, s.ids)
  }

  function PathGaps(problems: seq<Gap>, matched: set<Gap>): set<Gap> {
    (set g | g in problems) + matched
  }

  ghost function BodyGaps(q: Search, ids: seq<NodeId>): (gaps: set<Gap>)
    ensures q.Valid() ==> forall g :: g in gaps ==> g.BodyGap?
  {
    q.body(ids)
  }

  /** A path answers its walk: it names the role gaps, a seed outside the graph, a seed that reaches no target, or the
      depth bound, and nothing exactly when it reaches an operation. */
  ghost predicate Answers(q: Search, p: OverlayPath)
    requires p.ids != []
  {
    var last := Tip(p.ids);
    && (forall g :: g in p.problems && IsRoleGap(g) <==> g in q.roleGaps)
    && (MissingSeed in p.problems <==> last !in q.g.nodes)
    && (MissingOperationCall in p.problems <==> Expands(q, last) && !CanReach(q.g, q.targets, last))
    && (DepthLimit in p.problems <==> Expands(q, last) && CanReach(q.g, q.targets, last))
    && (DepthLimit in p.problems ==> |p.calls| == q.b.maxDepth)
    && (Operates(p) <==> q.roleGaps == [] && last in q.targets)
    && (forall g :: g in p.problems ==> IsRoleGap(g) || g in {MissingSeed, MissingOperationCall, DepthLimit})
    && p.gaps == PathGaps(p.problems, if Operates(p) then BodyGaps(q, p.ids) else {})
  }

  ghost predicate SoundPath(q: Search, p: OverlayPath) {
    && IsSound(q.g, q.targets, q.seeds, q.b, p.ids, p.calls)
    && Explored(q, p.ids) && Final(q, p.ids) && Answers(q, p)
  }

  ghost predicate Listed(paths: seq<OverlayPath>, w: seq<NodeId>) {
    exists i :: 0 <= i < |paths| && paths[i].ids == w
  }

  /** The stack from its top on, behind everything returned, in depth-first order. */
  ghost predicate AllOrdered(seeds: seq<NodeId>, stack: seq<State>, paths: seq<OverlayPath>) {
    && (forall i, j :: 0 <= i < j < |stack| ==> Left(seeds, stack[j].ids, stack[i].ids))
    && (forall i, j :: 0 <= i < j < |paths| ==> Left(seeds, paths[i].ids, paths[j].ids))
    && (forall i, j :: 0 <= i < |stack| && 0 <= j < |paths| ==> Left(seeds, paths[j].ids, stack[i].ids))
  }

  ghost predicate Waits(stack: seq<State>, w: seq<NodeId>) {
    exists i :: 0 <= i < |stack| && stack[i].ids <= w
  }

  /** `taken` are the walks popped so far: each final one has its path, and every other search walk still waits. */
  ghost predicate Booked(q: Search, stack: seq<State>, paths: seq<OverlayPath>, taken: set<seq<NodeId>>) {
    && (forall w :: w in taken ==> SearchWalk(q, w))
    && (forall i :: 0 <= i < |paths| ==> paths[i].ids in taken)
    && (forall w :: w in taken && Final(q, w) ==> Listed(paths, w))
    && (forall w :: SearchWalk(q, w) ==> w in taken || Waits(stack, w))
  }

  /** Nothing is taken twice. */
  ghost predicate Untaken(stack: seq<State>, taken: set<seq<NodeId>>) {
    forall w, i :: w in taken && 0 <= i < |stack| ==> !(stack[i].ids <= w)
  }

  ghost predicate LegInv(q: Search, stack: seq<State>, paths: seq<OverlayPath>, taken: set<seq<NodeId>>) {
    && q.Valid()
    && (forall i :: 0 <= i < |stack| ==> SoundState(q, stack[i]))
    && (forall i :: 0 <= i < |paths| ==> SoundPath(q, paths[i]))
    && Booked(q, stack, paths, taken)
    && (Distinct(q.seeds) ==> AllOrdered(q.seeds, stack, paths) && Untaken(stack, taken))
  }

  function SeedStack(seeds: seq<NodeId>): (stack: seq<State>)
    ensures |stack| == |seeds| && forall i :: 0 <= i < |seeds| ==> stack[i] == State([seeds[|seeds| - 1 - i]], [])
  {
    seq(|seeds|, i requires 0 <= i < |seeds| => State([seeds[|seeds| - 1 - i]], []))
  }

  lemma SeedsHold(q: Search)
    requires q.Valid()
    ensures LegInv(q, SeedStack(q.seeds), [], {})
  {
    var stack, n := SeedStack(q.seeds), |q.seeds|;
    forall i | 0 <= i < |stack| ensures SoundState(q, stack[i]) {
      assert EdgesAlong(stack[i].ids) == [];
    }
    forall w | SearchWalk(q, w) ensures Waits(stack, w) {
      var k :| 0 <= k < n && q.seeds[k] == w[0];
      assert stack[n - 1 - k].ids <= w;
    }
    forall i, j | 0 <= i < j < |stack| ensures Left(q.seeds, stack[j].ids, stack[i].ids) {
      assert q.seeds[n - 1 - j] == stack[j].ids[0] && q.seeds[n - 1 - i] == stack[i].ids[0];
      assert LeftAt(q.seeds, stack[j].ids, stack[i].ids, 0);
    }
  }

  // ---- One popped state becomes a path --------------------------------------------------------------

  lemma ReturnKeepsOrder(seeds: seq<NodeId>, rest: seq<State>, s: State, paths: seq<OverlayPath>, p: OverlayPath)
    requires AllOrdered(seeds, rest + [s], paths) && p.ids == s.ids
    ensures AllOrdered(seeds, rest, paths + [p])
  {
    var all := rest + [s];
    assert all[|rest|] == s && forall i :: 0 <= i < |rest| ==> all[i] == rest[i];
    hide Left;
  }

  lemma RestIsUntaken(seeds: seq<NodeId>, rest: seq<State>, s: State, paths: seq<OverlayPath>, taken: set<seq<NodeId>>)
    requires Distinct(seeds) && AllOrdered(seeds, rest + [s], paths) && Untaken(rest + [s], taken)
    ensures Untaken(rest, taken + {s.ids}) && s.ids !in taken
  {
    var all := rest + [s];
    assert all[|rest|] == s && forall i :: 0 <= i < |rest| ==> all[i] == rest[i];
    forall i | 0 <= i < |rest| ensures !(rest[i].ids <= s.ids) {
      LeftIsApart(seeds, s.ids, rest[i].ids);
    }
    assert s.ids <= s.ids;
  }

  lemma ReturnKeepsBooks(q: Search, rest: seq<State>, s: State, paths: seq<OverlayPath>, taken: set<seq<NodeId>>,
                         p: OverlayPath)
    requires Booked(q, rest + [s], paths, taken) && SoundState(q, s) && p.ids == s.ids && Final(q, s.ids)
    ensures Booked(q, rest, paths + [p], taken + {s.ids})
  {
    assert SearchWalk(q, s.ids);
    hide Final, SearchWalk;
    forall w | w in taken + {s.ids} && w != [] && Final(q, w) ensures Listed(paths + [p], w) {
      if w == s.ids {
        assert (paths + [p])[|paths|].ids == w;
      } else {
        var i :| 0 <= i < |paths| && paths[i].ids == w;
        assert (paths + [p])[i].ids == w;
      }
    }
    forall w | SearchWalk(q, w) && w !in taken && w != s.ids ensures Waits(rest, w) {
      var i :| 0 <= i < |rest + [s]| && (rest + [s])[i].ids <= w;
      if i == |rest| {
        NothingBeyond(q, s, w);
      }
      assert rest[i].ids <= w;
    }
  }

  /** No search walk continues a final one. */
  lemma NothingBeyond(q: Search, s: State, w: seq<NodeId>)
    requires SearchWalk(q, w) && s.ids != [] && s.ids <= w && Final(q, s.ids)
    ensures w == s.ids
  {
    if |s.ids| < |w| {
      GoesInside(q, w, |s.ids| - 1);
    }
  }

  lemma ReturnKeeps(q: Search, rest: seq<State>, s: State, paths: seq<OverlayPath>, taken: set<seq<NodeId>>,
                    p: OverlayPath)
    requires LegInv(q, rest + [s], paths, taken) && p.ids == s.ids && SoundPath(q, p)
    ensures LegInv(q, rest, paths + [p], taken + {s.ids})
  {
    assert (rest + [s])[|rest|] == s && forall i :: 0 <= i < |rest| ==> (rest + [s])[i] == rest[i];
    hide SoundPath, Booked, AllOrdered, Untaken;
    assert s.ids != [] && Final(q, s.ids) by {
      assert SoundPath(q, p);
      FinalPath(q, p);
    }
    ReturnKeepsBooks(q, rest, s, paths, taken, p);
    if Distinct(q.seeds) {
      ReturnKeepsOrder(q.seeds, rest, s, paths, p);
      RestIsUntaken(q.seeds, rest, s, paths, taken);
    }
  }

  lemma FinalPath(q: Search, p: OverlayPath)
    requires SoundPath(q, p)
    ensures p.ids != [] && Final(q, p.ids)
  {
  }

  // ---- One popped state is continued ----------------------------------------------------------------

  /** The children of a state, one per listed callee that does not close a cycle, the first callee last. */
  ghost predicate AreChildren(s: State, callees: seq<NodeId>, children: seq<State>, cut: bool) {
    && (forall i :: 0 <= i < |children| ==> Extends(s, callees, children[i]))
    && (forall i, j :: 0 <= i < j < |children| ==> LastOf(children[j]) < LastOf(children[i]))
    && (forall n :: n in callees && n !in s.ids ==> Child(s, n) in children)
    && (cut <==> exists n :: n in callees && n in s.ids)
  }

  function LastOf(s: State): NodeId {
    if s.ids == [] then 0 else s.ids[|s.ids| - 1]
  }

  /** The state goes on to one of the callees without closing a cycle. */
  predicate Extends(s: State, callees: seq<NodeId>, child: State) {
    exists n :: n in callees && n !in s.ids && child == Child(s, n)
  }

  function Child(s: State, n: NodeId): State {
    State(s.ids + [n], if s.ids == [] then s.calls else s.calls + [EdgeIdentity(Tip(s.ids), n, Call)])
  }

  lemma ChildIsSound(q: Search, s: State, n: NodeId)
    requires SoundState(q, s) && Expands(q, Tip(s.ids)) && |s.calls| < q.b.maxDepth
    requires GoesTo(q, Tip(s.ids), n) && n !in s.ids
    ensures SoundState(q, Child(s, n))
  {
    var ids := s.ids + [n];
    assert |s.calls| == |s.ids| - 1;
    ExploredGoesOn(q, s.ids, n);
    ExploredIsWalk(q, ids);
    assert IsSimple(ids);
    assert EdgesAlong(ids) == s.calls + [EdgeIdentity(Tip(s.ids), n, Call)] by {
      assert forall i :: 0 <= i < |s.ids| ==> ids[i] == s.ids[i];
    }
    hide IsWalk, IsSimple, EdgesAlong, Explored, GoesTo, CanReach;
  }

  lemma ChildrenKeepOrder(seeds: seq<NodeId>, rest: seq<State>, s: State, paths: seq<OverlayPath>, callees: seq<NodeId>,
                          children: seq<State>, cut: bool)
    requires AllOrdered(seeds, rest + [s], paths) && AreChildren(s, callees, children, cut) && s.ids != []
    ensures AllOrdered(seeds, rest + children, paths)
  {
    var all, next := rest + [s], rest + children;
    assert all[|rest|] == s && forall i :: 0 <= i < |rest| ==> all[i] == rest[i];
    forall i | 0 <= i < |children|
      ensures children[i].ids == s.ids + [LastOf(children[i])]
    {
      assert Extends(s, callees, children[i]);
    }
    forall i, j | 0 <= i < j < |next| ensures Left(seeds, next[j].ids, next[i].ids) {
      if j >= |rest| && i < |rest| {
        LeftContinues(seeds, s.ids, rest[i].ids, [LastOf(next[j])]);
      } else if i >= |rest| {
        var a, b := children[j - |rest|], children[i - |rest|];
        assert a.ids[..|s.ids|] == b.ids[..|s.ids|];
        assert LeftAt(seeds, a.ids, b.ids, |s.ids|);
      }
    }
    forall i, j | 0 <= i < |next| && 0 <= j < |paths| ensures Left(seeds, paths[j].ids, next[i].ids) {
      if i >= |rest| {
        LeftContinues(seeds, paths[j].ids, s.ids, [LastOf(next[i])]);
      }
    }
  }

  lemma ChildrenAreUntaken(rest: seq<State>, s: State, taken: set<seq<NodeId>>, callees: seq<NodeId>,
                           children: seq<State>, cut: bool)
    requires Untaken(rest + [s], taken) && Untaken(rest, taken + {s.ids}) && AreChildren(s, callees, children, cut)
    ensures Untaken(rest + children, taken + {s.ids})
  {
    assert (rest + [s])[|rest|] == s;
    forall i, w | 0 <= i < |children| && w in taken + {s.ids} ensures !(children[i].ids <= w) {
      assert Extends(s, callees, children[i]);
      assert s.ids <= children[i].ids && |children[i].ids| > |s.ids|;
      if children[i].ids <= w {
        PrefixOfPrefix(s.ids, children[i].ids, w);
      }
    }
  }

  lemma PrefixOfPrefix(a: seq<NodeId>, b: seq<NodeId>, c: seq<NodeId>)
    requires a <= b <= c
    ensures a <= c
  {
  }

  lemma StateIsWalk(q: Search, s: State)
    requires SoundState(q, s)
    ensures s.ids != [] && |s.calls| == |s.ids| - 1 && SearchWalk(q, s.ids)
  {
  }

  lemma ChildrenKeepBooks(q: Search, rest: seq<State>, s: State, paths: seq<OverlayPath>, taken: set<seq<NodeId>>,
                          callees: seq<NodeId>, children: seq<State>, cut: bool)
    requires Booked(q, rest + [s], paths, taken) && SoundState(q, s) && !Final(q, s.ids)
    requires AreChildren(s, callees, children, cut) && forall n :: n in callees <==> GoesTo(q, Tip(s.ids), n)
    ensures Booked(q, rest + children, paths, taken + {s.ids})
  {
    hide SearchWalk, Waits, AreChildren, SoundState, Listed;
    StateIsWalk(q, s);
    forall w | SearchWalk(q, w) && w !in taken && w != s.ids ensures Waits(rest + children, w) {
      StillWaits(q, rest, s, callees, children, cut, w);
    }
    hide Final;
  }

  lemma StillWaits(q: Search, rest: seq<State>, s: State, callees: seq<NodeId>, children: seq<State>, cut: bool,
                   w: seq<NodeId>)
    requires Waits(rest + [s], w) && SearchWalk(q, w) && w != s.ids && SoundState(q, s)
    requires AreChildren(s, callees, children, cut) && forall n :: n in callees <==> GoesTo(q, Tip(s.ids), n)
    ensures Waits(rest + children, w)
  {
    hide AreChildren, SearchWalk, SoundState;
    var i :| 0 <= i < |rest + [s]| && (rest + [s])[i].ids <= w;
    if i < |rest| {
      assert (rest + children)[i].ids <= w;
    } else {
      var j := ChildWaits(q, s, callees, children, cut, w);
      assert (rest + children)[|rest| + j].ids <= w;
    }
  }

  lemma ChildWaits(q: Search, s: State, callees: seq<NodeId>, children: seq<State>, cut: bool, w: seq<NodeId>)
    returns (j: nat)
    requires SoundState(q, s) && SearchWalk(q, w) && s.ids <= w && w != s.ids
    requires AreChildren(s, callees, children, cut) && forall n :: n in callees <==> GoesTo(q, Tip(s.ids), n)
    ensures j < |children| && children[j].ids <= w
  {
    var n := w[|s.ids|];
    assert w[|s.ids| - 1] == Tip(s.ids) && GoesTo(q, w[|s.ids| - 1], w[|s.ids| - 1 + 1]);
    assert n !in s.ids by {
      assert forall k :: 0 <= k < |s.ids| ==> s.ids[k] == w[k];
    }
    j :| 0 <= j < |children| && children[j] == Child(s, n);
  }

  /** A state with callees to follow is not final, and it is cut exactly when one of them closes a cycle. */
  lemma NotFinal(q: Search, s: State, callees: seq<NodeId>)
    requires SoundState(q, s) && s.ids != [] && Expands(q, Tip(s.ids)) && |s.calls| < q.b.maxDepth
    requires callees != [] && forall n :: n in callees <==> GoesTo(q, Tip(s.ids), n)
    ensures !Final(q, s.ids)
    ensures CutAt(q, s.ids) <==> exists n :: n in callees && n in s.ids
  {
    assert |s.calls| == |s.ids| - 1;
    assert GoesTo(q, Tip(s.ids), callees[0]);
  }

  lemma ChildrenAreSound(q: Search, s: State, callees: seq<NodeId>, children: seq<State>, cut: bool)
    requires SoundState(q, s) && Expands(q, Tip(s.ids)) && |s.calls| < q.b.maxDepth
    requires AreChildren(s, callees, children, cut) && forall n :: n in callees <==> GoesTo(q, Tip(s.ids), n)
    ensures forall i :: 0 <= i < |children| ==> SoundState(q, children[i])
  {
    forall i | 0 <= i < |children| ensures SoundState(q, children[i]) {
      assert Extends(s, callees, children[i]);
      var n :| n in callees && n !in s.ids && children[i] == Child(s, n);
      ChildIsSound(q, s, n);
    }
  }

  lemma PushKeeps(q: Search, rest: seq<State>, s: State, paths: seq<OverlayPath>, taken: set<seq<NodeId>>,
                  callees: seq<NodeId>, children: seq<State>, cut: bool)
    requires LegInv(q, rest + [s], paths, taken) && s.ids != [] && Expands(q, Tip(s.ids)) && |s.calls| < q.b.maxDepth
    requires callees != [] && AreChildren(s, callees, children, cut)
    requires forall n :: n in callees <==> GoesTo(q, Tip(s.ids), n)
    ensures LegInv(q, rest + children, paths, taken + {s.ids}) && !Final(q, s.ids)
    ensures cut <==> CutAt(q, s.ids)
  {
    hide Booked, AllOrdered, Untaken, SoundState, SoundPath, Final, CutAt, GoesTo, Expands, Extends, Child, LastOf;
    SoundBelow(q, rest, s);
    NotFinal(q, s, callees);
    assert cut <==> exists n :: n in callees && n in s.ids;
    ChildrenAreSound(q, s, callees, children, cut);
    ChildrenKeepBooks(q, rest, s, paths, taken, callees, children, cut);
    if Distinct(q.seeds) {
      ChildrenKeepOrder(q.seeds, rest, s, paths, callees, children, cut);
      RestIsUntaken(q.seeds, rest, s, paths, taken);
      ChildrenAreUntaken(rest, s, taken, callees, children, cut);
    }
    hide AreChildren, Distinct;
  }

  lemma SoundBelow(q: Search, rest: seq<State>, s: State)
    requires forall i :: 0 <= i < |rest + [s]| ==> SoundState(q, (rest + [s])[i])
    ensures SoundState(q, s) && forall i :: 0 <= i < |rest| ==> SoundState(q, rest[i])
  {
    hide SoundState;
    assert (rest + [s])[|rest|] == s && forall i :: 0 <= i < |rest| ==> (rest + [s])[i] == rest[i];
  }

  lemma TopIsSound(q: Search, rest: seq<State>, s: State, paths: seq<OverlayPath>, taken: set<seq<NodeId>>)
    requires LegInv(q, rest + [s], paths, taken)
    ensures q.Valid() && SoundState(q, s) && s.ids != [] && SearchWalk(q, s.ids)
    ensures |s.calls| == |s.ids| - 1 <= q.b.maxDepth
    ensures Distinct(q.seeds) ==> s.ids !in taken
  {
    assert (rest + [s])[|rest|] == s && s.ids <= s.ids;
  }
}
