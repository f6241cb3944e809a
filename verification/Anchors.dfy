/** From the hunks of a change to the edited line ranges on both sides. */
module Anchors {
  import opened Prelude
  import opened TextLines
  import opened Diff

  /** One run of edited lines: what it covers on the old and on the new side. */
  datatype Block = Block(before: LineRange, after: LineRange)

  datatype Side = Old | New

  datatype Anchor = Anchor(file: nat, hunk: Option<nat>, block: Option<nat>, side: Side, path: Option<string>,
                           kind: ChangeKind, range: Option<LineRange>)

  /** The block that was open, if any, ends here. */
  function Closed(o: nat, n: nat, open: Option<(nat, nat)>): seq<Block> {
    match open case Some((a, b)) => [Block(LineRange(a, o), LineRange(b, n))] case None => []
  }

  /** The blocks of the lines from old line `o` and new line `n` on; `open` is where an unfinished block began. */
  function Blocks(lines: seq<DiffLine>, o: nat, n: nat, open: Option<(nat, nat)>): seq<Block>
    requires open.Some? ==> open.value.0 <= o && open.value.1 <= n
  {
    var closed := Closed(o, n, open);
    if lines == [] then closed
    else match lines[0].kind
      case NoNewline => Blocks(lines[1..], o, n, open)
      case Context => closed + Blocks(lines[1..], o + 1, n + 1, None)
      case Delete => Blocks(lines[1..], o + 1, n, Some(if open.Some? then open.value else (o, n)))
      case Add => Blocks(lines[1..], o, n + 1, Some(if open.Some? then open.value else (o, n)))
  }

  function HunkBlocks(h: Hunk): seq<Block> {
    Blocks(h.lines, h.before.start, h.after.start, None)
  }

  // ---- The anchors ----------------------------------------------------------------------------------

  function BlockAnchors(file: nat, f: FileChange, hunk: nat, block: nat, b: Block): seq<Anchor> {
    [Anchor(file, Some(hunk), Some(block), Old, f.oldPath, f.kind, Some(b.before)),
     Anchor(file, Some(hunk), Some(block), New, f.newPath, f.kind, Some(b.after))]
  }

  function HunkAnchors(file: nat, f: FileChange, hunk: nat, blocks: seq<Block>): seq<Anchor> {
    if blocks == [] then []
    else HunkAnchors(file, f, hunk, blocks[..|blocks| - 1]) +
         BlockAnchors(file, f, hunk, |blocks| - 1, blocks[|blocks| - 1])
  }

  function HunksAnchors(file: nat, f: FileChange, k: nat): seq<Anchor>
    requires k <= |f.hunks|
  {
    if k == 0 then [] else HunksAnchors(file, f, k - 1) + HunkAnchors(file, f, k - 1, HunkBlocks(f.hunks[k - 1]))
  }

  /** A file without edited lines still leaves one anchor per side. */
  function FileAnchors(file: nat, f: FileChange): seq<Anchor> {
    var anchors := HunksAnchors(file, f, |f.hunks|);
    if anchors != [] then anchors
    else [Anchor(file, None, None, Old, f.oldPath, f.kind, None),
          Anchor(file, None, None, New, f.newPath, f.kind, None)]
  }

  function ChangeAnchors(files: seq<FileChange>): seq<Anchor> {
    if files == [] then []
    else ChangeAnchors(files[..|files| - 1]) + FileAnchors(|files| - 1, files[|files| - 1])
  }

  /** `changed_anchors`: one pass over the lines with two line cursors. */
  method ChangedAnchors(files: seq<FileChange>) returns (anchors: seq<Anchor>)
    ensures anchors == ChangeAnchors(files)
  {
    anchors := [];
    for fi := 0 to |files|
      invariant anchors == ChangeAnchors(files[..fi])
    {
      var file := files[fi];
      var mine: seq<Anchor> := [];
      for hi := 0 to |file.hunks|
        invariant mine == HunksAnchors(fi, file, hi)
      {
        var more := EditBlocks(fi, file, hi);
        mine := mine + more;
      }
      if mine == [] {
        mine := [Anchor(fi, None, None, Old, file.oldPath, file.kind, None),
                 Anchor(fi, None, None, New, file.newPath, file.kind, None)];
      }
      assert files[..fi + 1][..fi] == files[..fi];
      anchors := anchors + mine;
    }
    assert files[..|files|] == files;
  }

  method EditBlocks(fi: nat, file: FileChange, hi: nat) returns (anchors: seq<Anchor>)
    requires hi < |file.hunks|
    ensures anchors == HunkAnchors(fi, file, hi, HunkBlocks(file.hunks[hi]))
  {
    var hunk := file.hunks[hi];
    var o, n := hunk.before.start, hunk.after.start;
    var open: Option<(nat, nat)> := None;
    var block := 0;
    anchors := [];
    ghost var all := HunkBlocks(hunk);
    for i := 0 to |hunk.lines| + 1
      invariant open.Some? ==> open.value.0 <= o && open.value.1 <= n
      invariant block <= |all| && anchors == HunkAnchors(fi, file, hi, all[..block])
      invariant i <= |hunk.lines| ==> all[block..] == Blocks(hunk.lines[i..], o, n, open)
      invariant i > |hunk.lines| ==> block == |all|
    {
      hide Blocks, HunkAnchors, BlockAnchors;
      NextLine(hunk.lines, i, o, n, open);
      if i == |hunk.lines| || hunk.lines[i].kind.Context? {
        if open.Some? {
          var b := Block(LineRange(open.value.0, o), LineRange(open.value.1, n));
          TakeBlock(fi, file, hi, all, block, b,
                    if i < |hunk.lines| then Blocks(hunk.lines[i + 1..], o + 1, n + 1, None) else []);
          anchors := anchors + BlockAnchors(fi, file, hi, block, b);
          block := block + 1;
          open := None;
        }
        if i < |hunk.lines| {
          o, n := o + 1, n + 1;
        }
      } else if !hunk.lines[i].kind.NoNewline? {
        if open.None? {
          open := Some((o, n));
        }
        o := if hunk.lines[i].kind.Delete? then o + 1 else o;
        n := if hunk.lines[i].kind.Add? then n + 1 else n;
      }
    }
    assert all[..|all|] == all;
  }

  /** What the next line does to the blocks still to come. */
  lemma NextLine(lines: seq<DiffLine>, i: nat, o: nat, n: nat, open: Option<(nat, nat)>)
    requires i <= |lines| && (open.Some? ==> open.value.0 <= o && open.value.1 <= n)
    ensures i == |lines| ==> Blocks(lines[i..], o, n, open) == Closed(o, n, open)
    ensures i < |lines| && lines[i].kind.NoNewline? ==>
              Blocks(lines[i..], o, n, open) == Blocks(lines[i + 1..], o, n, open)
    ensures i < |lines| && lines[i].kind.Context? ==>
              Blocks(lines[i..], o, n, open) == Closed(o, n, open) + Blocks(lines[i + 1..], o + 1, n + 1, None)
    ensures i < |lines| && lines[i].kind.Delete? ==>
              Blocks(lines[i..], o, n, open) == Blocks(lines[i + 1..], o + 1, n,
                                                       Some(if open.Some? then open.value else (o, n)))
    ensures i < |lines| && lines[i].kind.Add? ==>
              Blocks(lines[i..], o, n, open) == Blocks(lines[i + 1..], o, n + 1,
                                                       Some(if open.Some? then open.value else (o, n)))
  {
    if i < |lines| {
      assert lines[i..][1..] == lines[i + 1..];
    }
  }

  /** Taking the first of the blocks still to come. */
  lemma TakeBlock(fi: nat, file: FileChange, hi: nat, all: seq<Block>, block: nat, b: Block, more: seq<Block>)
    requires block <= |all| && all[block..] == [b] + more
    ensures block < |all| && all[block + 1..] == more
    ensures HunkAnchors(fi, file, hi, all[..block + 1]) == HunkAnchors(fi, file, hi, all[..block]) +
              BlockAnchors(fi, file, hi, block, b)
  {
    assert all[block] == all[block..][0] == b;
    assert all[..block + 1][..block] == all[..block];
    assert all[block + 1..] == all[block..][1..] == more;
  }

  // ---- Which anchors there are ----------------------------------------------------------------------

  /** The anchor names this block of this hunk on its own side, with the side's path and range. */
  predicate NamesBlock(a: Anchor, f: FileChange, file: nat, hunk: nat, block: nat) {
    && hunk < |f.hunks| && block < |HunkBlocks(f.hunks[hunk])|
    && var b := HunkBlocks(f.hunks[hunk])[block];
    && a.file == file && a.hunk == Some(hunk) && a.block == Some(block) && a.kind == f.kind
    && a.path == (if a.side.Old? then f.oldPath else f.newPath)
    && a.range == Some(if a.side.Old? then b.before else b.after)
  }

  /** The anchor stands for a side of a file in which no hunk edits a line. */
  predicate NamesFile(a: Anchor, f: FileChange, file: nat) {
    && (forall h :: 0 <= h < |f.hunks| ==> HunkBlocks(f.hunks[h]) == [])
    && a == Anchor(file, None, None, a.side, if a.side.Old? then f.oldPath else f.newPath, f.kind, None)
  }

  lemma {:induction false} AnchorsOfHunk(file: nat, f: FileChange, hunk: nat, blocks: seq<Block>, a: Anchor)
    requires hunk < |f.hunks| && blocks <= HunkBlocks(f.hunks[hunk])
    ensures a in HunkAnchors(file, f, hunk, blocks) <==>
              exists k :: 0 <= k < |blocks| && NamesBlock(a, f, file, hunk, k)
    decreases |blocks|
  {
    hide HunkBlocks;
    if blocks != [] {
      var last := |blocks| - 1;
      AnchorsOfHunk(file, f, hunk, blocks[..last], a);
      assert blocks[last] == HunkBlocks(f.hunks[hunk])[last];
      assert a in BlockAnchors(file, f, hunk, last, blocks[last]) <==> NamesBlock(a, f, file, hunk, last);
    }
  }

  lemma {:induction false} AnchorsOfHunks(file: nat, f: FileChange, n: nat, a: Anchor)
    requires n <= |f.hunks|
    ensures a in HunksAnchors(file, f, n) <==> exists h, k :: 0 <= h < n && 0 <= k && NamesBlock(a, f, file, h, k)
    ensures HunksAnchors(file, f, n) == [] <==> forall h :: 0 <= h < n ==> HunkBlocks(f.hunks[h]) == []
  {
    hide HunkBlocks;
    if n > 0 {
      AnchorsOfHunks(file, f, n - 1, a);
      AnchorsOfHunk(file, f, n - 1, HunkBlocks(f.hunks[n - 1]), a);
      assert a in HunksAnchors(file, f, n) <==>
        a in HunksAnchors(file, f, n - 1) || a in HunkAnchors(file, f, n - 1, HunkBlocks(f.hunks[n - 1]));
    }
  }

  /** The anchor stands for a side of some block of the file, or of the file as a whole. */
  ghost predicate NamesIn(a: Anchor, f: FileChange, file: nat) {
    (exists h, k :: 0 <= h && 0 <= k && NamesBlock(a, f, file, h, k)) || NamesFile(a, f, file)
  }

  lemma AnchorsOfFile(file: nat, f: FileChange, a: Anchor)
    ensures a in FileAnchors(file, f) <==> NamesIn(a, f, file)
  {
    hide HunkBlocks;
    AnchorsOfHunks(file, f, |f.hunks|, a);
    hide HunksAnchors;
  }

  /** The anchors of a change are exactly both sides of every block, and both sides of every file without one. */
  lemma {:induction false} AnchorsOfChange(files: seq<FileChange>, a: Anchor)
    ensures a in ChangeAnchors(files) <==> exists i :: 0 <= i < |files| && NamesIn(a, files[i], i)
    decreases |files|
  {
    hide NamesIn, FileAnchors;
    if files != [] {
      var last := |files| - 1;
      AnchorsOfChange(files[..last], a);
      AnchorsOfFile(last, files[last], a);
      assert a in ChangeAnchors(files) <==> a in ChangeAnchors(files[..last]) || a in FileAnchors(last, files[last]);
      assert forall i :: 0 <= i < last ==> files[..last][i] == files[i];
    }
  }

  // ---- Where the blocks are -------------------------------------------------------------------------

  predicate Within(r: LineRange, line: nat) {
    r.start <= line < r.end
  }

  /** The line that `lines[k]` has on the old side. */
  function OldLineOf(lines: seq<DiffLine>, o: nat, k: nat): nat
    requires k <= |lines|
  {
    o + OldCount(lines[..k])
  }

  function NewLineOf(lines: seq<DiffLine>, n: nat, k: nat): nat
    requires k <= |lines|
  {
    n + NewCount(lines[..k])
  }

  predicate DeletesAt(lines: seq<DiffLine>, o: nat, line: nat, k: nat) {
    k < |lines| && lines[k].kind.Delete? && OldLineOf(lines, o, k) == line
  }

  predicate AddsAt(lines: seq<DiffLine>, n: nat, line: nat, k: nat) {
    k < |lines| && lines[k].kind.Add? && NewLineOf(lines, n, k) == line
  }

  /** Some line of the hunk deletes the given old line. */
  predicate Deletes(lines: seq<DiffLine>, o: nat, line: nat) {
    exists k :: 0 <= k < |lines| && DeletesAt(lines, o, line, k)
  }

  predicate Adds(lines: seq<DiffLine>, n: nat, line: nat) {
    exists k :: 0 <= k < |lines| && AddsAt(lines, n, line, k)
  }

  predicate CoveredBefore(blocks: seq<Block>, line: nat) {
    exists i :: 0 <= i < |blocks| && Within(blocks[i].before, line)
  }

  predicate CoveredAfter(blocks: seq<Block>, line: nat) {
    exists i :: 0 <= i < |blocks| && Within(blocks[i].after, line)
  }

  /** What the first line adds to the deleted and added lines of the rest. */
  lemma FirstLine(lines: seq<DiffLine>, o: nat, n: nat, line: nat)
    requires lines != []
    ensures var o' := if lines[0].kind.OnOld() then o + 1 else o;
            Deletes(lines, o, line) <==> (lines[0].kind.Delete? && line == o) || Deletes(lines[1..], o', line)
    ensures var n' := if lines[0].kind.OnNew() then n + 1 else n;
            Adds(lines, n, line) <==> (lines[0].kind.Add? && line == n) || Adds(lines[1..], n', line)
  {
    var rest := lines[1..];
    var o', n' := if lines[0].kind.OnOld() then o + 1 else o, if lines[0].kind.OnNew() then n + 1 else n;
    forall k | 0 <= k <= |rest|
      ensures OldLineOf(lines, o, k + 1) == OldLineOf(rest, o', k) &&
              NewLineOf(lines, n, k + 1) == NewLineOf(rest, n', k)
    {
      assert lines[..k + 1][1..] == rest[..k];
    }
    assert lines[..0] == [];
    assert OldLineOf(lines, o, 0) == o && NewLineOf(lines, n, 0) == n;
    if Deletes(lines, o, line) {
      var k :| 0 <= k < |lines| && DeletesAt(lines, o, line, k);
      assert k > 0 ==> DeletesAt(rest, o', line, k - 1);
    }
    if Deletes(rest, o', line) {
      var k :| 0 <= k < |rest| && DeletesAt(rest, o', line, k);
      assert DeletesAt(lines, o, line, k + 1);
    }
    if Adds(lines, n, line) {
      var k :| 0 <= k < |lines| && AddsAt(lines, n, line, k);
      assert k > 0 ==> AddsAt(rest, n', line, k - 1);
    }
    if Adds(rest, n', line) {
      var k :| 0 <= k < |rest| && AddsAt(rest, n', line, k);
      assert AddsAt(lines, n, line, k + 1);
    }
    assert lines[0].kind.Delete? && line == o ==> DeletesAt(lines, o, line, 0);
    assert lines[0].kind.Add? && line == n ==> AddsAt(lines, n, line, 0);
  }

  /** Old ranges cover the deleted lines, new ranges the added ones, and nothing else. */
  lemma {:induction false} CoverageFrom(lines: seq<DiffLine>, o: nat, n: nat, open: Option<(nat, nat)>, line: nat)
    requires open.Some? ==> open.value.0 <= o && open.value.1 <= n
    ensures CoveredBefore(Blocks(lines, o, n, open), line) <==>
            (open.Some? && open.value.0 <= line < o) || Deletes(lines, o, line)
    ensures CoveredAfter(Blocks(lines, o, n, open), line) <==>
            (open.Some? && open.value.1 <= line < n) || Adds(lines, n, line)
    decreases |lines|
  {
    if lines != [] {
      FirstLine(lines, o, n, line);
      var rest := lines[1..];
      var start := Some(if open.Some? then open.value else (o, n));
      match lines[0].kind
      case NoNewline => CoverageFrom(rest, o, n, open, line);
      case Context =>
        CoverageFrom(rest, o + 1, n + 1, None, line);
        if open.Some? {
          CoveredFirst(Block(LineRange(open.value.0, o), LineRange(open.value.1, n)), Blocks(rest, o + 1, n + 1, None),
                       line);
        } else {
          assert [] + Blocks(rest, o + 1, n + 1, None) == Blocks(rest, o + 1, n + 1, None);
        }
      case Delete => CoverageFrom(rest, o + 1, n, start, line);
      case Add => CoverageFrom(rest, o, n + 1, start, line);
    } else if open.Some? {
      CoveredFirst(Block(LineRange(open.value.0, o), LineRange(open.value.1, n)), [], line);
      assert Blocks(lines, o, n, open) == [Block(LineRange(open.value.0, o), LineRange(open.value.1, n))] + [];
    }
  }

  lemma CoveredFirst(b: Block, rest: seq<Block>, line: nat)
    ensures CoveredBefore([b] + rest, line) <==> Within(b.before, line) || CoveredBefore(rest, line)
    ensures CoveredAfter([b] + rest, line) <==> Within(b.after, line) || CoveredAfter(rest, line)
  {
    var all := [b] + rest;
    assert all[0] == b && forall i :: 0 <= i < |rest| ==> all[i + 1] == rest[i];
    if CoveredBefore(rest, line) {
      var i :| 0 <= i < |rest| && Within(rest[i].before, line);
      assert Within(all[i + 1].before, line);
    }
    if CoveredAfter(rest, line) {
      var i :| 0 <= i < |rest| && Within(rest[i].after, line);
      assert Within(all[i + 1].after, line);
    }
  }

  lemma BlocksCoverEdits(h: Hunk, line: nat)
    ensures CoveredBefore(HunkBlocks(h), line) <==> Deletes(h.lines, h.before.start, line)
    ensures CoveredAfter(HunkBlocks(h), line) <==> Adds(h.lines, h.after.start, line)
  {
    CoverageFrom(h.lines, h.before.start, h.after.start, None, line);
  }

  /** Blocks in order from old line `o` and new line `n`, each editing something, with a line between neighbours. */
  predicate Separated(blocks: seq<Block>, o: nat, n: nat, oEnd: nat, nEnd: nat) {
    if blocks == [] then o <= oEnd && n <= nEnd
    else
      var b := blocks[0];
      && o <= b.before.start <= b.before.end <= oEnd && n <= b.after.start <= b.after.end <= nEnd
      && b.before.start - o == b.after.start - n
      && (b.before.start < b.before.end || b.after.start < b.after.end)
      && (|blocks| > 1 ==> b.before.end < blocks[1].before.start && b.after.end < blocks[1].after.start)
      && Separated(blocks[1..], b.before.end, b.after.end, oEnd, nEnd)
  }

  lemma {:induction false} SeparatedFrom(lines: seq<DiffLine>, o: nat, n: nat, open: Option<(nat, nat)>)
    requires open.Some? ==> open.value.0 <= o && open.value.1 <= n && open.value != (o, n)
    ensures var (a, b) := if open.Some? then open.value else (o, n);
            var blocks := Blocks(lines, o, n, open);
            && Separated(blocks, a, b, o + OldCount(lines), n + NewCount(lines))
            && (open.Some? ==> blocks != [] && blocks[0].before.start == a && blocks[0].after.start == b)
    decreases |lines|
  {
    hide Separated;
    var (a, b) := if open.Some? then open.value else (o, n);
    if lines == [] {
      SeparatedEnd(o, n, open);
    } else {
      var rest := lines[1..];
      match lines[0].kind
      case NoNewline => SeparatedFrom(rest, o, n, open);
      case Context =>
        SeparatedFrom(rest, o + 1, n + 1, None);
        SeparatedContext(Blocks(rest, o + 1, n + 1, None), o, n, open, o + OldCount(lines), n + NewCount(lines));
      case Delete => SeparatedFrom(rest, o + 1, n, Some((a, b)));
      case Add => SeparatedFrom(rest, o, n + 1, Some((a, b)));
    }
  }

  lemma SeparatedEnd(o: nat, n: nat, open: Option<(nat, nat)>)
    requires open.Some? ==> open.value.0 <= o && open.value.1 <= n && open.value != (o, n)
    ensures var (a, b) := if open.Some? then open.value else (o, n); Separated(Closed(o, n, open), a, b, o, n)
  {
  }

  lemma SeparatedContext(more: seq<Block>, o: nat, n: nat, open: Option<(nat, nat)>, oEnd: nat, nEnd: nat)
    requires open.Some? ==> open.value.0 <= o && open.value.1 <= n && open.value != (o, n)
    requires Separated(more, o + 1, n + 1, oEnd, nEnd) && o < oEnd && n < nEnd
    ensures var (a, b) := if open.Some? then open.value else (o, n);
              Separated(Closed(o, n, open) + more, a, b, oEnd, nEnd)
  {
    EarlierStart(more, o, n, o + 1, n + 1, oEnd, nEnd);
    if open.Some? {
      assert (Closed(o, n, open) + more)[1..] == more;
    } else {
      assert [] + more == more;
    }
  }

  lemma EarlierStart(blocks: seq<Block>, o: nat, n: nat, o': nat, n': nat, oEnd: nat, nEnd: nat)
    requires Separated(blocks, o', n', oEnd, nEnd) && o <= o' && n <= n' && o' - o == n' - n
    ensures Separated(blocks, o, n, oEnd, nEnd)
  {
  }

  /** Blocks lie in order inside the hunk; the text before each has one length on both sides, and at least one
      unchanged line stands between neighbours. */
  lemma BlocksAreSeparated(h: Hunk)
    requires ValidHunk(h)
    ensures Separated(HunkBlocks(h), h.before.start, h.after.start, h.before.end, h.after.end)
  {
    SeparatedFrom(h.lines, h.before.start, h.after.start, None);
  }

  // ---- What the blocks do ---------------------------------------------------------------------------

  function OldSide(lines: seq<DiffLine>): (r: seq<string>)
    ensures |r| == OldCount(lines)
  {
    if lines == [] then [] else (if lines[0].kind.OnOld() then [lines[0].text] else []) + OldSide(lines[1..])
  }

  function NewSide(lines: seq<DiffLine>): (r: seq<string>)
    ensures |r| == NewCount(lines)
  {
    if lines == [] then [] else (if lines[0].kind.OnNew() then [lines[0].text] else []) + NewSide(lines[1..])
  }

  /** The old text, from line `o` on, with every block replaced by the lines that the new text, which starts at line
      `n`, has in the block's new range. */
  function Patch(src: seq<string>, o: nat, blocks: seq<Block>, dst: seq<string>, n: nat): seq<string> {
    if blocks == [] then src
    else
      var b := blocks[0];
      if o <= b.before.start <= b.before.end <= o + |src| && n <= b.after.start <= b.after.end <= n + |dst| then
        src[..b.before.start - o] + dst[b.after.start - n..b.after.end - n]
        + Patch(src[b.before.end - o..], b.before.end, blocks[1..], dst, n)
      else []
  }

  /** From old line `o` and new line `n` on, both texts continue as the lines say; blocks may begin at `a` and `b`. */
  predicate Aligned(lines: seq<DiffLine>, o: nat, n: nat, a: nat, b: nat, src: seq<string>, dst: seq<string>,
                    first: nat)
  {
    && a <= o && o - a <= |src| && src[o - a..] == OldSide(lines)
    && first <= b <= n && n - first <= |dst| && dst[n - first..] == NewSide(lines)
  }

  lemma AlignedStep(lines: seq<DiffLine>, o: nat, n: nat, a: nat, b: nat, src: seq<string>, dst: seq<string>,
                    first: nat)
    requires lines != [] && Aligned(lines, o, n, a, b, src, dst, first)
    ensures lines[0].kind.NoNewline? ==> Aligned(lines[1..], o, n, a, b, src, dst, first)
    ensures lines[0].kind.Delete? ==> Aligned(lines[1..], o + 1, n, a, b, src, dst, first)
    ensures lines[0].kind.Add? ==> Aligned(lines[1..], o, n + 1, a, b, src, dst, first)
    ensures lines[0].kind.Context? ==>
              && o - a < |src| && first <= b <= n && n - first < |dst| && src[o - a] == dst[n - first]
              && Aligned(lines[1..], o + 1, n + 1, o + 1, n + 1, src[o - a..][1..], dst, first)
  {
    if lines[0].kind.OnOld() {
      RestOf(src, o - a);
    }
    if lines[0].kind.OnNew() {
      RestOf(dst, n - first);
    }
  }

  lemma RestOf(s: seq<string>, k: nat)
    requires k < |s|
    ensures s[k + 1..] == s[k..][1..] && s[k..][0] == s[k] && |s[k..]| == |s| - k
  {
  }

  lemma AlignedEnds(lines: seq<DiffLine>, o: nat, n: nat, a: nat, b: nat, src: seq<string>, dst: seq<string>,
                    first: nat)
    requires Aligned(lines, o, n, a, b, src, dst, first)
    ensures a <= o && |src| == o - a + OldCount(lines) && first <= b <= n && |dst| == n - first + NewCount(lines)
  {
  }

  lemma {:induction false} PatchFrom(lines: seq<DiffLine>, o: nat, n: nat, open: Option<(nat, nat)>, src: seq<string>,
                                     dst: seq<string>, first: nat)
    requires open.Some? ==> open.value.0 <= o && open.value.1 <= n && open.value != (o, n)
    requires var (a, b) := if open.Some? then open.value else (o, n); Aligned(lines, o, n, a, b, src, dst, first)
    ensures var (a, b) := if open.Some? then open.value else (o, n);
            first <= b <= first + |dst| && Patch(src, a, Blocks(lines, o, n, open), dst, first) == dst[b - first..]
    decreases |lines|
  {
    hide Patch, Separated, Aligned;
    var (a, b) := if open.Some? then open.value else (o, n);
    AlignedEnds(lines, o, n, a, b, src, dst, first);
    if lines == [] {
      PatchEnd(src, a, o, b, n, open, dst, first);
    } else {
      AlignedStep(lines, o, n, a, b, src, dst, first);
      var rest := lines[1..];
      match lines[0].kind
      case NoNewline => PatchFrom(rest, o, n, open, src, dst, first);
      case Delete => PatchFrom(rest, o + 1, n, Some((a, b)), src, dst, first);
      case Add => PatchFrom(rest, o, n + 1, Some((a, b)), src, dst, first);
      case Context =>
        PatchFrom(rest, o + 1, n + 1, None, src[o - a..][1..], dst, first);
        SeparatedFrom(rest, o + 1, n + 1, None);
        PatchContext(Blocks(rest, o + 1, n + 1, None), o, n, open, src, dst, first, o + OldCount(lines),
                     n + NewCount(lines));
    }
  }

  /** An unchanged line after an open block, or after none. */
  lemma PatchContext(more: seq<Block>, o: nat, n: nat, open: Option<(nat, nat)>, src: seq<string>, dst: seq<string>,
                     first: nat, oEnd: nat, nEnd: nat)
    requires open.Some? ==> open.value.0 <= o && open.value.1 <= n
    requires var (a, b) := if open.Some? then open.value else (o, n);
             && o - a < |src| && first <= b && n - first < |dst| && src[o - a] == dst[n - first]
             && oEnd == a + |src| && nEnd == first + |dst|
             && Patch(src[o - a..][1..], o + 1, more, dst, first) == dst[n + 1 - first..]
    requires Separated(more, o + 1, n + 1, oEnd, nEnd)
    ensures var (a, b) := if open.Some? then open.value else (o, n);
            Patch(src, a, Closed(o, n, open) + more, dst, first) == dst[b - first..]
  {
    hide Patch;
    var (a, b) := if open.Some? then open.value else (o, n);
    var tail := src[o - a..];
    KeepFirst(tail, o, more, dst, first);
    assert [tail[0]] + dst[n + 1 - first..] == dst[n - first..];
    if open.Some? {
      PatchFirst(src, a, o, b, n, more, dst, first);
    } else {
      assert [] + more == more && tail == src;
    }
  }

  lemma PatchEnd(src: seq<string>, a: nat, o: nat, b: nat, n: nat, open: Option<(nat, nat)>, dst: seq<string>,
                 first: nat)
    requires a <= o && o - a == |src| && first <= b <= n && n - first == |dst| &&
             (a, b) == if open.Some? then open.value else (o, n)
    ensures Patch(src, a, Blocks([], o, n, open), dst, first) == dst[b - first..]
  {
    if open.Some? {
      PatchLast(src, a, o, b, n, dst, first);
    }
  }

  lemma PatchLast(src: seq<string>, a: nat, o: nat, b: nat, n: nat, dst: seq<string>, first: nat)
    requires a <= o && o - a == |src| && first <= b <= n && n - first == |dst|
    ensures Patch(src, a, [Block(LineRange(a, o), LineRange(b, n))], dst, first) == dst[b - first..]
  {
    assert Patch(src[o - a..], o, [], dst, first) == [];
    assert [Block(LineRange(a, o), LineRange(b, n))][1..] == [];
  }

  /** An unchanged first line stays. */
  lemma KeepFirst(src: seq<string>, o: nat, blocks: seq<Block>, dst: seq<string>, first: nat)
    requires src != [] && (blocks != [] ==> o < blocks[0].before.start)
    requires blocks != [] ==>
                blocks[0].before.start <= blocks[0].before.end <= o + |src| &&
                first <= blocks[0].after.start <= blocks[0].after.end <= first + |dst|
    ensures Patch(src, o, blocks, dst, first) == [src[0]] + Patch(src[1..], o + 1, blocks, dst, first)
  {
    if blocks != [] {
      var b := blocks[0];
      var k, m := b.before.start - o, b.before.end - o;
      assert src == [src[0]] + src[1..];
      assert src[..k] == [src[0]] + src[1..][..k - 1];
      assert src[m..] == src[1..][m - 1..];
    }
  }

  lemma PatchFirst(src: seq<string>, a: nat, o: nat, b: nat, n: nat, more: seq<Block>, dst: seq<string>, first: nat)
    requires a <= o && o - a <= |src| && first <= b <= n && n - first <= |dst|
    requires Patch(src[o - a..], o, more, dst, first) == dst[n - first..]
    ensures Patch(src, a, [Block(LineRange(a, o), LineRange(b, n))] + more, dst, first) == dst[b - first..]
  {
    var all := [Block(LineRange(a, o), LineRange(b, n))] + more;
    assert all[1..] == more && src[..0] == [];
    assert dst[b - first..n - first] + dst[n - first..] == dst[b - first..];
  }

  /** Replacing each old block by its new lines turns the old side of a hunk into its new side. */
  lemma BlocksRewriteOldToNew(h: Hunk)
    requires ValidHunk(h)
    ensures Patch(OldSide(h.lines), h.before.start, HunkBlocks(h), NewSide(h.lines), h.after.start) == NewSide(h.lines)
  {
    PatchFrom(h.lines, h.before.start, h.after.start, None, OldSide(h.lines), NewSide(h.lines), h.after.start);
  }

  // ---- Symbol extents -------------------------------------------------------------------------------

  datatype MatchKind = Enclosing | Intersecting | PointInterior

  predicate Inside(p: Position, left: Position, right: Position) {
    NotAfter(left, p) && Earlier(p, right)
  }

  /** How a symbol extent `[left, right)` meets a range of whole lines. */
  function ExtentRelation(changed: LineRange, left: Position, right: Position): Option<MatchKind> {
    var start, end := Position(changed.start, 1), Position(changed.end, 1);
    if left == right then None
    else if start == end then (if Earlier(left, start) && Earlier(start, right) then Some(PointInterior) else None)
    else if NotAfter(left, start) && NotAfter(end, right) then Some(Enclosing)
    else
      var from, to := if Earlier(start, left) then left else start, if Earlier(right, end) then right else end;
      if Earlier(from, to) then Some(Intersecting) else None
  }

  /** For a range with lines: enclosing means that every changed position is in the extent, intersecting that some
      but not all are, and no relation that none is. A range without lines is related as a point exactly when it lies
      in the extent behind some other position of it. */
  lemma RelationIsOverlap(changed: LineRange, left: Position, right: Position)
    requires changed.Valid() && left.Valid() && right.Valid() && NotAfter(left, right)
    ensures changed.start < changed.end ==>
            var r := ExtentRelation(changed, left, right);
            var start, end := Position(changed.start, 1), Position(changed.end, 1);
            && (r == Some(Enclosing) <==> forall p: Position :: Inside(p, start, end) ==> Inside(p, left, right))
            && (r.None? <==> forall p: Position :: Inside(p, start, end) ==> !Inside(p, left, right))
            && r != Some(PointInterior)
    ensures changed.start == changed.end ==>
            var r := ExtentRelation(changed, left, right);
            var start := Position(changed.start, 1);
            && (r == Some(PointInterior) <==>
                  Inside(start, left, right) && exists p: Position :: Inside(p, left, right) && Earlier(p, start))
            && (r.None? || r == Some(PointInterior))
  {
    if changed.start == changed.end {
      assert left != right ==> Inside(left, left, right);
      return;
    }
    var start, end := Position(changed.start, 1), Position(changed.end, 1);
    assert Inside(start, start, end);
    assert Inside(right, start, end) <==> !Earlier(right, start) && Earlier(right, end);
    var from := if Earlier(start, left) then left else start;
    assert Inside(from, start, end) || !Earlier(from, end);
    assert Inside(from, left, right) || !Earlier(from, right);
  }
}
