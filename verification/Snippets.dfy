/** Cutting source snippets: overlapping ranges share one backing text, and every snippet is addressed relative
    to its backing. A separate validator recomputes the offsets from the relative line and column. */
module Snippets {
  import opened Prelude
  import opened TextLines

  datatype SourceRange = SourceRange(start: Position, end: Position) {
    predicate Valid() {
      start.Valid() && end.Valid() && NotAfter(start, end)
    }
  }

  // ---- Positions relative to a backing --------------------------------------------------------------

  /** The validator's rebasing: lines count from the backing's first line, columns only on that line. */
  function Relative(p: Position, left: Position): Position
    requires NotAfter(left, p)
  {
    Position(p.line - left.line + 1, if p.line == left.line then p.column - left.column + 1 else p.column)
  }

  lemma {:induction false} OffsetGrows(text: string, i: nat, p: Position, q: Position)
    requires i <= |text| && NotAfter(p, q)
    requires OffsetFrom(text, i, p.line, p.column).Some? && OffsetFrom(text, i, q.line, q.column).Some?
    ensures OffsetFrom(text, i, p.line, p.column).value <= OffsetFrom(text, i, q.line, q.column).value
    decreases p.line
  {
    if i < |text| && p.line > 1 {
      OffsetGrows(text, LineEnd(text, i), Position(p.line - 1, p.column), Position(q.line - 1, q.column));
    } else if i < |text| && q.line > 1 {
      assert OffsetFrom(text, LineEnd(text, i), q.line - 1, q.column).value >= LineEnd(text, i);
    }
  }

  /** Later positions have later offsets. */
  lemma OffsetsFollowPositions(text: string, p: Position, q: Position)
    requires NotAfter(p, q) && Offset(text, p).Some? && Offset(text, q).Some?
    ensures Offset(text, p).value <= Offset(text, q).value <= |text|
  {
    OffsetIsWalk(text, p);
    OffsetIsWalk(text, q);
    OffsetGrows(text, 0, p, q);
  }

  /** Inside the content of a line, the line ends where it ended. */
  lemma {:induction false} LineEndInside(text: string, i: nat, a: nat)
    requires i < |text| && i <= a < LineEnd(text, i) && a <= i + |Strip(text[i..LineEnd(text, i)])|
    ensures LineEnd(text, a) == LineEnd(text, i)
    ensures |Strip(text[a..LineEnd(text, i)])| == |Strip(text[i..LineEnd(text, i)])| - (a - i)
    decreases a - i
  {
    var e := LineEnd(text, i);
    StripSuffix(text[i..e], a - i);
    assert text[i..e][a - i..] == text[a..e];
    if i < a {
      ContentIsUnbroken(text, i, 0);
      assert !IsExotic(text[i]) by {
        LineShape(text, i, i);
      }
      assert LineEnd(text, i + 1) == e;
      assert text[i..e][1..] == text[i + 1..e];
      StripSuffix(text[i..e], 1);
      LineEndInside(text, i + 1, a);
    }
  }

  lemma {:induction false} StripSuffix(line: string, k: nat)
    requires k <= |Strip(line)|
    ensures |Strip(line[k..])| == |Strip(line)| - k
    decreases |line|
  {
    if line != [] && IsStripped(line[|line| - 1]) {
      var shorter := line[..|line| - 1];
      StripSuffix(shorter, k);
      assert line[k..][..|line[k..]| - 1] == shorter[k..];
    } else {
      assert k < |line| ==> line[k..][|line[k..]| - 1] == line[|line| - 1];
    }
  }

  lemma {:induction false} LaterLineDiffers(text: string, i: nat, line: nat, column: nat)
    requires i <= |text| && OffsetFrom(text, i, line, column).Some?
    ensures OffsetFrom(text, i, line + 1, column) != OffsetFrom(text, i, line, column)
    decreases line
  {
    if i < |text| && line > 1 {
      LaterLineDiffers(text, LineEnd(text, i), line - 1, column);
    }
  }

  /** The position lies past the last character of a line that CR or LF does not end. */
  predicate PastUnbroken(text: string, i: nat, column: nat)
    requires i <= |text|
  {
    i < |text| && i + column - 1 == LineEnd(text, i)
  }

  /** The line of a position, as the offset at which it starts. */
  function LineStart(text: string, i: nat, line: nat): (s: Option<nat>)
    requires i <= |text|
    ensures s.Some? ==> s.value <= |text|
    decreases line
  {
    if line == 0 then None
    else if line == 1 then Some(i)
    else if i == |text| then None
    else LineStart(text, LineEnd(text, i), line - 1)
  }

  predicate StartsPastUnbroken(text: string, left: Position) {
    var s := LineStart(text, 0, left.line);
    s.Some? && PastUnbroken(text, s.value, left.column)
  }

  /** Rebasing on the first line of the walk. */
  lemma RebaseFirstLine(text: string, i: nat, left: Position, p: Position, b: nat)
    requires i <= |text| && left.line == 1 && NotAfter(left, p)
    requires OffsetFrom(text, i, 1, left.column).Some? && OffsetFrom(text, i, p.line, p.column).Some?
    requires OffsetFrom(text, i, p.line, p.column).value <= b <= |text| &&
             OffsetFrom(text, i, 1, left.column).value <= b
    ensures var a, o := OffsetFrom(text, i, 1, left.column).value, OffsetFrom(text, i, p.line, p.column).value;
            var r := Relative(p, left);
            OffsetFrom(text[a..b], 0, r.line, r.column) == Some(o - a) <==>
            !(PastUnbroken(text, i, left.column) && p.line > 1)
  {
    OffsetGrows(text, i, left, p);
    if i < |text| {
      if OffsetFrom(text, i, 1, left.column).value < LineEnd(text, i) {
        RebaseInside(text, i, left, p, b);
      } else {
        RebasePast(text, i, left, p, b);
      }
    }
  }

  /** The backing starts inside the line: its first line is the rest of that line. */
  lemma RebaseInside(text: string, i: nat, left: Position, p: Position, b: nat)
    requires i < |text| && left.line == 1 && NotAfter(left, p)
    requires OffsetFrom(text, i, 1, left.column).Some? && OffsetFrom(text, i, p.line, p.column).Some?
    requires OffsetFrom(text, i, 1, left.column).value < LineEnd(text, i)
    requires OffsetFrom(text, i, 1, left.column).value <= OffsetFrom(text, i, p.line, p.column).value <= b <= |text|
    ensures var a, o := OffsetFrom(text, i, 1, left.column).value, OffsetFrom(text, i, p.line, p.column).value;
            var r := Relative(p, left);
            OffsetFrom(text[a..b], 0, r.line, r.column) == Some(o - a)
  {
    hide OffsetFrom, LineEnd;
    var a, o, r := OffsetFrom(text, i, 1, left.column).value, OffsetFrom(text, i, p.line, p.column).value,
          Relative(p, left);
    StartedLater(text, i, left, p);
    OffsetInPiece(text, a, b, a, r.line, r.column);
  }

  /** The walk may start inside the first line instead. */
  lemma StartedLater(text: string, i: nat, left: Position, p: Position)
    requires i < |text| && left.line == 1 && NotAfter(left, p)
    requires OffsetFrom(text, i, 1, left.column).Some? && OffsetFrom(text, i, p.line, p.column).Some?
    requires OffsetFrom(text, i, 1, left.column).value < LineEnd(text, i)
    ensures var a, r := OffsetFrom(text, i, 1, left.column).value, Relative(p, left);
            OffsetFrom(text, a, r.line, r.column) == OffsetFrom(text, i, p.line, p.column)
  {
    hide OffsetFrom, LineEnd, Strip;
    ColumnsCount(text, i, 1, left.column);
    ColumnsCount(text, i, p.line, p.column);
    var a, r := OffsetFrom(text, i, 1, left.column).value, Relative(p, left);
    OnFirstLine(text, i, left.column);
    LineEndInside(text, i, a);
    if p.line == 1 {
      OnFirstLine(text, i, p.column);
      OnFirstLine(text, a, r.column);
    } else {
      OnLaterLine(text, i, p.line, p.column);
      OnLaterLine(text, a, r.line, r.column);
    }
  }

  lemma ColumnsCount(text: string, i: nat, line: nat, column: nat)
    requires i <= |text| && OffsetFrom(text, i, line, column).Some?
    ensures line >= 1 && column >= 1
  {
  }

  lemma OnFirstLine(text: string, i: nat, column: nat)
    requires i < |text| && column >= 1
    ensures OffsetFrom(text, i, 1, column) == if column <= |Strip(text[i..LineEnd(text, i)])| +
              1 then Some(i + column - 1) else None
  {
  }

  lemma OnLaterLine(text: string, i: nat, line: nat, column: nat)
    requires i < |text| && line > 1 && column >= 1
    ensures OffsetFrom(text, i, line, column) == OffsetFrom(text, LineEnd(text, i), line - 1, column)
  {
  }

  /** The backing starts past an unbroken line: its first line is the next line of the text. */
  lemma RebasePast(text: string, i: nat, left: Position, p: Position, b: nat)
    requires i < |text| && left.line == 1 && NotAfter(left, p)
    requires OffsetFrom(text, i, 1, left.column).Some? && OffsetFrom(text, i, p.line, p.column).Some?
    requires OffsetFrom(text, i, 1, left.column).value == LineEnd(text, i)
    requires OffsetFrom(text, i, 1, left.column).value <= OffsetFrom(text, i, p.line, p.column).value <= b <= |text|
    ensures var a, o := OffsetFrom(text, i, 1, left.column).value, OffsetFrom(text, i, p.line, p.column).value;
            var r := Relative(p, left);
            OffsetFrom(text[a..b], 0, r.line, r.column) == Some(o - a) <==> p.line == 1
  {
    if p.line > 1 {
      OffsetInPiece(text, LineEnd(text, i), b, LineEnd(text, i), p.line - 1, p.column);
      LaterLineDiffers(text[LineEnd(text, i)..b], 0, p.line - 1, p.column);
    }
  }

  lemma {:induction false} RebaseWalk(text: string, i: nat, left: Position, p: Position, b: nat)
    requires i <= |text| && left.line >= 1 && NotAfter(left, p)
    requires OffsetFrom(text, i, left.line, left.column).Some? && OffsetFrom(text, i, p.line, p.column).Some?
    requires OffsetFrom(text, i, p.line, p.column).value <= b <= |text| &&
             OffsetFrom(text, i, left.line, left.column).value <= b
    ensures LineStart(text, i, left.line).Some?
    ensures var a, o := OffsetFrom(text, i, left.line, left.column).value, OffsetFrom(text, i, p.line, p.column).value;
            var r := Relative(p, left);
            OffsetFrom(text[a..b], 0, r.line, r.column) == Some(o - a) <==>
            !(PastUnbroken(text, LineStart(text, i, left.line).value, left.column) && p.line > left.line)
    decreases left.line
  {
    hide LineEnd, Strip, PastUnbroken;
    if left.line == 1 {
      RebaseFirstLine(text, i, left, p, b);
    } else {
      RebaseWalk(text, LineEnd(text, i), Position(left.line - 1, left.column), Position(p.line - 1, p.column), b);
    }
  }

  /** The validator recomputes a position's offset inside a backing that starts at `left`, for any text and any
      line separators, exactly when it is not the case that the backing starts past an unbroken line while the
      position lies on a later line. */
  lemma RelativeOffset(text: string, left: Position, p: Position, b: nat)
    requires left.Valid() && NotAfter(left, p) && Offset(text, left).Some? && Offset(text, p).Some?
    requires Offset(text, p).value <= b <= |text|
    ensures Offset(text, left).value <= Offset(text, p).value
    ensures var a, o := Offset(text, left).value, Offset(text, p).value;
            Offset(text[a..b], Relative(p, left)) == Some(o - a) <==>
              !(StartsPastUnbroken(text, left) && p.line > left.line)
  {
    OffsetsFollowPositions(text, left, p);
    OffsetIsWalk(text, left);
    OffsetIsWalk(text, p);
    OffsetIsWalk(text[Offset(text, left).value..b], Relative(p, left));
    RebaseWalk(text, 0, left, p, b);
  }

  // ---- Texts on which the validator always agrees ---------------------------------------------------

  /** Only LF, CR and CRLF break lines, and the text is empty or ends in a break. */
  predicate PlainlyBroken(text: string) {
    && (forall i :: 0 <= i < |text| ==> !IsExotic(text[i]))
    && (text != [] ==> IsStripped(text[|text| - 1]))
  }

  lemma {:induction false} PlainLinesEndStripped(text: string, i: nat)
    requires PlainlyBroken(text) && i < |text|
    ensures IsStripped(text[LineEnd(text, i) - 1])
    decreases |text| - i
  {
    if !IsStripped(text[i]) && i + 1 < |text| {
      PlainLinesEndStripped(text, i + 1);
    }
  }

  lemma {:induction false} NeverPast(text: string, i: nat, left: Position)
    requires PlainlyBroken(text) && i <= |text| && left.Valid() && OffsetFrom(text, i, left.line, left.column).Some?
    ensures var s := LineStart(text, i, left.line); s.Some? && !PastUnbroken(text, s.value, left.column)
    decreases left.line
  {
    if i < |text| {
      var e := LineEnd(text, i);
      if left.line > 1 {
        NeverPast(text, e, Position(left.line - 1, left.column));
      } else {
        PlainLinesEndStripped(text, i);
        var line := text[i..e];
        assert line[|line| - 1] == text[e - 1];
        assert |Strip(line)| < |line|;
      }
    }
  }

  /** On plainly broken texts the validator accepts every position of every backing. */
  lemma PlainTextsAgree(text: string, left: Position, p: Position, b: nat)
    requires PlainlyBroken(text)
    requires left.Valid() && NotAfter(left, p) && Offset(text, left).Some? && Offset(text, p).Some?
    requires Offset(text, p).value <= b <= |text|
    ensures Offset(text, left).value <= Offset(text, p).value
    ensures Offset(text[Offset(text, left).value..b], Relative(p, left)) ==
              Some(Offset(text, p).value - Offset(text, left).value)
  {
    OffsetIsWalk(text, left);
    NeverPast(text, 0, left);
    RelativeOffset(text, left, p, b);
  }

  /** Without the final break the agreement fails: after "ab" the backing of the range from 1:3 to 2:1 is empty,
      and line 2 of an empty text is outside it. */
  lemma UnbrokenTextDisagrees()
    ensures Offset("ab", Position(1, 3)) == Some(2) && Offset("ab", Position(2, 1)) == Some(2)
    ensures Offset("ab"[2..2], Relative(Position(2, 1), Position(1, 3))) == None
  {
    OffsetIsWalk("ab", Position(1, 3));
    OffsetIsWalk("ab", Position(2, 1));
    OffsetIsWalk("ab"[2..2], Position(2, 1));
    assert LineEnd("ab", 0) == 2;
    assert "ab"[0..2] == "ab" && Strip("ab") == "ab";
  }
}
