/** Lines of a text as Python's `splitlines(keepends=True)` cuts them, and line/column positions. */
module TextLines {
  import opened Prelude

  /** Line boundaries besides LF, CR and CRLF. */
  predicate IsExotic(c: char) {
    c in {'\U{0B}', '\U{0C}', '\U{1C}', '\U{1D}', '\U{1E}', '\U{85}', '\U{2028}', '\U{2029}'}
  }

  predicate IsStripped(c: char) {
    c == '\n' || c == '\r'
  }

  /** The end of the line that starts at `i`, its terminator included. */
  function LineEnd(text: string, i: nat): (e: nat)
    requires i < |text|
    ensures i < e <= |text|
    decreases |text| - i
  {
    if text[i] == '\r' && i + 1 < |text| && text[i + 1] == '\n' then i + 2
    else if IsStripped(text[i]) || IsExotic(text[i]) then i + 1
    else if i + 1 == |text| then |text|
    else LineEnd(text, i + 1)
  }

  /** The lines from offset `i` on, with their terminators. */
  function LinesFrom(text: string, i: nat): (lines: seq<string>)
    requires i <= |text|
    ensures i == |text| <==> lines == []
    decreases |text| - i
  {
    if i == |text| then [] else [text[i..LineEnd(text, i)]] + LinesFrom(text, LineEnd(text, i))
  }

  function SplitLines(text: string): seq<string> {
    LinesFrom(text, 0)
  }

  /** `rstrip("\r\n")`. */
  function Strip(line: string): (r: string)
    ensures r <= line
    ensures forall i :: |r| <= i < |line| ==> IsStripped(line[i])
    ensures r != [] ==> !IsStripped(r[|r| - 1])
  {
    if line != [] && IsStripped(line[|line| - 1]) then Strip(line[..|line| - 1]) else line
  }

  function SumLengths(lines: seq<string>): nat {
    if lines == [] then 0 else |lines[0]| + SumLengths(lines[1..])
  }

  datatype Position = Position(line: nat, column: nat) {
    predicate Valid() {
      line >= 1 && column >= 1
    }
  }

  predicate NotAfter(a: Position, b: Position) {
    a.line < b.line || (a.line == b.line && a.column <= b.column)
  }

  predicate Earlier(a: Position, b: Position) {
    a.line < b.line || (a.line == b.line && a.column < b.column)
  }

  /** `_offset`: the text offset of a position, or an error when the position lies outside the text. */
  function Offset(text: string, p: Position): Option<nat> {
    var lines := SplitLines(text);
    if p.line == |lines| + 1 && p.column == 1 then Some(|text|)
    else if !(1 <= p.line <= |lines|) then None
    else if !(1 <= p.column <= |Strip(lines[p.line - 1])| + 1) then None
    else Some(SumLengths(lines[..p.line - 1]) + p.column - 1)
  }

  /** The same offset computed by walking from the line that starts at `i`. */
  function OffsetFrom(text: string, i: nat, line: nat, column: nat): (r: Option<nat>)
    requires i <= |text|
    ensures r.Some? ==> i <= r.value <= |text|
    decreases line
  {
    if line == 0 || column == 0 then None
    else if i == |text| then (if line == 1 && column == 1 then Some(i) else None)
    else
      var e := LineEnd(text, i);
      if line == 1 then
        var content := Strip(text[i..e]);
        if column <= |content| + 1 then Some(i + column - 1) else None
      else OffsetFrom(text, e, line - 1, column)
  }

  /** Walking computes `_offset`, started at any line. */
  lemma {:induction false} OffsetWalks(text: string, i: nat, p: Position)
    requires i <= |text|
    ensures OffsetFrom(text, i, p.line, p.column) ==
            var lines := LinesFrom(text, i);
            if p.line == |lines| + 1 && p.column == 1 then Some(|text|)
            else if !(1 <= p.line <= |lines|) then None
            else if !(1 <= p.column <= |Strip(lines[p.line - 1])| + 1) then None
            else Some(i + SumLengths(lines[..p.line - 1]) + p.column - 1)
    decreases |text| - i
  {
    hide Strip;
    var lines := LinesFrom(text, i);
    if i < |text| && p.line > 1 {
      var e := LineEnd(text, i);
      var rest := LinesFrom(text, e);
      OffsetWalks(text, e, Position(p.line - 1, p.column));
      assert lines == [text[i..e]] + rest;
      if p.line <= |lines| {
        assert lines[..p.line - 1][0] == text[i..e];
        assert lines[..p.line - 1][1..] == rest[..p.line - 2];
      }
    }
  }

  lemma OffsetIsWalk(text: string, p: Position)
    ensures Offset(text, p) == OffsetFrom(text, 0, p.line, p.column)
  {
    OffsetWalks(text, 0, p);
  }

  // ---- Cutting a text -------------------------------------------------------------------------------

  lemma SliceOfSlice(text: string, a: nat, b: nat, i: nat, j: nat)
    requires a <= i <= j <= b <= |text|
    ensures text[a..b][i - a..j - a] == text[i..j]
  {
    var inner := text[a..b];
    assert forall k :: i - a <= k < j - a ==> inner[k] == text[a + k];
  }

  /** A line of a cut-out piece ends where the line of the text ends, or where the piece does. */
  lemma {:induction false} LineEndInPiece(text: string, a: nat, b: nat, i: nat)
    requires a <= i < b <= |text|
    ensures LineEnd(text[a..b], i - a) == (if LineEnd(text, i) <= b then LineEnd(text, i) else b) - a
    decreases b - i
  {
    var piece := text[a..b];
    if !(text[i] == '\r' && i + 1 < |text| && text[i + 1] == '\n') && !IsStripped(text[i]) && !IsExotic(text[i]) &&
      i + 1 < b
    {
      LineEndInPiece(text, a, b, i + 1);
    }
  }

  /** Before its terminator a line contains no line boundary. */
  lemma {:induction false} LineShape(text: string, i: nat, j: nat)
    requires i < |text| && i <= j < LineEnd(text, i)
    ensures j < LineEnd(text, i) - 1 ==>
               !IsExotic(text[j]) &&
               (IsStripped(text[j]) ==> j == LineEnd(text, i) - 2 && text[j] == '\r' && text[j + 1] == '\n')
    decreases j - i
  {
    if i < j && !(IsStripped(text[i]) || IsExotic(text[i])) && i + 1 < |text| {
      LineShape(text, i + 1, j);
    }
  }

  /** A position inside the text keeps its distance to the start of any piece that contains it. */
  lemma {:induction false} OffsetInPiece(text: string, a: nat, b: nat, i: nat, line: nat, column: nat)
    requires a <= i <= b <= |text| && OffsetFrom(text, i, line, column).Some? &&
             OffsetFrom(text, i, line, column).value <= b
    ensures OffsetFrom(text[a..b], i - a, line, column) == Some(OffsetFrom(text, i, line, column).value - a)
    decreases line
  {
    hide Strip;
    var piece := text[a..b];
    if i < |text| && i < b {
      var e := LineEnd(text, i);
      LineEndInPiece(text, a, b, i);
      if line > 1 {
        OffsetInPiece(text, a, b, e, line - 1, column);
      } else {
        var e' := if e <= b then e else b;
        SliceOfSlice(text, a, b, i, e');
        ContentOfCut(text, i, e', column);
      }
    }
  }

  /** Cutting a line short keeps every column that lies before the cut. */
  lemma ContentOfCut(text: string, i: nat, b: nat, column: nat)
    requires i < |text| && i < b <= LineEnd(text, i) && 1 <= column <= |Strip(text[i..LineEnd(text, i)])| + 1 &&
             i + column - 1 <= b
    ensures column <= |Strip(text[i..b])| + 1
  {
    var whole, cut := text[i..LineEnd(text, i)], text[i..b];
    var kept := |Strip(cut)|;
    if kept < column - 1 {
      assert cut[kept] == whole[kept] == text[i + kept];
      ContentIsUnbroken(text, i, kept);
    }
  }

  /** The stripped content of a line contains no CR or LF. */
  lemma ContentIsUnbroken(text: string, i: nat, k: nat)
    requires i < |text| && k < |Strip(text[i..LineEnd(text, i)])|
    ensures !IsStripped(text[i + k])
  {
    var whole := text[i..LineEnd(text, i)];
    var last := |Strip(whole)| - 1;
    assert Strip(whole)[last] == whole[last] == text[i + last];
    LineShape(text, i, i + k);
    LineShape(text, i, i + last);
  }
}
