/** Writing a change as a plain unified diff, and reading it back. */
module DiffRoundTrip {
  import opened Prelude
  import opened TextLines
  import opened Diff
  import opened DiffParsers

  // ---- Numbers --------------------------------------------------------------------------------------

  function DigitChar(d: nat): (c: char)
    requires d < 10
    ensures IsDigit(c) && DigitValue(c) == d
  {
    ('0' as int + d) as char
  }

  function Decimal(n: nat): (r: string)
    ensures r != [] && forall i :: 0 <= i < |r| ==> IsDigit(r[i])
  {
    if n < 10 then [DigitChar(n)] else Decimal(n / 10) + [DigitChar(n % 10)]
  }

  lemma {:induction false} NumberOfDecimal(n: nat)
    ensures Number(Decimal(n)) == n
  {
    if n >= 10 {
      NumberOfDecimal(n / 10);
      assert Decimal(n)[..|Decimal(n)| - 1] == Decimal(n / 10);
    }
  }

  /** Writing a number that was read takes no more digits. */
  lemma {:induction false} NoLongerThanRead(digits: string)
    requires digits != [] && forall i :: 0 <= i < |digits| ==> IsDigit(digits[i])
    ensures |Decimal(Number(digits))| <= |digits|
    decreases |digits|
  {
    var front := digits[..|digits| - 1];
    if front != [] {
      NoLongerThanRead(front);
      assert Number(digits) / 10 == Number(front);
    }
  }

  // ---- Rendering ------------------------------------------------------------------------------------

  /** The start line as the header writes it: an empty range names the line before its gap. */
  function ShownStart(r: LineRange): nat
    requires r.Valid()
  {
    if r.Count() == 0 then r.start - 1 else r.start
  }

  /** The numbers of a range; a count of one is left out. */
  function CountOf(r: LineRange): Count
    requires r.Valid()
  {
    Count(Decimal(ShownStart(r)), if r.Count() == 1 then None else Some(Decimal(r.Count())))
  }

  function ShowCount(c: Count): string {
    c.start + (if c.count.Some? then "," + c.count.value else "")
  }

  function ShowRange(r: LineRange): string
    requires r.Valid()
  {
    ShowCount(CountOf(r))
  }

  function ShowHeader(h: Hunk): string
    requires h.before.Valid() && h.after.Valid()
  {
    "@@ -" + ShowRange(h.before) + " +" + ShowRange(h.after) + " @@" + h.section
  }

  function ShowHunk(h: Hunk): (r: seq<string>)
    requires ValidHunk(h)
    ensures |r| == 1 + |h.lines| && r[0] == ShowHeader(h) && r[1..] == ShowLines(h.lines)
  {
    [ShowHeader(h)] + ShowLines(h.lines)
  }

  function ShowHunks(hunks: seq<Hunk>): seq<string>
    requires forall i :: 0 <= i < |hunks| ==> ValidHunk(hunks[i])
  {
    if hunks == [] then [] else ShowHunk(hunks[0]) + ShowHunks(hunks[1..])
  }

  function ShowPath(path: Option<string>): string {
    if path.None? then "/dev/null" else path.value
  }

  function ShowFile(f: FileChange): seq<string>
    requires ValidFile(f)
  {
    ["--- " + ShowPath(f.oldPath), "+++ " + ShowPath(f.newPath)] + ShowHunks(f.hunks)
  }

  function ShowFiles(files: seq<FileChange>): seq<string>
    requires forall i :: 0 <= i < |files| ==> ValidFile(files[i])
  {
    if files == [] then [] else ShowFile(files[0]) + ShowFiles(files[1..])
  }

  function Join(rows: seq<string>): string {
    if rows == [] then "" else rows[0] + "\n" + Join(rows[1..])
  }

  function Render(files: seq<FileChange>): string
    requires forall i :: 0 <= i < |files| ==> ValidFile(files[i])
  {
    Join(ShowFiles(files))
  }

  predicate Unbroken(s: string) {
    forall i :: 0 <= i < |s| ==> !IsStripped(s[i]) && !IsExotic(s[i])
  }

  predicate ShortNumbers(r: LineRange)
    requires r.Valid()
  {
    |Decimal(ShownStart(r))| <= MaxDigits && |Decimal(r.Count())| <= MaxDigits
  }

  predicate PlainHunk(h: Hunk) {
    && ValidHunk(h) && ShortNumbers(h.before) && ShortNumbers(h.after) && Unbroken(h.section)
    && forall i :: 0 <= i < |h.lines| ==> Unbroken(h.lines[i].text)
  }

  predicate PlainPath(path: Option<string>) {
    path.Some? ==> Unbroken(path.value) && !("\"" <= path.value)
  }

  /** What a plain diff can carry: hunks, no Git metadata, no line separator inside a line, no quoted path. */
  predicate PlainFile(f: FileChange) {
    && ValidFile(f) && f.hunks != [] && f.metadata == [] && PlainPath(f.oldPath) && PlainPath(f.newPath)
    && forall i :: 0 <= i < |f.hunks| ==> PlainHunk(f.hunks[i])
  }

  // ---- Rows of the rendered text --------------------------------------------------------------------

  lemma {:induction false} LineEndAt(text: string, i: nat, e: nat)
    requires i <= e < |text| && text[e] == '\n' && Unbroken(text[i..e])
    ensures LineEnd(text, i) == e + 1
    decreases e - i
  {
    if i < e {
      assert text[i..e][0] == text[i] && text[i..e][1..] == text[i + 1..e];
      LineEndAt(text, i + 1, e);
    }
  }

  function Terminated(rows: seq<string>): (r: seq<string>)
    ensures |r| == |rows| && forall i :: 0 <= i < |rows| ==> r[i] == rows[i] + "\n"
  {
    seq(|rows|, i requires 0 <= i < |rows| => rows[i] + "\n")
  }

  lemma {:induction false} JoinSplits(text: string, i: nat, rows: seq<string>)
    requires i <= |text| && text[i..] == Join(rows) && forall k :: 0 <= k < |rows| ==> Unbroken(rows[k])
    ensures LinesFrom(text, i) == Terminated(rows)
    decreases |rows|
  {
    hide Unbroken, Terminated, Join, LinesFrom, LineEnd;
    JoinOf(rows);
    if rows == [] {
      assert Terminated([]) == [] && LinesFrom(text, i) == [];
    } else {
      OneLine(text, i);
      var e := i + |rows[0]|;
      FirstRow(text, i, rows[0], Join(rows[1..]));
      LineEndAt(text, i, e);
      JoinSplits(text, e + 1, rows[1..]);
      TerminatedMore(rows);
    }
  }

  lemma JoinOf(rows: seq<string>)
    ensures Join(rows) == if rows == [] then "" else rows[0] + "\n" + Join(rows[1..])
  {
  }

  lemma OneLine(text: string, i: nat)
    requires i < |text|
    ensures LinesFrom(text, i) == [text[i..LineEnd(text, i)]] + LinesFrom(text, LineEnd(text, i))
  {
  }

  lemma TerminatedMore(rows: seq<string>)
    requires rows != []
    ensures Terminated(rows) == [rows[0] + "\n"] + Terminated(rows[1..])
  {
  }

  lemma FirstRow(text: string, i: nat, row: string, tail: string)
    requires i <= |text| && text[i..] == row + "\n" + tail
    ensures var e := i + |row|;
            e < |text| && text[i..e] == row && text[e] == '\n' && text[i..e + 1] == row + "\n" && text[e + 1..] == tail
  {
    var rest := text[i..];
    assert rest[..|row|] == row && rest[|row|] == '\n' && rest[|row| + 1..] == tail;
    assert text[i..i + |row|] == rest[..|row|] && text[i + |row| + 1..] == rest[|row| + 1..];
  }

  lemma {:induction false} JoinIsPlain(rows: seq<string>)
    requires forall k :: 0 <= k < |rows| ==> Unbroken(rows[k])
    ensures forall i :: 0 <= i < |Join(rows)| ==> Join(rows)[i] != '\r' && !IsExotic(Join(rows)[i])
  {
    if rows != [] {
      JoinIsPlain(rows[1..]);
    }
  }

  lemma RenderedRows(rows: seq<string>)
    requires forall k :: 0 <= k < |rows| ==> Unbroken(rows[k])
    ensures PlainBreaks(Join(rows)) && RowsOf(Join(rows)).text == rows
  {
    hide Join, LinesFrom, Unbroken, Content;
    var text := Join(rows);
    JoinIsPlain(rows);
    assert text[0..] == text;
    JoinSplits(text, 0, rows);
    forall k | 0 <= k < |rows| ensures Content(rows[k] + "\n") == rows[k] {
      ContentOfRow(rows[k]);
    }
    assert RowsOf(text).text == Contents(Terminated(rows));
    assert Contents(Terminated(rows)) == rows;
  }

  lemma ContentOfRow(row: string)
    requires Unbroken(row)
    ensures Content(row + "\n") == row
  {
    assert Without(row + "\n", '\n') == row;
    assert row != [] ==> !IsStripped(row[|row| - 1]);
  }

  // ---- Reading the header ---------------------------------------------------------------------------

  lemma {:induction false} DigitsEndAt(row: string, i: nat, e: nat)
    requires i <= e < |row| && !IsDigit(row[e]) && forall k :: i <= k < e ==> IsDigit(row[k])
    ensures DigitsEnd(row, i) == e
    decreases e - i
  {
    if i < e {
      DigitsEndAt(row, i + 1, e);
    }
  }

  predicate AllDigits(s: string) {
    s != [] && forall i :: 0 <= i < |s| ==> IsDigit(s[i])
  }

  predicate PlainCount(c: Count) {
    AllDigits(c.start) && (c.count.Some? ==> AllDigits(c.count.value))
  }

  lemma CountIsRead(before: string, c: Count, after: string)
    requires PlainCount(c) && after != [] && !IsDigit(after[0]) && (c.count.None? ==> after[0] != ',')
    ensures ParseCount(before + ShowCount(c) + after, |before|) == Some((c, |before| + |ShowCount(c)|))
  {
    var row := before + ShowCount(c) + after;
    var i := |before|;
    var m := i + |c.start|;
    assert forall k :: i <= k < m ==> row[k] == c.start[k - i];
    if c.count.Some? {
      var b := c.count.value;
      var e := m + 1 + |b|;
      assert row[m] == ',';
      assert forall k :: m + 1 <= k < e ==> row[k] == b[k - (m + 1)];
      assert row[e] == after[0];
      DigitsEndAt(row, i, m);
      DigitsEndAt(row, m + 1, e);
      assert row[i..m] == c.start && row[m + 1..e] == b;
    } else {
      assert row[m] == after[0];
      DigitsEndAt(row, i, m);
      assert row[i..m] == c.start;
    }
  }

  lemma RangeIsRead(r: LineRange)
    requires r.Valid() && ShortNumbers(r)
    ensures CountOf(r).Digits() && ParseRange(CountOf(r)) == Ok(r)
  {
    NumberOfDecimal(ShownStart(r));
    NumberOfDecimal(r.Count());
  }

  /** A header made of two counts, each with or without a length, is read back. */
  lemma CountsAreRead(c: Count, d: Count, section: string)
    requires PlainCount(c) && PlainCount(d)
    ensures ParseHeader("@@ -" + ShowCount(c) + " +" + ShowCount(d) + " @@" + section) == Some(Header(c, d, section))
  {
    hide Has, ParseCount, ParseHeader, ShowCount;
    var first, second := ShowCount(c), ShowCount(d);
    var start, tail := "@@ -" + first + " +", " @@" + section;
    var row := start + second + " @@" + section;
    var i := 4 + |first|;
    var j := i + 2 + |second|;
    assert |start| == i + 2;
    assert row == "@@ -" + first + (" +" + second + tail);
    CountIsRead("@@ -", c, " +" + second + tail);
    assert row == start + second + tail;
    CountIsRead(start, d, tail);
    HeaderPieces(row, first, second, section);
    AssembleHeader(row, c, d, i, j, section);
  }

  lemma AssembleHeader(row: string, before: Count, after: Count, i: nat, j: nat, section: string)
    requires before.Digits() && after.Digits() && 4 <= i && i + 2 <= j && j + 3 <= |row|
    requires Has(row, 0, "@@ -") && ParseCount(row, 4) == Some((before, i))
    requires Has(row, i, " +") && ParseCount(row, i + 2) == Some((after, j))
    requires Has(row, j, " @@") && row[j + 3..] == section
    ensures ParseHeader(row) == Some(Header(before, after, section))
  {
    hide Has, ParseCount;
  }

  lemma HeaderPieces(row: string, first: string, second: string, section: string)
    requires row == "@@ -" + first + " +" + second + " @@" + section
    ensures var i := 4 + |first|; var j := i + 2 + |second|;
            && j + 3 <= |row| && Has(row, 0, "@@ -") && Has(row, i, " +") && Has(row, j, " @@")
            && row[j + 3..] == section
  {
    hide Has;
    var start := "@@ -" + first + " +";
    assert row == "" + "@@ -" + (first + " +" + second + " @@" + section);
    HasPiece("", "@@ -", first + " +" + second + " @@" + section);
    assert row == ("@@ -" + first) + " +" + (second + " @@" + section);
    HasPiece("@@ -" + first, " +", second + " @@" + section);
    HasPiece(start + second, " @@", section);
    RestAfter(start + second + " @@", section);
  }

  lemma RestAfter(before: string, after: string)
    ensures (before + after)[|before|..] == after
  {
  }

  lemma HeaderIsRead(h: Hunk)
    requires h.before.Valid() && h.after.Valid()
    ensures ParseHeader(ShowHeader(h)) == Some(Header(CountOf(h.before), CountOf(h.after), h.section))
  {
    RangeIsPlain(h.before);
    RangeIsPlain(h.after);
    hide ParseHeader, Decimal, CountOf, ShowCount;
    CountsAreRead(CountOf(h.before), CountOf(h.after), h.section);
  }

  lemma RangeIsPlain(r: LineRange)
    requires r.Valid()
    ensures PlainCount(CountOf(r))
  {
    DecimalIsDigits(ShownStart(r));
    DecimalIsDigits(r.Count());
  }

  /** And a header that is read was made so: its two counts, with digits, and the section. */
  lemma HeaderIsShown(row: string)
    requires ParseHeader(row).Some?
    ensures var h := ParseHeader(row).value;
            && PlainCount(h.before) && PlainCount(h.after)
            && row == "@@ -" + ShowCount(h.before) + " +" + ShowCount(h.after) + " @@" + h.section
  {
    var h := ParseHeader(row).value;
    var i := ParseCount(row, 4).value.1;
    var j := ParseCount(row, i + 2).value.1;
    CountIsShown(row, 4);
    CountIsShown(row, i + 2);
    assert row[0..4] == "@@ -" && row[i..i + 2] == " +" && row[j..j + 3] == " @@";
    hide ShowCount, ParseCount, ParseHeader, Has;
    SixPieces(row, 4, i, i + 2, j, j + 3);
  }

  lemma SixPieces(row: string, a: nat, b: nat, c: nat, d: nat, e: nat)
    requires a <= b <= c <= d <= e <= |row|
    ensures row == row[0..a] + row[a..b] + row[b..c] + row[c..d] + row[d..e] + row[e..]
  {
    Piece(row, a, b);
    Piece(row, b, c);
    Piece(row, c, d);
    Piece(row, d, e);
    Piece(row, e, |row|);
  }

  lemma Piece(row: string, a: nat, b: nat)
    requires a <= b <= |row|
    ensures row[0..b] == row[0..a] + row[a..b]
  {
  }

  /** Hunk headers, exactly. */
  lemma HeaderExactly(row: string, h: Header)
    ensures ParseHeader(row) == Some(h) <==>
              && PlainCount(h.before) && PlainCount(h.after)
              && row == "@@ -" + ShowCount(h.before) + " +" + ShowCount(h.after) + " @@" + h.section
  {
    hide ParseHeader, PlainCount, ShowCount;
    if ParseHeader(row).Some? {
      HeaderIsShown(row);
    }
    if PlainCount(h.before) && PlainCount(h.after) {
      CountsAreRead(h.before, h.after, h.section);
    }
  }

  lemma CountIsShown(row: string, i: nat)
    requires i <= |row| && ParseCount(row, i).Some?
    ensures var (c, e) := ParseCount(row, i).value; i <= e && PlainCount(c) && row[i..e] == ShowCount(c)
  {
    var (c, e) := ParseCount(row, i).value;
    var m := DigitsEnd(row, i);
    if c.count.Some? {
      assert row[i..e] == row[i..m] + row[m..m + 1] + row[m + 1..e];
    }
  }

  lemma DecimalIsDigits(n: nat)
    ensures AllDigits(Decimal(n))
  {
  }

  lemma HasPiece(before: string, word: string, after: string)
    ensures Has(before + word + after, |before|, word)
  {
  }

  // ---- Reading a hunk -------------------------------------------------------------------------------

  predicate At(rows: seq<string>, i: nat, block: seq<string>) {
    i + |block| <= |rows| && rows[i..i + |block|] == block
  }

  lemma AtParts(rows: seq<string>, i: nat, a: seq<string>, b: seq<string>)
    requires At(rows, i, a + b)
    ensures At(rows, i, a) && At(rows, i + |a|, b)
  {
    assert rows[i..i + |a + b|][..|a|] == a && rows[i..i + |a + b|][|a|..] == b;
  }

  lemma AtBounds(rows: seq<string>, i: nat, block: seq<string>)
    requires At(rows, i, block)
    ensures i + |block| <= |rows|
  {
  }

  lemma AtOne(rows: seq<string>, i: nat, row: string)
    requires At(rows, i, [row])
    ensures i < |rows| && rows[i] == row
  {
    assert rows[i..i + 1][0] == rows[i];
  }

  lemma LineIsRead(l: DiffLine)
    requires ValidLine(l)
    ensures LineOfRow(ShowLine(l)) == Some(l) && (ShowLine(l) == Marker <==> l.kind.NoNewline?)
  {
    var row := ShowLine(l);
    assert Marker[0] == '\\';
    if !l.kind.NoNewline? {
      assert row[0] in {' ', '+', '-'};
      assert row[1..] == l.text;
    }
  }

  lemma {:induction false} BodyIsRead(rows: seq<string>, i: nat, lines: seq<DiffLine>)
    requires At(rows, i, ShowLines(lines)) && forall k :: 0 <= k < |lines| ==> ValidLine(lines[k])
    requires i + |lines| < |rows| ==> rows[i + |lines|] != Marker
    ensures ParseBody(rows, i, OldCount(lines), NewCount(lines)) == Ok((lines, i + |lines|))
    decreases |lines|
  {
    hide ShowLine, LineOfRow, ValidLine, ShowLines, At;
    AtBounds(rows, i, ShowLines(lines));
    if lines != [] {
      var line, rest := lines[0], lines[1..];
      assert [line] + rest == lines;
      ShowOneMore(line, rest);
      AtParts(rows, i, [ShowLine(line)], ShowLines(rest));
      AtOne(rows, i, ShowLine(line));
      LineIsRead(line);
      BodyIsRead(rows, i + 1, rest);
    }
  }

  lemma HunkIsRead(s: Rows, i: nat, h: Hunk)
    requires s.Valid() && PlainHunk(h) && At(s.text, i, ShowHunk(h))
    requires i + |ShowHunk(h)| < |s.text| ==> s.text[i + |ShowHunk(h)|] != Marker
    ensures i < |s.text| && Has(s.text[i], 0, "@@")
    ensures ParseHunk(s, i) == Ok((h.(span := Span(s.offsets[i], s.offsets[i + |ShowHunk(h)|])), i + |ShowHunk(h)|))
  {
    hide ParseHeader, ShowHeader, ParseBody, ParseRange, MarkersFollowContent, NothingAfterEnd, Decimal, ValidLine,
         Unbroken, Marker, Has;
    AtParts(s.text, i, [ShowHeader(h)], ShowLines(h.lines));
    assert s.text[i] == s.text[i..i + 1][0];
    HeaderStarts(h);
    HeaderIsRead(h);
    RangeIsRead(h.before);
    RangeIsRead(h.after);
    BodyIsRead(s.text, i + 1, h.lines);
    ReadAsValid(h, Span(s.offsets[i], s.offsets[i + |ShowHunk(h)|]));
    hide ValidHunk, At, ShowHunk;
  }

  lemma ReadAsValid(h: Hunk, span: Span)
    requires ValidHunk(h)
    ensures ValidHunk(h.(span := span))
    ensures h.(span := span) == Hunk(h.before, h.after, h.section, h.lines, span)
    ensures OldCount(h.lines) == h.before.Count() && NewCount(h.lines) == h.after.Count()
  {
  }

  lemma HeaderStarts(h: Hunk)
    requires h.before.Valid() && h.after.Valid()
    ensures Has(ShowHeader(h), 0, "@@ -") && Has(ShowHeader(h), 0, "@@")
  {
    var rest := ShowRange(h.before) + " +" + ShowRange(h.after) + " @@" + h.section;
    assert ShowHeader(h) == "@@ -" + rest;
    assert ShowHeader(h) == "@@" + (" -" + rest);
  }

  // ---- Reading hunks and files ----------------------------------------------------------------------

  function ForgetHunk(h: Hunk): Hunk {
    h.(span := Span(0, 0))
  }

  function ForgetHunks(hunks: seq<Hunk>): (r: seq<Hunk>)
    ensures |r| == |hunks| && forall i :: 0 <= i < |r| ==> r[i] == ForgetHunk(hunks[i])
  {
    seq(|hunks|, i requires 0 <= i < |hunks| => ForgetHunk(hunks[i]))
  }

  /** A file apart from where it was read. */
  function Forget(f: FileChange): FileChange {
    f.(span := Span(0, 0), hunks := ForgetHunks(f.hunks))
  }

  function ForgetFiles(files: seq<FileChange>): (r: seq<FileChange>)
    ensures |r| == |files| && forall i :: 0 <= i < |r| ==> r[i] == Forget(files[i])
  {
    seq(|files|, i requires 0 <= i < |files| => Forget(files[i]))
  }

  /** A row that neither continues a hunk list nor is a marker. */
  predicate EndsHunks(rows: seq<string>, i: nat) {
    i < |rows| ==> !Has(rows[i], 0, "@@") && rows[i] != Marker
  }

  lemma {:induction false} HunksAreRead(s: Rows, i: nat, hunks: seq<Hunk>)
    requires s.Valid() && forall k :: 0 <= k < |hunks| ==> ValidHunk(hunks[k]) && PlainHunk(hunks[k])
    requires At(s.text, i, ShowHunks(hunks))
    requires EndsHunks(s.text, i + |ShowHunks(hunks)|)
    ensures var r := ParseHunks(s, i);
            r.Ok? && r.value.1 == i + |ShowHunks(hunks)| && ForgetHunks(r.value.0) == ForgetHunks(hunks)
    decreases |hunks|
  {
    hide PlainHunk, ValidHunk, ParseHunk, ShowHunk;
    if hunks != [] {
      assert ShowHunks(hunks) == ShowHunk(hunks[0]) + ShowHunks(hunks[1..]);
      hide Has, At, ForgetHunks, ForgetHunk, ParseHunks, EndsHunks, ShowHunks;
      var h, rest := hunks[0], hunks[1..];
      AtParts(s.text, i, ShowHunk(h), ShowHunks(rest));
      var next := i + |ShowHunk(h)|;
      NextIsNoMarker(s.text, next, rest);
      HunkIsRead(s, i, h);
      HunksAreRead(s, next, rest);
      OneMoreHunk(s, i, h.(span := Span(s.offsets[i], s.offsets[next])), next, h, rest);
      assert [h] + rest == hunks;
    }
  }

  lemma OneMoreHunk(s: Rows, i: nat, read: Hunk, next: nat, h: Hunk, rest: seq<Hunk>)
    requires s.Valid() && i < |s.text| && Has(s.text[i], 0, "@@") && next <= |s.text| &&
             ParseHunk(s, i) == Ok((read, next))
    requires ParseHunks(s, next).Ok? && ForgetHunks(ParseHunks(s, next).value.0) == ForgetHunks(rest)
    requires ForgetHunk(read) == ForgetHunk(h)
    ensures var r := ParseHunks(s, i);
            r.Ok? && r.value.1 == ParseHunks(s, next).value.1 && ForgetHunks(r.value.0) == ForgetHunks([h] + rest)
  {
    hide ParseHunk;
    var more := ParseHunks(s, next).value.0;
    assert ForgetHunks([read] + more) == [ForgetHunk(h)] + ForgetHunks(more);
    assert ForgetHunks([h] + rest) == [ForgetHunk(h)] + ForgetHunks(rest);
  }

  lemma NextIsNoMarker(rows: seq<string>, i: nat, hunks: seq<Hunk>)
    requires (forall k :: 0 <= k < |hunks| ==> ValidHunk(hunks[k])) && At(rows, i, ShowHunks(hunks))
    requires EndsHunks(rows, i + |ShowHunks(hunks)|)
    ensures i < |rows| ==> rows[i] != Marker
  {
    if hunks != [] {
      hide ValidHunk;
      AtParts(rows, i, ShowHunk(hunks[0]), ShowHunks(hunks[1..]));
      assert rows[i] == rows[i..i + |ShowHunk(hunks[0])|][0] == ShowHunk(hunks[0])[0];
      HeaderFirst(hunks[0]);
    }
  }

  lemma HeaderFirst(h: Hunk)
    requires ValidHunk(h)
    ensures ShowHeader(h) != Marker && !IsCombinedOrBinary(ShowHeader(h))
  {
    HeaderStarts(h);
    var row := ShowHeader(h);
    assert row[0] == row[0..4][0] == '@' && row[2] == row[0..4][2] == ' ';
    NotCombined(row);
  }

  lemma NotCombined(row: string)
    requires row != [] && row[0] !in {'d', 'G', 'B'} && (|row| > 2 ==> row[2] != '@')
    ensures !IsCombinedOrBinary(row)
  {
    StartsAlike(row, "@@@", 2);
    StartsAlike(row, "diff --cc ", 0);
    StartsAlike(row, "diff --combined ", 0);
    StartsAlike(row, "Binary files ", 0);
  }

  lemma StartsAlike(row: string, word: string, k: nat)
    requires k < |word|
    ensures Has(row, 0, word) ==> k < |row| && row[k] == word[k]
  {
    if Has(row, 0, word) {
      assert row[0..|word|][k] == row[k];
    }
  }

  // ---- Reading files --------------------------------------------------------------------------------

  lemma PathIsRead(path: Option<string>)
    requires PlainPath(path) && (path.Some? ==> IsPath(path.value))
    ensures ParsePath(Before(ShowPath(path), '\t'), "") == Ok(path)
  {
    if path.Some? {
      assert path.value[0..] == path.value;
      assert path.value != "/dev/null" by {
        RootedIsNoPath();
      }
    } else {
      assert '\t' !in "/dev/null";
    }
  }

  lemma RootedIsNoPath()
    ensures !IsPath("/dev/null")
  {
    var path := "/dev/null";
    assert Before(path, '/') == "";
    assert Split(path, '/')[0] == "";
  }

  /** The header rows of a plain file. */
  lemma SidesAreRead(rows: seq<string>, i: nat, f: FileChange)
    requires ValidFile(f) && PlainPath(f.oldPath) && PlainPath(f.newPath)
    requires At(rows, i, ["--- " + ShowPath(f.oldPath), "+++ " + ShowPath(f.newPath)])
    ensures i < |rows| && ParsePrologue(rows, i) == Ok(Prologue(None, [], Renames(None, None), i))
    ensures ParseSides(rows, Prologue(None, [], Renames(None, None), i)) == Ok((f.oldPath, f.newPath, i + 2))
  {
    hide IsPath;
    var block := rows[i..i + 2];
    assert rows[i] == block[0] && rows[i + 1] == block[1];
    HasPiece("", "--- ", ShowPath(f.oldPath));
    HasPiece("", "+++ ", ShowPath(f.newPath));
    assert "" + "--- " + ShowPath(f.oldPath) == rows[i];
    assert "" + "+++ " + ShowPath(f.newPath) == rows[i + 1];
    StartsAlike(rows[i], "diff --git ", 0);
    PathIsRead(f.oldPath);
    PathIsRead(f.newPath);
    assert rows[i][4..] == ShowPath(f.oldPath) && rows[i + 1][4..] == ShowPath(f.newPath);
  }

  lemma FileIsRead(s: Rows, i: nat, f: FileChange)
    requires s.Valid() && PlainFile(f) && At(s.text, i, ShowFile(f)) && EndsHunks(s.text, i + |ShowFile(f)|)
    ensures i < |s.text|
    ensures var r := ParseFile(s, i);
            r.Ok? && r.value.1 == i + |ShowFile(f)| && Forget(r.value.0) == Forget(f)
  {
    hide PlainHunk, ValidHunk, ParseHunks, ShowHunks, IsPath, EndsHunks, ParsePrologue, ParseSides, PlainPath;
    var headers := ["--- " + ShowPath(f.oldPath), "+++ " + ShowPath(f.newPath)];
    AtParts(s.text, i, headers, ShowHunks(f.hunks));
    SidesAreRead(s.text, i, f);
    HunksAreRead(s, i + 2, f.hunks);
    var (hunks, end) := ParseHunks(s, i + 2).value;
    var read := FileChange(f.oldPath, f.newPath, f.kind, hunks, [], Span(s.offsets[i], s.offsets[end]));
    SameValidity(f, read);
    assert KindOf(f.oldPath, f.newPath) == f.kind;
    hide ValidFile;
  }

  /** Validity does not depend on spans. */
  lemma SameValidity(f: FileChange, g: FileChange)
    requires ValidFile(f) && f.(hunks := [], span := Span(0, 0)) == g.(hunks := [], span := Span(0, 0))
    requires ForgetHunks(f.hunks) == ForgetHunks(g.hunks)
    ensures ValidFile(g)
  {
    hide IsPath, EndsOld, EndsNew;
    assert |f.hunks| == |ForgetHunks(f.hunks)| == |g.hunks|;
    forall i | 0 <= i < |g.hunks| ensures SameHunk(f.hunks[i], g.hunks[i]) && ValidHunk(g.hunks[i]) {
      assert ForgetHunks(f.hunks)[i] == ForgetHunks(g.hunks)[i];
      ReadAsValid(f.hunks[i], g.hunks[i].span);
      assert g.hunks[i] == f.hunks[i].(span := g.hunks[i].span);
    }
    hide ValidHunk;
  }

  predicate SameHunk(h: Hunk, g: Hunk) {
    h.before == g.before && h.after == g.after && h.lines == g.lines
  }

  lemma {:induction false} FilesAreRead(s: Rows, i: nat, files: seq<FileChange>)
    requires s.Valid() && forall k :: 0 <= k < |files| ==> ValidFile(files[k]) && PlainFile(files[k])
    requires At(s.text, i, ShowFiles(files)) && i + |ShowFiles(files)| == |s.text|
    ensures ParseFiles(s, i).Ok? && ForgetFiles(ParseFiles(s, i).value) == ForgetFiles(files)
    decreases |files|
  {
    hide ValidFile, PlainFile, At, ParseFile, ShowFile, ForgetFiles;
    if files != [] {
      var f, rest := files[0], files[1..];
      assert ShowFiles(files) == ShowFile(f) + ShowFiles(rest);
      hide *;
      AtParts(s.text, i, ShowFile(f), ShowFiles(rest));
      var next := i + |ShowFile(f)|;
      FileFirst(s.text, next, rest);
      FileIsRead(s, i, f);
      FilesAreRead(s, next, rest);
      OneMoreFile(s, i, f, rest);
      assert [f] + rest == files;
    }
  }

  lemma OneMoreFile(s: Rows, i: nat, f: FileChange, rest: seq<FileChange>)
    requires s.Valid() && i < |s.text| && ParseFile(s, i).Ok? && Forget(ParseFile(s, i).value.0) == Forget(f)
    requires var next := ParseFile(s, i).value.1;
             ParseFiles(s, next).Ok? && ForgetFiles(ParseFiles(s, next).value) == ForgetFiles(rest)
    ensures ParseFiles(s, i).Ok? && ForgetFiles(ParseFiles(s, i).value) == ForgetFiles([f] + rest)
  {
    hide ParseFile, Forget;
    var (read, next) := ParseFile(s, i).value;
    var more := ParseFiles(s, next).value;
    assert ForgetFiles([read] + more) == [Forget(f)] + ForgetFiles(more);
    assert ForgetFiles([f] + rest) == [Forget(f)] + ForgetFiles(rest);
  }

  lemma FileFirst(rows: seq<string>, i: nat, files: seq<FileChange>)
    requires (forall k :: 0 <= k < |files| ==> ValidFile(files[k])) && At(rows, i, ShowFiles(files))
    requires i + |ShowFiles(files)| == |rows|
    ensures EndsHunks(rows, i)
  {
    hide ValidFile, ShowFile, Has;
    if files != [] {
      AtParts(rows, i, ShowFile(files[0]), ShowFiles(files[1..]));
      ShownFileStarts(files[0]);
      assert rows[i] == rows[i..i + |ShowFile(files[0])|][0];
    }
  }

  lemma ShownFileStarts(f: FileChange)
    requires ValidFile(f)
    ensures ShowFile(f) != [] && !Has(ShowFile(f)[0], 0, "@@") && ShowFile(f)[0] != Marker
  {
    hide ValidFile;
    var row := ShowFile(f)[0];
    assert row[0] == '-' && Marker[0] == '\\';
    StartsAlike(row, "@@", 0);
  }

  // ---- The rendered rows are plain ------------------------------------------------------------------

  /** A row without separators that no other reader claims. */
  predicate PlainRow(row: string) {
    Unbroken(row) && !IsCombinedOrBinary(row)
  }

  predicate PlainRows(rows: seq<string>) {
    forall i :: 0 <= i < |rows| ==> PlainRow(rows[i])
  }

  lemma LineIsPlain(l: DiffLine)
    requires ValidLine(l) && Unbroken(l.text)
    ensures PlainRow(ShowLine(l))
  {
    var row := ShowLine(l);
    assert row[0] in {' ', '+', '-', '\\'};
    if l.kind.NoNewline? {
      StartsAlike(row, "@@@", 0);
      assert Marker[2] == 'N';
    } else {
      StartsAlike(row, "@@@", 0);
    }
    OtherFirst(row);
  }

  lemma OtherFirst(row: string)
    requires row != [] && row[0] !in {'d', 'G', 'B', '@'}
    ensures !IsCombinedOrBinary(row)
  {
    StartsAlike(row, "@@@", 0);
    StartsAlike(row, "diff --cc ", 0);
    StartsAlike(row, "diff --combined ", 0);
    StartsAlike(row, "Binary files ", 0);
  }

  lemma HeaderIsPlain(h: Hunk)
    requires PlainHunk(h)
    ensures PlainRow(ShowHeader(h))
  {
    HeaderFirst(h);
    RangeIsUnbroken(h.before);
    RangeIsUnbroken(h.after);
    hide ValidHunk, ShowRange, ShortNumbers;
  }

  lemma RangeIsUnbroken(r: LineRange)
    requires r.Valid()
    ensures Unbroken(ShowRange(r))
  {
    DecimalIsDigits(ShownStart(r));
    DecimalIsDigits(r.Count());
  }

  lemma HunkIsPlain(h: Hunk)
    requires PlainHunk(h)
    ensures PlainRows(ShowHunk(h))
  {
    HeaderIsPlain(h);
    forall i | 0 <= i < |h.lines| ensures PlainRow(ShowLines(h.lines)[i]) {
      LineIsPlain(h.lines[i]);
    }
    hide ValidHunk, PlainRow;
  }

  lemma {:induction false} HunksArePlain(hunks: seq<Hunk>)
    requires forall i :: 0 <= i < |hunks| ==> ValidHunk(hunks[i]) && PlainHunk(hunks[i])
    ensures PlainRows(ShowHunks(hunks))
  {
    hide ValidHunk, PlainHunk, ShowHunk, PlainRow;
    if hunks != [] {
      HunkIsPlain(hunks[0]);
      HunksArePlain(hunks[1..]);
    }
  }

  lemma PathRowIsPlain(word: string, path: Option<string>)
    requires word == "--- " || word == "+++ "
    requires PlainPath(path)
    ensures PlainRow(word + ShowPath(path))
  {
    var row := word + ShowPath(path);
    assert row[0] == word[0];
    OtherFirst(row);
  }

  lemma {:induction false} FilesArePlain(files: seq<FileChange>)
    requires forall i :: 0 <= i < |files| ==> ValidFile(files[i]) && PlainFile(files[i])
    ensures PlainRows(ShowFiles(files))
  {
    if files != [] {
      hide ValidFile, PlainFile, PlainRow, ShowFile;
      FileIsPlain(files[0]);
      FilesArePlain(files[1..]);
    }
  }

  lemma FileIsPlain(f: FileChange)
    requires ValidFile(f) && PlainFile(f)
    ensures PlainRows(ShowFile(f))
  {
    hide PlainRow, PlainHunk, ValidHunk, ShowHunks;
    HunksArePlain(f.hunks);
    PathRowIsPlain("--- ", f.oldPath);
    PathRowIsPlain("+++ ", f.newPath);
  }

  // ---- The round trip -------------------------------------------------------------------------------

  lemma ValidAfterReading(raw: string, files: seq<FileChange>)
    requires RowsOf(raw).Valid() && ParseFiles(RowsOf(raw), 0).Ok?
    requires ForgetFiles(ParseFiles(RowsOf(raw), 0).value) == ForgetFiles(files) && files != [] && DistinctPaths(files)
    ensures ValidChange(ParseFiles(RowsOf(raw), 0).value, |raw|)
  {
    var s, lines := RowsOf(raw), SplitLines(raw);
    assert s.offsets[|s.text|] == |raw| by {
      OffsetsEnd(raw, 0);
      assert lines[..|lines|] == lines;
    }
    var read := ParseFiles(s, 0).value;
    assert |read| == |ForgetFiles(read)| == |files|;
    forall k | 0 <= k < |read| ensures read[k].oldPath == files[k].oldPath && read[k].newPath == files[k].newPath {
      assert ForgetFiles(read)[k] == ForgetFiles(files)[k];
    }
    SpansInside(s, 0);
  }

  lemma {:induction false} SpansInside(s: Rows, i: nat)
    requires s.Valid() && i <= |s.text| && ParseFiles(s, i).Ok?
    ensures forall k :: 0 <= k < |ParseFiles(s, i).value| ==>
              SpansWithin(ParseFiles(s, i).value[k], s.offsets[|s.text|])
    decreases |s.text| - i
  {
    hide ParseFile;
    if i < |s.text| {
      ParsedFileTiles(s, i);
      SpansInside(s, ParseFile(s, i).value.1);
    }
  }

  predicate SpansWithin(f: FileChange, length: nat) {
    f.span.end <= length && forall j :: 0 <= j < |f.hunks| ==> f.hunks[j].span.end <= length
  }

  /** Reading a rendered change gives the change back: same paths, kinds, ranges, sections and lines. */
  lemma RenderedChangeIsReadBack(files: seq<FileChange>)
    requires files != [] && DistinctPaths(files) && forall i :: 0 <= i < |files| ==>
               ValidFile(files[i]) && PlainFile(files[i])
    ensures ParseDiff(Render(files)).Ok? && ForgetFiles(ParseDiff(Render(files)).value) == ForgetFiles(files)
  {
    hide ValidFile, PlainFile, ParseFile, ShowFile;
    var rows, raw := ShowFiles(files), Render(files);
    FilesArePlain(files);
    RenderedRows(rows);
    RowsAreValid(raw);
    assert rows[0..0 + |rows|] == rows;
    FilesAreRead(RowsOf(raw), 0, files);
    ValidAfterReading(raw, files);
    hide RowsOf, ParseFiles, ValidChange, PlainBreaks, ForgetFiles, Render;
  }

  // ---- What was read can be written again -----------------------------------------------------------

  predicate UnbrokenRows(rows: seq<string>) {
    forall i :: 0 <= i < |rows| ==> Unbroken(rows[i])
  }

  lemma RangeReadIsShort(c: Count)
    requires c.Digits() && c.start != [] && (c.count.Some? ==> c.count.value != []) && ParseRange(c).Ok?
    ensures ShortNumbers(ParseRange(c).value)
  {
    NoLongerThanRead(c.start);
    if c.count.Some? {
      NoLongerThanRead(c.count.value);
    }
  }

  lemma HeaderReadHasDigits(row: string)
    requires ParseHeader(row).Some? && Unbroken(row)
    ensures var h := ParseHeader(row).value;
            && h.before.start != [] && (h.before.count.Some? ==> h.before.count.value != [])
            && h.after.start != [] && (h.after.count.Some? ==> h.after.count.value != [])
            && Unbroken(h.section)
  {
  }

  lemma HunkReadIsPlain(s: Rows, i: nat)
    requires s.Valid() && i < |s.text| && ParseHunk(s, i).Ok? && UnbrokenRows(s.text)
    ensures PlainHunk(ParseHunk(s, i).value.0)
  {
    var (hunk, end) := ParseHunk(s, i).value;
    var header := ParseHeader(s.text[i]).value;
    HeaderReadHasDigits(s.text[i]);
    RangeReadIsShort(header.before);
    RangeReadIsShort(header.after);
    HunkIsVerbatim(s, i);
    hide ValidHunk, ParseHeader, ShortNumbers, ParseRange, ParseBody;
    forall k | 0 <= k < |hunk.lines| ensures Unbroken(hunk.lines[k].text) {
      assert ShowLine(hunk.lines[k]) == ShowLines(hunk.lines)[k] == s.text[i + 1..end][k] == s.text[i + 1 + k];
      LineIsUnbroken(hunk.lines[k]);
    }
  }

  lemma LineIsUnbroken(l: DiffLine)
    requires Unbroken(ShowLine(l)) && (l.kind.NoNewline? ==> l.text == Marker)
    ensures Unbroken(l.text)
  {
    if !l.kind.NoNewline? {
      assert ShowLine(l)[1..] == l.text;
    }
  }

  lemma {:induction false} HunksReadArePlain(s: Rows, i: nat)
    requires s.Valid() && i <= |s.text| && ParseHunks(s, i).Ok? && UnbrokenRows(s.text)
    ensures forall k :: 0 <= k < |ParseHunks(s, i).value.0| ==> PlainHunk(ParseHunks(s, i).value.0[k])
    decreases |s.text| - i
  {
    hide ParseHunk, PlainHunk, UnbrokenRows;
    if !(i == |s.text| || !Has(s.text[i], 0, "@@")) {
      HunkReadIsPlain(s, i);
      HunksReadArePlain(s, ParseHunk(s, i).value.1);
    }
  }

  predicate Rewritable(f: FileChange) {
    f.hunks != [] && f.metadata == [] && PlainPath(f.oldPath) && PlainPath(f.newPath)
  }

  lemma {:induction false} FilesReadArePlain(s: Rows, i: nat)
    requires s.Valid() && i <= |s.text| && ParseFiles(s, i).Ok? && UnbrokenRows(s.text)
    ensures forall k :: 0 <= k < |ParseFiles(s, i).value| ==>
              ValidFile(ParseFiles(s, i).value[k]) && (Rewritable(ParseFiles(s, i).value[k]) ==>
                                                         PlainFile(ParseFiles(s, i).value[k]))
    decreases |s.text| - i
  {
    hide ParseFile, PlainFile, ValidFile, UnbrokenRows, Rewritable;
    if i < |s.text| {
      FileReadIsPlain(s, i);
      FilesReadArePlain(s, ParseFile(s, i).value.1);
    }
  }

  lemma FileReadIsPlain(s: Rows, i: nat)
    requires s.Valid() && i < |s.text| && ParseFile(s, i).Ok? && UnbrokenRows(s.text)
    ensures Rewritable(ParseFile(s, i).value.0) ==> PlainFile(ParseFile(s, i).value.0)
  {
    hide ParsePrologue, ParseSides, HeadersAgree, HunksSuffice, ValidFile, ParseHunks, PlainHunk, UnbrokenRows;
    var p := ParsePrologue(s.text, i).value;
    var (oldPath, newPath, next) := ParseSides(s.text, p).value;
    HunksReadArePlain(s, next);
  }

  lemma {:induction false} LinesAreUnbroken(raw: string, i: nat)
    requires i <= |raw| && PlainBreaks(raw)
    ensures UnbrokenRows(Contents(LinesFrom(raw, i)))
    decreases |raw| - i
  {
    if i < |raw| {
      var e := LineEnd(raw, i);
      LinesAreUnbroken(raw, e);
      LineIsPlainlyEnded(raw, i);
      assert Contents(LinesFrom(raw, i)) == [Content(raw[i..e])] + Contents(LinesFrom(raw, e));
      hide Content, LinesFrom, Unbroken;
    }
  }

  lemma ContentIsPrefix(line: string)
    ensures Content(line) <= line
  {
  }

  lemma LineIsPlainlyEnded(raw: string, i: nat)
    requires i < |raw| && PlainBreaks(raw)
    ensures Unbroken(Content(raw[i..LineEnd(raw, i)]))
  {
    var e := LineEnd(raw, i);
    var content := Content(raw[i..e]);
    ContentIsPrefix(raw[i..e]);
    forall k | 0 <= k < |content| ensures !IsStripped(content[k]) && !IsExotic(content[k]) {
      assert content[k] == raw[i..e][k] == raw[i + k];
      LineShape(raw, i, i + k);
      LastOfLine(raw, i);
    }
  }

  /** A line without LF at its end ends the text. */
  lemma {:induction false} LastOfLine(raw: string, i: nat)
    requires i < |raw| && PlainBreaks(raw)
    ensures raw[LineEnd(raw, i) - 1] == '\n' || (LineEnd(raw, i) == |raw| && !IsStripped(raw[|raw| - 1]))
    decreases |raw| - i
  {
    if !IsStripped(raw[i]) && i + 1 < |raw| {
      LastOfLine(raw, i + 1);
    }
  }

  /** Hence every accepted diff survives being written and read again, unless a file has Git metadata, no hunk or
      a path with a leading quote. */
  lemma AcceptedDiffIsReadBack(raw: string)
    requires ParseDiff(raw).Ok? && forall i :: 0 <= i < |ParseDiff(raw).value| ==> Rewritable(ParseDiff(raw).value[i])
    ensures forall i :: 0 <= i < |ParseDiff(raw).value| ==> ValidFile(ParseDiff(raw).value[i])
    ensures var files := ParseDiff(raw).value;
            ParseDiff(Render(files)).Ok? && ForgetFiles(ParseDiff(Render(files)).value) == ForgetFiles(files)
  {
    hide ValidFile, PlainFile, Rewritable, ParseFiles, PlainBreaks;
    RowsAreValid(raw);
    LinesAreUnbroken(raw, 0);
    FilesReadArePlain(RowsOf(raw), 0);
    var files := ParseDiff(raw).value;
    assert files != [] && DistinctPaths(files);
    hide ParseDiff, DistinctPaths, UnbrokenRows, RowsOf;
    RenderedChangeIsReadBack(files);
  }
}
