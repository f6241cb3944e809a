/** The cursor that parses a diff row by row, and what every accepted diff looks like. */
module DiffParsers {
  import opened Prelude
  import opened TextLines
  import opened Diff

  /** Checks a hunk in one pass, remembering which sides have ended. */
  method ValidateMarkers(lines: seq<DiffLine>) returns (ok: bool)
    ensures ok <==> MarkersFollowContent(lines) && NothingAfterEnd(lines)
  {
    var oldEnded, newEnded := false, false;
    ok := true;
    for i := 0 to |lines|
      invariant ok
      invariant oldEnded <==> exists k :: 0 <= k < i && EndsOldAt(lines, k)
      invariant newEnded <==> exists k :: 0 <= k < i && EndsNewAt(lines, k)
      invariant forall k :: 0 <= k < i && lines[k].kind.NoNewline? ==> k > 0 && !lines[k - 1].kind.NoNewline?
      invariant forall j, k :: 0 <= j < k < i && EndsOldAt(lines, j) ==> !lines[k].kind.OnOld()
      invariant forall j, k :: 0 <= j < k < i && EndsNewAt(lines, j) ==> !lines[k].kind.OnNew()
    {
      var kind := lines[i].kind;
      if kind.NoNewline? {
        if i == 0 || lines[i - 1].kind.NoNewline? {
          return false;
        }
        assert EndsOldAt(lines, i) <==> lines[i - 1].kind.OnOld();
        assert EndsNewAt(lines, i) <==> lines[i - 1].kind.OnNew();
        oldEnded := oldEnded || lines[i - 1].kind.OnOld();
        newEnded := newEnded || lines[i - 1].kind.OnNew();
      } else if (oldEnded && kind.OnOld()) || (newEnded && kind.OnNew()) {
        return false;
      }
    }
  }

  method ValidateHunk(h: Hunk) returns (ok: bool)
    ensures ok <==> ValidHunk(h)
  {
    if !(h.before.Valid() && h.after.Valid() && forall i :: 0 <= i < |h.lines| ==> ValidLine(h.lines[i])) {
      return false;
    }
    if OldCount(h.lines) != h.before.Count() || NewCount(h.lines) != h.after.Count() ||
      OldCount(h.lines) + NewCount(h.lines) == 0
    {
      return false;
    }
    ok := ValidateMarkers(h.lines);
  }

  /** The sides that a hunk's markers end. */
  method Ends(lines: seq<DiffLine>) returns (oldEnded: bool, newEnded: bool)
    ensures oldEnded == EndsOld(lines) && newEnded == EndsNew(lines)
  {
    oldEnded, newEnded := false, false;
    for i := 0 to |lines|
      invariant oldEnded <==> exists k :: 0 <= k < i && EndsOldAt(lines, k)
      invariant newEnded <==> exists k :: 0 <= k < i && EndsNewAt(lines, k)
    {
      if lines[i].kind.NoNewline? && i > 0 {
        assert EndsOldAt(lines, i) <==> lines[i - 1].kind.OnOld();
        assert EndsNewAt(lines, i) <==> lines[i - 1].kind.OnNew();
        oldEnded := oldEnded || lines[i - 1].kind.OnOld();
        newEnded := newEnded || lines[i - 1].kind.OnNew();
      }
    }
  }

  /** Checks the hunks of a file in one pass, then their order. */
  method ValidateFile(f: FileChange) returns (ok: bool)
    requires forall i :: 0 <= i < |f.hunks| ==> ValidHunk(f.hunks[i])
    ensures ok <==> ValidFile(f)
  {
    hide IsPath, ValidHunk, EndsOld, EndsNew;
    if !((f.oldPath.Some? ==> IsPath(f.oldPath.value)) && (f.newPath.Some? ==> IsPath(f.newPath.value))
         && KindAgrees(f.kind, f.oldPath, f.newPath)) {
      return false;
    }
    var oldEnded, newEnded := false, false;
    for i := 0 to |f.hunks|
      invariant oldEnded <==> exists k :: 0 <= k < i && EndsOld(f.hunks[k].lines)
      invariant newEnded <==> exists k :: 0 <= k < i && EndsNew(f.hunks[k].lines)
      invariant NoHunkAfterEnd(f.hunks[..i])
      invariant f.kind.Added? ==> forall k :: 0 <= k < i ==> Empty(f.hunks[k].before)
      invariant f.kind.Deleted? ==> forall k :: 0 <= k < i ==> Empty(f.hunks[k].after)
    {
      var h := f.hunks[i];
      if (oldEnded && h.before.start != h.before.end) || (newEnded && h.after.start != h.after.end) {
        return false;
      }
      if (f.kind.Added? && !Empty(h.before)) || (f.kind.Deleted? && !Empty(h.after)) {
        return false;
      }
      var o, n := Ends(h.lines);
      oldEnded, newEnded := oldEnded || o, newEnded || n;
    }
    assert f.hunks[..|f.hunks|] == f.hunks;
    ok := InOrder(f.hunks);
  }

  /** `whole` is what was read so far followed by `rest`. */
  ghost predicate Continues<T>(whole: Result<(seq<T>, nat), Fault>, read: seq<T>, rest: Result<(seq<T>, nat), Fault>) {
    match rest
    case Ok((more, end)) => whole == Ok((read + more, end))
    case Err(e) => whole == Err(e)
  }

  lemma ContinuesAtStart<T>(whole: Result<(seq<T>, nat), Fault>)
    ensures Continues(whole, [], whole)
  {
    if whole.Ok? {
      assert [] + whole.value.0 == whole.value.0;
    }
  }

  lemma ContinuesAfter<T>(whole: Result<(seq<T>, nat), Fault>, read: seq<T>, x: T, rest: Result<(seq<T>, nat), Fault>,
                          next: Result<(seq<T>, nat), Fault>)
    requires Continues(whole, read, rest) && Continues(rest, [x], next)
    ensures Continues(whole, read + [x], next)
  {
    if next.Ok? {
      assert read + [x] + next.value.0 == read + ([x] + next.value.0);
    }
  }

  lemma ContinuesToEnd<T>(whole: Result<(seq<T>, nat), Fault>, read: seq<T>, end: nat)
    requires Continues(whole, read, Ok(([], end)))
    ensures whole == Ok((read, end))
  {
    assert read + [] == read;
  }

  class DiffParser {
    const rows: Rows
    var i: nat

    predicate Valid()
      reads this
    {
      rows.Valid() && i <= |rows.text|
    }

    constructor (raw: string)
      ensures Valid() && i == 0 && rows == RowsOf(raw)
    {
      RowsAreValid(raw);
      rows := RowsOf(raw);
      i := 0;
    }

    /** Reads one hunk; stops by the declared counts, never by what a row looks like. */
    method Hunk() returns (r: Result<Hunk, Fault>)
      requires Valid() && i < |rows.text|
      modifies this`i
      ensures Valid()
      ensures match ParseHunk(rows, old(i))
              case Ok((hunk, end)) => r == Ok(hunk) && i == end
              case Err(e) => r == Err(e)
    {
      hide MarkersFollowContent, NothingAfterEnd, ParseHeader;
      var start := i;
      var header := ParseHeader(rows.text[i]);
      if header.None? {
        return Err(Invalid);
      }
      var before, after := ParseRange(header.value.before), ParseRange(header.value.after);
      if before.Err? {
        return Err(before.error);
      }
      if after.Err? {
        return Err(after.error);
      }
      i := i + 1;
      var body := Body(before.value.Count(), after.value.Count());
      if body.Err? {
        return Err(body.error);
      }
      var hunk := Diff.Hunk(before.value, after.value, header.value.section, body.value,
                            Span(rows.offsets[start], rows.offsets[i]));
      var valid := ValidateHunk(hunk);
      if valid {
        return Ok(hunk);
      }
      return Err(Invalid);
    }

    /** The counting loop. */
    method Body(o: nat, n: nat) returns (r: Result<seq<DiffLine>, Fault>)
      requires Valid()
      modifies this`i
      ensures Valid()
      ensures match ParseBody(rows.text, old(i), o, n)
              case Ok((lines, end)) => r == Ok(lines) && i == end
              case Err(e) => r == Err(e)
    {
      var body: seq<DiffLine> := [];
      var oldCount, newCount := 0, 0;
      ghost var whole := ParseBody(rows.text, i, o, n);
      ContinuesAtStart(whole);
      while i < |rows.text|
        invariant Valid() && oldCount <= o && newCount <= n
        invariant Continues(whole, body, ParseBody(rows.text, i, o - oldCount, n - newCount))
      {
        ghost var rest := ParseBody(rows.text, i, o - oldCount, n - newCount);
        var row := rows.text[i];
        if row != Marker && oldCount == o && newCount == n {
          break;
        }
        var line := LineOfRow(row);
        if line.None? {
          return Err(Invalid);
        }
        oldCount := if line.value.kind.OnOld() then oldCount + 1 else oldCount;
        newCount := if line.value.kind.OnNew() then newCount + 1 else newCount;
        if oldCount > o || newCount > n {
          return Err(Invalid);
        }
        i := i + 1;
        ContinuesAfter(whole, body, line.value, rest, ParseBody(rows.text, i, o - oldCount, n - newCount));
        body := body + [line.value];
      }
      ContinuesToEnd(whole, body, i);
      return Ok(body);
    }

    method File() returns (r: Result<FileChange, Fault>)
      requires Valid() && i < |rows.text|
      modifies this`i
      ensures Valid()
      ensures match ParseFile(rows, old(i))
              case Ok((file, end)) => r == Ok(file) && i == end
              case Err(e) => r == Err(e)
    {
      hide ParsePrologue, ParseSides, HeadersAgree, HunksSuffice, ValidFile;
      var start := i;
      var p := ParsePrologue(rows.text, i);
      if p.Err? {
        return Err(p.error);
      }
      var sides := ParseSides(rows.text, p.value);
      if sides.Err? {
        return Err(sides.error);
      }
      var (oldPath, newPath, next) := sides.value;
      i := next;
      if !HeadersAgree(p.value, oldPath, newPath) {
        return Err(Invalid);
      }
      var hunks := Hunks();
      if hunks.Err? {
        return Err(hunks.error);
      }
      var kind := KindOf(oldPath, newPath);
      var file := FileChange(oldPath, newPath, kind, hunks.value, p.value.metadata,
                             Span(rows.offsets[start], rows.offsets[i]));
      var valid := ValidateFile(file);
      if HunksSuffice(p.value, kind, hunks.value) && valid {
        return Ok(file);
      }
      return Err(Invalid);
    }

    method Hunks() returns (r: Result<seq<Hunk>, Fault>)
      requires Valid()
      modifies this`i
      ensures Valid()
      ensures match ParseHunks(rows, old(i))
              case Ok((hunks, end)) => r == Ok(hunks) && i == end
                                       && forall k :: 0 <= k < |hunks| ==> ValidHunk(hunks[k])
              case Err(e) => r == Err(e)
    {
      hide ParseHunk, ValidHunk;
      var hunks := [];
      ghost var whole := ParseHunks(rows, i);
      ContinuesAtStart(whole);
      while i < |rows.text| && Has(rows.text[i], 0, "@@")
        invariant Valid()
        invariant Continues(whole, hunks, ParseHunks(rows, i))
        invariant forall k :: 0 <= k < |hunks| ==> ValidHunk(hunks[k])
        decreases |rows.text| - i
      {
        ghost var rest := ParseHunks(rows, i);
        var hunk := Hunk();
        if hunk.Err? {
          return Err(hunk.error);
        }
        ContinuesAfter(whole, hunks, hunk.value, rest, ParseHunks(rows, i));
        hunks := hunks + [hunk.value];
      }
      ContinuesToEnd(whole, hunks, i);
      return Ok(hunks);
    }

    method Parse() returns (r: Result<seq<FileChange>, Fault>)
      requires Valid() && i == 0
      modifies this`i
      ensures Valid()
      ensures r == if SomeCombinedOrBinary(rows.text) then Err(Unsupported) else ParseFiles(rows, 0)
    {
      hide ParseFile;
      for k := 0 to |rows.text|
        invariant forall j :: 0 <= j < k ==> !IsCombinedOrBinary(rows.text[j])
      {
        if IsCombinedOrBinary(rows.text[k]) {
          return Err(Unsupported);
        }
      }
      var files := [];
      ghost var whole := ParseFiles(rows, 0);
      assert whole.Ok? ==> [] + whole.value == whole.value;
      while i < |rows.text|
        invariant Valid()
        invariant match ParseFiles(rows, i)
                  case Ok(more) => whole == Ok(files + more)
                  case Err(e) => whole == Err(e)
        decreases |rows.text| - i
      {
        ghost var before := files;
        var file := File();
        if file.Err? {
          return Err(file.error);
        }
        files := files + [file.value];
        ghost var rest := ParseFiles(rows, i);
        assert rest.Ok? ==> before + ([file.value] + rest.value) == files + rest.value;
      }
      assert files + [] == files;
      return Ok(files);
    }
  }

  method ParseUnifiedDiff(raw: string) returns (r: Result<seq<FileChange>, Fault>)
    ensures r == ParseDiff(raw)
  {
    hide ParseFiles, SomeCombinedOrBinary, ValidChange, RowsOf;
    if !PlainBreaks(raw) {
      return Err(Invalid);
    }
    var parser := new DiffParser(raw);
    r := parser.Parse();
    if r.Ok? && !ValidChange(r.value, |raw|) {
      return Err(Invalid);
    }
  }

  // ---- Spans ----------------------------------------------------------------------------------------

  /** Hunk spans follow one another without a gap. */
  predicate HunksTile(hunks: seq<Hunk>, start: nat, end: nat) {
    if hunks == [] then start == end
    else
      && hunks[0].span.start == start < hunks[0].span.end <= end
      && HunksTile(hunks[1..], hunks[0].span.end, end)
  }

  /** The hunks of a file fill the end of its span; only its header rows come before them. */
  predicate HunksInside(f: FileChange) {
    f.hunks != [] ==> f.span.start < f.hunks[0].span.start && HunksTile(f.hunks, f.hunks[0].span.start, f.span.end)
  }

  predicate FilesTile(files: seq<FileChange>, start: nat, end: nat) {
    if files == [] then start == end
    else
      && files[0].span.start == start < files[0].span.end <= end && HunksInside(files[0])
      && FilesTile(files[1..], files[0].span.end, end)
  }

  lemma {:induction false} ParsedHunksTile(s: Rows, i: nat)
    requires s.Valid() && i <= |s.text| && ParseHunks(s, i).Ok?
    ensures HunksTile(ParseHunks(s, i).value.0, s.offsets[i], s.offsets[ParseHunks(s, i).value.1])
    ensures forall k :: 0 <= k < |ParseHunks(s, i).value.0| ==>
              ParseHunks(s, i).value.0[k].span.end <= s.offsets[|s.text|]
    decreases |s.text| - i
  {
    hide ParseHunk;
    if !(i == |s.text| || !Has(s.text[i], 0, "@@")) {
      ParsedHunksTile(s, ParseHunk(s, i).value.1);
    }
  }

  lemma ParsedFileTiles(s: Rows, i: nat)
    requires s.Valid() && i < |s.text| && ParseFile(s, i).Ok?
    ensures HunksInside(ParseFile(s, i).value.0)
    ensures forall k :: 0 <= k < |ParseFile(s, i).value.0.hunks| ==>
              ParseFile(s, i).value.0.hunks[k].span.end <= s.offsets[|s.text|]
  {
    hide ParsePrologue, ParseSides, HeadersAgree, HunksSuffice, ValidFile, ParseHunks;
    var p := ParsePrologue(s.text, i).value;
    var (oldPath, newPath, next) := ParseSides(s.text, p).value;
    SidesAdvance(s.text, i);
    ParsedHunksTile(s, next);
    var hunks := ParseHunks(s, next).value.0;
    assert hunks != [] ==> hunks[0].span.start == s.offsets[next];
  }

  lemma SidesAdvance(rows: seq<string>, i: nat)
    requires i < |rows| && ParsePrologue(rows, i).Ok? && ParseSides(rows, ParsePrologue(rows, i).value).Ok?
    ensures i < ParseSides(rows, ParsePrologue(rows, i).value).value.2 <= |rows|
  {
  }

  lemma {:induction false} ParsedFilesTile(s: Rows, i: nat)
    requires s.Valid() && i <= |s.text| && ParseFiles(s, i).Ok?
    ensures FilesTile(ParseFiles(s, i).value, s.offsets[i], s.offsets[|s.text|])
    decreases |s.text| - i
  {
    hide ParseFile, HunksInside;
    if i < |s.text| {
      ParsedFileTiles(s, i);
      ParsedFilesTile(s, ParseFile(s, i).value.1);
    }
  }

  lemma {:induction false} OffsetsEnd(text: string, i: nat)
    requires i <= |text|
    ensures SumLengths(LinesFrom(text, i)) == |text| - i
    decreases |text| - i
  {
    if i < |text| {
      OffsetsEnd(text, LineEnd(text, i));
      assert LinesFrom(text, i)[1..] == LinesFrom(text, LineEnd(text, i));
    }
  }

  lemma LastOffset(raw: string)
    ensures RowsOf(raw).offsets[|RowsOf(raw).text|] == |raw|
  {
    var lines := SplitLines(raw);
    OffsetsEnd(raw, 0);
    assert lines[..|lines|] == lines;
  }

  lemma AcceptedIsParsed(raw: string)
    requires ParseDiff(raw).Ok?
    ensures RowsOf(raw).Valid() && ParseFiles(RowsOf(raw), 0) == ParseDiff(raw)
  {
    hide ParseFiles, RowsOf, ValidChange, SomeCombinedOrBinary, PlainBreaks;
    RowsAreValid(raw);
  }

  /** The file spans of every accepted diff tile the raw text, and inside each the hunk spans tile all but the
      headers. */
  lemma SpansTileTheDiff(raw: string)
    requires ParseDiff(raw).Ok?
    ensures FilesTile(ParseDiff(raw).value, 0, |raw|)
  {
    hide *;
    AcceptedIsParsed(raw);
    LastOffset(raw);
    FirstOffset(RowsOf(raw));
    ParsedFilesTile(RowsOf(raw), 0);
  }

  lemma FirstOffset(s: Rows)
    requires s.Valid()
    ensures s.offsets[0] == 0 && |s.offsets| == |s.text| + 1
  {
  }

  // ---- Git headers ----------------------------------------------------------------------------------

  lemma {:induction false} MetadataIsVerbatim(rows: seq<string>, i: nat, metadata: seq<string>, renames: Renames)
    requires i <= |rows| && ParseMetadata(rows, i, metadata, renames).Ok?
    ensures var (all, _, next) := ParseMetadata(rows, i, metadata, renames).value; all == metadata + rows[i..next]
    decreases |rows| - i
  {
    hide ParseMetadataRow;
    if !(i == |rows| || Has(rows[i], 0, "--- ") || Has(rows[i], 0, "diff --git ")) {
      var next := ParseMetadataRow(rows[i], metadata, renames).value;
      MetadataIsVerbatim(rows, i + 1, metadata + [rows[i]], next);
      var end := ParseMetadata(rows, i + 1, metadata + [rows[i]], next).value.2;
      assert rows[i..end] == [rows[i]] + rows[i + 1..end];
    }
  }

  /** An accepted file that begins with a Git row has the paths of that row, is a rename exactly when they differ, and
      keeps the rows after it as its metadata. */
  lemma GitRowDecides(s: Rows, i: nat)
    requires s.Valid() && i < |s.text| && Has(s.text[i], 0, "diff --git ") && ParseFile(s, i).Ok?
    ensures ParseGitRow(s.text[i]).Ok?
    ensures var f, (a, b) := ParseFile(s, i).value.0, ParseGitRow(s.text[i]).value;
            && (f.oldPath.None? || f.oldPath == Some(a)) && (f.newPath.None? || f.newPath == Some(b))
            && (f.kind.Rename? <==> a != b)
            && f.metadata <= s.text[i + 1..]
  {
    hide ParseSides, ParseHunks, ParseMetadata, ParseGitRow, HunksSuffice, ValidFile, SomeHas;
    var p := ParsePrologue(s.text, i).value;
    MetadataIsVerbatim(s.text, i + 1, [], Renames(None, None));
    assert s.text[i + 1..p.next] <= s.text[i + 1..];
  }

  // ---- Nothing is lost ------------------------------------------------------------------------------

  /** A body line as the row that shows it. */
  function ShowLine(l: DiffLine): string {
    match l.kind
    case Context => " " + l.text
    case Add => "+" + l.text
    case Delete => "-" + l.text
    case NoNewline => Marker
  }

  function ShowLines(lines: seq<DiffLine>): (r: seq<string>)
    ensures |r| == |lines| && forall i :: 0 <= i < |lines| ==> r[i] == ShowLine(lines[i])
  {
    seq(|lines|, i requires 0 <= i < |lines| => ShowLine(lines[i]))
  }

  lemma LineIsVerbatim(row: string)
    requires LineOfRow(row).Some?
    ensures ShowLine(LineOfRow(row).value) == row
  {
  }

  /** A body that goes on is its first line and the body after it. */
  lemma BodyGoesOn(rows: seq<string>, i: nat, o: nat, n: nat) returns (line: DiffLine, o': nat, n': nat)
    requires i < |rows| && !(rows[i] != Marker && o == 0 && n == 0) && ParseBody(rows, i, o, n).Ok?
    ensures LineOfRow(rows[i]) == Some(line) && ParseBody(rows, i + 1, o', n').Ok?
    ensures var (rest, end) := ParseBody(rows, i + 1, o', n').value;
              ParseBody(rows, i, o, n).value == ([line] + rest, end)
  {
    hide LineOfRow, Marker;
    line := LineOfRow(rows[i]).value;
    o', n' := if line.kind.OnOld() then o - 1 else o, if line.kind.OnNew() then n - 1 else n;
  }

  lemma {:induction false} BodyIsVerbatim(rows: seq<string>, i: nat, o: nat, n: nat)
    requires i <= |rows| && ParseBody(rows, i, o, n).Ok?
    ensures ShowLines(ParseBody(rows, i, o, n).value.0) == rows[i..ParseBody(rows, i, o, n).value.1]
    decreases |rows| - i
  {
    if !(i == |rows| || (rows[i] != Marker && o == 0 && n == 0)) {
      hide ParseBody, LineOfRow, ShowLine, ShowLines, Marker;
      var line, o', n' := BodyGoesOn(rows, i, o, n);
      BodyIsVerbatim(rows, i + 1, o', n');
      var (lines, end) := ParseBody(rows, i + 1, o', n').value;
      LineIsVerbatim(rows[i]);
      ShownFrom(rows, i, end, line, lines);
    }
  }

  lemma ShowOneMore(line: DiffLine, lines: seq<DiffLine>)
    ensures ShowLines([line] + lines) == [ShowLine(line)] + ShowLines(lines)
  {
  }

  lemma ShownFrom(rows: seq<string>, i: nat, end: nat, line: DiffLine, lines: seq<DiffLine>)
    requires i < end <= |rows| && ShowLine(line) == rows[i] && ShowLines(lines) == rows[i + 1..end]
    ensures ShowLines([line] + lines) == rows[i..end]
  {
    ShowOneMore(line, lines);
    assert rows[i..end] == [rows[i]] + rows[i + 1..end];
  }

  /** An accepted hunk shows exactly the rows it was read from, and the row after it is no part of it. */
  lemma HunkIsVerbatim(s: Rows, i: nat)
    requires s.Valid() && i < |s.text| && ParseHunk(s, i).Ok?
    ensures var (hunk, end) := ParseHunk(s, i).value;
            && ShowLines(hunk.lines) == s.text[i + 1..end]
            && (end < |s.text| ==> s.text[end] != Marker)
  {
    hide ValidHunk, ParseHeader;
    var header := ParseHeader(s.text[i]).value;
    var o, n := ParseRange(header.before).value.Count(), ParseRange(header.after).value.Count();
    BodyIsVerbatim(s.text, i + 1, o, n);
    BodyEnds(s.text, i + 1, o, n);
  }

  lemma {:induction false} BodyEnds(rows: seq<string>, i: nat, o: nat, n: nat)
    requires i <= |rows| && ParseBody(rows, i, o, n).Ok?
    ensures var end := ParseBody(rows, i, o, n).value.1; end < |rows| ==> rows[end] != Marker
    decreases |rows| - i
  {
    if !(i == |rows| || (rows[i] != Marker && o == 0 && n == 0)) {
      var kind := LineOfRow(rows[i]).value.kind;
      BodyEnds(rows, i + 1, if kind.OnOld() then o - 1 else o, if kind.OnNew() then n - 1 else n);
    }
  }
}
