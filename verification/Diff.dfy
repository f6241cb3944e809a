/** Unified diffs: records and their validation, line numbers, hunk headers and the grammar of the parser. */
module Diff {
  import opened Prelude
  import opened TextLines

  datatype Fault = Invalid | Unsupported

  datatype LineKind = Context | Add | Delete | NoNewline {
    predicate OnOld() {
      Context? || Delete?
    }

    predicate OnNew() {
      Context? || Add?
    }
  }

  datatype DiffLine = DiffLine(kind: LineKind, text: string)

  /** Whole lines, numbered from one, without the last. */
  datatype LineRange = LineRange(start: nat, end: nat) {
    predicate Valid() {
      1 <= start <= end
    }

    function Count(): nat
      requires Valid()
    {
      end - start
    }
  }

  datatype Span = Span(start: nat, end: nat)

  datatype Hunk = Hunk(before: LineRange, after: LineRange, section: string, lines: seq<DiffLine>, span: Span)

  datatype ChangeKind = Modify | Added | Deleted | Rename

  datatype FileChange = FileChange(oldPath: Option<string>, newPath: Option<string>, kind: ChangeKind, hunks: seq<Hunk>,
                                   metadata: seq<string>, span: Span)

  const Marker: string := "\\ No newline at end of file"

  // ---- Validation of the records --------------------------------------------------------------------

  function OldCount(lines: seq<DiffLine>): nat {
    if lines == [] then 0 else (if lines[0].kind.OnOld() then 1 else 0) + OldCount(lines[1..])
  }

  function NewCount(lines: seq<DiffLine>): nat {
    if lines == [] then 0 else (if lines[0].kind.OnNew() then 1 else 0) + NewCount(lines[1..])
  }

  predicate ValidLine(l: DiffLine) {
    && (forall i :: 0 <= i < |l.text| ==> !IsStripped(l.text[i]))
    && (l.kind.NoNewline? ==> l.text == Marker)
  }

  /** A marker follows a content line. */
  predicate MarkersFollowContent(lines: seq<DiffLine>) {
    forall i :: 0 <= i < |lines| && lines[i].kind.NoNewline? ==> i > 0 && !lines[i - 1].kind.NoNewline?
  }

  /** The marker at `i` ends the side of the line before it. */
  predicate EndsOldAt(lines: seq<DiffLine>, i: nat) {
    0 < i < |lines| && lines[i].kind.NoNewline? && lines[i - 1].kind.OnOld()
  }

  predicate EndsNewAt(lines: seq<DiffLine>, i: nat) {
    0 < i < |lines| && lines[i].kind.NoNewline? && lines[i - 1].kind.OnNew()
  }

  predicate EndsOld(lines: seq<DiffLine>) {
    exists i :: 0 <= i < |lines| && EndsOldAt(lines, i)
  }

  predicate EndsNew(lines: seq<DiffLine>) {
    exists i :: 0 <= i < |lines| && EndsNewAt(lines, i)
  }

  /** No side goes on after its end of file. */
  predicate NothingAfterEnd(lines: seq<DiffLine>) {
    && (forall i, j :: 0 <= i < j < |lines| && EndsOldAt(lines, i) ==> !lines[j].kind.OnOld())
    && (forall i, j :: 0 <= i < j < |lines| && EndsNewAt(lines, i) ==> !lines[j].kind.OnNew())
  }

  predicate ValidHunk(h: Hunk) {
    && h.before.Valid() && h.after.Valid()
    && (forall i :: 0 <= i < |h.lines| ==> ValidLine(h.lines[i]))
    && OldCount(h.lines) == h.before.Count() && NewCount(h.lines) == h.after.Count()
    && OldCount(h.lines) + NewCount(h.lines) > 0
    && MarkersFollowContent(h.lines) && NothingAfterEnd(h.lines)
  }

  predicate KindAgrees(kind: ChangeKind, oldPath: Option<string>, newPath: Option<string>) {
    match kind
    case Added => oldPath.None? && newPath.Some?
    case Deleted => oldPath.Some? && newPath.None?
    case Modify => oldPath.Some? && oldPath == newPath
    case Rename => oldPath.Some? && newPath.Some? && oldPath != newPath
  }

  predicate Empty(r: LineRange) {
    r.start == r.end == 1
  }

  predicate InOrder(hunks: seq<Hunk>) {
    forall i :: 0 < i < |hunks| ==>
      hunks[i - 1].before.end <= hunks[i].before.start && hunks[i - 1].after.end <= hunks[i].after.start
  }

  predicate NoHunkAfterEnd(hunks: seq<Hunk>) {
    forall i, j :: 0 <= i < j < |hunks| ==>
      && (EndsOld(hunks[i].lines) ==> hunks[j].before.start == hunks[j].before.end)
      && (EndsNew(hunks[i].lines) ==> hunks[j].after.start == hunks[j].after.end)
  }

  predicate ValidFile(f: FileChange) {
    && (f.oldPath.Some? ==> IsPath(f.oldPath.value)) && (f.newPath.Some? ==> IsPath(f.newPath.value))
    && KindAgrees(f.kind, f.oldPath, f.newPath)
    && (forall i :: 0 <= i < |f.hunks| ==> ValidHunk(f.hunks[i]))
    && NoHunkAfterEnd(f.hunks) && InOrder(f.hunks)
    && (f.kind.Added? ==> forall i :: 0 <= i < |f.hunks| ==> Empty(f.hunks[i].before))
    && (f.kind.Deleted? ==> forall i :: 0 <= i < |f.hunks| ==> Empty(f.hunks[i].after))
  }

  /** No two files share a path on one side. */
  predicate DistinctPaths(files: seq<FileChange>) {
    forall i, j :: 0 <= i < j < |files| ==>
      && (files[i].oldPath.Some? ==> files[i].oldPath != files[j].oldPath)
      && (files[i].newPath.Some? ==> files[i].newPath != files[j].newPath)
  }

  predicate ValidChange(files: seq<FileChange>, length: nat) {
    && files != [] && DistinctPaths(files)
    && forall i :: 0 <= i < |files| ==>
         files[i].span.end <= length && forall j :: 0 <= j < |files[i].hunks| ==> files[i].hunks[j].span.end <= length
  }

  // ---- Paths ----------------------------------------------------------------------------------------

  /** The piece of `s` before the first `c`. */
  function Before(s: string, c: char): (r: string)
    ensures r <= s && c !in r
    ensures c !in s ==> r == s
  {
    if s == [] || s[0] == c then [] else [s[0]] + Before(s[1..], c)
  }

  function Split(s: string, c: char): (r: seq<string>)
    ensures r != []
    decreases |s|
  {
    var first := Before(s, c);
    if first == s then [s] else [first] + Split(s[|first| + 1..], c)
  }

  /** A canonical repository-relative POSIX path. */
  predicate IsCanonicalPath(path: string) {
    && '\\' !in path && (|path| > 1 ==> path[1] != ':')
    && var parts := Split(path, '/');
    forall i :: 0 <= i < |parts| ==> parts[i] != "" && parts[i] != "." && parts[i] != ".."
  }

  /** Such a path without control characters. */
  predicate IsPath(path: string) {
    IsCanonicalPath(path) && forall i :: 0 <= i < |path| ==> path[i] >= ' ' && path[i] != '\U{7F}'
  }

  /** `_path`: the path of a header, or none for the missing side. */
  function ParsePath(raw: string, prefix: string): Result<Option<string>, Fault> {
    if raw == "/dev/null" then Ok(None)
    else if "\"" <= raw then Err(Unsupported)
    else if !(prefix <= raw) || !IsPath(raw[|prefix|..]) then Err(Invalid)
    else Ok(Some(raw[|prefix|..]))
  }

  // ---- Numbers and hunk headers ---------------------------------------------------------------------

  predicate IsDigit(c: char) {
    '0' <= c <= '9'
  }

  function DigitValue(c: char): nat
    requires IsDigit(c)
  {
    c as int - '0' as int
  }

  function Number(digits: string): nat
    requires forall i :: 0 <= i < |digits| ==> IsDigit(digits[i])
  {
    if digits == [] then 0 else 10 * Number(digits[..|digits| - 1]) + DigitValue(digits[|digits| - 1])
  }

  function DigitsEnd(row: string, i: nat): (e: nat)
    requires i <= |row|
    ensures i <= e <= |row|
    ensures forall k :: i <= k < e ==> IsDigit(row[k])
    ensures e < |row| ==> !IsDigit(row[e])
    decreases |row| - i
  {
    if i < |row| && IsDigit(row[i]) then DigitsEnd(row, i + 1) else i
  }

  datatype Count = Count(start: string, count: Option<string>) {
    predicate Digits() {
      && (forall i :: 0 <= i < |start| ==> IsDigit(start[i]))
      && (count.Some? ==> forall i :: 0 <= i < |count.value| ==> IsDigit(count.value[i]))
    }
  }

  datatype Header = Header(before: Count, after: Count, section: string)

  /** A start line and an optional count, from `i` on. */
  function ParseCount(row: string, i: nat): (r: Option<(Count, nat)>)
    requires i <= |row|
    ensures r.Some? ==> i <= r.value.1 <= |row| && r.value.0.Digits()
  {
    var e := DigitsEnd(row, i);
    if e == i then None
    else if e < |row| && row[e] == ',' then
      var e' := DigitsEnd(row, e + 1);
      if e' == e + 1 then None else Some((Count(row[i..e], Some(row[e + 1..e'])), e'))
    else Some((Count(row[i..e], None), e))
  }

  /** The text at `i` begins with `word`. */
  predicate Has(row: string, i: nat, word: string)
    requires i <= |row|
  {
    i + |word| <= |row| && row[i..i + |word|] == word
  }

  function ParseHeader(row: string): (r: Option<Header>)
    ensures r.Some? ==> r.value.before.Digits() && r.value.after.Digits()
  {
    if !Has(row, 0, "@@ -") then None
    else match ParseCount(row, 4)
      case None => None
      case Some((before, i)) =>
        if !Has(row, i, " +") then None
        else match ParseCount(row, i + 2)
          case None => None
          case Some((after, j)) => if Has(row, j, " @@") then Some(Header(before, after, row[j + 3..])) else None
  }

  /** Python refuses to convert longer digit strings. */
  const MaxDigits: nat := 4300

  /** `_range`: a zero count names the gap after its line, so the range starts one line later. */
  function ParseRange(c: Count): (r: Result<LineRange, Fault>)
    requires c.Digits()
    ensures r.Ok? ==> r.value.Valid()
    ensures r.Ok? ==> r.value.Count() == if c.count.Some? then Number(c.count.value) else 1
    ensures r.Ok? ==> Number(c.start) == if r.value.Count() == 0 then r.value.start - 1 else r.value.start
    ensures r.Err? && |c.start| <= MaxDigits && (c.count.Some? ==> |c.count.value| <= MaxDigits) ==>
              Number(c.start) == 0 && (c.count.Some? ==> Number(c.count.value) > 0)
  {
    if |c.start| > MaxDigits || (c.count.Some? && |c.count.value| > MaxDigits) then Err(Invalid)
    else
      var first, length := Number(c.start), if c.count.Some? then Number(c.count.value) else 1;
      if length != 0 && first < 1 then Err(Invalid)
      else
        var normalized := if length == 0 then first + 1 else first;
        Ok(LineRange(normalized, normalized + length))
  }

  // ---- The grammar ----------------------------------------------------------------------------------

  /** The rows of a diff without their terminators, and the offset at which each begins. */
  datatype Rows = Rows(text: seq<string>, offsets: seq<nat>) {
    predicate Valid() {
      && |offsets| == |text| + 1 && offsets[0] == 0
      && forall i, j :: 0 <= i < j < |offsets| ==> offsets[i] < offsets[j]
    }
  }

  function KindOfRow(c: char): Option<LineKind> {
    if c == ' ' then Some(Context) else if c == '+' then Some(Add) else if c == '-' then Some(Delete) else None
  }

  /** The body line that a row shows, if any. */
  function LineOfRow(row: string): Option<DiffLine> {
    if row == Marker then Some(DiffLine(NoNewline, row))
    else if row == "" || KindOfRow(row[0]).None? then None
    else Some(DiffLine(KindOfRow(row[0]).value, row[1..]))
  }

  /** The body from row `i`, with `o` old lines and `n` new lines still to come. */
  function ParseBody(rows: seq<string>, i: nat, o: nat, n: nat): (r: Result<(seq<DiffLine>, nat), Fault>)
    requires i <= |rows|
    ensures r.Ok? ==> i <= r.value.1 <= |rows|
    decreases |rows| - i
  {
    if i == |rows| || (rows[i] != Marker && o == 0 && n == 0) then Ok(([], i))
    else match LineOfRow(rows[i])
      case None => Err(Invalid)
      case Some(line) =>
        if (line.kind.OnOld() && o == 0) || (line.kind.OnNew() && n == 0) then Err(Invalid)
        else match ParseBody(rows, i + 1, if line.kind.OnOld() then o - 1 else o,
                             if line.kind.OnNew() then n - 1 else n)
          case Err(e) => Err(e)
          case Ok((lines, end)) => Ok(([line] + lines, end))
  }

  function ParseHunk(s: Rows, i: nat): (r: Result<(Hunk, nat), Fault>)
    requires s.Valid() && i < |s.text|
    ensures r.Ok? ==> i < r.value.1 <= |s.text| && ValidHunk(r.value.0)
    ensures r.Ok? ==> r.value.0.span == Span(s.offsets[i], s.offsets[r.value.1])
  {
    match ParseHeader(s.text[i])
    case None => Err(Invalid)
    case Some(header) =>
      match ParseRange(header.before)
      case Err(e) => Err(e)
      case Ok(before) =>
        match ParseRange(header.after)
        case Err(e) => Err(e)
        case Ok(after) =>
          match ParseBody(s.text, i + 1, before.Count(), after.Count())
          case Err(e) => Err(e)
          case Ok((lines, end)) =>
            var hunk := Hunk(before, after, header.section, lines, Span(s.offsets[i], s.offsets[end]));
            if ValidHunk(hunk) then Ok((hunk, end)) else Err(Invalid)
  }

  /** Consecutive hunks from row `i` on. */
  function ParseHunks(s: Rows, i: nat): (r: Result<(seq<Hunk>, nat), Fault>)
    requires s.Valid() && i <= |s.text|
    ensures r.Ok? ==> i <= r.value.1 <= |s.text|
    decreases |s.text| - i
  {
    if i == |s.text| || !Has(s.text[i], 0, "@@") then Ok(([], i))
    else match ParseHunk(s, i)
      case Err(e) => Err(e)
      case Ok((hunk, next)) =>
        match ParseHunks(s, next)
        case Err(e) => Err(e)
        case Ok((hunks, end)) => Ok(([hunk] + hunks, end))
  }

  // ---- File headers ---------------------------------------------------------------------------------

  predicate AllHex(s: string) {
    s != [] && forall i :: 0 <= i < |s| ==> IsDigit(s[i]) || 'a' <= s[i] <= 'f' || 'A' <= s[i] <= 'F'
  }

  predicate IsMode(s: string) {
    |s| == 6 && forall i :: 0 <= i < |s| ==> '0' <= s[i] <= '7'
  }

  /** `index <hex>..<hex>` with an optional mode. */
  predicate IsIndex(row: string) {
    && Has(row, 0, "index ")
    && var rest := row[6..];
    var a := Before(rest, '.');
    && AllHex(a) && Has(rest, |a|, "..")
    && var tail := rest[|a| + 2..];
    var b := Before(tail, ' ');
    AllHex(b) && (b == tail || IsMode(tail[|b| + 1..]))
  }

  predicate IsModeRow(row: string) {
    || (Has(row, 0, "old mode ") && IsMode(row[9..])) || (Has(row, 0, "new mode ") && IsMode(row[9..]))
    || (Has(row, 0, "new file mode ") && IsMode(row[14..])) || (Has(row, 0, "deleted file mode ") && IsMode(row[18..]))
  }

  predicate IsSimilarity(row: string) {
    && Has(row, 0, "similarity index ")
    && var e := DigitsEnd(row, 17);
    row[e..] == "%" && (row[17..e] == "100" || 1 <= e - 17 <= 2)
  }

  predicate IsMetadata(row: string) {
    IsIndex(row) || IsModeRow(row) || IsSimilarity(row)
  }

  /** The text before the last space. */
  function UpToLastSpace(row: string): string {
    if row == [] then [] else if row[|row| - 1] == ' ' then row[..|row| - 1] else UpToLastSpace(row[..|row| - 1])
  }

  function MetadataKey(row: string): string {
    if Has(row, 0, "index ") then "index" else UpToLastSpace(row)
  }

  predicate SomeHas(metadata: seq<string>, word: string) {
    exists i :: 0 <= i < |metadata| && Has(metadata[i], 0, word)
  }

  datatype Renames = Renames(from: Option<Option<string>>, to: Option<Option<string>>)

  /** One metadata row: the rename paths after it. */
  function ParseMetadataRow(row: string, metadata: seq<string>, renames: Renames): Result<Renames, Fault> {
    var from, to := Has(row, 0, "rename from "), Has(row, 0, "rename to ");
    if (from && renames.from.Some?) || (!from && to && renames.to.Some?) then Err(Invalid)
    else
      var next :=
        if from then
          match ParsePath(row[12..], "") case Err(e) => Err(e) case Ok(p) => Ok(renames.(from := Some(p)))
        else if to then
          match ParsePath(row[10..], "") case Err(e) => Err(e) case Ok(p) => Ok(renames.(to := Some(p)))
        else if IsMetadata(row) then Ok(renames)
        else Err(Unsupported);
      if next.Err? then next
      else if row in metadata || (!Has(row, 0, "rename ") &&
                                  SomeHas(metadata, MetadataKey(row) + " ")) then Err(Invalid)
      else next
  }

  function ParseMetadata(rows: seq<string>, i: nat, metadata: seq<string>, renames: Renames)
    : (r: Result<(seq<string>, Renames, nat), Fault>)
    requires i <= |rows|
    ensures r.Ok? ==> i <= r.value.2 <= |rows|
    decreases |rows| - i
  {
    if i == |rows| || Has(rows[i], 0, "--- ") || Has(rows[i], 0, "diff --git ") then Ok((metadata, renames, i))
    else match ParseMetadataRow(rows[i], metadata, renames)
      case Err(e) => Err(e)
      case Ok(next) => ParseMetadata(rows, i + 1, metadata + [rows[i]], next)
  }

  /** The two paths of a `diff --git` row. */
  function ParseGitRow(row: string): Result<(string, string), Fault>
    requires Has(row, 0, "diff --git ")
  {
    var header := row[11..];
    var parts := Split(header, ' ');
    if '"' in header || |parts| != 2 then Err(Unsupported)
    else match ParsePath(parts[0], "a/")
      case Err(e) => Err(e)
      case Ok(a) =>
        match ParsePath(parts[1], "b/")
        case Err(e) => Err(e)
        case Ok(b) => if a.Some? && b.Some? then Ok((a.value, b.value)) else Err(Invalid)
  }

  datatype Prologue = Prologue(git: Option<(string, string)>, metadata: seq<string>, renames: Renames, next: nat)

  function ParsePrologue(rows: seq<string>, i: nat): (r: Result<Prologue, Fault>)
    requires i < |rows|
    ensures r.Ok? ==> i <= r.value.next <= |rows| && (r.value.git.Some? ==> i < r.value.next)
    ensures r.Ok? && r.value.git.None? ==> r.value == Prologue(None, [], Renames(None, None), i)
  {
    if !Has(rows[i], 0, "diff --git ") then Ok(Prologue(None, [], Renames(None, None), i))
    else match ParseGitRow(rows[i])
      case Err(e) => Err(e)
      case Ok(paths) =>
        match ParseMetadata(rows, i + 1, [], Renames(None, None))
        case Err(e) => Err(e)
        case Ok((metadata, renames, next)) => Ok(Prologue(Some(paths), metadata, renames, next))
  }

  /** The path of a `---` or `+++` row, without a tab-separated suffix. */
  function ParseSide(row: string, prefix: string): Result<Option<string>, Fault>
    requires |row| >= 4
  {
    ParsePath(Before(row[4..], '\t'), prefix)
  }

  /** The old and new path of a file, from its `---`/`+++` rows or from its Git header. */
  function ParseSides(rows: seq<string>, p: Prologue): (r: Result<(Option<string>, Option<string>, nat), Fault>)
    requires p.next <= |rows|
    ensures r.Ok? ==> p.next <= r.value.2 <= |rows| && (p.git.None? ==> p.next < r.value.2)
  {
    var i := p.next;
    if i < |rows| && Has(rows[i], 0, "--- ") then
      match ParseSide(rows[i], if p.git.Some? then "a/" else "")
      case Err(e) => Err(e)
      case Ok(oldPath) =>
        if !(i + 1 < |rows| && Has(rows[i + 1], 0, "+++ ")) then Err(Invalid)
        else match ParseSide(rows[i + 1], if p.git.Some? then "b/" else "")
          case Err(e) => Err(e)
          case Ok(newPath) => Ok((oldPath, newPath, i + 2))
    else if p.git.Some? then
      Ok((if SomeHas(p.metadata, "new file mode ") then None else Some(p.git.value.0),
          if SomeHas(p.metadata, "deleted file mode ") then None else Some(p.git.value.1), i))
    else Err(Invalid)
  }

  function KindOf(oldPath: Option<string>, newPath: Option<string>): ChangeKind {
    if oldPath.None? then Added else if newPath.None? then Deleted else if oldPath != newPath then Rename else Modify
  }

  /** The agreement of Git header, metadata and paths. */
  predicate HeadersAgree(p: Prologue, oldPath: Option<string>, newPath: Option<string>) {
    var kind := KindOf(oldPath, newPath);
    var hasRenames := p.renames.from.Some? || p.renames.to.Some?;
    var oldMode, newMode := SomeHas(p.metadata, "old mode "), SomeHas(p.metadata, "new mode ");
    && (p.git.Some? ==>
          (oldPath.None? || oldPath.value == p.git.value.0) && (newPath.None? || newPath.value == p.git.value.1))
          && (hasRenames ==> kind.Rename? && p.renames == Renames(Some(oldPath), Some(newPath)))
    && (p.git.Some? && kind.Rename? ==> hasRenames)
    && (p.git.Some? && !kind.Rename? ==> p.git.value.0 == p.git.value.1)
    && oldMode == newMode && (oldMode ==> kind.Modify? || kind.Rename?)
    && (SomeHas(p.metadata, "new file mode ") ==> kind.Added?)
    && (SomeHas(p.metadata, "deleted file mode ") ==> kind.Deleted?)
  }

  /** Whether the file may do without hunks. */
  predicate HunksSuffice(p: Prologue, kind: ChangeKind, hunks: seq<Hunk>) {
    && (hunks != [] || (p.git.Some? && p.metadata != []))
    && (hunks == [] && kind.Modify? ==> SomeHas(p.metadata, "old mode ") && SomeHas(p.metadata, "new mode "))
  }

  function ParseFile(s: Rows, i: nat): (r: Result<(FileChange, nat), Fault>)
    requires s.Valid() && i < |s.text|
    ensures r.Ok? ==> i < r.value.1 <= |s.text| && ValidFile(r.value.0)
    ensures r.Ok? ==> r.value.0.span == Span(s.offsets[i], s.offsets[r.value.1])
  {
    match ParsePrologue(s.text, i)
    case Err(e) => Err(e)
    case Ok(p) =>
      match ParseSides(s.text, p)
      case Err(e) => Err(e)
      case Ok((oldPath, newPath, next)) =>
        if !HeadersAgree(p, oldPath, newPath) then Err(Invalid)
        else match ParseHunks(s, next)
          case Err(e) => Err(e)
          case Ok((hunks, end)) =>
            var kind := KindOf(oldPath, newPath);
            var file := FileChange(oldPath, newPath, kind, hunks, p.metadata, Span(s.offsets[i], s.offsets[end]));
            if HunksSuffice(p, kind, hunks) && ValidFile(file) then Ok((file, end)) else Err(Invalid)
  }

  function ParseFiles(s: Rows, i: nat): (r: Result<seq<FileChange>, Fault>)
    requires s.Valid() && i <= |s.text|
    ensures r.Ok? && i < |s.text| ==> r.value != []
    decreases |s.text| - i
  {
    if i == |s.text| then Ok([])
    else match ParseFile(s, i)
      case Err(e) => Err(e)
      case Ok((file, next)) =>
        match ParseFiles(s, next)
        case Err(e) => Err(e)
        case Ok(files) => Ok([file] + files)
  }

  // ---- The whole diff -------------------------------------------------------------------------------

  function Without(line: string, c: char): string {
    if line != [] && line[|line| - 1] == c then line[..|line| - 1] else line
  }

  /** A row without its terminator. */
  function Content(line: string): string {
    Without(Without(line, '\n'), '\r')
  }

  function Contents(lines: seq<string>): (r: seq<string>)
    ensures |r| == |lines| && forall i :: 0 <= i < |lines| ==> r[i] == Content(lines[i])
  {
    seq(|lines|, i requires 0 <= i < |lines| => Content(lines[i]))
  }

  function Offsets(lines: seq<string>): (r: seq<nat>)
    ensures |r| == |lines| + 1 && forall i :: 0 <= i <= |lines| ==> r[i] == SumLengths(lines[..i])
  {
    seq(|lines| + 1, i requires 0 <= i <= |lines| => SumLengths(lines[..i]))
  }

  /** Only LF and CRLF end lines. */
  predicate PlainBreaks(raw: string) {
    && (forall i :: 0 <= i < |raw| && raw[i] == '\r' ==> i + 1 < |raw| && raw[i + 1] == '\n')
    && forall i :: 0 <= i < |raw| ==> !IsExotic(raw[i])
  }

  predicate EndsWith(row: string, word: string) {
    |word| <= |row| && row[|row| - |word|..] == word
  }

  predicate IsCombinedOrBinary(row: string) {
    || Has(row, 0, "diff --cc ") || Has(row, 0, "diff --combined ") || Has(row, 0, "@@@")
    || row == "GIT binary patch" || (Has(row, 0, "Binary files ") && EndsWith(row, " differ"))
  }

  predicate SomeCombinedOrBinary(rows: seq<string>) {
    exists i :: 0 <= i < |rows| && IsCombinedOrBinary(rows[i])
  }

  function RowsOf(raw: string): Rows {
    var lines := SplitLines(raw);
    Rows(Contents(lines), Offsets(lines))
  }

  lemma {:induction false} LinesNonEmpty(text: string, i: nat, k: nat)
    requires i <= |text| && k < |LinesFrom(text, i)|
    ensures LinesFrom(text, i)[k] != []
    decreases k
  {
    if k > 0 {
      LinesNonEmpty(text, LineEnd(text, i), k - 1);
    }
  }

  lemma {:induction false} SumGrows(lines: seq<string>, i: nat, j: nat)
    requires i <= j <= |lines| && forall k :: 0 <= k < |lines| ==> lines[k] != []
    ensures SumLengths(lines[..i]) + (j - i) <= SumLengths(lines[..j])
    decreases |lines|
  {
    if i == 0 {
      if j > 0 {
        assert lines[..j][1..] == lines[1..][..j - 1];
        SumGrows(lines[1..], 0, j - 1);
        assert lines[1..][..0] == [];
      }
      assert lines[..0] == [];
    } else {
      assert lines[..i][1..] == lines[1..][..i - 1] && lines[..j][1..] == lines[1..][..j - 1];
      SumGrows(lines[1..], i - 1, j - 1);
    }
  }

  lemma RowsAreValid(raw: string)
    ensures RowsOf(raw).Valid()
  {
    var lines := SplitLines(raw);
    forall k | 0 <= k < |lines| ensures lines[k] != [] {
      LinesNonEmpty(raw, 0, k);
    }
    forall i, j | 0 <= i < j <= |lines| ensures Offsets(lines)[i] < Offsets(lines)[j] {
      SumGrows(lines, i, j);
    }
    assert lines[..0] == [];
  }

  /** `parse_unified_diff`: all files of the diff, or the reason for refusing it. */
  function ParseDiff(raw: string): Result<seq<FileChange>, Fault> {
    RowsAreValid(raw);
    if !PlainBreaks(raw) then Err(Invalid)
    else if SomeCombinedOrBinary(RowsOf(raw).text) then Err(Unsupported)
    else match ParseFiles(RowsOf(raw), 0)
      case Err(e) => Err(e)
      case Ok(files) => if ValidChange(files, |raw|) then Ok(files) else Err(Invalid)
  }
}
