/** Every accepted diff is one that `git diff` or a plain diff could have printed: it can be written again and read
    back. */
module GitAcceptance {
  import opened Prelude
  import opened TextLines
  import opened Diff
  import opened DiffParsers
  import opened DiffRoundTrip
  import opened GitRoundTrip

  // ---- Every accepted metadata row is a shown one ---------------------------------------------------

  function HexValue(c: char): (d: nat)
    requires IsDigit(c) || 'a' <= c <= 'f' || 'A' <= c <= 'F'
    ensures d < |HexDigits| && HexDigits[d] == c
  {
    if IsDigit(c) then c as int - '0' as int
    else if 'a' <= c <= 'f' then c as int - 'a' as int + 10
    else c as int - 'A' as int + 16
  }

  function OctalValue(c: char): (d: nat)
    requires '0' <= c <= '7'
    ensures d < |OctalDigits| && OctalDigits[d] == c
  {
    c as int - '0' as int
  }

  function DecimalValue(c: char): (d: nat)
    requires IsDigit(c)
    ensures d < |DecimalDigits| && DecimalDigits[d] == c
  {
    c as int - '0' as int
  }

  lemma HexIsSpelled(s: string) returns (digits: seq<nat>)
    requires AllHex(s)
    ensures digits != [] && Spells(digits, HexDigits) && Spell(digits, HexDigits) == s
  {
    digits := seq(|s|, i requires 0 <= i < |s| => HexValue(s[i]));
  }

  lemma ModeIsSpelled(s: string) returns (digits: seq<nat>)
    requires IsMode(s)
    ensures |digits| == 6 && Spells(digits, OctalDigits) && Spell(digits, OctalDigits) == s
  {
    digits := seq(|s|, i requires 0 <= i < |s| => OctalValue(s[i]));
  }

  lemma DecimalIsSpelled(s: string) returns (digits: seq<nat>)
    requires forall i :: 0 <= i < |s| ==> IsDigit(s[i])
    ensures |digits| == |s| && Spells(digits, DecimalDigits) && Spell(digits, DecimalDigits) == s
    ensures forall i :: 0 <= i < |s| ==> digits[i] == DigitValue(s[i])
  {
    digits := seq(|s|, i requires 0 <= i < |s| => DecimalValue(s[i]));
  }

  /** An index row in its pieces. */
  lemma IndexPieces(row: string) returns (a: string, b: string, mode: Option<string>)
    requires IsIndex(row)
    ensures AllHex(a) && AllHex(b) && (mode.Some? ==> IsMode(mode.value))
    ensures row == "index " + (a + ".." + b + ModeSuffix(mode))
  {
    hide AllHex, IsMode, ModeSuffix, Has, Before;
    StartsWith(row, "index ");
    a, b, mode := RestPieces(row[6..], Before(row[6..], '.'));
  }

  lemma RestPieces(rest: string, start: string) returns (a: string, b: string, mode: Option<string>)
    requires start <= rest && AllHex(start) && Has(rest, |start|, "..")
    requires var tail := rest[|start| + 2..];
             AllHex(Before(tail, ' ')) && (Before(tail, ' ') == tail || IsMode(tail[|Before(tail, ' ')| + 1..]))
    ensures AllHex(a) && AllHex(b) && (mode.Some? ==> IsMode(mode.value))
    ensures rest == a + ".." + b + ModeSuffix(mode)
  {
    hide AllHex, IsMode, ModeSuffix, Has, Before;
    a := start;
    AfterWord(rest, |a|, "..");
    b, mode := TailPieces(rest[|a| + 2..]);
    Regroup(a + "..", b, ModeSuffix(mode));
  }

  lemma Regroup(x: string, y: string, z: string)
    ensures x + (y + z) == x + y + z
  {
  }

  lemma StartsWith(row: string, word: string)
    requires Has(row, 0, word)
    ensures |word| <= |row| && row == word + row[|word|..]
  {
  }

  lemma AfterWord(row: string, i: nat, word: string)
    requires i <= |row| && Has(row, i, word)
    ensures i + |word| <= |row| && row == row[..i] + word + row[i + |word|..]
  {
  }

  lemma TailPieces(tail: string) returns (b: string, mode: Option<string>)
    requires var b := Before(tail, ' '); AllHex(b) && (b == tail || IsMode(tail[|b| + 1..]))
    ensures AllHex(b) && (mode.Some? ==> IsMode(mode.value)) && tail == b + ModeSuffix(mode)
  {
    hide AllHex, IsMode;
    b := Before(tail, ' ');
    if b == tail {
      mode := None;
    } else {
      BeforeStops(tail, ' ');
      mode := Some(tail[|b| + 1..]);
      assert tail == b + " " + mode.value;
    }
  }

  lemma {:induction false} BeforeStops(s: string, c: char)
    ensures Before(s, c) == s || (|Before(s, c)| < |s| && s[|Before(s, c)|] == c)
  {
    if s != [] && s[0] != c {
      BeforeStops(s[1..], c);
    }
  }

  lemma IndexIsShown(row: string) returns (m: Meta)
    requires IsIndex(row)
    ensures m.Valid() && m.IndexMeta? && ShowMeta(m) == row
  {
    var a, b, mode := IndexPieces(row);
    hide IsIndex, AllHex, IsMode, Spell, Spells;
    var x := HexIsSpelled(a);
    var y := HexIsSpelled(b);
    var digits: Option<seq<nat>> := None;
    if mode.Some? {
      var z := ModeIsSpelled(mode.value);
      digits := Some(z);
    }
    m := IndexMeta(x, y, digits);
    assert SpelledMode(digits) == mode;
    assert Words(IndexKind) + " " == "index ";
  }

  lemma ModeRowIsShown(row: string) returns (m: Meta)
    requires IsModeRow(row)
    ensures m.Valid() && m.ModeMeta? && ShowMeta(m) == row
  {
    var which := if Has(row, 0, "old mode ") then OldMode else if Has(row, 0, "new mode ") then NewMode
                 else if Has(row, 0, "new file mode ") then NewFileMode else DeletedFileMode;
    var word := Words(which) + " ";
    KindWords();
    OnlyOneMode(row);
    assert Has(row, 0, word) && IsMode(row[|word|..]);
    var digits := ModeIsSpelled(row[|word|..]);
    m := ModeMeta(which, digits);
    assert row == row[0..|word|] + row[|word|..];
    hide IsMode, Spell, Spells;
  }

  lemma OnlyOneMode(row: string)
    ensures Has(row, 0, "old mode ") ==> !Has(row, 0, "new mode ") && !Has(row, 0, "new file mode ")
    ensures Has(row, 0, "old mode ") ==> !Has(row, 0, "deleted file mode ")
    ensures Has(row, 0, "new mode ") ==> !Has(row, 0, "new file mode ") && !Has(row, 0, "deleted file mode ")
    ensures Has(row, 0, "new file mode ") ==> !Has(row, 0, "deleted file mode ")
  {
    hide Has;
    StartsAlike(row, "old mode ", 0);
    StartsAlike(row, "new mode ", 0);
    StartsAlike(row, "new file mode ", 0);
    StartsAlike(row, "deleted file mode ", 0);
    StartsAlike(row, "new mode ", 4);
    StartsAlike(row, "new file mode ", 4);
  }

  lemma SimilarityIsShown(row: string) returns (m: Meta)
    requires IsSimilarity(row)
    ensures m.Valid() && m.SimilarityMeta? && ShowMeta(m) == row
  {
    var e := DigitsEnd(row, 17);
    var digits := DecimalIsSpelled(row[17..e]);
    assert row == row[0..17] + (row[17..e] + row[e..]);
    if row[17..e] == "100" {
      assert digits == [1, 0, 0];
    }
    m := SimilarityMeta(digits);
    assert Words(SimilarityKind) + " " == "similarity index ";
    hide Spell, Spells, IsSimilarity;
  }

  /** A row is accepted as metadata exactly when it can be shown. */
  lemma MetadataIsShown(row: string) returns (m: Meta)
    requires IsMetadata(row)
    ensures m.Valid() && !m.RenameMeta? && ShowMeta(m) == row
  {
    hide IsIndex, IsModeRow, IsSimilarity;
    if IsIndex(row) {
      m := IndexIsShown(row);
    } else if IsModeRow(row) {
      m := ModeRowIsShown(row);
    } else {
      m := SimilarityIsShown(row);
    }
  }

  lemma MetadataExactly(row: string)
    ensures IsMetadata(row) <==> exists m: Meta :: m.Valid() && !m.RenameMeta? && ShowMeta(m) == row
  {
    hide IsMetadata, ShowMeta;
    if IsMetadata(row) {
      var m := MetadataIsShown(row);
    }
    if m: Meta :| m.Valid() && !m.RenameMeta? && ShowMeta(m) == row {
      ShownIsMetadata(m);
    }
  }

  // ---- Every accepted header is a shown one ---------------------------------------------------------

  /** Rename rows that name a path. */
  predicate Solid(r: Renames) {
    r.from != Some(None) && r.to != Some(None)
  }

  predicate Extends(r: Renames, final: Renames) {
    (r.from.Some? ==> final.from == r.from) && (r.to.Some? ==> final.to == r.to)
  }

  lemma RenameIsShown(row: string, side: MetaKind, path: string)
    requires side in {RenameFrom, RenameTo} && Has(row, 0, Words(side) + " ") && Unbroken(row)
    requires ParsePath(row[|Words(side)| + 1..], "") == Ok(Some(path))
    ensures var m := RenameMeta(side, path); m.Valid() && ShowMeta(m) == row
  {
    hide IsPath;
    var word := Words(side) + " ";
    StartsWith(row, word);
    var raw := row[|word|..];
    assert raw[0..] == raw;
    assert path == raw && !("\"" <= path);
    assert forall k :: 0 <= k < |path| ==> path[k] == row[|word| + k];
    assert Tail(RenameMeta(side, path)) == path;
    hide Has, Words;
  }

  /** An accepted metadata row is a new one. */
  lemma RowIsShown(row: string, before: seq<Meta>, next: Renames) returns (m: Meta)
    requires AllMeta(before) && Unbroken(row) && Solid(next)
    requires ParseMetadataRow(row, ShowMetas(before), RenamesOf(before)) == Ok(next)
    ensures m.Valid() && ShowMeta(m) == row && !HasKind(before, m.Kind())
    ensures next == RenamesOf(before + [m]) && Extends(RenamesOf(before), next)
  {
    hide IsMetadata, SomeHas, HasKind, ShowMetas, ParsePath, Words, Has, MetadataKey, Unbroken, ShowMeta;
    RenameWords();
    RenamesOfKinds(before);
    if Has(row, 0, "rename from ") {
      m := RenameMeta(RenameFrom, next.from.value.value);
      RenameIsShown(row, RenameFrom, m.path);
    } else if Has(row, 0, "rename to ") {
      m := RenameMeta(RenameTo, next.to.value.value);
      RenameIsShown(row, RenameTo, m.path);
    } else {
      m := MetadataIsShown(row);
      KeyOfShown(m);
      MetaContinues(m);
      KindIsSeen(before, m.Kind());
    }
    RowIsRead(m, before);
  }

  lemma {:induction false} RenamesGrow(rows: seq<string>, i: nat, metadata: seq<string>, renames: Renames)
    requires i <= |rows| && ParseMetadata(rows, i, metadata, renames).Ok?
    ensures Extends(renames, ParseMetadata(rows, i, metadata, renames).value.1)
    decreases |rows| - i
  {
    if !(i == |rows| || Has(rows[i], 0, "--- ") || Has(rows[i], 0, "diff --git ")) {
      var next := ParseMetadataRow(rows[i], metadata, renames).value;
      RowExtends(rows[i], metadata, renames, next);
      hide ParseMetadataRow, Has;
      RenamesGrow(rows, i + 1, metadata + [rows[i]], next);
    }
  }

  lemma RowExtends(row: string, metadata: seq<string>, renames: Renames, next: Renames)
    requires ParseMetadataRow(row, metadata, renames) == Ok(next)
    ensures Extends(renames, next)
  {
    hide ParsePath, Has, IsMetadata, SomeHas;
  }

  lemma NewKind(before: seq<Meta>, m: Meta)
    requires AllMeta(before) && DistinctKinds(before) && m.Valid() && !HasKind(before, m.Kind())
    ensures AllMeta(before + [m]) && DistinctKinds(before + [m])
  {
  }

  lemma {:induction false} MetadataRowsAreShown(rows: seq<string>, i: nat, before: seq<Meta>) returns (meta: seq<Meta>)
    requires i <= |rows| && UnbrokenRows(rows) && AllMeta(before) && DistinctKinds(before)
    requires ParseMetadata(rows, i, ShowMetas(before), RenamesOf(before)).Ok?
    requires Solid(ParseMetadata(rows, i, ShowMetas(before), RenamesOf(before)).value.1)
    ensures AllMeta(meta) && DistinctKinds(meta)
    ensures var (metadata, renames, next) := ParseMetadata(rows, i, ShowMetas(before), RenamesOf(before)).value;
            && metadata == ShowMetas(meta) && renames == RenamesOf(meta)
            && EndsMetadata(rows, next)
    decreases |rows| - i
  {
    if i == |rows| || Has(rows[i], 0, "--- ") || Has(rows[i], 0, "diff --git ") {
      meta := before;
    } else {
      var next := ParseMetadataRow(rows[i], ShowMetas(before), RenamesOf(before)).value;
      RenamesGrow(rows, i + 1, ShowMetas(before) + [rows[i]], next);
      hide ParseMetadataRow, Has, ShowMeta, Unbroken, RenamesOf, Extends, HasKind;
      var m := RowIsShown(rows[i], before, next);
      assert ShowMetas(before) + [rows[i]] == ShowMetas(before + [m]);
      NewKind(before, m);
      meta := MetadataRowsAreShown(rows, i + 1, before + [m]);
    }
  }

  lemma {:induction false} PiecesAreInside(s: string, c: char)
    ensures forall k, x :: 0 <= k < |Split(s, c)| && x in Split(s, c)[k] ==> x in s && x != c
    decreases |s|
  {
    var first := Before(s, c);
    if first != s {
      BeforeStops(s, c);
      var rest := s[|first| + 1..];
      PiecesAreInside(rest, c);
      assert forall x :: x in rest ==> x in s;
      assert Split(s, c) == [first] + Split(rest, c);
    }
    assert forall x :: x in first ==> x in s;
  }

  lemma GitRowHasPaths(row: string, a: string, b: string)
    requires Has(row, 0, "diff --git ") && ParseGitRow(row) == Ok((a, b)) && Unbroken(row)
    ensures GitPath(a) && GitPath(b)
  {
    var header := row[11..];
    var parts := Split(header, ' ');
    PiecesAreInside(header, ' ');
    PieceIsPath(header, parts[0], "a/", a);
    PieceIsPath(header, parts[1], "b/", b);
  }

  lemma PieceIsPath(header: string, part: string, prefix: string, path: string)
    requires Unbroken(header) && '"' !in header && (forall x :: x in part ==> x in header && x != ' ')
    requires ParsePath(part, prefix) == Ok(Some(path))
    ensures GitPath(path)
  {
    hide IsPath;
    assert path == part[|prefix|..];
    assert forall x :: x in path ==> x in part;
    forall i | 0 <= i < |path| ensures !IsStripped(path[i]) && !IsExotic(path[i]) {
      assert path[i] in path;
      var k :| 0 <= k < |header| && header[k] == path[i];
    }
  }

  lemma {:induction false} RenameIsListed(meta: seq<Meta>)
    ensures Solid(RenamesOf(meta))
    ensures RenamesOf(meta).from.Some? ==> HasRename(meta, RenameFrom, RenamesOf(meta).from.value.value)
    ensures RenamesOf(meta).to.Some? ==> HasRename(meta, RenameTo, RenamesOf(meta).to.value.value)
    decreases |meta|
  {
    if meta != [] {
      var n := |meta| - 1;
      RenameIsListed(meta[..n]);
      forall side, path | HasRename(meta[..n], side, path) || meta[n] == RenameMeta(side, path)
        ensures HasRename(meta, side, path)
      {
        if k :| 0 <= k < n && meta[..n][k] == RenameMeta(side, path) {
          assert meta[k] == RenameMeta(side, path);
        }
      }
      hide HasRename;
    }
  }

  /** What an accepted header with a Git row says of its kind. */
  lemma AcceptedMetaFits(p: Prologue, meta: seq<Meta>, f: FileChange, headers: bool)
    requires ValidFile(f) && AllMeta(meta) && p.metadata == ShowMetas(meta) && p.renames == RenamesOf(meta)
    requires p.git.Some? && HeadersAgree(p, f.oldPath, f.newPath) && f.kind == KindOf(f.oldPath, f.newPath)
    ensures p.git.value == (OldName(f), NewName(f))
    ensures MetaFits(GitFile(f, meta, headers))
  {
    assert KindAgrees(f.kind, f.oldPath, f.newPath);
    hide ValidFile, SomeHas, HasKind, ShowMetas, RenamesOf, HasRename;
    KindsAreSeen(meta);
    RenamesOfKinds(meta);
    if f.kind.Rename? {
      RenameIsListed(meta);
    }
  }

  lemma AcceptedRenamesAreSolid(p: Prologue, oldPath: Option<string>, newPath: Option<string>)
    requires HeadersAgree(p, oldPath, newPath)
    ensures Solid(p.renames)
  {
    hide SomeHas;
  }

  /** Whether side rows follow the header. */
  predicate HasSides(rows: seq<string>, p: Prologue)
    requires p.next <= |rows|
  {
    p.next < |rows| && Has(rows[p.next], 0, "--- ")
  }

  /** Without side rows there are no hunks, and the next file begins with a Git row. */
  lemma NoSidesNoHunks(s: Rows, p: Prologue)
    requires s.Valid() && p.next <= |s.text| && EndsMetadata(s.text, p.next) && !HasSides(s.text, p)
    ensures ParseHunks(s, p.next) == Ok(([], p.next))
    ensures p.next < |s.text| ==> Has(s.text[p.next], 0, "diff --git ")
  {
    if p.next < |s.text| {
      StartsAlike(s.text[p.next], "diff --git ", 0);
      StartsAlike(s.text[p.next], "@@", 0);
    }
  }

  lemma AcceptedSaysEnough(s: Rows, p: Prologue, meta: seq<Meta>, f: FileChange, next: nat, end: nat)
    requires s.Valid() && p.next <= |s.text| && next <= |s.text| && p.git.Some? && EndsMetadata(s.text, p.next)
    requires AllMeta(meta) && p.metadata == ShowMetas(meta)
    requires ParseSides(s.text, p) == Ok((f.oldPath, f.newPath, next)) && ParseHunks(s, next) == Ok((f.hunks, end))
    requires f.kind == KindOf(f.oldPath, f.newPath) && HunksSuffice(p, f.kind, f.hunks)
    ensures EnoughSaid(GitFile(f, meta, HasSides(s.text, p)))
    ensures !HasSides(s.text, p) && end < |s.text| ==> Has(s.text[end], 0, "diff --git ")
  {
    hide SomeHas, HasKind, Has, EndsMetadata, ParseSide, ParseHunks, ShowMetas;
    KindsAreSeen(meta);
    if !HasSides(s.text, p) {
      NoSidesNoHunks(s, p);
    }
    assert |ShowMetas(meta)| == |meta|;
  }

  /** The prologue of an accepted file that begins with a Git row. */
  lemma GitPrologueIsShown(rows: seq<string>, i: nat, p: Prologue) returns (meta: seq<Meta>)
    requires i < |rows| && UnbrokenRows(rows) && ParsePrologue(rows, i) == Ok(p) && p.git.Some? && Solid(p.renames)
    ensures AllMeta(meta) && DistinctKinds(meta) && p.metadata == ShowMetas(meta) && p.renames == RenamesOf(meta)
    ensures EndsMetadata(rows, p.next) && GitPath(p.git.value.0) && GitPath(p.git.value.1)
  {
    hide ParseMetadata, ParseGitRow, GitPath, Has, Unbroken;
    assert ShowMetas([]) == [] && RenamesOf([]) == Renames(None, None);
    GitRowHasPaths(rows[i], p.git.value.0, p.git.value.1);
    meta := MetadataRowsAreShown(rows, i + 1, []);
  }

  /** An accepted file with a Git row is one in the form of `git diff`. */
  lemma GitFileIsShown(s: Rows, i: nat) returns (g: GitFile)
    requires s.Valid() && i < |s.text| && ParseFile(s, i).Ok? && UnbrokenRows(s.text)
    requires Has(s.text[i], 0, "diff --git ")
    ensures g.file == ParseFile(s, i).value.0 && PlainGit(g)
    ensures var end := ParseFile(s, i).value.1;
            !g.headers && end < |s.text| ==> Has(s.text[end], 0, "diff --git ")
  {
    hide ParsePrologue, ParseSides, HeadersAgree, HunksSuffice, ValidFile, ParseHunks, PlainHunk, UnbrokenRows, Has;
    hide GitPath, AllMeta, DistinctKinds, MetaFits, EnoughSaid, EndsMetadata;
    var p := ParsePrologue(s.text, i).value;
    var (oldPath, newPath, next) := ParseSides(s.text, p).value;
    var (f, end) := ParseFile(s, i).value;
    GitRowGives(s.text, i);
    AcceptedRenamesAreSolid(p, oldPath, newPath);
    var meta := GitPrologueIsShown(s.text, i, p);
    AcceptedMetaFits(p, meta, f, HasSides(s.text, p));
    AcceptedSaysEnough(s, p, meta, f, next, end);
    HunksReadArePlain(s, next);
    g := GitFile(f, meta, HasSides(s.text, p));
  }

  lemma GitRowGives(rows: seq<string>, i: nat)
    requires i < |rows| && ParsePrologue(rows, i).Ok?
    ensures Has(rows[i], 0, "diff --git ") <==> ParsePrologue(rows, i).value.git.Some?
  {
    hide ParseMetadata, ParseGitRow, Has;
  }

  // ---- Plain files ----------------------------------------------------------------------------------

  lemma SideIsPlainPath(row: string, path: Option<string>)
    requires |row| >= 4 && Unbroken(row) && ParseSide(row, "") == Ok(path)
    ensures PlainPath(path)
  {
    var raw := Before(row[4..], '\t');
    assert raw[0..] == raw;
    assert forall k :: 0 <= k < |raw| ==> raw[k] == row[4..][k] == row[4 + k];
  }

  lemma PlainFileIsShown(s: Rows, i: nat)
    requires s.Valid() && i < |s.text| && ParseFile(s, i).Ok? && UnbrokenRows(s.text)
    requires !Has(s.text[i], 0, "diff --git ")
    ensures PlainFile(ParseFile(s, i).value.0)
  {
    hide HeadersAgree, ValidFile, ParseHunks, PlainHunk, ParseSide, Has, PlainPath, Unbroken;
    GitRowGives(s.text, i);
    var p := ParsePrologue(s.text, i).value;
    var (oldPath, newPath, next) := ParseSides(s.text, p).value;
    AfterWord(s.text[i], 0, "--- ");
    AfterWord(s.text[i + 1], 0, "+++ ");
    SideIsPlainPath(s.text[i], oldPath);
    SideIsPlainPath(s.text[i + 1], newPath);
    FileReadIsPlain(s, i);
  }

  // ---- The whole diff -------------------------------------------------------------------------------

  /** An accepted file as an item. */
  lemma FileIsItem(s: Rows, i: nat) returns (item: Item)
    requires s.Valid() && i < |s.text| && ParseFile(s, i).Ok? && UnbrokenRows(s.text)
    ensures Readable(item) && FileOf(item) == ParseFile(s, i).value.0
    ensures item.GitItem? <==> Has(s.text[i], 0, "diff --git ")
    ensures var end := ParseFile(s, i).value.1;
            item.GitItem? && !item.git.headers && end < |s.text| ==> Has(s.text[end], 0, "diff --git ")
  {
    hide ParseFile, UnbrokenRows, Has, PlainFile, PlainGit, ValidFile;
    if Has(s.text[i], 0, "diff --git ") {
      var g := GitFileIsShown(s, i);
      item := GitItem(g);
    } else {
      PlainFileIsShown(s, i);
      item := PlainItem(ParseFile(s, i).value.0);
    }
  }

  lemma {:induction false} FilesAreItems(s: Rows, i: nat) returns (items: seq<Item>)
    requires s.Valid() && i <= |s.text| && ParseFiles(s, i).Ok? && UnbrokenRows(s.text)
    ensures AllReadable(items) && Separable(items) && FilesOf(items) == ParseFiles(s, i).value
    ensures items != [] && i < |s.text| ==> (items[0].GitItem? <==> Has(s.text[i], 0, "diff --git "))
    ensures i == |s.text| ==> items == []
    decreases |s.text| - i
  {
    hide ParseFile, UnbrokenRows, Has, Readable;
    if i == |s.text| {
      items := [];
    } else {
      var item := FileIsItem(s, i);
      var next := ParseFile(s, i).value.1;
      var rest := FilesAreItems(s, next);
      items := [item] + rest;
      assert FilesOf(items) == [FileOf(item)] + FilesOf(rest);
      forall k | 0 <= k < |items| - 1 && items[k].GitItem? && !items[k].git.headers ensures items[k + 1].GitItem? {
        if k > 0 {
          assert items[k] == rest[k - 1] && items[k + 1] == rest[k];
        } else {
          assert items[1] == rest[0] && next < |s.text|;
        }
      }
    }
  }

  /** Every accepted diff, without exception, holds files that a plain diff or `git diff` can print; printing them and
      reading that gives the same files. */
  lemma AcceptedDiffIsPrintable(raw: string) returns (items: seq<Item>)
    requires ParseDiff(raw).Ok?
    ensures AllReadable(items) && Separable(items) && FilesOf(items) == ParseDiff(raw).value
    ensures ParseDiff(Join(ShowItems(items))).Ok?
    ensures ForgetFiles(ParseDiff(Join(ShowItems(items))).value) == ForgetFiles(ParseDiff(raw).value)
  {
    RowsAreValid(raw);
    var files := ParseDiff(raw).value;
    assert PlainBreaks(raw) && ParseFiles(RowsOf(raw), 0) == Ok(files) && ValidChange(files, |raw|);
    assert files != [] && DistinctPaths(files);
    LinesAreUnbroken(raw, 0);
    assert UnbrokenRows(RowsOf(raw).text);
    hide *;
    items := FilesAreItems(RowsOf(raw), 0);
    ItemsAsMany(items);
    RenderedGitDiffIsReadBack(items);
  }

  lemma ItemsAsMany(items: seq<Item>)
    ensures |FilesOf(items)| == |items|
  {
  }

  // ---- Unsupported diffs ----------------------------------------------------------------------------

  /** Rows of combined and binary diffs, by their text. */
  predicate CombinedOrBinaryRow(row: string, x: string) {
    || row == "diff --cc " + x || row == "diff --combined " + x || row == "@@@" + x
    || row == "GIT binary patch" || row == "Binary files " + x + " differ"
  }

  /** A combined or binary diff is refused as unsupported wherever it shows, and whatever else is wrong. */
  lemma CombinedIsUnsupported(raw: string, k: nat, x: string)
    requires PlainBreaks(raw) && k < |RowsOf(raw).text| && CombinedOrBinaryRow(RowsOf(raw).text[k], x)
    ensures ParseDiff(raw) == Err(Unsupported)
  {
    var row := RowsOf(raw).text[k];
    RowsAreValid(raw);
    assert IsCombinedOrBinary(row) by {
      if row == "Binary files " + x + " differ" {
        assert row[0..13] == "Binary files " && row[|row| - 7..] == " differ";
      } else if row != "GIT binary patch" {
        assert row == "diff --cc " + x ==> row[0..10] == "diff --cc ";
        assert row == "diff --combined " + x ==> row[0..16] == "diff --combined ";
        assert row == "@@@" + x ==> row[0..3] == "@@@";
      }
    }
    hide RowsOf, PlainBreaks, IsCombinedOrBinary;
  }

  /** So is a quoted path in the first side row, and a row among the metadata that is none. */
  lemma QuotedPathIsUnsupported(s: Rows, i: nat, x: string)
    requires s.Valid() && i < |s.text| && s.text[i] == "--- \"" + x
    ensures ParseFile(s, i) == Err(Unsupported)
  {
    var row := s.text[i];
    assert row[0..4] == "--- " && row[4..] == "\"" + x;
    StartsAlike(row, "diff --git ", 0);
    var raw := Before(row[4..], '\t');
    assert raw != [] && raw[0] == '"' && raw[0..1] == "\"";
  }

  lemma OtherMetadataIsUnsupported(s: Rows, i: nat, a: string, b: string)
    requires s.Valid() && i + 1 < |s.text| && GitPath(a) && GitPath(b) && s.text[i] == ShowGitRow(a, b)
    requires EndsNoMetadata(s.text[i + 1]) && forall m: Meta :: m.Valid() ==> ShowMeta(m) != s.text[i + 1]
    requires !Has(s.text[i + 1], 0, "rename from ") && !Has(s.text[i + 1], 0, "rename to ")
    ensures ParseFile(s, i) == Err(Unsupported)
  {
    GitRowIsRead(a, b);
    MetadataExactly(s.text[i + 1]);
    hide GitPath, ShowGitRow, ParseGitRow, IsMetadata, Has;
  }

  predicate EndsNoMetadata(row: string) {
    !Has(row, 0, "--- ") && !Has(row, 0, "diff --git ")
  }
}
