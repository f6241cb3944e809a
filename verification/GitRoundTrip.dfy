/** Writing changes in the form that `git diff` prints, and reading them back. */
module GitRoundTrip {
  import opened Prelude
  import opened TextLines
  import opened Diff
  import opened DiffParsers
  import opened DiffRoundTrip

  // ---- Metadata rows --------------------------------------------------------------------------------

  const HexDigits: string := "0123456789abcdefABCDEF"

  const OctalDigits: string := "01234567"

  const DecimalDigits: string := "0123456789"

  predicate Spells(digits: seq<nat>, alphabet: string) {
    forall i :: 0 <= i < |digits| ==> digits[i] < |alphabet|
  }

  function Spell(digits: seq<nat>, alphabet: string): (r: string)
    requires Spells(digits, alphabet)
    ensures |r| == |digits| && forall i :: 0 <= i < |r| ==> r[i] == alphabet[digits[i]]
  {
    seq(|digits|, i requires 0 <= i < |digits| => alphabet[digits[i]])
  }

  datatype MetaKind =
    | IndexKind | OldMode | NewMode | NewFileMode | DeletedFileMode | SimilarityKind | RenameFrom | RenameTo

  /** A metadata row by its content: blob names in hexadecimal, modes in octal, a percentage, a path. */
  datatype Meta =
    | IndexMeta(before: seq<nat>, after: seq<nat>, mode: Option<seq<nat>>)
    | ModeMeta(which: MetaKind, digits: seq<nat>)
    | SimilarityMeta(percent: seq<nat>)
    | RenameMeta(side: MetaKind, path: string)
  {
    function Kind(): MetaKind {
      match this
      case IndexMeta(_, _, _) => IndexKind
      case ModeMeta(which, _) => which
      case SimilarityMeta(_) => SimilarityKind
      case RenameMeta(side, _) => side
    }

    predicate Valid() {
      match this
      case IndexMeta(a, b, mode) =>
        && a != [] && b != [] && Spells(a, HexDigits) && Spells(b, HexDigits)
        && (mode.Some? ==> |mode.value| == 6 && Spells(mode.value, OctalDigits))
      case ModeMeta(which, digits) =>
        which in {OldMode, NewMode, NewFileMode, DeletedFileMode} && |digits| == 6 && Spells(digits, OctalDigits)
      case SimilarityMeta(percent) =>
        Spells(percent, DecimalDigits) && (percent == [1, 0, 0] || 1 <= |percent| <= 2)
      case RenameMeta(side, path) =>
        side in {RenameFrom, RenameTo} && IsPath(path) && Unbroken(path) && !("\"" <= path)
    }
  }

  /** The words before the last space of a row. */
  function Words(kind: MetaKind): string {
    match kind
    case IndexKind => "index"
    case OldMode => "old mode"
    case NewMode => "new mode"
    case NewFileMode => "new file mode"
    case DeletedFileMode => "deleted file mode"
    case SimilarityKind => "similarity index"
    case RenameFrom => "rename from"
    case RenameTo => "rename to"
  }

  function SpelledMode(mode: Option<seq<nat>>): Option<string>
    requires mode.Some? ==> Spells(mode.value, OctalDigits)
  {
    if mode.Some? then Some(Spell(mode.value, OctalDigits)) else None
  }

  function ModeSuffix(mode: Option<string>): string {
    if mode.Some? then " " + mode.value else ""
  }

  function Tail(m: Meta): string
    requires m.Valid()
  {
    match m
    case IndexMeta(a, b, mode) =>
      Spell(a, HexDigits) + ".." + Spell(b, HexDigits) + ModeSuffix(SpelledMode(mode))
    case ModeMeta(_, digits) => Spell(digits, OctalDigits)
    case SimilarityMeta(percent) => Spell(percent, DecimalDigits) + "%"
    case RenameMeta(_, path) => path
  }

  function ShowMeta(m: Meta): string
    requires m.Valid()
  {
    Words(m.Kind()) + " " + Tail(m)
  }

  // ---- A keyword decides ----------------------------------------------------------------------------

  lemma ShownHas(m: Meta)
    requires m.Valid()
    ensures Has(ShowMeta(m), 0, Words(m.Kind()) + " ")
    ensures ShowMeta(m)[|Words(m.Kind())| + 1..] == Tail(m)
  {
    var word := Words(m.Kind()) + " ";
    assert ShowMeta(m) == word + Tail(m);
    assert ShowMeta(m)[0..|word|] == word;
  }

  /** The first place at which two keywords differ. */
  function FirstDifference(a: MetaKind, b: MetaKind): nat {
    match (a, b)
    case (NewMode, NewFileMode) => 4
    case (NewFileMode, NewMode) => 4
    case (RenameFrom, RenameTo) => 7
    case (RenameTo, RenameFrom) => 7
    case _ => 0
  }

  lemma KeywordsDiffer(a: MetaKind, b: MetaKind)
    requires a != b
    ensures var k := FirstDifference(a, b); k < |Words(a)| && k < |Words(b)| && Words(a)[k] != Words(b)[k]
  {
  }

  /** A row has the keyword of its own kind only. */
  lemma OnlyOwnKeyword(m: Meta, kind: MetaKind)
    requires m.Valid()
    ensures Has(ShowMeta(m), 0, Words(kind) + " ") <==> kind == m.Kind()
  {
    ShownHas(m);
    if kind != m.Kind() {
      var k := FirstDifference(m.Kind(), kind);
      KeywordsDiffer(m.Kind(), kind);
      assert ShowMeta(m)[k] == Words(m.Kind())[k];
      StartsAlike(ShowMeta(m), Words(kind) + " ", k);
      assert (Words(kind) + " ")[k] == Words(kind)[k];
    }
  }

  lemma OtherStart(row: string)
    requires |row| > 1 && row[0] !in {'G', 'B', '@'} && (row[0] == 'd' ==> row[1] != 'i')
    ensures !IsCombinedOrBinary(row)
  {
    StartsAlike(row, "diff --cc ", 0);
    StartsAlike(row, "diff --cc ", 1);
    StartsAlike(row, "diff --combined ", 0);
    StartsAlike(row, "diff --combined ", 1);
    StartsAlike(row, "@@@", 0);
    StartsAlike(row, "Binary files ", 0);
  }

  lemma WordsStart(kind: MetaKind)
    ensures |Words(kind)| > 1
    ensures Words(kind)[0] in {'i', 'o', 'n', 'd', 's', 'r'} && (Words(kind)[0] == 'd' ==> Words(kind)[1] == 'e')
    ensures Words(kind)[0] == 'r' <==> kind in {RenameFrom, RenameTo}
    ensures kind in {RenameFrom, RenameTo} ==> |Words(kind)| > 7 && Words(kind)[..7] == "rename "
  {
  }

  lemma OtherWordStarts(row: string)
    requires |row| > 1 && row[0] in {'i', 'o', 'n', 'd', 's', 'r'} && (row[0] == 'd' ==> row[1] == 'e')
    ensures !Has(row, 0, "--- ") && !Has(row, 0, "diff --git ") && !IsCombinedOrBinary(row)
    ensures row[0] != 'r' ==> !Has(row, 0, "rename ")
  {
    hide Has, IsCombinedOrBinary;
    StartsAlike(row, "--- ", 0);
    StartsAlike(row, "diff --git ", 0);
    StartsAlike(row, "diff --git ", 1);
    OtherStart(row);
    StartsAlike(row, "rename ", 0);
  }

  /** No metadata row ends the metadata. */
  lemma MetaContinues(m: Meta)
    requires m.Valid()
    ensures !Has(ShowMeta(m), 0, "--- ") && !Has(ShowMeta(m), 0, "diff --git ")
    ensures !IsCombinedOrBinary(ShowMeta(m))
    ensures Has(ShowMeta(m), 0, "rename ") <==> m.RenameMeta?
  {
    WordsStart(m.Kind());
    ShownStarts(m);
    OtherWordStarts(ShowMeta(m));
    if m.RenameMeta? {
      assert ShowMeta(m)[0..7] == Words(m.Kind())[..7];
    }
    hide Words, Tail, IsCombinedOrBinary;
  }

  lemma ShownStarts(m: Meta)
    requires m.Valid()
    ensures |Words(m.Kind())| < |ShowMeta(m)|
    ensures forall k :: 0 <= k < |Words(m.Kind())| ==> ShowMeta(m)[k] == Words(m.Kind())[k]
  {
    hide Words, Tail;
  }

  // ---- Every such row is metadata -------------------------------------------------------------------

  lemma {:induction false} BeforeAt(x: string, c: char, y: string)
    requires c !in x && (y == "" || y[0] == c)
    ensures Before(x + y, c) == x
  {
    if x != [] {
      assert (x + y)[1..] == x[1..] + y;
      BeforeAt(x[1..], c, y);
    }
  }

  lemma SpelledLetters(digits: seq<nat>, alphabet: string, c: char)
    requires Spells(digits, alphabet) && c !in alphabet
    ensures c !in Spell(digits, alphabet)
  {
  }

  lemma HexIsHex(digits: seq<nat>)
    requires digits != [] && Spells(digits, HexDigits)
    ensures AllHex(Spell(digits, HexDigits))
  {
  }

  lemma OctalIsMode(digits: seq<nat>)
    requires |digits| == 6 && Spells(digits, OctalDigits)
    ensures IsMode(Spell(digits, OctalDigits))
  {
  }

  lemma IndexTail(b: string, mode: Option<string>)
    requires ' ' !in b && (mode.Some? ==> IsMode(mode.value))
    ensures var tail := b + ModeSuffix(mode);
            Before(tail, ' ') == b && (b == tail || IsMode(tail[|b| + 1..]))
  {
    hide IsMode;
    BeforeAt(b, ' ', ModeSuffix(mode));
    if mode.Some? {
      assert b + ModeSuffix(mode) == b + " " + mode.value;
      RestAfter(b + " ", mode.value);
    } else {
      assert b + "" == b;
    }
  }

  lemma IndexRow(a: string, b: string, mode: Option<string>)
    requires AllHex(a) && AllHex(b) && '.' !in a && ' ' !in b && (mode.Some? ==> IsMode(mode.value))
    ensures IsIndex("index " + (a + ".." + b + ModeSuffix(mode)))
  {
    hide AllHex, IsMode, ModeSuffix, Has, Before;
    var tail := b + ModeSuffix(mode);
    var rest := a + ".." + b + ModeSuffix(mode);
    assert rest == a + (".." + tail) == a + ".." + tail;
    HasPiece("", "index ", rest);
    assert "" + "index " + rest == "index " + rest;
    RestAfter("index ", rest);
    assert (".." + tail)[0] == '.';
    BeforeAt(a, '.', ".." + tail);
    HasPiece(a, "..", tail);
    RestAfter(a + "..", tail);
    IndexTail(b, mode);
  }

  lemma IndexIsMetadata(m: Meta)
    requires m.Valid() && m.IndexMeta?
    ensures IsIndex(ShowMeta(m))
  {
    HexIsHex(m.before);
    HexIsHex(m.after);
    SpelledLetters(m.before, HexDigits, '.');
    SpelledLetters(m.after, HexDigits, ' ');
    if m.mode.Some? {
      OctalIsMode(m.mode.value);
    }
    hide IsIndex, AllHex, IsMode, Spell, ModeSuffix;
    IndexRow(Spell(m.before, HexDigits), Spell(m.after, HexDigits), SpelledMode(m.mode));
    assert Words(IndexKind) + " " == "index ";
  }

  lemma ModeIsMetadata(m: Meta)
    requires m.Valid() && m.ModeMeta?
    ensures IsModeRow(ShowMeta(m))
  {
    ShownHas(m);
    OctalIsMode(m.digits);
  }

  lemma SimilarityRow(percent: string)
    requires (forall i :: 0 <= i < |percent| ==> IsDigit(percent[i])) && (percent == "100" || 1 <= |percent| <= 2)
    ensures IsSimilarity("similarity index " + (percent + "%"))
  {
    var row := "similarity index " + (percent + "%");
    var e := 17 + |percent|;
    assert row[0..17] == "similarity index " && row[17..e] == percent && row[e..] == "%";
    forall k | 17 <= k < e ensures IsDigit(row[k]) {
      assert row[k] == percent[k - 17];
    }
    DigitsEndAt(row, 17, e);
  }

  lemma SimilarityIsMetadata(m: Meta)
    requires m.Valid() && m.SimilarityMeta?
    ensures IsSimilarity(ShowMeta(m))
  {
    var spelled := Spell(m.percent, DecimalDigits);
    if m.percent == [1, 0, 0] {
      assert spelled == "100";
    }
    SimilarityRow(spelled);
    assert ShowMeta(m) == "similarity index " + (spelled + "%");
    hide IsSimilarity;
  }

  lemma ShownIsMetadata(m: Meta)
    requires m.Valid() && !m.RenameMeta?
    ensures IsMetadata(ShowMeta(m))
  {
    if m.IndexMeta? {
      IndexIsMetadata(m);
    } else if m.ModeMeta? {
      ModeIsMetadata(m);
    } else {
      SimilarityIsMetadata(m);
    }
  }

  lemma {:induction false} LastSpace(x: string, y: string)
    requires ' ' !in y
    ensures UpToLastSpace(x + " " + y) == x
    decreases |y|
  {
    var row := x + " " + y;
    if y == [] {
      assert row[..|row| - 1] == x;
    } else {
      assert row[..|row| - 1] == x + " " + y[..|y| - 1];
      LastSpace(x, y[..|y| - 1]);
    }
  }

  lemma KeyOfShown(m: Meta)
    requires m.Valid() && !m.RenameMeta?
    ensures MetadataKey(ShowMeta(m)) == Words(m.Kind())
  {
    OnlyOwnKeyword(m, IndexKind);
    if !m.IndexMeta? {
      if m.ModeMeta? {
        SpelledLetters(m.digits, OctalDigits, ' ');
      } else {
        SpelledLetters(m.percent, DecimalDigits, ' ');
      }
      LastSpace(Words(m.Kind()), Tail(m));
    }
  }

  // ---- Reading the metadata -------------------------------------------------------------------------

  predicate AllMeta(meta: seq<Meta>) {
    forall i :: 0 <= i < |meta| ==> meta[i].Valid()
  }

  function ShowMetas(meta: seq<Meta>): (r: seq<string>)
    requires AllMeta(meta)
    ensures |r| == |meta| && forall i :: 0 <= i < |r| ==> r[i] == ShowMeta(meta[i])
  {
    seq(|meta|, i requires 0 <= i < |meta| => ShowMeta(meta[i]))
  }

  predicate HasKind(meta: seq<Meta>, kind: MetaKind) {
    exists i :: 0 <= i < |meta| && meta[i].Kind() == kind
  }

  predicate DistinctKinds(meta: seq<Meta>) {
    forall i, j :: 0 <= i < j < |meta| ==> meta[i].Kind() != meta[j].Kind()
  }

  lemma KindIsSeen(meta: seq<Meta>, kind: MetaKind)
    requires AllMeta(meta)
    ensures SomeHas(ShowMetas(meta), Words(kind) + " ") <==> HasKind(meta, kind)
  {
    hide Has, ShowMeta, Words;
    forall i | 0 <= i < |meta|
      ensures Has(ShowMetas(meta)[i], 0, Words(kind) + " ") <==> meta[i].Kind() == kind
    {
      OnlyOwnKeyword(meta[i], kind);
    }
  }

  function RenamesOf(meta: seq<Meta>): Renames {
    if meta == [] then Renames(None, None)
    else
      var before := RenamesOf(meta[..|meta| - 1]);
      match meta[|meta| - 1]
      case RenameMeta(RenameFrom, path) => before.(from := Some(Some(path)))
      case RenameMeta(RenameTo, path) => before.(to := Some(Some(path)))
      case _ => before
  }

  lemma {:induction false} RenamesOfKinds(meta: seq<Meta>)
    requires AllMeta(meta)
    ensures RenamesOf(meta).from.Some? <==> HasKind(meta, RenameFrom)
    ensures RenamesOf(meta).to.Some? <==> HasKind(meta, RenameTo)
    decreases |meta|
  {
    if meta != [] {
      var n := |meta| - 1;
      var front := meta[..n];
      RenamesOfKinds(front);
      assert forall kind :: HasKind(meta, kind) <==> HasKind(front, kind) || meta[n].Kind() == kind by {
        assert forall i :: 0 <= i < n ==> front[i] == meta[i];
      }
    }
  }

  lemma {:induction false} RenamesOfPaths(meta: seq<Meta>, i: nat)
    requires AllMeta(meta) && DistinctKinds(meta) && i < |meta| && meta[i].RenameMeta?
    ensures meta[i].side == RenameFrom ==> RenamesOf(meta).from == Some(Some(meta[i].path))
    ensures meta[i].side == RenameTo ==> RenamesOf(meta).to == Some(Some(meta[i].path))
    decreases |meta|
  {
    var n := |meta| - 1;
    if i < n {
      assert meta[i].Kind() != meta[n].Kind();
      assert forall j :: 0 <= j < n ==> meta[..n][j] == meta[j];
      RenamesOfPaths(meta[..n], i);
    }
  }

  lemma RenamePathIsRead(m: Meta)
    requires m.Valid() && m.RenameMeta?
    ensures ParsePath(ShowMeta(m)[|Words(m.Kind())| + 1..], "") == Ok(Some(m.path))
  {
    ShownHas(m);
    RootedIsNoPath();
    assert m.path[0..] == m.path;
    hide IsPath, Words;
  }

  lemma RenameWords()
    ensures Words(RenameFrom) + " " == "rename from " && Words(RenameTo) + " " == "rename to "
    ensures |Words(RenameFrom)| + 1 == 12 && |Words(RenameTo)| + 1 == 10
  {
  }

  lemma RenamesStep(before: seq<Meta>, m: Meta)
    ensures RenamesOf(before + [m]) ==
            match m
            case RenameMeta(RenameFrom, path) => RenamesOf(before).(from := Some(Some(path)))
            case RenameMeta(RenameTo, path) => RenamesOf(before).(to := Some(Some(path)))
            case _ => RenamesOf(before)
  {
    assert (before + [m])[..|before|] == before;
  }

  lemma RenameRowIsRead(m: Meta, before: seq<Meta>)
    requires m.Valid() && m.RenameMeta? && AllMeta(before) && !HasKind(before, m.Kind())
    ensures ParseMetadataRow(ShowMeta(m), ShowMetas(before), RenamesOf(before)) == Ok(RenamesOf(before + [m]))
  {
    hide Has, ShowMeta, IsMetadata, MetadataKey, SomeHas, ShowMetas, HasKind, ParsePath, Words, RenamesOf;
    RenameWords();
    OnlyOwnKeyword(m, RenameFrom);
    OnlyOwnKeyword(m, RenameTo);
    RenamesOfKinds(before);
    MetaContinues(m);
    NotShownBefore(m, before);
    RenamePathIsRead(m);
    RenamesStep(before, m);
  }

  lemma OtherRowIsRead(m: Meta, before: seq<Meta>)
    requires m.Valid() && !m.RenameMeta? && AllMeta(before) && !HasKind(before, m.Kind())
    ensures ParseMetadataRow(ShowMeta(m), ShowMetas(before), RenamesOf(before)) == Ok(RenamesOf(before + [m]))
  {
    hide Has, ShowMeta, IsMetadata, MetadataKey, SomeHas, ShowMetas, HasKind, ParsePath, Words, RenamesOf;
    RenameWords();
    OnlyOwnKeyword(m, RenameFrom);
    OnlyOwnKeyword(m, RenameTo);
    MetaContinues(m);
    NotShownBefore(m, before);
    KindIsSeen(before, m.Kind());
    ShownIsMetadata(m);
    KeyOfShown(m);
    RenamesStep(before, m);
  }

  /** A further metadata row of a new kind is read. */
  lemma RowIsRead(m: Meta, before: seq<Meta>)
    requires m.Valid() && AllMeta(before) && !HasKind(before, m.Kind())
    ensures ParseMetadataRow(ShowMeta(m), ShowMetas(before), RenamesOf(before)) == Ok(RenamesOf(before + [m]))
  {
    if m.RenameMeta? {
      RenameRowIsRead(m, before);
    } else {
      OtherRowIsRead(m, before);
    }
  }

  lemma NotShownBefore(m: Meta, before: seq<Meta>)
    requires m.Valid() && AllMeta(before) && !HasKind(before, m.Kind())
    ensures ShowMeta(m) !in ShowMetas(before)
  {
    forall i | 0 <= i < |before| ensures ShowMetas(before)[i] != ShowMeta(m) {
      OnlyOwnKeyword(m, before[i].Kind());
      OnlyOwnKeyword(before[i], before[i].Kind());
    }
  }

  predicate EndsMetadata(rows: seq<string>, i: nat) {
    i < |rows| ==> Has(rows[i], 0, "--- ") || Has(rows[i], 0, "diff --git ")
  }

  lemma NewAmongDistinct(before: seq<Meta>, rest: seq<Meta>)
    requires DistinctKinds(before + rest) && rest != []
    ensures !HasKind(before, rest[0].Kind())
  {
    assert (before + rest)[|before|] == rest[0];
    assert forall k :: 0 <= k < |before| ==> (before + rest)[k] == before[k];
  }

  lemma MetadataStops(rows: seq<string>, i: nat, metadata: seq<string>, renames: Renames)
    requires i <= |rows| && EndsMetadata(rows, i)
    ensures ParseMetadata(rows, i, metadata, renames) == Ok((metadata, renames, i))
  {
    hide Has;
  }

  lemma MetadataGoesOn(rows: seq<string>, i: nat, metadata: seq<string>, renames: Renames, next: Renames)
    requires i < |rows| && !Has(rows[i], 0, "--- ") && !Has(rows[i], 0, "diff --git ")
    requires ParseMetadataRow(rows[i], metadata, renames) == Ok(next)
    ensures ParseMetadata(rows, i, metadata, renames) == ParseMetadata(rows, i + 1, metadata + [rows[i]], next)
  {
    hide Has, ParseMetadataRow;
  }

  lemma {:induction false} MetasAreRead(rows: seq<string>, i: nat, before: seq<Meta>, rest: seq<Meta>)
    requires AllMeta(before) && AllMeta(rest) && DistinctKinds(before + rest)
    requires At(rows, i, ShowMetas(rest)) && EndsMetadata(rows, i + |rest|)
    ensures AllMeta(before + rest)
    ensures ParseMetadata(rows, i, ShowMetas(before), RenamesOf(before)) ==
            Ok((ShowMetas(before + rest), RenamesOf(before + rest), i + |rest|))
    decreases |rest|
  {
    hide *;
    AtBounds(rows, i, ShowMetas(rest));
    MetaTogether(before, rest);
    if rest == [] {
      assert before + rest == before;
      MetadataStops(rows, i, ShowMetas(before), RenamesOf(before));
    } else {
      var m, more := rest[0], rest[1..];
      MetaParts(rest);
      AtParts(rows, i, [ShowMeta(m)], ShowMetas(more));
      AtOne(rows, i, ShowMeta(m));
      assert before + [m] + more == before + rest;
      NewAmongDistinct(before, rest);
      RowIsRead(m, before);
      MetaContinues(m);
      ShownMore(before, m);
      MetadataGoesOn(rows, i, ShowMetas(before), RenamesOf(before), RenamesOf(before + [m]));
      MetasAreRead(rows, i + 1, before + [m], more);
    }
  }

  lemma MetaTogether(before: seq<Meta>, rest: seq<Meta>)
    requires AllMeta(before) && AllMeta(rest)
    ensures AllMeta(before + rest) && |ShowMetas(rest)| == |rest|
  {
  }

  lemma MetaParts(rest: seq<Meta>)
    requires AllMeta(rest) && rest != []
    ensures rest[0].Valid() && AllMeta(rest[1..]) && ShowMetas(rest) == [ShowMeta(rest[0])] + ShowMetas(rest[1..])
  {
  }

  lemma ShownMore(before: seq<Meta>, m: Meta)
    requires AllMeta(before) && m.Valid()
    ensures AllMeta(before + [m]) && ShowMetas(before) + [ShowMeta(m)] == ShowMetas(before + [m])
  {
  }

  // ---- Reading the Git row --------------------------------------------------------------------------

  /** A path that the Git row can carry. */
  predicate GitPath(path: string) {
    IsPath(path) && Unbroken(path) && ' ' !in path && '"' !in path
  }

  function ShowGitRow(a: string, b: string): string {
    "diff --git " + ("a/" + a + " " + ("b/" + b))
  }

  lemma SplitTwo(x: string, y: string)
    requires ' ' !in x && ' ' !in y
    ensures Split(x + " " + y, ' ') == [x, y]
  {
    var s := x + " " + y;
    assert s == x + (" " + y);
    BeforeAt(x, ' ', " " + y);
    assert s[|x| + 1..] == y;
    assert Before(y, ' ') == y;
  }

  lemma PrefixedIsRead(prefix: string, path: string)
    requires prefix in {"a/", "b/"} && GitPath(path)
    ensures ParsePath(prefix + path, prefix) == Ok(Some(path))
  {
    assert (prefix + path)[0] == prefix[0];
    assert (prefix + path)[|prefix|..] == path;
  }

  lemma GitRowIsRead(a: string, b: string)
    requires GitPath(a) && GitPath(b)
    ensures Has(ShowGitRow(a, b), 0, "diff --git ") && ParseGitRow(ShowGitRow(a, b)) == Ok((a, b))
  {
    var x, y := "a/" + a, "b/" + b;
    var row := ShowGitRow(a, b);
    assert row[0..11] == "diff --git " && row[11..] == x + " " + y;
    assert '"' !in x + " " + y;
    SplitTwo(x, y);
    PrefixedIsRead("a/", a);
    PrefixedIsRead("b/", b);
    hide Split, ParsePath, GitPath;
  }

  // ---- Reading a file -------------------------------------------------------------------------------

  /** A changed file as `git diff` prints it; without hunks it may have no side rows. */
  datatype GitFile = GitFile(file: FileChange, meta: seq<Meta>, headers: bool)

  function NameOf(path: Option<string>, other: Option<string>): string {
    if path.Some? then path.value else if other.Some? then other.value else ""
  }

  function OldName(f: FileChange): string {
    NameOf(f.oldPath, f.newPath)
  }

  function NewName(f: FileChange): string {
    NameOf(f.newPath, f.oldPath)
  }

  function ShowSide(prefix: string, path: Option<string>): string {
    if path.None? then "/dev/null" else prefix + path.value
  }

  function ShowSides(g: GitFile): seq<string> {
    if g.headers then ["--- " + ShowSide("a/", g.file.oldPath), "+++ " + ShowSide("b/", g.file.newPath)] else []
  }

  predicate HasRename(meta: seq<Meta>, side: MetaKind, path: string) {
    exists i :: 0 <= i < |meta| && meta[i] == RenameMeta(side, path)
  }

  /** What the metadata must say of the kind of the change. */
  predicate MetaFits(g: GitFile) {
    var f, meta := g.file, g.meta;
    && (if f.kind.Rename? then HasRename(meta, RenameFrom, OldName(f)) && HasRename(meta, RenameTo, NewName(f))
        else !HasKind(meta, RenameFrom) && !HasKind(meta, RenameTo))
    && (HasKind(meta, OldMode) <==> HasKind(meta, NewMode))
    && (HasKind(meta, OldMode) ==> f.kind.Modify? || f.kind.Rename?)
    && (HasKind(meta, NewFileMode) ==> f.kind.Added?) && (HasKind(meta, DeletedFileMode) ==> f.kind.Deleted?)
  }

  /** Without side rows the metadata tells an addition or deletion; without hunks a modification is one of modes. */
  predicate EnoughSaid(g: GitFile) {
    && (!g.headers ==> g.file.hunks == [])
    && (!g.headers && g.file.kind.Added? ==> HasKind(g.meta, NewFileMode))
    && (!g.headers && g.file.kind.Deleted? ==> HasKind(g.meta, DeletedFileMode))
    && (g.file.hunks == [] ==> g.meta != [] && (g.file.kind.Modify? ==> HasKind(g.meta, OldMode)))
  }

  predicate PlainGit(g: GitFile) {
    && ValidFile(g.file) && GitPath(OldName(g.file)) && GitPath(NewName(g.file))
    && (forall i :: 0 <= i < |g.file.hunks| ==> PlainHunk(g.file.hunks[i]))
    && AllMeta(g.meta) && DistinctKinds(g.meta) && g.file.metadata == ShowMetas(g.meta)
    && MetaFits(g) && EnoughSaid(g)
  }

  function ShowGit(g: GitFile): seq<string>
    requires ValidFile(g.file) && AllMeta(g.meta)
  {
    [ShowGitRow(OldName(g.file), NewName(g.file))] + (ShowMetas(g.meta) + (ShowSides(g) + ShowHunks(g.file.hunks)))
  }

  function GitPrologue(g: GitFile, i: nat): Prologue
    requires AllMeta(g.meta)
  {
    Prologue(Some((OldName(g.file), NewName(g.file))), ShowMetas(g.meta), RenamesOf(g.meta), i + 1 + |g.meta|)
  }

  lemma PrologueIsRead(rows: seq<string>, i: nat, g: GitFile)
    requires GitPath(OldName(g.file)) && GitPath(NewName(g.file)) && AllMeta(g.meta) && DistinctKinds(g.meta)
    requires At(rows, i, [ShowGitRow(OldName(g.file), NewName(g.file))]) && At(rows, i + 1, ShowMetas(g.meta))
    requires EndsMetadata(rows, i + 1 + |g.meta|)
    ensures i < |rows| && ParsePrologue(rows, i) == Ok(GitPrologue(g, i))
  {
    hide *;
    AtOne(rows, i, ShowGitRow(OldName(g.file), NewName(g.file)));
    GitRowIsRead(OldName(g.file), NewName(g.file));
    MetasFromStart(rows, i + 1, g.meta);
    AssemblePrologue(rows, i, OldName(g.file), NewName(g.file), ShowMetas(g.meta), RenamesOf(g.meta), i + 1 + |g.meta|);
    GitPrologueIs(g, i);
  }

  lemma GitPrologueIs(g: GitFile, i: nat)
    requires AllMeta(g.meta)
    ensures GitPrologue(g, i) ==
            Prologue(Some((OldName(g.file), NewName(g.file))), ShowMetas(g.meta), RenamesOf(g.meta), i + 1 + |g.meta|)
  {
  }

  lemma MetasFromStart(rows: seq<string>, i: nat, meta: seq<Meta>)
    requires AllMeta(meta) && DistinctKinds(meta) && At(rows, i, ShowMetas(meta)) && EndsMetadata(rows, i + |meta|)
    ensures i <= |rows|
    ensures ParseMetadata(rows, i, [], Renames(None, None)) == Ok((ShowMetas(meta), RenamesOf(meta), i + |meta|))
  {
    assert ShowMetas([]) == [] && RenamesOf([]) == Renames(None, None) && [] + meta == meta;
    AtBounds(rows, i, ShowMetas(meta));
    hide ParseMetadata;
    MetasAreRead(rows, i, [], meta);
  }

  lemma AssemblePrologue(rows: seq<string>, i: nat, a: string, b: string, metadata: seq<string>, renames: Renames,
                         next: nat)
    requires i < |rows| && Has(rows[i], 0, "diff --git ") && ParseGitRow(rows[i]) == Ok((a, b))
    requires ParseMetadata(rows, i + 1, [], Renames(None, None)) == Ok((metadata, renames, next))
    ensures ParsePrologue(rows, i) == Ok(Prologue(Some((a, b)), metadata, renames, next))
  {
    hide Has, ParseGitRow, ParseMetadata;
  }

  lemma SideIsRead(word: string, prefix: string, path: Option<string>)
    requires |word| == 4 && prefix in {"a/", "b/"} && (path.Some? ==> GitPath(path.value))
    ensures var row := word + ShowSide(prefix, path);
            |row| >= 4 && ParseSide(row, prefix) == Ok(path)
  {
    var row := word + ShowSide(prefix, path);
    assert row[4..] == ShowSide(prefix, path);
    if path.Some? {
      assert '\t' !in path.value by {
        assert IsPath(path.value);
      }
      PrefixedIsRead(prefix, path.value);
    } else {
      assert '\t' !in "/dev/null";
    }
  }

  /** What follows a tab in a side row, as a time stamp does, is not part of the path. */
  lemma SuffixIsIgnored(word: string, prefix: string, path: Option<string>, suffix: string)
    requires |word| == 4 && prefix in {"", "a/", "b/"} && (path.Some? ==> '\t' !in path.value)
    ensures ParseSide(word + (ShowSide(prefix, path) + ("\t" + suffix)), prefix)
         == ParseSide(word + ShowSide(prefix, path), prefix)
  {
    var side := ShowSide(prefix, path);
    assert '\t' !in side;
    assert (word + side)[4..] == side == side + "";
    assert (word + (side + ("\t" + suffix)))[4..] == side + ("\t" + suffix);
    BeforeAt(side, '\t', "");
    BeforeAt(side, '\t', "\t" + suffix);
  }

  lemma PlainNames(g: GitFile)
    requires PlainGit(g)
    ensures GitPath(OldName(g.file)) && GitPath(NewName(g.file))
  {
  }

  lemma PlainGives(g: GitFile)
    requires PlainGit(g)
    ensures ValidFile(g.file) && AllMeta(g.meta) && g.file.metadata == ShowMetas(g.meta)
    ensures forall k :: 0 <= k < |g.file.hunks| ==> ValidHunk(g.file.hunks[k]) && PlainHunk(g.file.hunks[k])
  {
    hide ValidHunk, GitPath, DistinctKinds, MetaFits, EnoughSaid, NoHunkAfterEnd, InOrder;
  }

  lemma GitSidesAreRead(rows: seq<string>, i: nat, g: GitFile)
    requires PlainGit(g) && At(rows, i + 1 + |g.meta|, ShowSides(g))
    requires !g.headers && i + 1 + |g.meta| < |rows| ==> !Has(rows[i + 1 + |g.meta|], 0, "--- ")
    ensures i + 1 + |g.meta| <= |rows|
    ensures ParseSides(rows, GitPrologue(g, i)) ==
            Ok((g.file.oldPath, g.file.newPath, i + 1 + |g.meta| + |ShowSides(g)|))
  {
    PlainNames(g);
    assert g.file.oldPath.Some? ==> OldName(g.file) == g.file.oldPath.value;
    assert g.file.newPath.Some? ==> NewName(g.file) == g.file.newPath.value;
    AtBounds(rows, i + 1 + |g.meta|, ShowSides(g));
    if g.headers {
      hide PlainGit, GitPath, At;
      SideRowsAreRead(rows, i, g);
    } else {
      SidesUnsaid(g);
      PlainGives(g);
      hide PlainGit, GitPath, At;
      NoSideRows(rows, i, g);
    }
  }

  lemma SideRowsAreRead(rows: seq<string>, i: nat, g: GitFile)
    requires g.headers && AllMeta(g.meta) && At(rows, i + 1 + |g.meta|, ShowSides(g))
    requires g.file.oldPath.Some? ==> GitPath(g.file.oldPath.value)
    requires g.file.newPath.Some? ==> GitPath(g.file.newPath.value)
    ensures i + 1 + |g.meta| <= |rows|
    ensures ParseSides(rows, GitPrologue(g, i)) ==
            Ok((g.file.oldPath, g.file.newPath, i + 1 + |g.meta| + |ShowSides(g)|))
  {
    var k, f := i + 1 + |g.meta|, g.file;
    var minus, plus := "--- " + ShowSide("a/", f.oldPath), "+++ " + ShowSide("b/", f.newPath);
    hide GitPath, ParseSide, ShowSide, At, Has, ShowMetas, RenamesOf, AllMeta;
    assert ShowSides(g) == [minus] + [plus];
    AtParts(rows, k, [minus], [plus]);
    AtOne(rows, k, minus);
    AtOne(rows, k + 1, plus);
    HasPiece("", "--- ", ShowSide("a/", f.oldPath));
    HasPiece("", "+++ ", ShowSide("b/", f.newPath));
    assert "" + "--- " + ShowSide("a/", f.oldPath) == minus && "" + "+++ " + ShowSide("b/", f.newPath) == plus;
    SideIsRead("--- ", "a/", f.oldPath);
    SideIsRead("+++ ", "b/", f.newPath);
  }

  /** Without side rows the metadata says which side is missing. */
  lemma SidesUnsaid(g: GitFile)
    requires PlainGit(g) && !g.headers
    ensures g.file.oldPath == if HasKind(g.meta, NewFileMode) then None else Some(OldName(g.file))
    ensures g.file.newPath == if HasKind(g.meta, DeletedFileMode) then None else Some(NewName(g.file))
  {
    assert KindAgrees(g.file.kind, g.file.oldPath, g.file.newPath);
    hide GitPath, ValidHunk, PlainHunk, ValidFile, HasKind, HasRename, ShowMetas, AllMeta, DistinctKinds;
  }

  lemma NoSideRows(rows: seq<string>, i: nat, g: GitFile)
    requires AllMeta(g.meta) && !g.headers && i + 1 + |g.meta| <= |rows|
    requires i + 1 + |g.meta| < |rows| ==> !Has(rows[i + 1 + |g.meta|], 0, "--- ")
    requires g.file.oldPath == if HasKind(g.meta, NewFileMode) then None else Some(OldName(g.file))
    requires g.file.newPath == if HasKind(g.meta, DeletedFileMode) then None else Some(NewName(g.file))
    ensures ParseSides(rows, GitPrologue(g, i)) ==
            Ok((g.file.oldPath, g.file.newPath, i + 1 + |g.meta| + |ShowSides(g)|))
  {
    hide ParseSide, Has, SomeHas, HasKind, ShowMetas, RenamesOf, OldName, NewName, AllMeta;
    KindsAreSeen(g.meta);
  }

  lemma KindWords()
    ensures Words(NewFileMode) + " " == "new file mode " && Words(DeletedFileMode) + " " == "deleted file mode "
    ensures Words(OldMode) + " " == "old mode " && Words(NewMode) + " " == "new mode "
  {
  }

  lemma GitRenames(g: GitFile)
    requires AllMeta(g.meta) && DistinctKinds(g.meta) && MetaFits(g)
    ensures RenamesOf(g.meta) ==
              if g.file.kind.Rename? then Renames(Some(Some(OldName(g.file))), Some(Some(NewName(g.file))))
              else Renames(None, None)
  {
    if g.file.kind.Rename? {
      var j :| 0 <= j < |g.meta| && g.meta[j] == RenameMeta(RenameFrom, OldName(g.file));
      RenamesOfPaths(g.meta, j);
      var k :| 0 <= k < |g.meta| && g.meta[k] == RenameMeta(RenameTo, NewName(g.file));
      RenamesOfPaths(g.meta, k);
    } else {
      RenamesOfKinds(g.meta);
    }
  }

  lemma KindsAreSeen(meta: seq<Meta>)
    requires AllMeta(meta)
    ensures SomeHas(ShowMetas(meta), "old mode ") <==> HasKind(meta, OldMode)
    ensures SomeHas(ShowMetas(meta), "new mode ") <==> HasKind(meta, NewMode)
    ensures SomeHas(ShowMetas(meta), "new file mode ") <==> HasKind(meta, NewFileMode)
    ensures SomeHas(ShowMetas(meta), "deleted file mode ") <==> HasKind(meta, DeletedFileMode)
  {
    hide SomeHas, HasKind, ShowMetas, Words;
    KindIsSeen(meta, OldMode);
    KindIsSeen(meta, NewMode);
    KindIsSeen(meta, NewFileMode);
    KindIsSeen(meta, DeletedFileMode);
    KindWords();
  }

  lemma GitHeadersAgree(g: GitFile, i: nat)
    requires PlainGit(g)
    ensures HeadersAgree(GitPrologue(g, i), g.file.oldPath, g.file.newPath)
    ensures KindOf(g.file.oldPath, g.file.newPath) == g.file.kind
    ensures HunksSuffice(GitPrologue(g, i), g.file.kind, g.file.hunks)
  {
    hide GitPath, IsPath, ValidHunk, PlainHunk, SomeHas, HasKind, RenamesOf, DistinctKinds, HasRename, NoHunkAfterEnd;
    hide InOrder, ShowMeta;
    KindsAreSeen(g.meta);
    GitRenames(g);
    assert KindAgrees(g.file.kind, g.file.oldPath, g.file.newPath);
    assert |ShowMetas(g.meta)| == |g.meta|;
    hide ValidFile, ShowMetas;
  }

  /** The file after row `i` can be told from the rows of this one. */
  predicate EndsGit(rows: seq<string>, i: nat, g: GitFile) {
    && EndsHunks(rows, i)
    && (!g.headers && i < |rows| ==> Has(rows[i], 0, "diff --git "))
  }

  lemma GitParts(rows: seq<string>, i: nat, g: GitFile)
    requires ValidFile(g.file) && AllMeta(g.meta) && At(rows, i, ShowGit(g))
    ensures At(rows, i, [ShowGitRow(OldName(g.file), NewName(g.file))]) && At(rows, i + 1, ShowMetas(g.meta))
    ensures At(rows, i + 1 + |g.meta|, ShowSides(g))
    ensures At(rows, i + 1 + |g.meta| + |ShowSides(g)|, ShowHunks(g.file.hunks))
    ensures |ShowGit(g)| == 1 + |g.meta| + |ShowSides(g)| + |ShowHunks(g.file.hunks)|
  {
    ShowGitIs(g);
    var hunks := ShowHunks(g.file.hunks);
    hide *;
    FourParts(rows, i, [ShowGitRow(OldName(g.file), NewName(g.file))], ShowMetas(g.meta), ShowSides(g), hunks);
  }

  lemma ShowGitIs(g: GitFile)
    requires ValidFile(g.file) && AllMeta(g.meta)
    ensures |ShowMetas(g.meta)| == |g.meta|
    ensures ShowGit(g) == [ShowGitRow(OldName(g.file), NewName(g.file))] +
                          (ShowMetas(g.meta) + (ShowSides(g) + ShowHunks(g.file.hunks)))
  {
    hide ShowSides, ShowHunks, ShowGitRow, AllMeta, ShowMetas;
  }

  lemma FourParts(rows: seq<string>, i: nat, a: seq<string>, b: seq<string>, c: seq<string>, d: seq<string>)
    requires At(rows, i, a + (b + (c + d)))
    ensures At(rows, i, a) && At(rows, i + |a|, b)
    ensures At(rows, i + |a| + |b|, c) && At(rows, i + |a| + |b| + |c|, d)
  {
    hide At;
    AtParts(rows, i, a, b + (c + d));
    AtParts(rows, i + |a|, b, c + d);
    AtParts(rows, i + |a| + |b|, c, d);
  }

  lemma SidesFirst(rows: seq<string>, k: nat, g: GitFile)
    requires g.headers && At(rows, k, ShowSides(g))
    ensures k < |rows| && Has(rows[k], 0, "--- ")
  {
    var row := "--- " + ShowSide("a/", g.file.oldPath);
    hide Has, ShowSide, At;
    assert ShowSides(g) == [row] + ["+++ " + ShowSide("b/", g.file.newPath)];
    AtParts(rows, k, [row], ["+++ " + ShowSide("b/", g.file.newPath)]);
    AtOne(rows, k, row);
    HasPiece("", "--- ", ShowSide("a/", g.file.oldPath));
    assert "" + "--- " + ShowSide("a/", g.file.oldPath) == row;
  }

  lemma GitRowIsNoSide(row: string)
    requires Has(row, 0, "diff --git ")
    ensures !Has(row, 0, "--- ")
  {
    StartsAlike(row, "diff --git ", 0);
    StartsAlike(row, "--- ", 0);
  }

  lemma MetadataEnds(rows: seq<string>, i: nat, g: GitFile)
    requires ValidFile(g.file) && AllMeta(g.meta) && EnoughSaid(g) && At(rows, i, ShowGit(g))
    requires EndsGit(rows, i + |ShowGit(g)|, g)
    ensures EndsMetadata(rows, i + 1 + |g.meta|)
    ensures !g.headers && i + 1 + |g.meta| < |rows| ==> !Has(rows[i + 1 + |g.meta|], 0, "--- ")
  {
    hide ValidFile, AllMeta, At, Has, ShowGit, EndsHunks, HasKind;
    GitParts(rows, i, g);
    var k := i + 1 + |g.meta|;
    if g.headers {
      SidesFirst(rows, k, g);
    } else {
      assert ShowSides(g) == [] && ShowHunks(g.file.hunks) == [];
      if k < |rows| {
        GitRowIsNoSide(rows[k]);
      }
    }
  }

  lemma GitPrologueIsRead(rows: seq<string>, i: nat, g: GitFile)
    requires PlainGit(g) && At(rows, i, ShowGit(g)) && EndsGit(rows, i + |ShowGit(g)|, g)
    ensures i < |rows| && ParsePrologue(rows, i) == Ok(GitPrologue(g, i))
  {
    hide At, ShowGit, ParsePrologue, EndsGit, ValidFile, PlainHunk, GitPath, DistinctKinds, MetaFits, EnoughSaid;
    GitParts(rows, i, g);
    MetadataEnds(rows, i, g);
    PrologueIsRead(rows, i, g);
  }

  lemma GitSidesFollow(rows: seq<string>, i: nat, g: GitFile)
    requires PlainGit(g) && At(rows, i, ShowGit(g)) && EndsGit(rows, i + |ShowGit(g)|, g)
    ensures i + 1 + |g.meta| <= |rows|
    ensures ParseSides(rows, GitPrologue(g, i)) ==
            Ok((g.file.oldPath, g.file.newPath, i + 1 + |g.meta| + |ShowSides(g)|))
  {
    hide At, ShowGit, ParseSides, EndsGit, ValidFile, PlainHunk, GitPath, DistinctKinds, MetaFits, EnoughSaid;
    GitParts(rows, i, g);
    MetadataEnds(rows, i, g);
    GitSidesAreRead(rows, i, g);
  }

  lemma EndsGives(rows: seq<string>, i: nat, g: GitFile)
    requires EndsGit(rows, i, g)
    ensures EndsHunks(rows, i)
  {
  }

  lemma GitHunksFollow(s: Rows, i: nat, g: GitFile) returns (hunks: seq<Hunk>)
    requires s.Valid() && PlainGit(g) && At(s.text, i, ShowGit(g)) && EndsGit(s.text, i + |ShowGit(g)|, g)
    ensures i + 1 + |g.meta| + |ShowSides(g)| <= |s.text|
    ensures ParseHunks(s, i + 1 + |g.meta| + |ShowSides(g)|) == Ok((hunks, i + |ShowGit(g)|))
    ensures ForgetHunks(hunks) == ForgetHunks(g.file.hunks)
  {
    hide *;
    PlainGives(g);
    EndsGives(s.text, i + |ShowGit(g)|, g);
    GitParts(s.text, i, g);
    var next := i + 1 + |g.meta| + |ShowSides(g)|;
    AtBounds(s.text, next, ShowHunks(g.file.hunks));
    HunksAreRead(s, next, g.file.hunks);
    hunks := ParseHunks(s, next).value.0;
  }

  lemma AssembleFile(s: Rows, i: nat, p: Prologue, f: FileChange, next: nat, end: nat)
    requires s.Valid() && i < |s.text| && ParsePrologue(s.text, i) == Ok(p) && p.next <= |s.text| && next <= |s.text|
    requires ParseSides(s.text, p) == Ok((f.oldPath, f.newPath, next)) && HeadersAgree(p, f.oldPath, f.newPath)
    requires ParseHunks(s, next) == Ok((f.hunks, end)) && end <= |s.text|
    requires f.span == Span(s.offsets[i], s.offsets[end])
    requires f.kind == KindOf(f.oldPath, f.newPath) && f.metadata == p.metadata
    requires HunksSuffice(p, f.kind, f.hunks) && ValidFile(f)
    ensures ParseFile(s, i) == Ok((f, end))
  {
    hide ParsePrologue, ParseSides, HeadersAgree, ParseHunks, KindOf, HunksSuffice, ValidFile;
  }

  lemma SameHunksSuffice(a: seq<Hunk>, b: seq<Hunk>, p: Prologue, kind: ChangeKind)
    requires ForgetHunks(a) == ForgetHunks(b) && HunksSuffice(p, kind, b)
    ensures HunksSuffice(p, kind, a)
  {
    assert |a| == |ForgetHunks(a)| == |ForgetHunks(b)| == |b|;
  }

  /** A file in the form of `git diff` is read back. */
  lemma GitFileIsRead(s: Rows, i: nat, g: GitFile)
    requires s.Valid() && PlainGit(g) && At(s.text, i, ShowGit(g)) && EndsGit(s.text, i + |ShowGit(g)|, g)
    ensures i < |s.text|
    ensures var r := ParseFile(s, i);
            r.Ok? && r.value.1 == i + |ShowGit(g)| && Forget(r.value.0) == Forget(g.file)
  {
    hide *;
    PlainGives(g);
    GitPrologueIsRead(s.text, i, g);
    GitSidesFollow(s.text, i, g);
    var hunks := GitHunksFollow(s, i, g);
    GitHeadersAgree(g, i);
    AtBounds(s.text, i, ShowGit(g));
    GitPrologueIs(g, i);
    OffsetsReach(s);
    var end := i + |ShowGit(g)|;
    var read := g.file.(hunks := hunks, span := Span(s.offsets[i], s.offsets[end]));
    SameValidity(g.file, read);
    SameHunksSuffice(hunks, g.file.hunks, GitPrologue(g, i), g.file.kind);
    AssembleFile(s, i, GitPrologue(g, i), read, i + 1 + |g.meta| + |ShowSides(g)|, end);
    SameButHunks(g.file, read);
  }

  lemma OffsetsReach(s: Rows)
    requires s.Valid()
    ensures |s.offsets| == |s.text| + 1
  {
  }

  lemma SameButHunks(f: FileChange, g: FileChange)
    requires f == g.(hunks := f.hunks, span := f.span) && ForgetHunks(f.hunks) == ForgetHunks(g.hunks)
    ensures Forget(f) == Forget(g)
  {
  }

  // ---- The rows are plain ---------------------------------------------------------------------------

  lemma SpelledIsUnbroken(digits: seq<nat>, alphabet: string)
    requires Spells(digits, alphabet) && alphabet in {HexDigits, OctalDigits, DecimalDigits}
    ensures Unbroken(Spell(digits, alphabet))
  {
    assert Unbroken(HexDigits) && Unbroken(OctalDigits) && Unbroken(DecimalDigits);
  }

  lemma JoinedIsUnbroken(a: string, b: string)
    requires Unbroken(a) && Unbroken(b)
    ensures Unbroken(a + b)
  {
  }

  lemma WordsAreUnbroken(kind: MetaKind)
    ensures Unbroken(Words(kind) + " ")
  {
  }

  lemma SignsAreUnbroken()
    ensures Unbroken("..") && Unbroken(" ") && Unbroken("%")
  {
  }

  lemma TailIsUnbroken(m: Meta)
    requires m.Valid()
    ensures Unbroken(Tail(m))
  {
    hide Unbroken, Spell, Spells, IsPath;
    SignsAreUnbroken();
    match m
    case IndexMeta(a, b, mode) =>
      SpelledIsUnbroken(a, HexDigits);
      SpelledIsUnbroken(b, HexDigits);
      SuffixIsUnbroken(mode);
      JoinedIsUnbroken(Spell(a, HexDigits), "..");
      JoinedIsUnbroken(Spell(a, HexDigits) + "..", Spell(b, HexDigits));
      JoinedIsUnbroken(Spell(a, HexDigits) + ".." + Spell(b, HexDigits), ModeSuffix(SpelledMode(mode)));
    case ModeMeta(_, digits) => SpelledIsUnbroken(digits, OctalDigits);
    case SimilarityMeta(percent) =>
      SpelledIsUnbroken(percent, DecimalDigits);
      JoinedIsUnbroken(Spell(percent, DecimalDigits), "%");
    case RenameMeta(_, path) =>
  }

  lemma SuffixIsUnbroken(mode: Option<seq<nat>>)
    requires mode.Some? ==> Spells(mode.value, OctalDigits)
    ensures Unbroken(ModeSuffix(SpelledMode(mode)))
  {
    if mode.Some? {
      SpelledIsUnbroken(mode.value, OctalDigits);
    }
  }

  lemma MetaIsPlain(m: Meta)
    requires m.Valid()
    ensures PlainRow(ShowMeta(m))
  {
    hide Unbroken, Words, Tail, Has, IsCombinedOrBinary;
    WordsAreUnbroken(m.Kind());
    TailIsUnbroken(m);
    JoinedIsUnbroken(Words(m.Kind()) + " ", Tail(m));
    MetaContinues(m);
  }

  lemma GitRowIsPlain(a: string, b: string)
    requires GitPath(a) && GitPath(b)
    ensures PlainRow(ShowGitRow(a, b)) && !Has(ShowGitRow(a, b), 0, "@@") && ShowGitRow(a, b) != Marker
  {
    var row := ShowGitRow(a, b);
    assert row[0..11] == "diff --git ";
    assert row[0] == row[0..11][0] && row[7] == row[0..11][7] == 'g';
    GitRowIsOther(row);
    assert Unbroken("diff --git ") && Unbroken("a/") && Unbroken("b/") && Unbroken(" ");
    hide Has, IsPath, IsCombinedOrBinary, Marker, Unbroken;
    JoinedIsUnbroken("a/", a);
    JoinedIsUnbroken("b/", b);
    JoinedIsUnbroken("a/" + a, " ");
    JoinedIsUnbroken("a/" + a + " ", "b/" + b);
    JoinedIsUnbroken("diff --git ", "a/" + a + " " + ("b/" + b));
  }

  lemma GitRowIsOther(row: string)
    requires |row| > 7 && row[0] == 'd' && row[7] == 'g'
    ensures !IsCombinedOrBinary(row) && !Has(row, 0, "@@") && row != Marker
  {
    StartsAlike(row, "@@", 0);
    StartsAlike(row, "@@@", 0);
    StartsAlike(row, "diff --cc ", 7);
    StartsAlike(row, "diff --combined ", 7);
    StartsAlike(row, "Binary files ", 0);
    assert Marker[0] == '\\';
  }

  lemma SidesArePlain(g: GitFile)
    requires PlainGit(g)
    ensures PlainRows(ShowSides(g))
  {
    hide IsPath, ValidHunk, PlainHunk, AllMeta, DistinctKinds, MetaFits, EnoughSaid;
    if g.headers {
      SideIsPlain("--- ", "a/", g.file.oldPath);
      SideIsPlain("+++ ", "b/", g.file.newPath);
    }
    hide PlainRow, ShowSide;
  }

  lemma SideIsPlain(word: string, prefix: string, path: Option<string>)
    requires word in {"--- ", "+++ "} && prefix in {"a/", "b/"} && (path.Some? ==> Unbroken(path.value))
    ensures PlainRow(word + ShowSide(prefix, path))
  {
    assert Unbroken(word) && Unbroken(prefix) && Unbroken("/dev/null");
    var row := word + ShowSide(prefix, path);
    assert row[0] == word[0];
    OtherFirst(row);
    hide IsCombinedOrBinary;
  }

  lemma PlainTogether(a: seq<string>, b: seq<string>)
    requires PlainRows(a) && PlainRows(b)
    ensures PlainRows(a + b)
  {
    hide PlainRow;
  }

  lemma GitIsPlain(g: GitFile)
    requires PlainGit(g)
    ensures PlainRows(ShowGit(g))
  {
    var row, hunks := ShowGitRow(OldName(g.file), NewName(g.file)), ShowHunks(g.file.hunks);
    assert ShowGit(g) == [row] + (ShowMetas(g.meta) + (ShowSides(g) + hunks));
    assert GitPath(OldName(g.file)) && GitPath(NewName(g.file));
    hide *;
    PlainGives(g);
    GitRowIsPlain(OldName(g.file), NewName(g.file));
    MetasArePlain(g.meta);
    SidesArePlain(g);
    HunksArePlain(g.file.hunks);
    PlainTogether(ShowSides(g), hunks);
    PlainTogether(ShowMetas(g.meta), ShowSides(g) + hunks);
    OneIsPlain(row);
    PlainTogether([row], ShowMetas(g.meta) + (ShowSides(g) + hunks));
  }

  lemma OneIsPlain(row: string)
    requires PlainRow(row)
    ensures PlainRows([row])
  {
  }

  lemma MetasArePlain(meta: seq<Meta>)
    requires AllMeta(meta)
    ensures PlainRows(ShowMetas(meta))
  {
    hide PlainRow, ShowMeta;
    forall i | 0 <= i < |meta| ensures PlainRow(ShowMetas(meta)[i]) {
      MetaIsPlain(meta[i]);
    }
  }

  // ---- A whole diff ---------------------------------------------------------------------------------

  /** One file of a diff, in either form. */
  datatype Item = PlainItem(file: FileChange) | GitItem(git: GitFile)

  function FileOf(item: Item): FileChange {
    match item
    case PlainItem(f) => f
    case GitItem(g) => g.file
  }

  predicate Readable(item: Item) {
    match item
    case PlainItem(f) => ValidFile(f) && PlainFile(f)
    case GitItem(g) => PlainGit(g)
  }

  function ShowItem(item: Item): seq<string>
    requires Readable(item)
  {
    match item
    case PlainItem(f) => ShowFile(f)
    case GitItem(g) => ShowGit(g)
  }

  predicate AllReadable(items: seq<Item>) {
    forall i :: 0 <= i < |items| ==> Readable(items[i])
  }

  function ShowItems(items: seq<Item>): seq<string>
    requires AllReadable(items)
  {
    if items == [] then [] else ShowItem(items[0]) + ShowItems(items[1..])
  }

  function FilesOf(items: seq<Item>): (r: seq<FileChange>)
    ensures |r| == |items| && forall i :: 0 <= i < |r| ==> r[i] == FileOf(items[i])
  {
    seq(|items|, i requires 0 <= i < |items| => FileOf(items[i]))
  }

  /** A Git file without side rows is not followed by the side rows of a plain one, which would be taken for its own. */
  predicate Separable(items: seq<Item>) {
    forall i :: 0 <= i < |items| - 1 && items[i].GitItem? && !items[i].git.headers ==> items[i + 1].GitItem?
  }

  lemma ItemStarts(item: Item)
    requires Readable(item)
    ensures ShowItem(item) != [] && !Has(ShowItem(item)[0], 0, "@@") && ShowItem(item)[0] != Marker
    ensures item.GitItem? ==> Has(ShowItem(item)[0], 0, "diff --git ")
  {
    match item
    case PlainItem(f) => ShownFileStarts(f);
    case GitItem(g) =>
      PlainNames(g);
      GitRowIsPlain(OldName(g.file), NewName(g.file));
      GitRowIsRead(OldName(g.file), NewName(g.file));
      hide Has, PlainGit, ShowGitRow;
  }

  /** What follows an item ends it. */
  lemma NextEnds(rows: seq<string>, i: nat, item: Item, rest: seq<Item>)
    requires Readable(item) && AllReadable(rest) && Separable([item] + rest)
    requires At(rows, i, ShowItems(rest)) && i + |ShowItems(rest)| == |rows|
    ensures EndsHunks(rows, i) && (item.GitItem? ==> EndsGit(rows, i, item.git))
  {
    hide Has, ShowItem, Readable;
    if rest != [] {
      assert ([item] + rest)[0] == item && ([item] + rest)[1] == rest[0];
      AtParts(rows, i, ShowItem(rest[0]), ShowItems(rest[1..]));
      ItemStarts(rest[0]);
      assert rows[i] == rows[i..i + |ShowItem(rest[0])|][0];
    }
  }

  lemma ItemIsRead(s: Rows, i: nat, item: Item)
    requires s.Valid() && Readable(item) && At(s.text, i, ShowItem(item))
    requires EndsHunks(s.text, i + |ShowItem(item)|)
    requires item.GitItem? ==> EndsGit(s.text, i + |ShowItem(item)|, item.git)
    ensures i < |s.text| && ParseFile(s, i).Ok? && ParseFile(s, i).value.1 == i + |ShowItem(item)|
    ensures Forget(ParseFile(s, i).value.0) == Forget(FileOf(item))
  {
    hide ParseFile, PlainFile, ValidFile, PlainGit, At, EndsHunks, EndsGit, Forget, ShowFile, ShowGit;
    match item
    case PlainItem(f) => FileIsRead(s, i, f);
    case GitItem(g) => GitFileIsRead(s, i, g);
  }

  lemma {:induction false} ItemsAreRead(s: Rows, i: nat, items: seq<Item>)
    requires s.Valid() && AllReadable(items) && Separable(items)
    requires At(s.text, i, ShowItems(items)) && i + |ShowItems(items)| == |s.text|
    ensures ParseFiles(s, i).Ok? && ForgetFiles(ParseFiles(s, i).value) == ForgetFiles(FilesOf(items))
    decreases |items|
  {
    hide At, ParseFile, ShowItem, Readable, EndsHunks, EndsGit;
    if items == [] {
      assert ForgetFiles([]) == ForgetFiles(FilesOf([]));
    } else {
      var item, rest := items[0], items[1..];
      assert [item] + rest == items;
      assert ShowItems(items) == ShowItem(item) + ShowItems(rest);
      assert FilesOf(items) == [FileOf(item)] + FilesOf(rest);
      assert AllReadable(rest) && Separable(rest) && Readable(item);
      hide ParseFiles, FilesOf, ForgetFiles, Forget, ShowItems, Separable, AllReadable;
      AtParts(s.text, i, ShowItem(item), ShowItems(rest));
      var next := i + |ShowItem(item)|;
      NextEnds(s.text, next, item, rest);
      ItemIsRead(s, i, item);
      ItemsAreRead(s, next, rest);
      OneMoreRead(s, i, FileOf(item), FilesOf(rest));
    }
  }

  lemma OneMoreRead(s: Rows, i: nat, f: FileChange, rest: seq<FileChange>)
    requires s.Valid() && i < |s.text| && ParseFile(s, i).Ok? && Forget(ParseFile(s, i).value.0) == Forget(f)
    requires var next := ParseFile(s, i).value.1;
             ParseFiles(s, next).Ok? && ForgetFiles(ParseFiles(s, next).value) == ForgetFiles(rest)
    ensures ParseFiles(s, i).Ok? && ForgetFiles(ParseFiles(s, i).value) == ForgetFiles([f] + rest)
  {
    OneMoreFile(s, i, f, rest);
  }

  lemma {:induction false} ItemsArePlain(items: seq<Item>)
    requires AllReadable(items)
    ensures PlainRows(ShowItems(items))
  {
    if items != [] {
      hide PlainRow, ShowItem, Readable;
      ItemIsPlain(items[0]);
      ItemsArePlain(items[1..]);
    }
  }

  lemma ItemIsPlain(item: Item)
    requires Readable(item)
    ensures PlainRows(ShowItem(item))
  {
    hide PlainRows, ValidFile, PlainFile, PlainGit, ShowFile, ShowGit;
    match item
    case PlainItem(f) => FileIsPlain(f);
    case GitItem(g) => GitIsPlain(g);
  }

  /** Reading a rendered diff, of plain files and files in the form of `git diff`, gives back the same paths, kinds,
      metadata, ranges, sections and lines: modifications, additions and deletions with their modes, renames with or
      without hunks, changes of mode alone. */
  lemma RenderedGitDiffIsReadBack(items: seq<Item>)
    requires items != [] && AllReadable(items) && Separable(items) && DistinctPaths(FilesOf(items))
    ensures ParseDiff(Join(ShowItems(items))).Ok?
    ensures ForgetFiles(ParseDiff(Join(ShowItems(items))).value) == ForgetFiles(FilesOf(items))
  {
    hide *;
    var rows := ShowItems(items);
    var raw := Join(rows);
    ItemsArePlain(items);
    PlainRowsGive(rows);
    RenderedRows(rows);
    RowsAreValid(raw);
    AtWhole(rows);
    ItemsAreRead(RowsOf(raw), 0, items);
    ItemsRemain(items);
    ValidAfterReading(raw, FilesOf(items));
    DiffIsParsed(raw);
  }

  lemma PlainRowsGive(rows: seq<string>)
    requires PlainRows(rows)
    ensures (forall k :: 0 <= k < |rows| ==> Unbroken(rows[k])) && !SomeCombinedOrBinary(rows)
  {
    hide Unbroken, IsCombinedOrBinary;
  }

  lemma AtWhole(rows: seq<string>)
    ensures At(rows, 0, rows)
  {
    assert rows[0..0 + |rows|] == rows;
  }

  lemma ItemsRemain(items: seq<Item>)
    requires items != []
    ensures FilesOf(items) != []
  {
    assert |FilesOf(items)| == |items|;
  }

  lemma DiffIsParsed(raw: string)
    requires PlainBreaks(raw) && !SomeCombinedOrBinary(RowsOf(raw).text)
    requires RowsOf(raw).Valid() && ParseFiles(RowsOf(raw), 0).Ok?
    requires ValidChange(ParseFiles(RowsOf(raw), 0).value, |raw|)
    ensures ParseDiff(raw) == ParseFiles(RowsOf(raw), 0)
  {
    hide PlainBreaks, SomeCombinedOrBinary, RowsOf, ParseFiles, ValidChange;
    RowsAreValid(raw);
  }

  // ---- An example -----------------------------------------------------------------------------------

  /** One line replaced in a file, as `git diff` shows it. */
  function ExampleFile(): GitFile {
    var lines := [DiffLine(Delete, "a"), DiffLine(Add, "b")];
    var hunk := Diff.Hunk(LineRange(1, 2), LineRange(1, 2), "", lines, Span(0, 0));
    GitFile(FileChange(Some("a.cpp"), Some("a.cpp"), Modify, [hunk], [ExampleRow()], Span(0, 0)),
            [IndexMeta([10, 11, 12], [13, 14, 15], Some([1, 0, 0, 6, 4, 4]))], true)
  }

  /** `index abc..def 100644`. */
  function ExampleRow(): string {
    "index" + " " + ("abc" + ".." + "def" + (" " + "100644"))
  }

  lemma ExampleDigits()
    ensures Spells([10, 11, 12], HexDigits) && Spell([10, 11, 12], HexDigits) == "abc"
    ensures Spells([13, 14, 15], HexDigits) && Spell([13, 14, 15], HexDigits) == "def"
    ensures Spells([1, 0, 0, 6, 4, 4], OctalDigits) && Spell([1, 0, 0, 6, 4, 4], OctalDigits) == "100644"
  {
  }

  lemma ExampleIndexRow()
    ensures AllMeta(ExampleFile().meta) && DistinctKinds(ExampleFile().meta)
    ensures ShowMetas(ExampleFile().meta) == [ExampleRow()]
  {
    ExampleDigits();
    hide Spell, Spells;
    var m := ExampleFile().meta[0];
    assert m.Valid() && Tail(m) == "abc" + ".." + "def" + ModeSuffix(Some("100644"));
    assert ShowMeta(m) == ExampleRow();
  }

  lemma ExamplePath()
    ensures GitPath("a.cpp")
  {
    ExampleLetters();
    var path := "a.cpp";
    hide Before, Split, Unbroken;
    assert Before(path, '/') == path;
    ExampleSplit();
  }

  lemma ExampleLetters()
    ensures var path := "a.cpp"; Unbroken(path) && forall c :: c in path <==> c in {'a', '.', 'c', 'p'}
  {
  }

  lemma ExampleSplit()
    ensures Split("a.cpp", '/') == ["a.cpp"]
  {
    ExampleLetters();
    assert Before("a.cpp", '/') == "a.cpp";
  }

  lemma ExampleHunk()
    ensures ValidHunk(ExampleFile().file.hunks[0]) && PlainHunk(ExampleFile().file.hunks[0])
  {
    var h := ExampleFile().file.hunks[0];
    assert h.lines[1..] == [DiffLine(Add, "b")] && h.lines[1..][1..] == [];
    assert OldCount(h.lines) == 1 && NewCount(h.lines) == 1;
    assert Decimal(1) == "1";
  }

  /** So it is among the files that are read back. */
  lemma ExampleIsPlain()
    ensures PlainGit(ExampleFile())
  {
    ExampleIndexRow();
    ExamplePath();
    ExampleHunk();
    hide GitPath, PlainHunk, ValidHunk, ShowMetas, AllMeta, DistinctKinds;
    var f := ExampleFile().file;
    assert IsPath("a.cpp") by {
      ExamplePath();
      PathOfGit("a.cpp");
    }
    assert ValidFile(f) by {
      hide IsPath, EndsOld, EndsNew;
    }
    hide ValidFile;
    assert !HasKind(ExampleFile().meta, OldMode) && !HasKind(ExampleFile().meta, NewMode);
  }

  lemma PathOfGit(path: string)
    requires GitPath(path)
    ensures IsPath(path)
  {
  }
}
