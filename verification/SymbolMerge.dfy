/** Merging the semantic observations of symbols, fail-closed and without regard to their order. */
module SymbolMerge {
  import opened Prelude
  import opened TextLines

  /** Identities are totally ordered; a number stands for the place in that order. */
  datatype SymbolId = SymbolId(key: int)

  datatype Name = Name(key: int)

  datatype Kind = Namespace | Class | Struct | Function | Method | Field | Enum | TestFixture | TestCase

  datatype Range = Range(file: int, start: Position, end: Position)

  datatype Symbol = Symbol(identity: SymbolId, kind: Kind, display: Name, qualified: Name, declaration: Option<Range>,
                           definition: Option<Range>, parent: Option<SymbolId>, scope: Option<SymbolId>) {
    /** A symbol is declared or defined somewhere. */
    predicate Valid() {
      declaration.Some? || definition.Some?
    }
  }

  datatype Observation = Observation(symbol: Symbol, site: Option<Range>, parentKind: Option<Kind>,
                                     provenance: Option<int>)

  datatype Disputed = KindField | QualifiedName | DeclarationField | DefinitionField | NamespaceIdentity
                    | ParentIdentity
                    | DeclarationSiteContainment | RelatedSymbolMetadata

  // ---- Sets with one element, and the first range ---------------------------------------------------

  lemma OnlyOne<T>(s: set<T>, x: T)
    requires |s| <= 1 && x in s
    ensures s == {x} && The(s) == x
  {
    assert |s - {x}| == 0;
    assert s - {x} == {};
  }

  predicate NotLater(a: Range, b: Range) {
    || a.file < b.file
    || (a.file == b.file && Earlier(a.start, b.start))
    || (a.file == b.file && a.start == b.start && (Earlier(a.end, b.end) || a.end == b.end))
  }

  ghost predicate IsFirst(r: Range, ranges: set<Range>) {
    r in ranges && forall q :: q in ranges ==> NotLater(r, q)
  }

  lemma FirstIsUnique(ranges: set<Range>, a: Range, b: Range)
    requires IsFirst(a, ranges) && IsFirst(b, ranges)
    ensures a == b
  {
    assert NotLater(a, b) && NotLater(b, a);
  }

  lemma {:induction false} FirstExists(ranges: set<Range>)
    requires ranges != {}
    ensures exists r :: IsFirst(r, ranges)
    decreases ranges
  {
    var x := The(ranges);
    var rest := ranges - {x};
    if rest == {} {
      assert ranges == {x};
      assert IsFirst(x, ranges);
    } else {
      FirstExists(rest);
      var r :| IsFirst(r, rest);
      var first := if NotLater(x, r) then x else r;
      forall q | q in ranges ensures NotLater(first, q) {
        if q != x {
          assert q in rest;
        }
      }
      assert IsFirst(first, ranges);
    }
  }

  ghost function First(ranges: set<Range>): (r: Range)
    requires ranges != {}
    ensures IsFirst(r, ranges)
  {
    FirstExists(ranges);
    var r :| IsFirst(r, ranges);
    r
  }

  method FindFirst(ranges: set<Range>) returns (r: Range)
    requires ranges != {}
    ensures r == First(ranges)
  {
    r := AnyOf(ranges);
    var rest := ranges - {r};
    while rest != {}
      invariant rest <= ranges && r in ranges && forall q :: q in ranges - rest ==> NotLater(r, q)
      decreases rest
    {
      var x := AnyOf(rest);
      ghost var before := ranges - rest;
      if NotLater(x, r) {
        r := x;
      }
      rest := rest - {x};
      forall q | q in ranges - rest ensures NotLater(r, q) {
        if q != x {
          assert q in before;
        }
      }
    }
    FirstIsUnique(ranges, r, First(ranges));
  }

  // ---- What a group of observations says ------------------------------------------------------------

  function Kinds(facts: set<Observation>): set<Kind> {
    set f | f in facts :: f.symbol.kind
  }

  function QualifiedNames(facts: set<Observation>): set<Name> {
    set f | f in facts :: f.symbol.qualified
  }

  function Displays(facts: set<Observation>): set<Name> {
    set f | f in facts :: f.symbol.display
  }

  function Declarations(facts: set<Observation>): set<Range> {
    set f | f in facts && f.symbol.declaration.Some? :: f.symbol.declaration.value
  }

  function Definitions(facts: set<Observation>): set<Range> {
    set f | f in facts && f.symbol.definition.Some? :: f.symbol.definition.value
  }

  function Scopes(facts: set<Observation>): set<SymbolId> {
    set f | f in facts && f.symbol.scope.Some? :: f.symbol.scope.value
  }

  function Parents(facts: set<Observation>): set<SymbolId> {
    set f | f in facts && f.symbol.parent.Some? :: f.symbol.parent.value
  }

  /** Several ranges are tolerated for a namespace, which may be reopened. */
  predicate RangesAgree(kind: Kind, ranges: set<Range>) {
    kind.Namespace? || |ranges| <= 1
  }

  ghost function ChosenRange(kind: Kind, ranges: set<Range>): Option<Range> {
    if ranges == {} then None else if kind.Namespace? then Some(First(ranges)) else Some(The(ranges))
  }

  ghost function Sole(ids: set<SymbolId>): Option<SymbolId> {
    if ids == {} then None else Some(The(ids))
  }

  /** The site of the observation overlaps the declaration, and its parent is known there. */
  predicate AtDeclaration(f: Observation, declaration: Option<Range>) {
    && declaration.Some? && f.site.Some? && f.symbol.parent.Some? && f.parentKind.Some?
    && f.site.value.file == declaration.value.file
    && var from := if Earlier(f.site.value.start, declaration.value.start) then declaration.value.start
         else f.site.value.start;
    var to := if Earlier(declaration.value.end, f.site.value.end) then declaration.value.end else f.site.value.end;
    Earlier(from, to)
  }

  function SiteFacts(facts: set<Observation>, declaration: Option<Range>): set<Observation> {
    set f | f in facts && AtDeclaration(f, declaration)
  }

  function Proven(facts: set<Observation>): set<(Name, Option<SymbolId>)> {
    set f | f in facts :: (f.symbol.display, f.symbol.parent)
  }

  /** Exactly one class or struct is shown to contain the declaration of a member. */
  predicate ContainmentProven(kind: Kind, sites: set<Observation>) {
    && (kind.Method? || kind.Field?) && sites != {} && |Proven(sites)| == 1
    && forall f :: f in sites ==> f.parentKind == Some(Class) || f.parentKind == Some(Struct)
  }

  /** The observation agrees with the proven hierarchy, or shows the member from its namespace. */
  predicate Explained(f: Observation, display: Name, parent: Option<SymbolId>, scope: Option<SymbolId>) {
    || (f.symbol.display == display && (f.symbol.parent.None? || f.symbol.parent == parent))
    || (f.site.Some? && f.parentKind == Some(Namespace) && f.symbol.parent.Some? && f.symbol.parent == scope
        && f.symbol.display != display)
  }

  /** The canonical symbol of the observations of one identity, or the first disputed field. */
  ghost function MergeGroup(identity: SymbolId, facts: set<Observation>): Result<Symbol, Disputed>
    requires facts != {}
  {
    if |Kinds(facts)| > 1 then Err(KindField)
    else if |QualifiedNames(facts)| > 1 then Err(QualifiedName)
    else
      NonEmptyValues(facts);
      var kind := The(Kinds(facts));
      if !RangesAgree(kind, Declarations(facts)) then Err(DeclarationField)
      else if !RangesAgree(kind, Definitions(facts)) then Err(DefinitionField)
      else if |Scopes(facts)| > 1 then Err(NamespaceIdentity)
      else
        var declaration, scope := ChosenRange(kind, Declarations(facts)), Sole(Scopes(facts));
        match MergeHierarchy(kind, facts, declaration, scope)
        case Err(e) => Err(e)
        case Ok((display, parent)) =>
          Ok(Symbol(identity, kind, display, The(QualifiedNames(facts)), declaration,
                    ChosenRange(kind, Definitions(facts)), parent, scope))
  }

  ghost function MergeHierarchy(kind: Kind, facts: set<Observation>, declaration: Option<Range>,
                                scope: Option<SymbolId>)
    : Result<(Name, Option<SymbolId>), Disputed>
    requires facts != {}
  {
    NonEmptyValues(facts);
    if |Displays(facts)| <= 1 then
      if |Parents(facts)| <= 1 then Ok((The(Displays(facts)), Sole(Parents(facts)))) else Err(ParentIdentity)
    else
      var sites := SiteFacts(facts, declaration);
      if !ContainmentProven(kind, sites) then Err(DeclarationSiteContainment)
      else
        var (display, parent) := The(Proven(sites));
        if forall f :: f in facts ==> Explained(f, display, parent, scope) then Ok((display, parent))
        else Err(RelatedSymbolMetadata)
  }

  lemma NonEmptyValues(facts: set<Observation>)
    requires facts != {}
    ensures Kinds(facts) != {} && QualifiedNames(facts) != {} && Displays(facts) != {}
  {
    var f := The(facts);
    assert f.symbol.kind in Kinds(facts) && f.symbol.qualified in QualifiedNames(facts) &&
           f.symbol.display in Displays(facts);
  }

  /** Two display names make two hierarchies, so once displays differ there is no single hierarchy to fall back on. */
  lemma DisplaysSplitHierarchies(facts: set<Observation>)
    requires |Displays(facts)| > 1
    ensures |Proven(facts)| > 1
  {
    if |Proven(facts)| <= 1 {
      NoMoreDisplays(facts);
    }
  }

  lemma NoMoreDisplays(facts: set<Observation>)
    requires |Proven(facts)| <= 1
    ensures |Displays(facts)| <= 1
  {
    if facts != {} {
      var f := The(facts);
      var only := (f.symbol.display, f.symbol.parent);
      assert only in Proven(facts);
      OnlyOne(Proven(facts), only);
      forall g | g in facts ensures g.symbol.display == f.symbol.display {
        assert (g.symbol.display, g.symbol.parent) in Proven(facts);
      }
      assert Displays(facts) == {f.symbol.display};
    } else {
      assert Displays(facts) == {};
    }
  }

  // ---- Deciding a group -----------------------------------------------------------------------------

  method ChooseRange(kind: Kind, ranges: set<Range>) returns (r: Option<Range>)
    requires RangesAgree(kind, ranges)
    ensures r == ChosenRange(kind, ranges)
  {
    if ranges == {} {
      return None;
    }
    if kind.Namespace? {
      var first := FindFirst(ranges);
      return Some(first);
    }
    var only := AnyOf(ranges);
    OnlyOne(ranges, only);
    return Some(only);
  }

  method ChooseSole(ids: set<SymbolId>) returns (r: Option<SymbolId>)
    requires |ids| <= 1
    ensures r == Sole(ids)
  {
    if ids == {} {
      return None;
    }
    var only := AnyOf(ids);
    OnlyOne(ids, only);
    return Some(only);
  }

  method DecideHierarchy(kind: Kind, facts: set<Observation>, declaration: Option<Range>, scope: Option<SymbolId>)
    returns (r: Result<(Name, Option<SymbolId>), Disputed>)
    requires facts != {}
    ensures r == MergeHierarchy(kind, facts, declaration, scope)
  {
    NonEmptyValues(facts);
    var displays, parents := Displays(facts), Parents(facts);
    hide Displays, Parents, Explained, AtDeclaration, Proven;
    if |displays| <= 1 {
      if |parents| > 1 {
        return Err(ParentIdentity);
      }
      var display := AnyOf(displays);
      OnlyOne(displays, display);
      var parent := ChooseSole(parents);
      return Ok((display, parent));
    }
    var sites := SiteFacts(facts, declaration);
    if !ContainmentProven(kind, sites) {
      return Err(DeclarationSiteContainment);
    }
    assert Proven(sites) != {};
    var proven := AnyOf(Proven(sites));
    OnlyOne(Proven(sites), proven);
    if forall f :: f in facts ==> Explained(f, proven.0, proven.1, scope) {
      return Ok(proven);
    }
    return Err(RelatedSymbolMetadata);
  }

  method DecideGroup(identity: SymbolId, facts: set<Observation>) returns (r: Result<Symbol, Disputed>)
    requires facts != {}
    ensures r == MergeGroup(identity, facts)
  {
    NonEmptyValues(facts);
    hide Kinds, QualifiedNames, Declarations, Definitions, Scopes, MergeHierarchy;
    var kinds, names := Kinds(facts), QualifiedNames(facts);
    if |kinds| > 1 {
      return Err(KindField);
    }
    if |names| > 1 {
      return Err(QualifiedName);
    }
    var kind := AnyOf(kinds);
    var name := AnyOf(names);
    OnlyOne(kinds, kind);
    OnlyOne(names, name);
    if !RangesAgree(kind, Declarations(facts)) {
      return Err(DeclarationField);
    }
    if !RangesAgree(kind, Definitions(facts)) {
      return Err(DefinitionField);
    }
    if |Scopes(facts)| > 1 {
      return Err(NamespaceIdentity);
    }
    var declaration := ChooseRange(kind, Declarations(facts));
    var definition := ChooseRange(kind, Definitions(facts));
    var scope := ChooseSole(Scopes(facts));
    var hierarchy := DecideHierarchy(kind, facts, declaration, scope);
    if hierarchy.Err? {
      return Err(hierarchy.error);
    }
    return Ok(Symbol(identity, kind, hierarchy.value.0, name, declaration, definition, hierarchy.value.1, scope));
  }

  // ---- What a canonical symbol means ----------------------------------------------------------------

  predicate AllValid(facts: set<Observation>) {
    forall f :: f in facts ==> f.symbol.Valid()
  }

  /** Missing evidence may be supplied by another observation, but nothing observed is overruled, save that a reopened
      namespace keeps its first range, and that a symbol seen through the namespace it is declared in may show there
      under another display. */
  ghost predicate Supported(c: Symbol, facts: set<Observation>) {
    && (forall f :: f in facts ==> f.symbol.kind == c.kind && f.symbol.qualified == c.qualified)
    && (forall f :: f in facts && f.symbol.scope.Some? ==> f.symbol.scope == c.scope)
    && (!c.kind.Namespace? ==> forall f :: f in facts ==>
          (f.symbol.declaration.Some? ==> f.symbol.declaration == c.declaration) &&
          (f.symbol.definition.Some? ==> f.symbol.definition == c.definition))
    && (forall f :: f in facts && f.symbol.declaration.Some? ==>
          c.declaration.Some? && NotLater(c.declaration.value, f.symbol.declaration.value))
    && (forall f :: f in facts && f.symbol.definition.Some? ==>
          c.definition.Some? && NotLater(c.definition.value, f.symbol.definition.value))
    && (c.declaration.Some? ==> exists f :: f in facts && f.symbol.declaration == c.declaration)
    && (c.definition.Some? ==> exists f :: f in facts && f.symbol.definition == c.definition)
    && (c.scope.Some? ==> exists f :: f in facts && f.symbol.scope == c.scope)
    && (c.parent.Some? ==> exists f :: f in facts && f.symbol.parent == c.parent && f.symbol.display == c.display)
    && (exists f :: f in facts && f.symbol.display == c.display)
    && (forall f :: f in facts ==> Explained(f, c.display, c.parent, c.scope))
  }

  lemma KindsAgree(facts: set<Observation>, kind: Kind, name: Name)
    requires |Kinds(facts)| <= 1 && |QualifiedNames(facts)| <= 1 && kind in Kinds(facts) &&
             name in QualifiedNames(facts)
    ensures forall f :: f in facts ==> f.symbol.kind == kind && f.symbol.qualified == name
  {
    OnlyOne(Kinds(facts), kind);
    OnlyOne(QualifiedNames(facts), name);
    forall f | f in facts ensures f.symbol.kind == kind && f.symbol.qualified == name {
      assert f.symbol.kind in Kinds(facts) && f.symbol.qualified in QualifiedNames(facts);
    }
  }

  lemma ChosenIsFirst(kind: Kind, ranges: set<Range>)
    requires RangesAgree(kind, ranges)
    ensures ChosenRange(kind, ranges).Some? <==> ranges != {}
    ensures ranges != {} ==> IsFirst(ChosenRange(kind, ranges).value, ranges)
    ensures !kind.Namespace? ==> forall r :: r in ranges ==> ChosenRange(kind, ranges) == Some(r)
  {
    if ranges != {} && !kind.Namespace? {
      OnlyOne(ranges, The(ranges));
    }
  }

  /** The key by which ranges are compared: file, start, end. */
  function SortKey(r: Range): seq<int> {
    [r.file, r.start.line, r.start.column, r.end.line, r.end.column]
  }

  predicate Lexicographic(a: seq<int>, b: seq<int>) {
    a == [] || (b != [] && (a[0] < b[0] || (a[0] == b[0] && Lexicographic(a[1..], b[1..]))))
  }

  lemma NotLaterIsLexicographic(a: Range, b: Range)
    ensures NotLater(a, b) <==> Lexicographic(SortKey(a), SortKey(b))
  {
    var x, y := [a.end.line, a.end.column], [b.end.line, b.end.column];
    FirstDecides(a.end.column, [], b.end.column, []);
    FirstDecides(a.end.line, [a.end.column], b.end.line, [b.end.column]);
    FirstDecides(a.start.column, x, b.start.column, y);
    FirstDecides(a.start.line, [a.start.column] + x, b.start.line, [b.start.column] + y);
    FirstDecides(a.file, [a.start.line, a.start.column] + x, b.file, [b.start.line, b.start.column] + y);
    assert [a.end.column] == [a.end.column] + [] && x == [a.end.line] + [a.end.column];
    assert [b.end.column] == [b.end.column] + [] && y == [b.end.line] + [b.end.column];
    assert [a.start.line, a.start.column] + x == [a.start.line] + ([a.start.column] + x);
    assert [b.start.line, b.start.column] + y == [b.start.line] + ([b.start.column] + y);
    assert SortKey(a) == [a.file] + ([a.start.line, a.start.column] + x);
    assert SortKey(b) == [b.file] + ([b.start.line, b.start.column] + y);
    hide Lexicographic;
  }

  lemma FirstDecides(i: int, x: seq<int>, j: int, y: seq<int>)
    ensures Lexicographic([i] + x, [j] + y) <==> i < j || (i == j && Lexicographic(x, y))
  {
  }

  // ---- When observations merge, told from the observations alone -------------------------------------

  /** The position lies in the range. */
  predicate Within(p: Position, r: Range) {
    NotAfter(r.start, p) && Earlier(p, r.end)
  }

  ghost predicate Overlap(a: Range, b: Range) {
    a.file == b.file && exists p: Position :: Within(p, a) && Within(p, b)
  }

  /** Somebody declares the symbol where this observation sees it, inside a known parent. */
  ghost predicate SeesDeclaration(facts: set<Observation>, f: Observation) {
    && f.site.Some? && f.symbol.parent.Some? && f.parentKind.Some?
    && exists g :: g in facts && g.symbol.declaration.Some? && Overlap(f.site.value, g.symbol.declaration.value)
  }

  predicate InClass(f: Observation, display: Name, parent: SymbolId) {
    && (f.symbol.kind.Method? || f.symbol.kind.Field?)
    && f.symbol.display == display && f.symbol.parent == Some(parent)
    && (f.parentKind == Some(Class) || f.parentKind == Some(Struct))
  }

  /** All who see the declaration, and there are some, see a member of one class or struct under one display. */
  ghost predicate ContainedIn(facts: set<Observation>, display: Name, parent: SymbolId) {
    && (exists f :: f in facts && SeesDeclaration(facts, f))
    && forall f :: f in facts && SeesDeclaration(facts, f) ==> InClass(f, display, parent)
  }

  /** The observation agrees, says nothing of the parent, or shows the member under its namespace. */
  ghost predicate Fits(facts: set<Observation>, f: Observation, display: Name, parent: SymbolId) {
    if f.symbol.display == display then f.symbol.parent.None? || f.symbol.parent == Some(parent)
    else
      && f.site.Some? && f.parentKind == Some(Namespace) && f.symbol.parent.Some?
      && exists g :: g in facts && g.symbol.scope == f.symbol.parent
  }

  /** Two observations say different things about one field, absence not counting. */
  ghost predicate Differ(facts: set<Observation>, field: Disputed) {
    exists f, g :: f in facts && g in facts && DifferIn(f.symbol, g.symbol, field)
  }

  predicate DifferIn(a: Symbol, b: Symbol, field: Disputed) {
    match field
    case KindField => a.kind != b.kind
    case QualifiedName => a.qualified != b.qualified
    case DeclarationField => a.declaration.Some? && b.declaration.Some? && a.declaration != b.declaration
    case DefinitionField => a.definition.Some? && b.definition.Some? && a.definition != b.definition
    case NamespaceIdentity => a.scope.Some? && b.scope.Some? && a.scope != b.scope
    case ParentIdentity => a.parent.Some? && b.parent.Some? && a.parent != b.parent
    case _ => a.display != b.display
  }

  ghost predicate IsNamespace(facts: set<Observation>) {
    exists f :: f in facts && f.symbol.kind.Namespace?
  }

  /** The first thing that stands in the way of merging. */
  ghost predicate Refused(facts: set<Observation>, field: Disputed) {
    match field
    case KindField => Differ(facts, KindField)
    case QualifiedName => !Differ(facts, KindField) && Differ(facts, QualifiedName)
    case DeclarationField =>
      && !Differ(facts, KindField) && !Differ(facts, QualifiedName) && !IsNamespace(facts)
      && Differ(facts, DeclarationField)
    case DefinitionField =>
      && !Differ(facts, KindField) && !Differ(facts, QualifiedName) && !IsNamespace(facts)
      && !Differ(facts, DeclarationField) && Differ(facts, DefinitionField)
    case NamespaceIdentity => RangesMerge(facts) && Differ(facts, NamespaceIdentity)
    case ParentIdentity =>
      RangesMerge(facts) && !Differ(facts, NamespaceIdentity) && !Displayed(facts) && Differ(facts, ParentIdentity)
    case DeclarationSiteContainment =>
      && RangesMerge(facts) && !Differ(facts, NamespaceIdentity) && Displayed(facts)
      && forall display, parent :: !ContainedIn(facts, display, parent)
    case RelatedSymbolMetadata =>
      && RangesMerge(facts) && !Differ(facts, NamespaceIdentity) && Displayed(facts)
      && Misfit(facts)
  }

  ghost predicate RangesMerge(facts: set<Observation>) {
    && !Differ(facts, KindField) && !Differ(facts, QualifiedName)
    && (IsNamespace(facts) || (!Differ(facts, DeclarationField) && !Differ(facts, DefinitionField)))
  }

  /** Two observations show the symbol under different displays. */
  ghost predicate Displayed(facts: set<Observation>) {
    exists f, g :: f in facts && g in facts && f.symbol.display != g.symbol.display
  }

  lemma Several<T>(s: set<T>)
    ensures |s| > 1 <==> exists x, y :: x in s && y in s && x != y
  {
    if |s| > 1 {
      var x := The(s);
      assert |s - {x}| == |s| - 1;
      var y := The(s - {x});
      assert y in s && y != x;
    }
    if x, y :| x in s && y in s && x != y {
      assert |s| == |s - {x} - {y}| + 2;
    }
  }

  lemma SeveralKinds(facts: set<Observation>)
    ensures |Kinds(facts)| > 1 <==> Differ(facts, KindField)
  {
    Several(Kinds(facts));
    assert forall f :: f in facts ==> f.symbol.kind in Kinds(facts);
    if x, y :| x in Kinds(facts) && y in Kinds(facts) && x != y {
      var f :| f in facts && f.symbol.kind == x;
      var g :| g in facts && g.symbol.kind == y;
      assert DifferIn(f.symbol, g.symbol, KindField);
    }
  }

  lemma SeveralQualified(facts: set<Observation>)
    ensures |QualifiedNames(facts)| > 1 <==> Differ(facts, QualifiedName)
  {
    Several(QualifiedNames(facts));
    assert forall f :: f in facts ==> f.symbol.qualified in QualifiedNames(facts);
    if x, y :| x in QualifiedNames(facts) && y in QualifiedNames(facts) && x != y {
      var f :| f in facts && f.symbol.qualified == x;
      var g :| g in facts && g.symbol.qualified == y;
      assert DifferIn(f.symbol, g.symbol, QualifiedName);
    }
  }

  lemma SeveralShown(facts: set<Observation>)
    ensures |Displays(facts)| > 1 <==> Displayed(facts)
  {
    Several(Displays(facts));
    assert forall f :: f in facts ==> f.symbol.display in Displays(facts);
    if x, y :| x in Displays(facts) && y in Displays(facts) && x != y {
      var f :| f in facts && f.symbol.display == x;
      var g :| g in facts && g.symbol.display == y;
    }
  }

  lemma SeveralDeclared(facts: set<Observation>)
    ensures |Declarations(facts)| > 1 <==> Differ(facts, DeclarationField)
  {
    Several(Declarations(facts));
    assert forall f :: f in facts && f.symbol.declaration.Some? ==> f.symbol.declaration.value in Declarations(facts);
    if x, y :| x in Declarations(facts) && y in Declarations(facts) && x != y {
      var f :| f in facts && f.symbol.declaration == Some(x);
      var g :| g in facts && g.symbol.declaration == Some(y);
      assert DifferIn(f.symbol, g.symbol, DeclarationField);
    }
  }

  lemma SeveralDefined(facts: set<Observation>)
    ensures |Definitions(facts)| > 1 <==> Differ(facts, DefinitionField)
  {
    Several(Definitions(facts));
    assert forall f :: f in facts && f.symbol.definition.Some? ==> f.symbol.definition.value in Definitions(facts);
    if x, y :| x in Definitions(facts) && y in Definitions(facts) && x != y {
      var f :| f in facts && f.symbol.definition == Some(x);
      var g :| g in facts && g.symbol.definition == Some(y);
      assert DifferIn(f.symbol, g.symbol, DefinitionField);
    }
  }

  lemma SeveralScoped(facts: set<Observation>)
    ensures |Scopes(facts)| > 1 <==> Differ(facts, NamespaceIdentity)
  {
    Several(Scopes(facts));
    assert forall f :: f in facts && f.symbol.scope.Some? ==> f.symbol.scope.value in Scopes(facts);
    if x, y :| x in Scopes(facts) && y in Scopes(facts) && x != y {
      var f :| f in facts && f.symbol.scope == Some(x);
      var g :| g in facts && g.symbol.scope == Some(y);
      assert DifferIn(f.symbol, g.symbol, NamespaceIdentity);
    }
  }

  lemma SeveralParented(facts: set<Observation>)
    ensures |Parents(facts)| > 1 <==> Differ(facts, ParentIdentity)
  {
    Several(Parents(facts));
    assert forall f :: f in facts && f.symbol.parent.Some? ==> f.symbol.parent.value in Parents(facts);
    if x, y :| x in Parents(facts) && y in Parents(facts) && x != y {
      var f :| f in facts && f.symbol.parent == Some(x);
      var g :| g in facts && g.symbol.parent == Some(y);
      assert DifferIn(f.symbol, g.symbol, ParentIdentity);
    }
  }

  lemma SeveralValues(facts: set<Observation>)
    ensures |Kinds(facts)| > 1 <==> Differ(facts, KindField)
    ensures |QualifiedNames(facts)| > 1 <==> Differ(facts, QualifiedName)
    ensures |Displays(facts)| > 1 <==> Displayed(facts)
    ensures |Declarations(facts)| > 1 <==> Differ(facts, DeclarationField)
    ensures |Definitions(facts)| > 1 <==> Differ(facts, DefinitionField)
    ensures |Scopes(facts)| > 1 <==> Differ(facts, NamespaceIdentity)
    ensures |Parents(facts)| > 1 <==> Differ(facts, ParentIdentity)
  {
    hide *;
    SeveralKinds(facts);
    SeveralQualified(facts);
    SeveralShown(facts);
    SeveralDeclared(facts);
    SeveralDefined(facts);
    SeveralScoped(facts);
    SeveralParented(facts);
  }

  /** The comparison of ends finds exactly the ranges that share a position. */
  lemma AtDeclarationIsOverlap(f: Observation, declaration: Option<Range>)
    ensures AtDeclaration(f, declaration) <==>
              && declaration.Some? && f.site.Some? && f.symbol.parent.Some? && f.parentKind.Some?
              && Overlap(f.site.value, declaration.value)
  {
    if declaration.Some? && f.site.Some? && f.site.value.file == declaration.value.file {
      var a, b := f.site.value, declaration.value;
      var from := if Earlier(a.start, b.start) then b.start else a.start;
      var to := if Earlier(b.end, a.end) then b.end else a.end;
      assert Earlier(from, to) ==> Within(from, a) && Within(from, b);
      assert forall p: Position :: Within(p, a) && Within(p, b) ==> NotAfter(from, p) && Earlier(p, to);
    }
  }

  /** The observations at the declaration are those that see it. */
  lemma SitesSee(facts: set<Observation>, declaration: Option<Range>)
    requires |Declarations(facts)| <= 1
    requires declaration == if Declarations(facts) == {} then None else Some(The(Declarations(facts)))
    ensures forall f :: f in SiteFacts(facts, declaration) <==> f in facts && SeesDeclaration(facts, f)
  {
    forall f | f in facts ensures AtDeclaration(f, declaration) <==> SeesDeclaration(facts, f) {
      AtDeclarationIsOverlap(f, declaration);
      if declaration.Some? {
        var g :| g in facts && g.symbol.declaration == declaration;
      }
      forall g | g in facts && g.symbol.declaration.Some? ensures g.symbol.declaration == declaration {
        assert g.symbol.declaration.value in Declarations(facts);
        OnlyOne(Declarations(facts), g.symbol.declaration.value);
      }
      hide AtDeclaration, Overlap;
    }
  }

  lemma ProvenIsContained(facts: set<Observation>, kind: Kind, declaration: Option<Range>, display: Name,
                          parent: Option<SymbolId>)
    requires forall f :: f in facts ==> f.symbol.kind == kind
    requires !kind.Namespace? ==> |Declarations(facts)| <= 1
    requires declaration == ChosenRange(kind, Declarations(facts))
    ensures var sites := SiteFacts(facts, declaration);
            ContainmentProven(kind, sites) && The(Proven(sites)) == (display, parent) <==>
              parent.Some? && ContainedIn(facts, display, parent.value)
  {
    var sites := SiteFacts(facts, declaration);
    if kind.Method? || kind.Field? {
      SitesSee(facts, declaration);
      hide AtDeclaration, SeesDeclaration, Overlap;
      ProvenOnce(sites, display, parent);
      assert forall f :: f in sites ==> f.symbol.parent.Some?;
    }
  }

  lemma ProvenOnce(sites: set<Observation>, display: Name, parent: Option<SymbolId>)
    ensures sites != {} ==> Proven(sites) != {}
    ensures sites != {} && |Proven(sites)| == 1 && The(Proven(sites)) == (display, parent) <==>
              sites != {} && forall f :: f in sites ==> f.symbol.display == display && f.symbol.parent == parent
  {
    if sites != {} {
      var f := The(sites);
      assert (f.symbol.display, f.symbol.parent) in Proven(sites);
      if |Proven(sites)| == 1 {
        OnlyOne(Proven(sites), (f.symbol.display, f.symbol.parent));
        forall g | g in sites ensures g.symbol.display == f.symbol.display && g.symbol.parent == f.symbol.parent {
          assert (g.symbol.display, g.symbol.parent) in Proven(sites);
        }
      }
      if forall g :: g in sites ==> g.symbol.display == display && g.symbol.parent == parent {
        assert Proven(sites) == {(display, parent)};
      }
    }
  }

  /** An observation is explained exactly when it fits, once a display and a parent are given. */
  lemma ExplainedFits(facts: set<Observation>, f: Observation, display: Name, parent: SymbolId)
    requires f in facts && |Scopes(facts)| <= 1
    ensures Explained(f, display, Some(parent), Sole(Scopes(facts))) <==> Fits(facts, f, display, parent)
  {
    forall g | g in facts && g.symbol.scope.Some? ensures g.symbol.scope == Sole(Scopes(facts)) {
      assert g.symbol.scope.value in Scopes(facts);
      OnlyOne(Scopes(facts), g.symbol.scope.value);
    }
    if Scopes(facts) != {} {
      var g :| g in facts && g.symbol.scope == Sole(Scopes(facts));
    }
  }

  lemma KindIsShared(facts: set<Observation>, kind: Kind)
    requires |Kinds(facts)| <= 1 && facts != {} && Kinds(facts) != {} && kind == The(Kinds(facts))
    ensures forall f :: f in facts ==> f.symbol.kind == kind
    ensures IsNamespace(facts) <==> kind.Namespace?
  {
    forall f | f in facts ensures f.symbol.kind == kind {
      assert f.symbol.kind in Kinds(facts);
      OnlyOne(Kinds(facts), f.symbol.kind);
    }
    var f := The(facts);
  }

  /** Differing displays merge exactly when the declaration is seen in one class or struct under one display and every
      observation fits that; otherwise the failure says which of the two is missing. */
  lemma HierarchyIsExact(facts: set<Observation>, kind: Kind, declaration: Option<Range>)
    requires facts != {} && Displayed(facts) && (forall f :: f in facts ==> f.symbol.kind == kind)
    requires |Scopes(facts)| <= 1 && (!kind.Namespace? ==> |Declarations(facts)| <= 1)
    requires declaration == ChosenRange(kind, Declarations(facts))
    ensures var r := MergeHierarchy(kind, facts, declaration, Sole(Scopes(facts)));
            && (forall display, parent: Option<SymbolId> :: r == Ok((display, parent)) <==>
                  && parent.Some? && ContainedIn(facts, display, parent.value)
                  && forall f :: f in facts ==> Fits(facts, f, display, parent.value))
            && (r == Err(RelatedSymbolMetadata) <==>
                  exists display, parent, f ::
                    f in facts && ContainedIn(facts, display, parent) && !Fits(facts, f, display, parent))
            && (r == Err(DeclarationSiteContainment) <==>
                  forall display, parent :: !ContainedIn(facts, display, parent))
  {
    SeveralShown(facts);
    var sites, scope := SiteFacts(facts, declaration), Sole(Scopes(facts));
    forall display, parent: Option<SymbolId>
      ensures ContainmentProven(kind, sites) && The(Proven(sites)) == (display, parent) <==>
                parent.Some? && ContainedIn(facts, display, parent.value)
    {
      ProvenIsContained(facts, kind, declaration, display, parent);
    }
    forall f, display, parent | f in facts
      ensures Explained(f, display, Some(parent), scope) <==> Fits(facts, f, display, parent)
    {
      ExplainedFits(facts, f, display, parent);
    }
    hide ContainedIn, Fits, Explained, ContainmentProven, SiteFacts, Proven, Displays, Scopes, Declarations;
  }

  ghost function SharedKind(facts: set<Observation>): Kind
    requires facts != {}
  {
    NonEmptyValues(facts);
    The(Kinds(facts))
  }

  ghost function HierarchyOf(facts: set<Observation>): Result<(Name, Option<SymbolId>), Disputed>
    requires facts != {}
  {
    MergeHierarchy(SharedKind(facts), facts, ChosenRange(SharedKind(facts), Declarations(facts)), Sole(Scopes(facts)))
  }

  /** Up to the hierarchy the first field that differs decides. */
  lemma FieldsDecide(identity: SymbolId, facts: set<Observation>)
    requires facts != {}
    ensures var r := MergeGroup(identity, facts);
            if Differ(facts, KindField) then r == Err(KindField)
            else if Differ(facts, QualifiedName) then r == Err(QualifiedName)
            else if !IsNamespace(facts) && Differ(facts, DeclarationField) then r == Err(DeclarationField)
            else if !IsNamespace(facts) && Differ(facts, DefinitionField) then r == Err(DefinitionField)
            else if Differ(facts, NamespaceIdentity) then r == Err(NamespaceIdentity)
            else match HierarchyOf(facts)
                 case Err(e) => r == Err(e)
                 case Ok((display, parent)) => r.Ok? && r.value.display == display && r.value.parent == parent
  {
    hide Kinds, QualifiedNames, Declarations, Definitions, Scopes, Displays, Parents, Differ, Displayed, IsNamespace;
    hide ChosenRange, Sole, MergeHierarchy;
    SeveralValues(facts);
    NonEmptyValues(facts);
    if |Kinds(facts)| <= 1 {
      KindIsShared(facts, SharedKind(facts));
    }
  }

  /** What the hierarchy says once everything before it agrees. */
  lemma HierarchyDecides(facts: set<Observation>)
    requires facts != {} && RangesMerge(facts) && !Differ(facts, NamespaceIdentity)
    ensures var r := HierarchyOf(facts);
            && (!Displayed(facts) ==> (r == Err(ParentIdentity) <==> Differ(facts, ParentIdentity)))
            && (!Displayed(facts) ==> (r.Ok? <==> !Differ(facts, ParentIdentity)))
            && (Displayed(facts) ==>
                  && (forall display, parent: Option<SymbolId> :: r == Ok((display, parent)) <==>
                        && parent.Some? && ContainedIn(facts, display, parent.value)
                        && forall f :: f in facts ==> Fits(facts, f, display, parent.value))
                  && (r == Err(RelatedSymbolMetadata) <==> Misfit(facts))
                  && (r == Err(DeclarationSiteContainment) <==>
                        forall display, parent :: !ContainedIn(facts, display, parent))
                  && (r.Err? ==> r.error in {RelatedSymbolMetadata, DeclarationSiteContainment}))
  {
    SeveralValues(facts);
    KindIsShared(facts, SharedKind(facts));
    if Displayed(facts) {
      HierarchyIsExact(facts, SharedKind(facts), ChosenRange(SharedKind(facts), Declarations(facts)));
    }
    hide Kinds, QualifiedNames, Declarations, Definitions, Scopes, Displays, Parents, Differ, IsNamespace;
    hide ContainedIn, Fits, SiteFacts, Proven, ContainmentProven, Explained, ChosenRange, Sole, Displayed;
  }

  /** Some display and parent are proven, but an observation does not fit them. */
  ghost predicate Misfit(facts: set<Observation>) {
    exists display, parent, f :: f in facts && ContainedIn(facts, display, parent) && !Fits(facts, f, display, parent)
  }

  /** Observations of one symbol are refused exactly for the first thing that stands in their way. */
  lemma RefusalIsExact(identity: SymbolId, facts: set<Observation>)
    requires facts != {}
    ensures forall field :: MergeGroup(identity, facts) == Err(field) <==> Refused(facts, field)
  {
    hide MergeGroup, HierarchyOf, Differ, IsNamespace, Displayed, ContainedIn, Misfit, Fits;
    FieldsDecide(identity, facts);
    if RangesMerge(facts) && !Differ(facts, NamespaceIdentity) {
      HierarchyDecides(facts);
    }
    forall field ensures MergeGroup(identity, facts) == Err(field) <==> Refused(facts, field) {
      match field {
        case KindField =>
        case QualifiedName =>
        case DeclarationField =>
        case DefinitionField =>
        case NamespaceIdentity =>
        case ParentIdentity =>
        case DeclarationSiteContainment =>
        case RelatedSymbolMetadata =>
      }
    }
  }

  /** Observations under differing displays that agree otherwise, seen at their declaration in one class or struct,
      merge to the display and the parent that are seen there, if every observation fits them; and to nothing else. */
  lemma MembersMerge(identity: SymbolId, facts: set<Observation>, display: Name, parent: SymbolId)
    requires facts != {} && RangesMerge(facts) && !Differ(facts, NamespaceIdentity) && Displayed(facts)
    ensures MergeGroup(identity, facts).Ok?
            && MergeGroup(identity, facts).value.display == display
            && MergeGroup(identity, facts).value.parent == Some(parent) <==>
              ContainedIn(facts, display, parent) && forall f :: f in facts ==> Fits(facts, f, display, parent)
  {
    FieldsDecide(identity, facts);
    HierarchyDecides(facts);
    hide MergeGroup, HierarchyOf, Differ, IsNamespace, Displayed, ContainedIn, Misfit, Fits;
    assert HierarchyOf(facts) == Ok((display, Some(parent))) <==>
        ContainedIn(facts, display, parent) && forall f :: f in facts ==> Fits(facts, f, display, parent);
  }

  /** A method seen inside its class and at its definition outside it, where only the namespace shows: it merges to what
      its class shows. */
  lemma OutOfClassDefinitionMerges()
    ensures var r := MergeGroup(SymbolId(0), {InClassExample(1), OutOfClassExample()});
            r.Ok? && r.value.display == Name(1) && r.value.parent == Some(SymbolId(1))
  {
    hide *;
    ExamplesAgree(1);
    ExampleIsContained();
    MembersMerge(SymbolId(0), {InClassExample(1), OutOfClassExample()}, Name(1), SymbolId(1));
  }

  lemma ExampleIsContained()
    ensures var facts := {InClassExample(1), OutOfClassExample()};
            && ContainedIn(facts, Name(1), SymbolId(1))
            && forall f :: f in facts ==> Fits(facts, f, Name(1), SymbolId(1))
  {
    var facts := {InClassExample(1), OutOfClassExample()};
    assert Within(Position(1, 1), ExampleRange(0, 1));
    assert Overlap(ExampleRange(0, 1), ExampleRange(0, 1));
    assert SeesDeclaration(facts, InClassExample(1));
    assert OutOfClassExample().symbol.scope == OutOfClassExample().symbol.parent;
  }

  /** Seen elsewhere in the same file, behind its declaration, it is refused. */
  lemma SightingElsewhereIsRefused()
    ensures MergeGroup(SymbolId(0), {InClassExample(9), OutOfClassExample()}) == Err(DeclarationSiteContainment)
  {
    hide *;
    ExamplesAgree(9);
    NobodySees();
    var facts := {InClassExample(9), OutOfClassExample()};
    NotSeenIsRefused(SymbolId(0), facts);
  }

  lemma NotSeenIsRefused(identity: SymbolId, facts: set<Observation>)
    requires facts != {} && RangesMerge(facts) && !Differ(facts, NamespaceIdentity) && Displayed(facts)
    requires forall f :: f in facts ==> !SeesDeclaration(facts, f)
    ensures MergeGroup(identity, facts) == Err(DeclarationSiteContainment)
  {
    hide MergeGroup, SeesDeclaration, RangesMerge, Differ, Displayed;
    RefusalIsExact(identity, facts);
    assert Refused(facts, DeclarationSiteContainment);
  }

  lemma NobodySees()
    ensures var facts := {InClassExample(9), OutOfClassExample()}; forall f :: f in facts ==> !SeesDeclaration(facts, f)
  {
    assert !Overlap(ExampleRange(0, 9), ExampleRange(0, 1));
  }

  lemma ExamplesAgree(line: nat)
    ensures var facts := {InClassExample(line), OutOfClassExample()};
            RangesMerge(facts) && !Differ(facts, NamespaceIdentity) && Displayed(facts)
  {
    assert InClassExample(line).symbol.display != OutOfClassExample().symbol.display;
  }

  function ExampleRange(file: int, line: nat): Range {
    Range(file, Position(line, 1), Position(line, 5))
  }

  function ExampleMethod(display: int, parent: int): Symbol {
    Symbol(SymbolId(0), Method, Name(display), Name(0), Some(ExampleRange(0, 1)), None, Some(SymbolId(parent)),
           Some(SymbolId(2)))
  }

  /** The declaration, seen in the class on the given line. */
  function InClassExample(line: nat): Observation {
    Observation(ExampleMethod(1, 1), Some(ExampleRange(0, line)), Some(Class), None)
  }

  /** The definition in another file, seen in the namespace. */
  function OutOfClassExample(): Observation {
    Observation(ExampleMethod(2, 2), Some(ExampleRange(1, 3)), Some(Namespace), None)
  }

  /** Every merged symbol is a valid symbol that its observations support. */
  lemma CanonicalIsSupported(identity: SymbolId, facts: set<Observation>)
    requires facts != {} && AllValid(facts) && MergeGroup(identity, facts).Ok?
    ensures MergeGroup(identity, facts).value.Valid() && Supported(MergeGroup(identity, facts).value, facts)
  {
    hide MergeHierarchy, ChosenRange, IsFirst, Explained;
    var c := MergeGroup(identity, facts).value;
    NonEmptyValues(facts);
    KindsAgree(facts, c.kind, c.qualified);
    ChosenIsFirst(c.kind, Declarations(facts));
    ChosenIsFirst(c.kind, Definitions(facts));
    RangesSupported(facts, c);
    ScopesSupported(facts, c.scope);
    HierarchySupported(c.kind, facts, c.declaration, c.scope);
    var f := The(facts);
    assert f.symbol.Valid();
  }

  lemma RangesSupported(facts: set<Observation>, c: Symbol)
    requires RangesAgree(c.kind, Declarations(facts)) && RangesAgree(c.kind, Definitions(facts))
    requires c.declaration == ChosenRange(c.kind, Declarations(facts)) &&
             c.definition == ChosenRange(c.kind, Definitions(facts))
    ensures !c.kind.Namespace? ==> forall f :: f in facts ==>
              (f.symbol.declaration.Some? ==> f.symbol.declaration == c.declaration) &&
              (f.symbol.definition.Some? ==> f.symbol.definition == c.definition)
    ensures forall f :: f in facts ==> (f.symbol.declaration.Some? ==>
                                          c.declaration.Some? && NotLater(c.declaration.value,
                                              f.symbol.declaration.value))
    ensures forall f :: f in facts ==> (f.symbol.definition.Some? ==>
                                          c.definition.Some? && NotLater(c.definition.value, f.symbol.definition.value))
    ensures c.declaration.Some? ==> exists f :: f in facts && f.symbol.declaration == c.declaration
    ensures c.definition.Some? ==> exists f :: f in facts && f.symbol.definition == c.definition
  {
    ChosenIsFirst(c.kind, Declarations(facts));
    ChosenIsFirst(c.kind, Definitions(facts));
    forall f | f in facts
      ensures f.symbol.declaration.Some? ==> f.symbol.declaration.value in Declarations(facts)
      ensures f.symbol.definition.Some? ==> f.symbol.definition.value in Definitions(facts)
    {
    }
    hide ChosenRange;
  }

  lemma ScopesSupported(facts: set<Observation>, scope: Option<SymbolId>)
    requires |Scopes(facts)| <= 1 && scope == Sole(Scopes(facts))
    ensures forall f :: f in facts && f.symbol.scope.Some? ==> f.symbol.scope == scope
    ensures scope.Some? ==> exists f :: f in facts && f.symbol.scope == scope
  {
    forall f | f in facts && f.symbol.scope.Some? ensures f.symbol.scope == scope {
      OnlyOne(Scopes(facts), f.symbol.scope.value);
    }
  }

  lemma HierarchySupported(kind: Kind, facts: set<Observation>, declaration: Option<Range>, scope: Option<SymbolId>)
    requires facts != {} && MergeHierarchy(kind, facts, declaration, scope).Ok?
    ensures var (display, parent) := MergeHierarchy(kind, facts, declaration, scope).value;
            && (exists f :: f in facts && f.symbol.display == display)
            && (parent.Some? ==> exists f :: f in facts && f.symbol.parent == parent && f.symbol.display == display)
            && forall f :: f in facts ==> Explained(f, display, parent, scope)
  {
    NonEmptyValues(facts);
    var (display, parent) := MergeHierarchy(kind, facts, declaration, scope).value;
    if |Displays(facts)| <= 1 {
      var f :| f in facts && f.symbol.display == display;
      if parent.Some? {
        assert parent.value in Parents(facts);
        var g :| g in facts && g.symbol.parent == parent;
        assert g.symbol.display in Displays(facts);
        OnlyOne(Displays(facts), display);
      }
      forall g | g in facts ensures Explained(g, display, parent, scope) {
        assert f.symbol.display in Displays(facts) && g.symbol.display in Displays(facts);
        OnlyOne(Displays(facts), display);
        if g.symbol.parent.Some? {
          assert g.symbol.parent.value in Parents(facts);
          OnlyOne(Parents(facts), g.symbol.parent.value);
        }
      }
    } else {
      var sites := SiteFacts(facts, declaration);
      assert (display, parent) in Proven(sites);
      var f :| f in sites && f.symbol.display == display && f.symbol.parent == parent;
      assert f in facts;
    }
  }

  // ---- Adding a canonical symbol back ---------------------------------------------------------------

  /** A symbol as an observation without a site. */
  function Siteless(c: Symbol): Observation {
    Observation(c, None, None, None)
  }

  lemma HierarchyUnchanged(kind: Kind, facts: set<Observation>, declaration: Option<Range>, scope: Option<SymbolId>,
                           c: Symbol)
    requires facts != {} && MergeHierarchy(kind, facts, declaration, scope) == Ok((c.display, c.parent))
    ensures MergeHierarchy(kind, facts + {Siteless(c)}, declaration, scope) == Ok((c.display, c.parent))
  {
    var o := Siteless(c);
    var all := facts + {o};
    NonEmptyValues(facts);
    HierarchySupported(kind, facts, declaration, scope);
    assert Displays(all) == Displays(facts) + {c.display};
    assert Displays(all) == Displays(facts);
    if |Displays(facts)| <= 1 {
      ParentsAdded(facts, c);
    } else {
      assert SiteFacts(all, declaration) == SiteFacts(facts, declaration);
      assert Explained(o, c.display, c.parent, scope);
    }
  }

  lemma ParentsAdded(facts: set<Observation>, c: Symbol)
    requires c.parent == Sole(Parents(facts))
    ensures Parents(facts + {Siteless(c)}) == Parents(facts)
  {
    var all := facts + {Siteless(c)};
    forall p | p in Parents(all) ensures p in Parents(facts) {
      var f :| f in all && f.symbol.parent == Some(p);
    }
    forall p | p in Parents(facts) ensures p in Parents(all) {
      var f :| f in facts && f.symbol.parent == Some(p);
      assert f in all;
    }
  }

  lemma ValuesUnchanged(facts: set<Observation>, c: Symbol)
    requires Supported(c, facts)
    ensures var all := facts + {Siteless(c)};
            && Kinds(all) == Kinds(facts) && QualifiedNames(all) == QualifiedNames(facts)
            && Declarations(all) == Declarations(facts) && Definitions(all) == Definitions(facts)
            && Scopes(all) == Scopes(facts)
  {
    SameKinds(facts, c);
    SameRanges(facts, c);
  }

  lemma SameKinds(facts: set<Observation>, c: Symbol)
    requires facts != {} && forall f :: f in facts ==> f.symbol.kind == c.kind && f.symbol.qualified == c.qualified
    requires c.scope.Some? ==> exists f :: f in facts && f.symbol.scope == c.scope
    ensures var all := facts + {Siteless(c)};
            Kinds(all) == Kinds(facts) && QualifiedNames(all) == QualifiedNames(facts) && Scopes(all) == Scopes(facts)
  {
    var all := facts + {Siteless(c)};
    var f := The(facts);
    assert f.symbol.kind == c.kind && f.symbol.qualified == c.qualified;
    assert Kinds(all) == Kinds(facts) + {c.kind};
    assert QualifiedNames(all) == QualifiedNames(facts) + {c.qualified};
    assert c.kind in Kinds(facts) && c.qualified in QualifiedNames(facts);
    assert Scopes(all) == Scopes(facts) + if c.scope.Some? then {c.scope.value} else {};
  }

  lemma SameRanges(facts: set<Observation>, c: Symbol)
    requires c.declaration.Some? ==> exists f :: f in facts && f.symbol.declaration == c.declaration
    requires c.definition.Some? ==> exists f :: f in facts && f.symbol.definition == c.definition
    ensures var all := facts + {Siteless(c)};
            Declarations(all) == Declarations(facts) && Definitions(all) == Definitions(facts)
  {
    var all := facts + {Siteless(c)};
    assert Declarations(all) == Declarations(facts) + if c.declaration.Some? then {c.declaration.value} else {};
    assert Definitions(all) == Definitions(facts) + if c.definition.Some? then {c.definition.value} else {};
  }

  /** A canonical symbol adds no evidence: the group with it merges to the same symbol. */
  lemma CanonicalAddsNothing(identity: SymbolId, facts: set<Observation>)
    requires facts != {} && AllValid(facts) && MergeGroup(identity, facts).Ok?
    ensures MergeGroup(identity, facts + {Siteless(MergeGroup(identity, facts).value)}) == MergeGroup(identity, facts)
  {
    var c := MergeGroup(identity, facts).value;
    CanonicalIsSupported(identity, facts);
    ValuesUnchanged(facts, c);
    HierarchyUnchanged(c.kind, facts, c.declaration, c.scope, c);
    hide Supported, MergeHierarchy, Kinds, QualifiedNames, Declarations, Definitions, Scopes, ChosenRange;
  }

  // ---- The whole collection -------------------------------------------------------------------------

  datatype Group = Group(symbol: Symbol, observations: set<Observation>)

  datatype Conflict = Conflict(field: Disputed, observations: set<Observation>)

  function GroupOf(all: set<Observation>, identity: SymbolId): set<Observation> {
    set f | f in all && f.symbol.identity == identity
  }

  predicate Observed(all: set<Observation>, identity: SymbolId) {
    exists f :: f in all && f.symbol.identity == identity
  }

  lemma ObservedGroups(all: set<Observation>)
    ensures forall id :: Observed(all, id) <==> GroupOf(all, id) != {}
  {
    forall id ensures Observed(all, id) <==> GroupOf(all, id) != {} {
      if f :| f in all && f.symbol.identity == id {
        assert f in GroupOf(all, id);
      }
      if GroupOf(all, id) != {} {
        var f := The(GroupOf(all, id));
      }
    }
  }

  ghost function MergeOf(all: set<Observation>, identity: SymbolId): Result<Symbol, Disputed>
    requires Observed(all, identity)
  {
    ObservedGroups(all);
    MergeGroup(identity, GroupOf(all, identity))
  }

  ghost predicate IsGroup(all: set<Observation>, g: Group) {
    && Observed(all, g.symbol.identity) && g.observations == GroupOf(all, g.symbol.identity)
    && MergeOf(all, g.symbol.identity) == Ok(g.symbol)
  }

  ghost predicate AreGroups(all: set<Observation>, groups: seq<Group>) {
    && (forall i :: 0 <= i < |groups| ==> IsGroup(all, groups[i]))
    && (forall i, j :: 0 <= i < j < |groups| ==> groups[i].symbol.identity.key < groups[j].symbol.identity.key)
  }

  ghost predicate Lists(groups: seq<Group>, identity: SymbolId) {
    exists i :: 0 <= i < |groups| && groups[i].symbol.identity == identity
  }

  /** One group for each identity in order, or the conflict of the first identity in dispute. */
  ghost predicate Merges(all: set<Observation>, r: Result<seq<Group>, Conflict>) {
    match r
    case Ok(groups) => AreGroups(all, groups) && forall id :: Observed(all, id) ==> Lists(groups, id)
    case Err(conflict) => exists id :: IsFirstConflict(all, id, conflict)
  }

  ghost predicate IsFirstConflict(all: set<Observation>, identity: SymbolId, conflict: Conflict) {
    && Observed(all, identity) && MergeOf(all, identity) == Err(conflict.field)
    && conflict.observations == GroupOf(all, identity)
    && forall id :: Observed(all, id) && id.key < identity.key ==> MergeOf(all, id).Ok?
  }

  // ---- The groups in order --------------------------------------------------------------------------

  predicate Ascending(ids: seq<SymbolId>) {
    forall i, j :: 0 <= i < j < |ids| ==> ids[i].key < ids[j].key
  }

  function Insert(ids: seq<SymbolId>, id: SymbolId): (r: seq<SymbolId>)
    requires Ascending(ids)
    ensures Ascending(r) && forall x :: x in r <==> x in ids || x == id
  {
    if ids == [] || id.key < ids[0].key then
      assert forall x :: x in [id] + ids <==> x in ids || x == id;
      [id] + ids
    else if ids[0] == id then ids
    else
      var rest := Insert(ids[1..], id);
      assert forall x :: x in [ids[0]] + rest <==> x in ids || x == id;
      assert forall k :: 0 <= k < |rest| ==> rest[k] in rest;
      [ids[0]] + rest
  }

  /** `setdefault(identity, []).append(observation)`. */
  function Append(groups: map<SymbolId, seq<Observation>>, f: Observation): map<SymbolId, seq<Observation>> {
    var id := f.symbol.identity;
    groups[id := (if id in groups then groups[id] else []) + [f]]
  }

  ghost predicate Grouped(all: set<Observation>, groups: map<SymbolId, seq<Observation>>) {
    && (forall id :: id in groups <==> Observed(all, id))
    && forall id :: id in groups ==> Elements(groups[id]) == GroupOf(all, id)
  }

  lemma GroupedAfter(all: set<Observation>, groups: map<SymbolId, seq<Observation>>, f: Observation)
    requires Grouped(all, groups)
    ensures Grouped(all + {f}, Append(groups, f))
  {
    var more, next := all + {f}, Append(groups, f);
    forall id ensures Observed(more, id) <==> Observed(all, id) || id == f.symbol.identity {
      if g :| g in all && g.symbol.identity == id {
        assert g in more;
      }
      assert f in more;
    }
    forall id | id in next ensures Elements(next[id]) == GroupOf(more, id) {
      ObservedGroups(all);
      if id == f.symbol.identity {
        assert GroupOf(more, id) == GroupOf(all, id) + {f};
        assert id in groups ==> Elements(groups[id] + [f]) == Elements(groups[id]) + {f};
      } else {
        assert GroupOf(more, id) == GroupOf(all, id);
      }
    }
  }

  method CollectGroups(observations: seq<Observation>)
    returns (groups: map<SymbolId, seq<Observation>>, ids: seq<SymbolId>)
    ensures Grouped(Elements(observations), groups)
    ensures Ascending(ids) && forall id :: id in ids <==> id in groups
  {
    groups, ids := map[], [];
    assert Elements(observations[..0]) == {};
    for i := 0 to |observations|
      invariant Grouped(Elements(observations[..i]), groups)
      invariant Ascending(ids) && forall id :: id in ids <==> id in groups
    {
      hide Grouped;
      var f := observations[i];
      assert observations[..i + 1] == observations[..i] + [f];
      assert Elements(observations[..i + 1]) == Elements(observations[..i]) + {f};
      GroupedAfter(Elements(observations[..i]), groups, f);
      ids := Insert(ids, f.symbol.identity);
      groups := Append(groups, f);
    }
    assert observations[..|observations|] == observations;
  }

  /** `canonicalize_symbol_groups`. */
  method Canonicalize(observations: seq<Observation>) returns (r: Result<seq<Group>, Conflict>)
    ensures Merges(Elements(observations), r)
  {
    var groups, ids := CollectGroups(observations);
    ghost var all := Elements(observations);
    ObservedGroups(all);
    hide Elements, MergeGroup;
    var merged: seq<Group> := [];
    for i := 0 to |ids|
      invariant |merged| == i && forall k :: 0 <= k < i ==>
                  IsGroup(all, merged[k]) && merged[k].symbol.identity == ids[k]
    {
      hide GroupOf;
      var id := ids[i];
      assert id in groups && Observed(all, id);
      var facts := Elements(groups[id]);
      var symbol := DecideGroup(id, facts);
      if symbol.Err? {
        FirstConflict(all, ids, i, Conflict(symbol.error, facts), merged);
        return Err(Conflict(symbol.error, facts));
      }
      MergedIdentity(id, facts);
      merged := merged + [Group(symbol.value, facts)];
    }
    AllListed(all, ids, merged);
    return Ok(merged);
  }

  lemma MergedIdentity(identity: SymbolId, facts: set<Observation>)
    requires facts != {} && MergeGroup(identity, facts).Ok?
    ensures MergeGroup(identity, facts).value.identity == identity
  {
    hide MergeHierarchy;
  }

  lemma FirstConflict(all: set<Observation>, ids: seq<SymbolId>, i: nat, conflict: Conflict, merged: seq<Group>)
    requires i < |ids| && Ascending(ids) && forall id :: id in ids <==> Observed(all, id)
    requires |merged| == i && forall k :: 0 <= k < i ==> IsGroup(all, merged[k]) && merged[k].symbol.identity == ids[k]
    requires Observed(all, ids[i]) && MergeOf(all, ids[i]) == Err(conflict.field) &&
             conflict.observations == GroupOf(all, ids[i])
    ensures Merges(all, Err(conflict))
  {
    hide MergeOf;
    forall id | Observed(all, id) && id.key < ids[i].key ensures MergeOf(all, id).Ok? {
      var k :| 0 <= k < |ids| && ids[k] == id;
      assert k < i;
      assert IsGroup(all, merged[k]);
    }
    assert IsFirstConflict(all, ids[i], conflict);
  }

  lemma AllListed(all: set<Observation>, ids: seq<SymbolId>, merged: seq<Group>)
    requires Ascending(ids) && forall id :: id in ids <==> Observed(all, id)
    requires |merged| == |ids| && forall k :: 0 <= k < |ids| ==>
               IsGroup(all, merged[k]) && merged[k].symbol.identity == ids[k]
    ensures Merges(all, Ok(merged))
  {
    hide IsGroup;
    forall id | Observed(all, id) ensures Lists(merged, id) {
      var k :| 0 <= k < |ids| && ids[k] == id;
      assert merged[k].symbol.identity == id;
    }
  }

  // ---- What merging promises ------------------------------------------------------------------------

  /** The set of observations determines the outcome: any reordering or repetition gives the same groups or the same
      conflict. */
  lemma MergingIsOrderFree(a: seq<Observation>, b: seq<Observation>, r: Result<seq<Group>, Conflict>,
                           r': Result<seq<Group>, Conflict>)
    requires Elements(a) == Elements(b) && Merges(Elements(a), r) && Merges(Elements(b), r')
    ensures r == r'
  {
    hide MergeOf, GroupOf, Elements;
    var all := Elements(a);
    match (r, r')
    case (Ok(g), Ok(h)) =>
      GroupsAreUnique(all, g, h);
    case (Err(c), Err(d)) =>
      var i :| IsFirstConflict(all, i, c);
      var j :| IsFirstConflict(all, j, d);
      assert i.key == j.key;
    case (Ok(g), Err(d)) =>
      ConflictExcludesGroups(all, g, d);
    case (Err(c), Ok(h)) =>
      ConflictExcludesGroups(all, h, c);
  }

  lemma ConflictExcludesGroups(all: set<Observation>, groups: seq<Group>, c: Conflict)
    requires Merges(all, Ok(groups))
    ensures !Merges(all, Err(c))
  {
    hide MergeOf, GroupOf;
    forall id | Observed(all, id) ensures MergeOf(all, id).Ok? {
      assert Lists(groups, id);
      var k :| 0 <= k < |groups| && groups[k].symbol.identity == id;
      assert IsGroup(all, groups[k]);
    }
  }

  lemma {:induction false} GroupsAreUnique(all: set<Observation>, g: seq<Group>, h: seq<Group>)
    requires AreGroups(all, g) && AreGroups(all, h)
    requires forall id :: Lists(g, id) <==> Lists(h, id)
    ensures g == h
    decreases |g|
  {
    hide MergeOf, GroupOf;
    if g == [] {
      assert h != [] ==> Lists(h, h[0].symbol.identity);
    } else {
      assert Lists(g, g[0].symbol.identity);
      var k :| 0 <= k < |h| && h[k].symbol.identity == g[0].symbol.identity;
      assert Lists(h, h[0].symbol.identity);
      var l :| 0 <= l < |g| && g[l].symbol.identity == h[0].symbol.identity;
      assert l == 0 && k == 0;
      assert IsGroup(all, g[0]) && IsGroup(all, h[0]);
      TailLists(g);
      TailLists(h);
      GroupsAreUnique(all, g[1..], h[1..]);
    }
  }

  lemma TailLists(g: seq<Group>)
    requires g != [] && forall i, j :: 0 <= i < j < |g| ==> g[i].symbol.identity.key < g[j].symbol.identity.key
    ensures forall id :: Lists(g[1..], id) <==> Lists(g, id) && id != g[0].symbol.identity
  {
    forall id ensures Lists(g[1..], id) <==> Lists(g, id) && id != g[0].symbol.identity {
      if Lists(g, id) && id != g[0].symbol.identity {
        var k :| 0 <= k < |g| && g[k].symbol.identity == id;
        assert g[1..][k - 1].symbol.identity == id;
      }
      if k :| 0 <= k < |g[1..]| && g[1..][k].symbol.identity == id {
        assert g[k + 1].symbol.identity == id;
      }
    }
  }

  /** The groups partition the distinct observations. */
  lemma GroupsPartition(all: set<Observation>, groups: seq<Group>)
    requires Merges(all, Ok(groups))
    ensures forall f :: f in all <==> exists i :: 0 <= i < |groups| && f in groups[i].observations
    ensures forall i, j, f ::
              0 <= i < |groups| && 0 <= j < |groups| && f in groups[i].observations && f in groups[j].observations ==>
                i == j
    ensures forall i :: 0 <= i < |groups| ==> groups[i].observations != {}
  {
    ObservedGroups(all);
    hide MergeOf;
    forall f | f in all ensures exists i :: 0 <= i < |groups| && f in groups[i].observations {
      assert Observed(all, f.symbol.identity);
      assert Lists(groups, f.symbol.identity);
      var i :| 0 <= i < |groups| && groups[i].symbol.identity == f.symbol.identity;
      assert IsGroup(all, groups[i]) && f in groups[i].observations;
    }
    forall i | 0 <= i < |groups|
      ensures groups[i].observations == GroupOf(all, groups[i].symbol.identity) && groups[i].observations != {}
    {
      assert IsGroup(all, groups[i]);
    }
  }

  /** Merging again with any of the canonical symbols added, as observations without a site, gives the same symbols. */
  lemma MergingAgainChangesNothing(all: set<Observation>, groups: seq<Group>, added: set<Observation>)
    requires AllValid(all) && Merges(all, Ok(groups))
    requires forall f :: f in added ==> exists i :: 0 <= i < |groups| && f == Siteless(groups[i].symbol)
    ensures var more := all + added;
            Merges(more,
                   Ok(seq(|groups|, i requires 0 <= i < |groups| => Group(groups[i].symbol,
                       GroupOf(more, groups[i].symbol.identity)))))
  {
    hide MergeGroup;
    var more := all + added;
    var again := seq(|groups|, i requires 0 <= i < |groups| => Group(groups[i].symbol,
                                                                     GroupOf(more, groups[i].symbol.identity)));
    forall i | 0 <= i < |groups| ensures IsGroup(more, again[i]) {
      OneGroupAgain(all, groups, added, i);
    }
    forall id | Observed(more, id) ensures Lists(again, id) {
      var f :| f in more && f.symbol.identity == id;
      if f in all {
        assert Observed(all, id) && Lists(groups, id);
        var i :| 0 <= i < |groups| && groups[i].symbol.identity == id;
        assert again[i].symbol.identity == id;
      } else {
        var i :| 0 <= i < |groups| && f == Siteless(groups[i].symbol);
        assert again[i].symbol.identity == id;
      }
    }
  }

  lemma OneGroupAgain(all: set<Observation>, groups: seq<Group>, added: set<Observation>, i: nat)
    requires AllValid(all) && AreGroups(all, groups) && i < |groups|
    requires forall f :: f in added ==> exists i :: 0 <= i < |groups| && f == Siteless(groups[i].symbol)
    ensures IsGroup(all + added, Group(groups[i].symbol, GroupOf(all + added, groups[i].symbol.identity)))
  {
    hide MergeGroup;
    var more, c := all + added, groups[i].symbol;
    var id := c.identity;
    assert IsGroup(all, groups[i]);
    ObservedGroups(all);
    ObservedGroups(more);
    var was, now := GroupOf(all, id), GroupOf(more, id);
    assert was <= now;
    forall f | f in now ensures f in was || f == Siteless(c) {
      if f !in all {
        var k :| 0 <= k < |groups| && f == Siteless(groups[k].symbol);
        assert k == i;
      }
    }
    assert now == was || now == was + {Siteless(c)};
    CanonicalAddsNothing(id, was);
  }
}
