/** Which translation units a change set affects, and whether an incremental rebuild can be trusted. */
module Impact {
  import opened Prelude

  datatype Suffix = HeaderSuffix | UnitSuffix | OtherSuffix

  datatype File = File(id: int, suffix: Suffix)

  datatype Coverage = Complete | Partial | Unknown

  datatype Status = SafeIncremental | StatusUnknown | FullRebuildRequired

  datatype ChangeKind = Modify | Added | Deleted | Rename

  datatype Change = Change(oldPath: Option<File>, newPath: Option<File>, kind: ChangeKind) {
    predicate Valid() {
      match kind
      case Added => oldPath.None? && newPath.Some?
      case Deleted => oldPath.Some? && newPath.None?
      case Modify => oldPath.Some? && oldPath == newPath
      case Rename => oldPath.Some? && newPath.Some? && oldPath != newPath
    }

    function Paths(): (r: seq<File>)
      requires Valid()
      ensures 1 <= |r| <= 2 && forall p :: p in r <==> oldPath == Some(p) || newPath == Some(p)
    {
      (match oldPath case Some(p) => [p] case None => []) + (match newPath case Some(p) => [p] case None => [])
    }
  }

  datatype ConfigurationInput = ConfigurationInput(path: File, digest: int)

  /** A compile context; the identity of its translation unit is a digest of all of it, so the unit is the context. */
  datatype Unit = Unit(source: File, directory: int, arguments: seq<int>, inputs: seq<ConfigurationInput>)

  datatype Code = MissingCompileMetadata | MalformedMetadata | MissingCompileContext | MissingDependencyMetadata
                | UnknownHeaderImpact | OutsideRepositoryDependency | UnsupportedChangedFile

  datatype Detail = NoDetail | At(path: File) | Reported(text: int) | Mismatch(previous: bool, missing: nat,
      unexpected: nat)

  datatype Diagnostic = Diagnostic(code: Code, detail: Detail, fullRebuild: bool)

  datatype Inventory = Inventory(units: seq<Unit>, coverage: Coverage, diagnostics: set<Diagnostic>)

  datatype Record = Record(translationUnit: Unit, dependencies: seq<File>)

  datatype Metadata = Metadata(records: seq<Record>, coverage: Coverage, diagnostics: set<Diagnostic>) {
    /** Every record lists the source of its unit. */
    predicate Valid() {
      forall i :: 0 <= i < |records| ==> records[i].translationUnit.source in records[i].dependencies
    }
  }

  /** Everything but the changes. */
  datatype Evidence = Evidence(before: Inventory, after: Inventory, beforeRecords: Metadata, afterRecords: Metadata) {
    predicate Valid() {
      beforeRecords.Valid() && afterRecords.Valid()
    }

    predicate Declares(u: Unit) {
      u in before.units || u in after.units
    }
  }

  // ---- Normalisation --------------------------------------------------------------------------------

  /** Distinct changes share no path on one side. */
  ghost predicate Consistent(changes: set<Change>) {
    forall c, d :: c in changes && d in changes && c != d ==>
      (c.oldPath.Some? ==> c.oldPath != d.oldPath) && (c.newPath.Some? ==> c.newPath != d.newPath)
  }

  /** Removes repetitions and refuses two changes of one path on one side. */
  method Normalize(changes: seq<Change>) returns (r: Option<seq<Change>>)
    ensures r.Some? <==> Consistent(Elements(changes))
    ensures r.Some? ==> Elements(r.value) == Elements(changes)
  {
    var unique: seq<Change> := [];
    for i := 0 to |changes|
      invariant Consistent(Elements(unique)) && Elements(unique) == Elements(changes[..i])
    {
      var c := changes[i];
      assert changes[..i + 1] == changes[..i] + [c];
      assert Elements(changes[..i + 1]) == Elements(changes[..i]) + {c};
      assert c in unique <==> c in Elements(unique);
      if c !in unique {
        if k :| 0 <= k < |unique| && Clash(c, unique[k]) {
          assert unique[k] in Elements(unique) && unique[k] in changes && c in changes && unique[k] != c;
          return None;
        }
        NoClashAdded(unique, c);
        unique := unique + [c];
      }
    }
    assert changes[..|changes|] == changes;
    return Some(unique);
  }

  predicate Clash(c: Change, d: Change) {
    (c.oldPath.Some? && c.oldPath == d.oldPath) || (c.newPath.Some? && c.newPath == d.newPath)
  }

  lemma NoClashAdded(unique: seq<Change>, c: Change)
    requires Consistent(Elements(unique)) && c !in unique && forall k :: 0 <= k < |unique| ==> !Clash(c, unique[k])
    ensures Consistent(Elements(unique + [c]))
  {
    forall a, b | a in unique + [c] && b in unique + [c] && a != b ensures !Clash(a, b) {
      if a in unique && b in unique {
        assert a in Elements(unique) && b in Elements(unique);
      } else if a == c {
        var k :| 0 <= k < |unique| && unique[k] == b;
      } else {
        var k :| 0 <= k < |unique| && unique[k] == a;
      }
    }
  }

  // ---- What is affected -----------------------------------------------------------------------------

  predicate HasSuffix(c: Change, s: Suffix)
    requires c.Valid()
  {
    exists p :: p in c.Paths() && p.suffix == s
  }

  predicate Lists(records: seq<Record>, u: Unit, p: File) {
    exists i :: 0 <= i < |records| && records[i].translationUnit == u && p in records[i].dependencies
  }

  predicate Configures(u: Unit, p: File) {
    exists i :: 0 <= i < |u.inputs| && u.inputs[i].path == p
  }

  /** A changed path reaches a unit: as a header it lists, as its source, or as one of its compile inputs. */
  predicate Reaches(e: Evidence, c: Change, p: File, u: Unit)
    requires c.Valid()
  {
    || (HasSuffix(c, HeaderSuffix) && (Lists(e.beforeRecords.records, u, p) || Lists(e.afterRecords.records, u, p)))
    || (HasSuffix(c, UnitSuffix) && e.Declares(u) && u.source == p)
    || (e.Declares(u) && Configures(u, p))
  }

  predicate ReachesSome(e: Evidence, c: Change, u: Unit)
    requires c.Valid()
  {
    exists p :: p in c.Paths() && Reaches(e, c, p, u)
  }

  /** The unit was added, removed or compiled differently. */
  predicate ContextChanged(e: Evidence, u: Unit) {
    (u in e.before.units) != (u in e.after.units)
  }

  ghost predicate AllValid(changes: set<Change>) {
    forall c :: c in changes ==> c.Valid()
  }

  ghost predicate Affected(e: Evidence, changes: set<Change>, u: Unit)
    requires AllValid(changes)
  {
    ContextChanged(e, u) || exists c :: c in changes && ReachesSome(e, c, u)
  }

  // ---- Diagnostics ----------------------------------------------------------------------------------

  function RecordedUnits(m: Metadata): (r: set<Unit>)
    ensures forall u :: u in r <==> exists i :: 0 <= i < |m.records| && m.records[i].translationUnit == u
  {
    set i | 0 <= i < |m.records| :: m.records[i].translationUnit
  }

  predicate RecordsMatch(i: Inventory, m: Metadata) {
    Elements(i.units) == RecordedUnits(m)
  }

  function MismatchDiagnostic(i: Inventory, m: Metadata, previous: bool): Diagnostic {
    var expected, actual := Elements(i.units), RecordedUnits(m);
    Diagnostic(MissingDependencyMetadata, Mismatch(previous, |expected - actual|, |actual - expected|), true)
  }

  predicate KnownSource(e: Evidence, p: File) {
    (exists i :: 0 <= i < |e.before.units| && e.before.units[i].source == p) ||
    (exists i :: 0 <= i < |e.after.units| && e.after.units[i].source == p)
  }

  predicate KnownInput(e: Evidence, p: File) {
    (exists i :: 0 <= i < |e.before.units| && Configures(e.before.units[i], p)) ||
    (exists i :: 0 <= i < |e.after.units| && Configures(e.after.units[i], p))
  }

  function Last(c: Change): File
    requires c.Valid()
  {
    c.Paths()[|c.Paths()| - 1]
  }

  /** A changed source that nothing compiles. */
  predicate Uncompiled(e: Evidence, c: Change)
    requires c.Valid()
  {
    HasSuffix(c, UnitSuffix) && !exists p :: p in c.Paths() && KnownSource(e, p)
  }

  /** A changed file that is no source, header or compile input. */
  predicate Unsupported(e: Evidence, c: Change)
    requires c.Valid()
  {
    !HasSuffix(c, UnitSuffix) && !HasSuffix(c, HeaderSuffix) && !exists p :: p in c.Paths() && KnownInput(e, p)
  }

  function ChangeDiagnostics(e: Evidence, c: Change): set<Diagnostic>
    requires c.Valid()
  {
    (if Uncompiled(e, c) then {Diagnostic(MissingCompileContext, At(Last(c)), true)} else {}) +
    (if Unsupported(e, c) then {Diagnostic(UnsupportedChangedFile, At(Last(c)), false)} else {})
  }

  function EvidenceDiagnostics(e: Evidence): set<Diagnostic> {
    e.before.diagnostics + e.after.diagnostics + e.beforeRecords.diagnostics + e.afterRecords.diagnostics
    + (if RecordsMatch(e.before, e.beforeRecords) then {} else {MismatchDiagnostic(e.before, e.beforeRecords, true)})
    + (if RecordsMatch(e.after, e.afterRecords) then {} else {MismatchDiagnostic(e.after, e.afterRecords, false)})
  }

  function CombinedCoverage(values: set<Coverage>): Coverage {
    if Unknown in values then Unknown else if Partial in values then Partial else Complete
  }

  function OverallCoverage(e: Evidence): Coverage {
    CombinedCoverage({e.before.coverage, e.after.coverage, e.beforeRecords.coverage, e.afterRecords.coverage}
                     + if RecordsMatch(e.before, e.beforeRecords) &&
                       RecordsMatch(e.after, e.afterRecords) then {} else {Partial})
  }

  const HeaderUnproven: Diagnostic := Diagnostic(UnknownHeaderImpact, NoDetail, true)

  ghost predicate HeaderChanged(changes: set<Change>)
    requires AllValid(changes)
  {
    exists c :: c in changes && HasSuffix(c, HeaderSuffix)
  }

  /** Whether a diagnostic is reported. */
  ghost predicate Reports(e: Evidence, changes: set<Change>, d: Diagnostic)
    requires AllValid(changes)
  {
    || d in EvidenceDiagnostics(e)
    || (exists c :: c in changes && d in ChangeDiagnostics(e, c))
    || (d == HeaderUnproven && HeaderChanged(changes) && OverallCoverage(e) != Complete)
  }

  ghost predicate DemandsRebuild(e: Evidence, changes: set<Change>)
    requires AllValid(changes)
  {
    exists d :: Reports(e, changes, d) && d.fullRebuild
  }

  ghost function StatusOf(e: Evidence, changes: set<Change>): Status
    requires AllValid(changes)
  {
    if DemandsRebuild(e, changes) then FullRebuildRequired
    else if OverallCoverage(e) == Unknown then StatusUnknown
    else SafeIncremental
  }

  datatype Result = Result(changes: set<Change>, affected: set<Unit>, status: Status, coverage: Coverage,
                           diagnostics: set<Diagnostic>)

  ghost predicate Describes(r: Result, e: Evidence, changes: set<Change>)
    requires AllValid(changes)
  {
    && r.changes == changes && r.coverage == OverallCoverage(e) && r.status == StatusOf(e, changes)
    && (forall u :: u in r.affected <==> Affected(e, changes, u))
    && (forall d :: d in r.diagnostics <==> Reports(e, changes, d))
  }

  // ---- The analysis ---------------------------------------------------------------------------------

  /** From each dependency to the units that list it. */
  class ReverseDependencyIndex {
    const reverse: map<File, set<Unit>>

    constructor (records: seq<Record>)
      ensures forall p, u :: u in UnitsFor(p) <==> Lists(records, u, p)
    {
      var building: map<File, set<Unit>> := map[];
      for i := 0 to |records|
        invariant forall p, u :: u in Get(building, p) <==> Lists(records[..i], u, p)
      {
        ghost var start := building;
        var r := records[i];
        for k := 0 to |r.dependencies|
          invariant forall p, u :: u in Get(building, p) <==>
                      u in Get(start, p) || (u == r.translationUnit && p in r.dependencies[..k])
        {
          building := Put(building, r.dependencies[k], r.translationUnit);
        }
        assert r.dependencies[..|r.dependencies|] == r.dependencies;
        ListsOneMore(records, i);
      }
      assert records[..|records|] == records;
      reverse := building;
    }

    function UnitsFor(p: File): set<Unit> {
      Get(reverse, p)
    }
  }

  function Get(m: map<File, set<Unit>>, p: File): set<Unit> {
    if p in m then m[p] else {}
  }

  /** `setdefault(p, set()).add(u)`. */
  function Put(m: map<File, set<Unit>>, p: File, u: Unit): (r: map<File, set<Unit>>)
    ensures forall q, v :: v in Get(r, q) <==> v in Get(m, q) || (q == p && v == u)
    ensures forall q :: q in r <==> q in m || q == p
  {
    m[p := Get(m, p) + {u}]
  }

  lemma ListsOneMore(records: seq<Record>, i: nat)
    requires i < |records|
    ensures forall p, u :: Lists(records[..i + 1], u, p) <==>
              Lists(records[..i], u, p) || (u == records[i].translationUnit && p in records[i].dependencies)
  {
    forall p, u | Lists(records[..i], u, p) ensures Lists(records[..i + 1], u, p) {
      var k :| 0 <= k < i && records[..i][k].translationUnit == u && p in records[..i][k].dependencies;
      assert records[..i + 1][k] == records[..i][k];
    }
    assert records[..i + 1][i] == records[i];
  }

  predicate HasSource(units: seq<Unit>, i: nat, p: File, u: Unit)
    requires i <= |units|
  {
    u in units[..i] && u.source == p
  }

  predicate HasInput(units: seq<Unit>, i: nat, p: File, u: Unit)
    requires i <= |units|
  {
    u in units[..i] && Configures(u, p)
  }

  method UnitsBySource(units: seq<Unit>) returns (m: map<File, set<Unit>>)
    ensures forall p, u :: u in Get(m, p) <==> HasSource(units, |units|, p, u)
    ensures forall p :: p in m <==> exists i :: 0 <= i < |units| && units[i].source == p
  {
    hide Put;
    m := map[];
    for i := 0 to |units|
      invariant forall p, u :: u in Get(m, p) <==> HasSource(units, i, p, u)
      invariant forall p :: p in m <==> exists k :: 0 <= k < i && units[k].source == p
    {
      hide HasSource, Get;
      OneMoreUnit(units, i);
      m := Put(m, units[i].source, units[i]);
    }
  }

  lemma OneMoreUnit(units: seq<Unit>, i: nat)
    requires i < |units|
    ensures forall p, u :: HasSource(units, i + 1, p, u) <==>
              HasSource(units, i, p, u) || (u == units[i] && p == u.source)
    ensures forall p, u :: HasInput(units, i + 1, p, u) <==>
              HasInput(units, i, p, u) || (u == units[i] && Configures(u, p))
  {
    assert units[..i + 1] == units[..i] + [units[i]];
    hide Configures;
    forall p, u
      ensures HasSource(units, i + 1, p, u) <==> HasSource(units, i, p, u) || (u == units[i] && p == u.source)
    {
      assert u in units[..i + 1] <==> u in units[..i] || u == units[i];
    }
    forall p, u
      ensures HasInput(units, i + 1, p, u) <==> HasInput(units, i, p, u) || (u == units[i] && Configures(u, p))
    {
      assert u in units[..i + 1] <==> u in units[..i] || u == units[i];
    }
  }

  method UnitsByInput(units: seq<Unit>) returns (m: map<File, set<Unit>>)
    ensures forall p, u :: u in Get(m, p) <==> HasInput(units, |units|, p, u)
    ensures forall p :: p in m <==> exists i :: 0 <= i < |units| && Configures(units[i], p)
  {
    hide Put, Configures;
    m := map[];
    for i := 0 to |units|
      invariant forall p, u :: u in Get(m, p) <==> HasInput(units, i, p, u)
      invariant forall p :: p in m <==> exists k :: 0 <= k < i && Configures(units[k], p)
    {
      hide HasInput, Get;
      OneMoreUnit(units, i);
      m := AddInputs(m, units[i]);
    }
  }

  method AddInputs(start: map<File, set<Unit>>, unit: Unit) returns (m: map<File, set<Unit>>)
    ensures forall p, u :: u in Get(m, p) <==> u in Get(start, p) || (u == unit && Configures(unit, p))
    ensures forall p :: p in m <==> p in start || Configures(unit, p)
  {
    hide Put, Get, ConfiguresWithin, Configures;
    AllInputs(unit);
    m := start;
    for k := 0 to |unit.inputs|
      invariant forall p, u :: u in Get(m, p) <==> u in Get(start, p) || (u == unit && ConfiguresWithin(unit, k, p))
      invariant forall p :: p in m <==> p in start || ConfiguresWithin(unit, k, p)
    {
      OneMoreInput(unit, k);
      m := Put(m, unit.inputs[k].path, unit);
    }
  }

  predicate ConfiguresWithin(u: Unit, k: nat, p: File) {
    exists i :: 0 <= i < k && i < |u.inputs| && u.inputs[i].path == p
  }

  lemma AllInputs(u: Unit)
    ensures forall p :: Configures(u, p) <==> ConfiguresWithin(u, |u.inputs|, p)
    ensures forall p :: !ConfiguresWithin(u, 0, p)
  {
  }

  lemma OneMoreInput(u: Unit, k: nat)
    requires k < |u.inputs|
    ensures forall p :: ConfiguresWithin(u, k + 1, p) <==> ConfiguresWithin(u, k, p) || p == u.inputs[k].path
  {
    forall p ensures ConfiguresWithin(u, k + 1, p) <==> ConfiguresWithin(u, k, p) || p == u.inputs[k].path {
      if ConfiguresWithin(u, k, p) {
        var i :| 0 <= i < k && i < |u.inputs| && u.inputs[i].path == p;
        assert u.inputs[i].path == p;
      }
    }
  }

  ghost predicate MapsMatch(e: Evidence, previousUnits: map<File, set<Unit>>, currentUnits: map<File, set<Unit>>,
                            inputs: map<File, set<Unit>>)
  {
    && (forall p, u :: u in Get(previousUnits, p) <==> u in e.before.units && u.source == p)
    && (forall p, u :: u in Get(currentUnits, p) <==> u in e.after.units && u.source == p)
    && (forall p :: p in previousUnits || p in currentUnits <==> KnownSource(e, p))
    && (forall p, u :: u in Get(inputs, p) <==> e.Declares(u) && Configures(u, p))
    && (forall p :: p in inputs <==> KnownInput(e, p))
  }

  lemma MapsAreRight(e: Evidence, previousUnits: map<File, set<Unit>>, currentUnits: map<File, set<Unit>>,
                     inputs: map<File, set<Unit>>)
    requires forall p, u :: u in Get(previousUnits, p) <==> HasSource(e.before.units, |e.before.units|, p, u)
    requires forall p :: p in previousUnits <==> exists i :: 0 <= i < |e.before.units| && e.before.units[i].source == p
    requires forall p, u :: u in Get(currentUnits, p) <==> HasSource(e.after.units, |e.after.units|, p, u)
    requires forall p :: p in currentUnits <==> exists i :: 0 <= i < |e.after.units| && e.after.units[i].source == p
    requires var all := e.before.units + e.after.units;
             && (forall p, u :: u in Get(inputs, p) <==> HasInput(all, |all|, p, u))
             && (forall p :: p in inputs <==> exists i :: 0 <= i < |all| && Configures(all[i], p))
    ensures MapsMatch(e, previousUnits, currentUnits, inputs)
  {
    InputsAreKnown(e);
    hide Configures, Get;
    var all := e.before.units + e.after.units;
    assert all[..|all|] == all && e.before.units[..|e.before.units|] == e.before.units &&
           e.after.units[..|e.after.units|] == e.after.units;
    forall p, u ensures HasSource(e.before.units, |e.before.units|, p, u) <==> u in e.before.units && u.source == p {
    }
    forall p, u ensures HasSource(e.after.units, |e.after.units|, p, u) <==> u in e.after.units && u.source == p {
    }
    forall p, u ensures HasInput(all, |all|, p, u) <==> e.Declares(u) && Configures(u, p) {
    }
  }

  /** The units one change affects and the diagnostics it adds. */
  method AnalyzeChange(e: Evidence, c: Change, previousReverse: ReverseDependencyIndex,
                       currentReverse: ReverseDependencyIndex,
                       previousUnits: map<File, set<Unit>>, currentUnits: map<File, set<Unit>>,
                       inputs: map<File, set<Unit>>)
    returns (affected: set<Unit>, diagnostics: set<Diagnostic>)
    requires c.Valid()
    requires forall p, u :: u in previousReverse.UnitsFor(p) <==> Lists(e.beforeRecords.records, u, p)
    requires forall p, u :: u in currentReverse.UnitsFor(p) <==> Lists(e.afterRecords.records, u, p)
    requires MapsMatch(e, previousUnits, currentUnits, inputs)
    ensures forall u :: u in affected <==> ReachesSome(e, c, u)
    ensures diagnostics == ChangeDiagnostics(e, c)
  {
    hide Lists, Configures, KnownSource, KnownInput;
    var paths := c.Paths();
    affected := {};
    var header, unit := HasSuffix(c, HeaderSuffix), HasSuffix(c, UnitSuffix);
    for i := 0 to |paths|
      invariant forall u :: u in affected <==> exists k :: 0 <= k < i && Reaches(e, c, paths[k], u)
    {
      var p := paths[i];
      ghost var start := affected;
      if header {
        affected := affected + previousReverse.UnitsFor(p) + currentReverse.UnitsFor(p);
      }
      if unit {
        affected := affected + Get(previousUnits, p) + Get(currentUnits, p);
      }
      affected := affected + Get(inputs, p);
      assert forall u :: u in affected <==> u in start || Reaches(e, c, p, u);
    }
    diagnostics := {};
    if unit && !exists p :: p in paths && (p in previousUnits || p in currentUnits) {
      diagnostics := {Diagnostic(MissingCompileContext, At(Last(c)), true)};
    }
    if !unit && !header && !exists p :: p in paths && p in inputs {
      diagnostics := diagnostics + {Diagnostic(UnsupportedChangedFile, At(Last(c)), false)};
    }
    assert forall p :: p in paths <==> exists k :: 0 <= k < |paths| && paths[k] == p;
  }

  /** `analyze`. */
  method Analyze(changes: seq<Change>, e: Evidence) returns (r: Option<Result>)
    requires forall i :: 0 <= i < |changes| ==> changes[i].Valid()
    ensures r.Some? <==> Consistent(Elements(changes))
    ensures r.Some? ==> Describes(r.value, e, Elements(changes))
  {
    var unique := Normalize(changes);
    if unique.None? {
      return None;
    }
    var normalized := unique.value;
    assert forall i :: 0 <= i < |normalized| ==> normalized[i] in Elements(normalized);
    var result := AnalyzeNormalized(normalized, e);
    r := Some(result);
  }

  method AnalyzeNormalized(normalized: seq<Change>, e: Evidence) returns (r: Result)
    requires forall i :: 0 <= i < |normalized| ==> normalized[i].Valid()
    ensures AllValid(Elements(normalized)) && Describes(r, e, Elements(normalized))
  {
    hide *;
    var previousReverse := new ReverseDependencyIndex(e.beforeRecords.records);
    var currentReverse := new ReverseDependencyIndex(e.afterRecords.records);
    var previousUnits := UnitsBySource(e.before.units);
    var currentUnits := UnitsBySource(e.after.units);
    var inputs := UnitsByInput(e.before.units + e.after.units);
    MapsAreRight(e, previousUnits, currentUnits, inputs);
    var affected := (set u | u in e.before.units && u !in e.after.units) +
          (set u | u in e.after.units && u !in e.before.units);
    var diagnostics := EvidenceDiagnostics(e);
    var headerChanged := false;
    NothingYet(e, normalized, affected);
    for i := 0 to |normalized|
      invariant Accumulated(e, normalized, i, affected, diagnostics, headerChanged)
    {
      var more, notes := AnalyzeChange(e, normalized[i], previousReverse, currentReverse, previousUnits, currentUnits,
                                       inputs);
      OneMoreChange(e, normalized, i, affected, diagnostics, headerChanged, more, notes);
      affected, diagnostics := affected + more, diagnostics + notes;
      headerChanged := headerChanged || HasSuffix(normalized[i], HeaderSuffix);
    }
    var coverage := OverallCoverage(e);
    ghost var collected := diagnostics;
    if headerChanged && coverage != Complete {
      diagnostics := diagnostics + {HeaderUnproven};
    }
    var status := if exists d :: d in diagnostics && d.fullRebuild then FullRebuildRequired
                  else if coverage == Unknown then StatusUnknown else SafeIncremental;
    r := Result(Elements(normalized), affected, status, coverage, diagnostics);
    ResultDescribes(e, normalized, collected, headerChanged, r);
  }

  /** What the loop knows after the first `i` changes. */
  ghost predicate Accumulated(e: Evidence, changes: seq<Change>, i: nat, affected: set<Unit>,
                              diagnostics: set<Diagnostic>,
                              headerChanged: bool)
    requires i <= |changes| && forall k :: 0 <= k < |changes| ==> changes[k].Valid()
  {
    && (forall u :: u in affected <==> ContextChanged(e, u) || exists k :: 0 <= k < i && ReachesSome(e, changes[k], u))
    && (forall d :: d in diagnostics <==>
          d in EvidenceDiagnostics(e) || exists k :: 0 <= k < i && d in ChangeDiagnostics(e, changes[k]))
    && (headerChanged <==> exists k :: 0 <= k < i && HasSuffix(changes[k], HeaderSuffix))
  }

  lemma NothingYet(e: Evidence, changes: seq<Change>, affected: set<Unit>)
    requires forall k :: 0 <= k < |changes| ==> changes[k].Valid()
    requires affected == (set u | u in e.before.units && u !in e.after.units) +
               (set u | u in e.after.units && u !in e.before.units)
    ensures Accumulated(e, changes, 0, affected, EvidenceDiagnostics(e), false)
  {
    hide EvidenceDiagnostics, ReachesSome;
  }

  lemma OneMoreChange(e: Evidence, changes: seq<Change>, i: nat, affected: set<Unit>, diagnostics: set<Diagnostic>,
                      headerChanged: bool, more: set<Unit>, notes: set<Diagnostic>)
    requires i < |changes| && forall k :: 0 <= k < |changes| ==> changes[k].Valid()
    requires Accumulated(e, changes, i, affected, diagnostics, headerChanged)
    requires (forall u :: u in more <==> ReachesSome(e, changes[i], u)) && notes == ChangeDiagnostics(e, changes[i])
    ensures Accumulated(e, changes, i + 1, affected + more, diagnostics + notes, headerChanged ||
                        HasSuffix(changes[i], HeaderSuffix))
  {
    hide EvidenceDiagnostics, ReachesSome, ChangeDiagnostics, HasSuffix, ContextChanged;
  }

  lemma ResultDescribes(e: Evidence, changes: seq<Change>, collected: set<Diagnostic>, headerChanged: bool, r: Result)
    requires forall k :: 0 <= k < |changes| ==> changes[k].Valid()
    requires Accumulated(e, changes, |changes|, r.affected, collected, headerChanged)
    requires r.diagnostics == if headerChanged && OverallCoverage(e) != Complete then collected + {HeaderUnproven}
               else collected
    requires r.changes == Elements(changes) && r.coverage == OverallCoverage(e)
    requires r.status == if exists d :: d in r.diagnostics && d.fullRebuild then FullRebuildRequired
                         else if OverallCoverage(e) == Unknown then StatusUnknown else SafeIncremental
    ensures AllValid(Elements(changes)) && Describes(r, e, Elements(changes))
  {
    hide OverallCoverage, ReachesSome, HasSuffix, EvidenceDiagnostics, ChangeDiagnostics, ContextChanged;
    InChanges(changes);
    assert headerChanged <==> HeaderChanged(Elements(changes));
    forall d ensures d in r.diagnostics <==> Reports(e, Elements(changes), d) {
    }
  }

  lemma InChanges(normalized: seq<Change>)
    ensures forall c :: c in Elements(normalized) <==> exists k :: 0 <= k < |normalized| && normalized[k] == c
  {
  }

  lemma InputsAreKnown(e: Evidence)
    ensures forall p :: KnownInput(e, p) <==>
              exists i :: 0 <= i < |e.before.units + e.after.units| &&
                Configures((e.before.units + e.after.units)[i], p)
  {
    var all := e.before.units + e.after.units;
    forall p | KnownInput(e, p) ensures exists i :: 0 <= i < |all| && Configures(all[i], p) {
      if i :| 0 <= i < |e.before.units| && Configures(e.before.units[i], p) {
        assert all[i] == e.before.units[i];
      } else {
        var i :| 0 <= i < |e.after.units| && Configures(e.after.units[i], p);
        assert all[|e.before.units| + i] == e.after.units[i];
      }
    }
  }

  // ---- What the analysis promises -------------------------------------------------------------------

  /** The set of changes determines the result: their order and repetition do not matter. */
  lemma AnalysisIsOrderFree(e: Evidence, a: seq<Change>, b: seq<Change>, r: Result, r': Result)
    requires Elements(a) == Elements(b) && AllValid(Elements(a)) && Describes(r, e, Elements(a)) &&
             Describes(r', e, Elements(b))
    ensures r == r'
  {
    assert r.affected == r'.affected && r.diagnostics == r'.diagnostics;
  }

  /** A declared unit that was left out is unchanged, lists no changed header on either side and takes no changed
      input; nor was its source changed, provided its name has a source suffix. */
  lemma LeftOutIsUntouched(e: Evidence, changes: set<Change>, u: Unit)
    requires AllValid(changes) && e.Declares(u) && !Affected(e, changes, u)
    ensures u in e.before.units && u in e.after.units
    ensures forall c, p :: c in changes && p in c.Paths() && p.suffix == HeaderSuffix ==>
              !Lists(e.beforeRecords.records, u, p) && !Lists(e.afterRecords.records, u, p)
    ensures forall c, p :: c in changes && p in c.Paths() ==> !Configures(u, p)
    ensures u.source.suffix == UnitSuffix ==> forall c :: c in changes ==> u.source !in c.Paths()
  {
    forall c, p | c in changes && p in c.Paths() ensures !Reaches(e, c, p, u) {
      assert !ReachesSome(e, c, u);
    }
    forall c, p | c in changes && p in c.Paths() && p.suffix == HeaderSuffix
      ensures !Lists(e.beforeRecords.records, u, p) && !Lists(e.afterRecords.records, u, p)
    {
      assert !Reaches(e, c, p, u) && HasSuffix(c, HeaderSuffix);
    }
    forall c | c in changes && u.source in c.Paths() ensures u.source.suffix != UnitSuffix {
      assert HasSuffix(c, u.source.suffix) && !Reaches(e, c, u.source, u);
    }
  }

  predicate Declared(e: Evidence, u: Unit) {
    u in e.before.units && u in e.after.units
  }

  predicate Recorded(e: Evidence, u: Unit) {
    u in RecordedUnits(e.beforeRecords) || u in RecordedUnits(e.afterRecords)
  }

  /** The dependency records of a unit name a changed path. */
  predicate ListsChanged(e: Evidence, c: Change, u: Unit)
    requires c.Valid()
  {
    exists p :: p in c.Paths() && (Lists(e.beforeRecords.records, u, p) || Lists(e.afterRecords.records, u, p))
  }

  predicate ConfiguredBy(u: Unit, c: Change)
    requires c.Valid()
  {
    exists p :: p in c.Paths() && Configures(u, p)
  }

  /** The change is one for which the dependency records of a unit are looked up, or which names its source or a
      compile input: all that can be told without the records. */
  predicate Consulted(c: Change, u: Unit)
    requires c.Valid()
  {
    HasSuffix(c, HeaderSuffix) || (HasSuffix(c, UnitSuffix) && u.source in c.Paths()) || ConfiguredBy(u, c)
  }

  lemma ReachedExactly(e: Evidence, c: Change, u: Unit)
    requires c.Valid() && Declared(e, u)
    ensures ReachesSome(e, c, u) <==>
              || (HasSuffix(c, HeaderSuffix) && ListsChanged(e, c, u))
              || (HasSuffix(c, UnitSuffix) && u.source in c.Paths())
              || ConfiguredBy(u, c)
  {
    hide Lists, Configures, HasSuffix;
  }

  /** What makes a change invalidate a unit, told from paths and records: it touches a header and the unit's records
      list one of its paths; or the unit is in an inventory and the change touches a source and names the unit's own, or
      names one of the unit's inputs. */
  predicate Invalidates(e: Evidence, c: Change, u: Unit)
    requires c.Valid()
  {
    || ((exists h :: h in c.Paths() && h.suffix == HeaderSuffix) &&
        exists p :: p in c.Paths() && (Lists(e.beforeRecords.records, u, p) || Lists(e.afterRecords.records, u, p)))
    || ((u in e.before.units || u in e.after.units) &&
        (((exists h :: h in c.Paths() && h.suffix == UnitSuffix) && u.source in c.Paths()) ||
         exists i :: 0 <= i < |u.inputs| && u.inputs[i].path in c.Paths()))
  }

  lemma ReachesByPaths(e: Evidence, c: Change, u: Unit)
    requires c.Valid()
    ensures ReachesSome(e, c, u) <==> Invalidates(e, c, u)
  {
    hide Lists;
    if exists i :: 0 <= i < |u.inputs| && u.inputs[i].path in c.Paths() {
      var i :| 0 <= i < |u.inputs| && u.inputs[i].path in c.Paths();
      assert Configures(u, u.inputs[i].path);
    }
  }

  /** Which units are affected, exactly: those of one inventory only, and those that some change invalidates. */
  lemma AffectedExactly(e: Evidence, changes: set<Change>, u: Unit)
    requires AllValid(changes)
    ensures Affected(e, changes, u) <==>
              || (u in e.before.units && u !in e.after.units) || (u !in e.before.units && u in e.after.units)
              || exists c :: c in changes && Invalidates(e, c, u)
  {
    hide ReachesSome, Invalidates;
    forall c | c in changes ensures ReachesSome(e, c, u) <==> Invalidates(e, c, u) {
      ReachesByPaths(e, c, u);
    }
  }

  /** A unit whose records name a path of every change is affected exactly when some change has a path with a header
      suffix, or has a path with a source suffix and names the unit's own source, or names a compile input: that a
      record names a changed file of another kind does not count. */
  lemma ListedChangeIsSeen(e: Evidence, changes: set<Change>, u: Unit)
    requires AllValid(changes) && Declared(e, u) && forall c :: c in changes ==> ListsChanged(e, c, u)
    ensures Affected(e, changes, u) <==> exists c :: c in changes && Consulted(c, u)
  {
    hide ReachesSome, ListsChanged, HasSuffix, ConfiguredBy;
    forall c | c in changes ensures ReachesSome(e, c, u) <==> Consulted(c, u) {
      ReachedExactly(e, c, u);
    }
  }

  /** Changes of its own source affect a unit exactly when one of them has a path with a source suffix, or has a path
      with a header suffix while the unit has a record, or names a compile input. */
  lemma SourceChangeIsSeen(e: Evidence, changes: set<Change>, u: Unit)
    requires e.Valid() && AllValid(changes) && Declared(e, u) && forall c :: c in changes ==> u.source in c.Paths()
    ensures Affected(e, changes, u) <==>
              exists c :: c in changes &&
                (HasSuffix(c, UnitSuffix) || (HasSuffix(c, HeaderSuffix) && Recorded(e, u)) || ConfiguredBy(u, c))
  {
    hide ReachesSome, HasSuffix, ConfiguredBy;
    RecordListsSource(e.beforeRecords, u);
    RecordListsSource(e.afterRecords, u);
    hide RecordedUnits;
    forall c | c in changes
      ensures ReachesSome(e, c, u) <==>
                HasSuffix(c, UnitSuffix) || (HasSuffix(c, HeaderSuffix) && Recorded(e, u)) || ConfiguredBy(u, c)
    {
      ReachedExactly(e, c, u);
      OnlyRecordedList(e, c, u);
    }
  }

  lemma OnlyRecordedList(e: Evidence, c: Change, u: Unit)
    requires c.Valid()
    ensures ListsChanged(e, c, u) ==> Recorded(e, u)
  {
  }

  lemma RecordListsSource(m: Metadata, u: Unit)
    requires m.Valid()
    ensures Lists(m.records, u, u.source) <==> u in RecordedUnits(m)
  {
  }

  /** Affected units of a union are the union of the affected units. */
  lemma AffectedOfUnion(e: Evidence, a: set<Change>, b: set<Change>, u: Unit)
    requires AllValid(a) && AllValid(b)
    ensures AllValid(a + b)
    ensures Affected(e, a + b, u) <==> Affected(e, a, u) || Affected(e, b, u)
  {
    if Affected(e, a, u) || Affected(e, b, u) {
      if c :| c in a && ReachesSome(e, c, u) {
        assert c in a + b;
      } else if c :| c in b && ReachesSome(e, c, u) {
        assert c in a + b;
      }
    }
  }

  /** More changes never take back a demand for a full rebuild, nor make an unsafe analysis safe. */
  lemma RebuildIsMonotone(e: Evidence, a: set<Change>, b: set<Change>)
    requires AllValid(b) && a <= b
    ensures AllValid(a)
    ensures DemandsRebuild(e, a) ==> DemandsRebuild(e, b)
    ensures StatusOf(e, b) == SafeIncremental ==> StatusOf(e, a) == SafeIncremental
    ensures forall u :: Affected(e, a, u) ==> Affected(e, b, u)
  {
    assert AllValid(a);
    if DemandsRebuild(e, a) {
      var d :| Reports(e, a, d) && d.fullRebuild;
      assert Reports(e, b, d) by {
        if c :| c in a && d in ChangeDiagnostics(e, c) {
          assert c in b;
        }
        if HeaderChanged(a) {
          var c :| c in a && HasSuffix(c, HeaderSuffix);
          assert c in b;
        }
      }
    }
  }

  predicate CoveredBy(e: Evidence, value: Coverage) {
    || e.before.coverage == value || e.after.coverage == value
    || e.beforeRecords.coverage == value || e.afterRecords.coverage == value
  }

  predicate AllComplete(e: Evidence) {
    && e.before.coverage == Coverage.Complete && e.after.coverage == Coverage.Complete
    && e.beforeRecords.coverage == Coverage.Complete && e.afterRecords.coverage == Coverage.Complete
  }

  /** Every declared unit has a record, and every record belongs to a declared unit. */
  ghost predicate Matches(i: Inventory, m: Metadata) {
    forall u :: u in i.units <==> exists k :: 0 <= k < |m.records| && m.records[k].translationUnit == u
  }

  lemma MatchesExactly(i: Inventory, m: Metadata)
    ensures RecordsMatch(i, m) <==> Matches(i, m)
  {
    assert forall u :: u in Elements(i.units) <==> u in i.units;
    if Matches(i, m) {
      assert Elements(i.units) == RecordedUnits(m);
    }
  }

  /** A mismatch is told with the number of units without a record and the number of recorded units that are not in the
      inventory; one of them is positive exactly when the two sides differ. */
  lemma MismatchIsCounted(i: Inventory, m: Metadata, previous: bool, units: set<Unit>, recorded: set<Unit>)
    requires (forall u :: u in units <==> u in i.units)
    requires forall u :: u in recorded <==> exists k :: 0 <= k < |m.records| && m.records[k].translationUnit == u
    ensures var d := MismatchDiagnostic(i, m, previous);
            && d.fullRebuild && d.detail.Mismatch? && d.detail.previous == previous
            && d.detail.missing + |units * recorded| == |units|
            && d.detail.unexpected + |units * recorded| == |recorded|
            && (d.detail.missing == 0 == d.detail.unexpected <==> Matches(i, m))
  {
    MatchesExactly(i, m);
    assert Elements(i.units) == units && RecordedUnits(m) == recorded;
    DifferenceCounts(units, recorded);
    DifferenceCounts(recorded, units);
    hide Matches, RecordedUnits;
  }

  lemma DifferenceCounts(a: set<Unit>, b: set<Unit>)
    ensures |a - b| + |a * b| == |a| && (|a - b| == 0 <==> a <= b) && a * b == b * a
  {
    assert (a - b) + (a * b) == a;
  }

  /** The overall coverage is the weakest of the four that were given, and no better than partial when records and units
      do not match. */
  lemma CoverageIsWeakest(e: Evidence)
    ensures OverallCoverage(e) == Coverage.Unknown <==> CoveredBy(e, Coverage.Unknown)
    ensures OverallCoverage(e) == Coverage.Complete <==>
              AllComplete(e) && Matches(e.before, e.beforeRecords) && Matches(e.after, e.afterRecords)
  {
    MatchesExactly(e.before, e.beforeRecords);
    MatchesExactly(e.after, e.afterRecords);
  }

  /** A changed path has a suffix of this kind. */
  ghost predicate Touches(changes: set<Change>, s: Suffix) {
    exists c, p :: c in changes && (c.oldPath == Some(p) || c.newPath == Some(p)) && p.suffix == s
  }

  /** A change with a source among its paths, none of which any unit on either side is compiled from. */
  ghost predicate LeavesSourceUncompiled(e: Evidence, c: Change) {
    && (exists p: File :: (c.oldPath == Some(p) || c.newPath == Some(p)) && p.suffix == UnitSuffix)
    && forall u :: u in e.before.units || u in e.after.units ==>
         c.oldPath != Some(u.source) && c.newPath != Some(u.source)
  }

  ghost predicate GivenDemand(e: Evidence) {
    exists d: Diagnostic :: d.fullRebuild &&
      (d in e.before.diagnostics || d in e.after.diagnostics || d in e.beforeRecords.diagnostics ||
       d in e.afterRecords.diagnostics)
  }

  /** What demands a full rebuild, told from the inputs. */
  ghost predicate MustRebuild(e: Evidence, changes: set<Change>) {
    || GivenDemand(e)
    || !Matches(e.before, e.beforeRecords) || !Matches(e.after, e.afterRecords)
    || (exists c :: c in changes && LeavesSourceUncompiled(e, c))
    || (Touches(changes, HeaderSuffix) && !AllComplete(e))
  }

  lemma UncompiledExactly(e: Evidence, c: Change)
    requires c.Valid()
    ensures Uncompiled(e, c) <==> LeavesSourceUncompiled(e, c)
  {
    forall p ensures KnownSource(e, p) <==> exists u :: (u in e.before.units || u in e.after.units) && u.source == p {
    }
  }

  lemma HeadersTouch(changes: set<Change>)
    requires AllValid(changes)
    ensures HeaderChanged(changes) <==> Touches(changes, HeaderSuffix)
  {
    if HeaderChanged(changes) {
      var c :| c in changes && HasSuffix(c, HeaderSuffix);
      var p :| p in c.Paths() && p.suffix == HeaderSuffix;
    }
    if Touches(changes, HeaderSuffix) {
      var c, p :| c in changes && (c.oldPath == Some(p) || c.newPath == Some(p)) && p.suffix == HeaderSuffix;
      assert p in c.Paths() && HasSuffix(c, HeaderSuffix);
    }
  }

  lemma RebuildExactly(e: Evidence, changes: set<Change>)
    requires AllValid(changes)
    ensures DemandsRebuild(e, changes) <==> MustRebuild(e, changes)
  {
    MatchesExactly(e.before, e.beforeRecords);
    MatchesExactly(e.after, e.afterRecords);
    CoverageIsWeakest(e);
    HeadersTouch(changes);
    forall c | c in changes ensures Uncompiled(e, c) <==> LeavesSourceUncompiled(e, c) {
      UncompiledExactly(e, c);
    }
    hide OverallCoverage, RecordsMatch, Uncompiled, LeavesSourceUncompiled, Matches, HeaderChanged, Touches,
      Unsupported;
    if DemandsRebuild(e, changes) {
      var d :| Reports(e, changes, d) && d.fullRebuild;
      if c :| c in changes && d in ChangeDiagnostics(e, c) {
        assert Uncompiled(e, c);
      }
    }
    DemandIsReported(e, changes);
  }

  lemma DemandIsReported(e: Evidence, changes: set<Change>)
    requires AllValid(changes)
    ensures GivenDemand(e) ==> DemandsRebuild(e, changes)
    ensures !RecordsMatch(e.before, e.beforeRecords) || !RecordsMatch(e.after, e.afterRecords) ==>
              DemandsRebuild(e, changes)
    ensures (exists c :: c in changes && Uncompiled(e, c)) ==> DemandsRebuild(e, changes)
    ensures HeaderChanged(changes) && OverallCoverage(e) != Coverage.Complete ==> DemandsRebuild(e, changes)
  {
    hide OverallCoverage, RecordsMatch, Uncompiled, HeaderChanged, Unsupported;
    if GivenDemand(e) {
      var d: Diagnostic :| d.fullRebuild && (d in e.before.diagnostics || d in e.after.diagnostics ||
                             d in e.beforeRecords.diagnostics || d in e.afterRecords.diagnostics);
      assert Reports(e, changes, d);
    }
    assert !RecordsMatch(e.before, e.beforeRecords) ==>
        Reports(e, changes, MismatchDiagnostic(e.before, e.beforeRecords, true));
    assert !RecordsMatch(e.after, e.afterRecords) ==>
        Reports(e, changes, MismatchDiagnostic(e.after, e.afterRecords, false));
    if c :| c in changes && Uncompiled(e, c) {
      assert Diagnostic(MissingCompileContext, At(Last(c)), true) in ChangeDiagnostics(e, c);
      assert Reports(e, changes, Diagnostic(MissingCompileContext, At(Last(c)), true));
    }
    assert HeaderChanged(changes) && OverallCoverage(e) != Coverage.Complete ==> Reports(e, changes, HeaderUnproven);
  }

  /** The verdict, exactly, from the inputs: a full rebuild when something demands one, otherwise unknown when one of
      the four coverages is unknown, and safe in all other cases. */
  lemma VerdictIsExact(e: Evidence, changes: set<Change>)
    requires AllValid(changes)
    ensures StatusOf(e, changes) == FullRebuildRequired <==> MustRebuild(e, changes)
    ensures StatusOf(e, changes) == StatusUnknown <==> !MustRebuild(e, changes) && CoveredBy(e, Coverage.Unknown)
    ensures StatusOf(e, changes) == SafeIncremental <==> !MustRebuild(e, changes) && !CoveredBy(e, Coverage.Unknown)
  {
    RebuildExactly(e, changes);
    CoverageIsWeakest(e);
    hide DemandsRebuild, MustRebuild, CoveredBy, OverallCoverage;
  }

  /** An incremental rebuild is declared safe only with exact dependency records, no unknown coverage, complete coverage
      on all four sides whenever a header changed, and a compile context for every changed source. */
  lemma SafeMeansComplete(e: Evidence, changes: set<Change>)
    requires AllValid(changes) && StatusOf(e, changes) == SafeIncremental
    ensures Matches(e.before, e.beforeRecords) && Matches(e.after, e.afterRecords)
    ensures RecordsMatch(e.before, e.beforeRecords) && RecordsMatch(e.after, e.afterRecords)
    ensures e.before.coverage != Coverage.Unknown && e.after.coverage != Coverage.Unknown
    ensures e.beforeRecords.coverage != Coverage.Unknown && e.afterRecords.coverage != Coverage.Unknown
    ensures Touches(changes, HeaderSuffix) ==> AllComplete(e)
    ensures forall c :: c in changes && HasSuffix(c, UnitSuffix) ==>
              exists u :: (u in e.before.units || u in e.after.units) && u.source in c.Paths()
  {
    VerdictIsExact(e, changes);
    MatchesExactly(e.before, e.beforeRecords);
    MatchesExactly(e.after, e.afterRecords);
    forall c | c in changes && HasSuffix(c, UnitSuffix)
      ensures exists u :: (u in e.before.units || u in e.after.units) && u.source in c.Paths()
    {
      assert !LeavesSourceUncompiled(e, c);
      var p :| p in c.Paths() && p.suffix == UnitSuffix;
      var u :| (u in e.before.units || u in e.after.units) &&
        (c.oldPath == Some(u.source) || c.newPath == Some(u.source));
      assert u.source in c.Paths();
    }
  }

  /** An empty compilation database, whose contexts count as complete and whose records as unknown, with one modified
      header: the full rebuild is demanded. Without the header the verdict is unknown. */
  lemma UnknownCoverageIsNotSafe()
    ensures var header, text := Modified(File(0, HeaderSuffix)), Modified(File(0, OtherSuffix));
            var e := Evidence(Inventory([], Coverage.Complete, {}), Inventory([], Coverage.Complete, {}),
                              Metadata([], Coverage.Unknown, {}), Metadata([], Coverage.Unknown, {}));
            && header.Valid() && text.Valid()
            && StatusOf(e, {header}) == FullRebuildRequired && StatusOf(e, {text}) == StatusUnknown
  {
    var header, text := Modified(File(0, HeaderSuffix)), Modified(File(0, OtherSuffix));
    var e := Evidence(Inventory([], Coverage.Complete, {}), Inventory([], Coverage.Complete, {}),
                      Metadata([], Coverage.Unknown, {}), Metadata([], Coverage.Unknown, {}));
    VerdictIsExact(e, {header});
    VerdictIsExact(e, {text});
    assert Touches({header}, HeaderSuffix);
    assert !MustRebuild(e, {text});
  }

  /** The path a finding about a change names: the new one, if there is one. */
  function Named(c: Change): Option<File> {
    if c.newPath.Some? then c.newPath else c.oldPath
  }

  /** No path is a source or a header, and none is a compile input of any unit. */
  ghost predicate IsUnsupported(e: Evidence, c: Change) {
    && (forall p: File :: c.oldPath == Some(p) || c.newPath == Some(p) ==> p.suffix == OtherSuffix)
    && forall u, i :: (u in e.before.units || u in e.after.units) && 0 <= i < |u.inputs| ==>
         c.oldPath != Some(u.inputs[i].path) && c.newPath != Some(u.inputs[i].path)
  }

  /** The findings about changes, told from the inputs. */
  lemma FindingsAreExact(e: Evidence, c: Change)
    requires c.Valid()
    ensures Named(c).Some?
    ensures ChangeDiagnostics(e, c) ==
              var file := At(Named(c).value);
              (if LeavesSourceUncompiled(e, c) then {Diagnostic(MissingCompileContext, file, true)} else {}) +
              (if IsUnsupported(e, c) then {Diagnostic(UnsupportedChangedFile, file, false)} else {})
  {
    UncompiledExactly(e, c);
    assert Unsupported(e, c) <==> IsUnsupported(e, c) by {
      if IsUnsupported(e, c) {
        assert forall p :: p in c.Paths() ==> p.suffix == OtherSuffix;
        assert forall p :: p in c.Paths() ==> !KnownInput(e, p);
      }
      if Unsupported(e, c) {
        InputsAreFound(e, c);
      }
    }
    hide Uncompiled, LeavesSourceUncompiled, Unsupported, IsUnsupported;
  }

  lemma InputsAreFound(e: Evidence, c: Change)
    requires c.Valid() && Unsupported(e, c)
    ensures IsUnsupported(e, c)
  {
    forall p: File | c.oldPath == Some(p) || c.newPath == Some(p) ensures p.suffix == OtherSuffix && !KnownInput(e, p) {
      assert p in c.Paths();
      assert HasSuffix(c, p.suffix);
    }
    forall u, i | (u in e.before.units || u in e.after.units) && 0 <= i < |u.inputs|
      ensures KnownInput(e, u.inputs[i].path)
    {
      assert Configures(u, u.inputs[i].path);
    }
  }

  /** What a safe verdict should mean: the records of a unit that is left out name no changed path. */
  ghost predicate LeftOutListsNothing(e: Evidence, changes: set<Change>)
    requires AllValid(changes)
  {
    forall c, u :: c in changes && e.Declares(u) && !Affected(e, changes, u) ==> !ListsChanged(e, c, u)
  }

  /** Some change gives a reason to rebuild the unit, and is one its records or its compile inputs name. */
  ghost predicate Answered(e: Evidence, changes: set<Change>, u: Unit)
    requires AllValid(changes)
  {
    exists c :: c in changes && Consulted(c, u) && (ListsChanged(e, c, u) || ConfiguredBy(u, c))
  }

  /** After a safe verdict a declared unit that is left out has records on both sides, none of its compile inputs
      changed, and its records name paths of such changes only for which they were never looked up. */
  lemma SafeIncrementalLeavesOut(e: Evidence, changes: set<Change>, u: Unit)
    requires e.Valid() && AllValid(changes) && StatusOf(e, changes) == SafeIncremental
    requires e.Declares(u) && !Affected(e, changes, u)
    ensures u in RecordedUnits(e.beforeRecords) && u in RecordedUnits(e.afterRecords)
    ensures forall c :: c in changes && ListsChanged(e, c, u) ==> !Consulted(c, u)
    ensures forall c :: c in changes ==> !ConfiguredBy(u, c)
    ensures forall c :: c in changes && u.source in c.Paths() ==>
              !HasSuffix(c, UnitSuffix) && !HasSuffix(c, HeaderSuffix)
  {
    SafeMeansComplete(e, changes);
    assert u in Elements(e.before.units) && u in Elements(e.after.units);
    RecordListsSource(e.beforeRecords, u);
    hide ReachesSome, HasSuffix, ConfiguredBy, StatusOf, RecordedUnits;
    forall c | c in changes
      ensures !ConfiguredBy(u, c) && (ListsChanged(e, c, u) ==> !Consulted(c, u))
      ensures u.source in c.Paths() ==> !HasSuffix(c, UnitSuffix) && !HasSuffix(c, HeaderSuffix)
    {
      ReachedExactly(e, c, u);
    }
  }

  /** With exact records, as after every safe verdict, the units left out list no changed path if and only if each
      declared unit whose records name a changed path is answered by some change. */
  lemma SafeIsSoundExactly(e: Evidence, changes: set<Change>)
    requires e.Valid() && AllValid(changes) && StatusOf(e, changes) == SafeIncremental
    ensures LeftOutListsNothing(e, changes) <==>
              forall c, u :: c in changes && Declared(e, u) && ListsChanged(e, c, u) ==> Answered(e, changes, u)
  {
    hide ListsChanged, StatusOf, Consulted, ConfiguredBy;
    forall u | Declared(e, u) ensures Affected(e, changes, u) <==> Answered(e, changes, u) {
      AffectedIsAnswered(e, changes, u);
    }
    assert forall u :: e.Declares(u) && !Affected(e, changes, u) ==> Declared(e, u);
    assert forall u :: Declared(e, u) ==> e.Declares(u);
  }

  lemma AffectedIsAnswered(e: Evidence, changes: set<Change>, u: Unit)
    requires e.Valid() && AllValid(changes) && StatusOf(e, changes) == SafeIncremental && Declared(e, u)
    ensures Affected(e, changes, u) <==> Answered(e, changes, u)
  {
    SafeMeansComplete(e, changes);
    assert u in Elements(e.before.units);
    RecordListsSource(e.beforeRecords, u);
    hide ReachesSome, HasSuffix, ConfiguredBy, StatusOf, RecordedUnits;
    forall c | c in changes
      ensures ReachesSome(e, c, u) <==> Consulted(c, u) && (ListsChanged(e, c, u) || ConfiguredBy(u, c))
    {
      ReachedExactly(e, c, u);
    }
  }

  /** The records name nothing but headers beside the source of their unit, which has a source suffix. */
  predicate OnlyHeadersIncluded(m: Metadata) {
    forall i, p :: 0 <= i < |m.records| && p in m.records[i].dependencies ==>
      p.suffix == HeaderSuffix || (p == m.records[i].translationUnit.source && p.suffix == UnitSuffix)
  }

  /** Under that condition on the records a safe verdict is sound for every set of changes. */
  lemma SafeWhenOnlyHeadersAreIncluded(e: Evidence, changes: set<Change>)
    requires e.Valid() && AllValid(changes) && StatusOf(e, changes) == SafeIncremental
    requires OnlyHeadersIncluded(e.beforeRecords) && OnlyHeadersIncluded(e.afterRecords)
    ensures LeftOutListsNothing(e, changes)
  {
    hide StatusOf;
    SafeIsSoundExactly(e, changes);
    forall c, u | c in changes && Declared(e, u) && ListsChanged(e, c, u) ensures Answered(e, changes, u) {
      assert Consulted(c, u);
    }
  }

  // ---- Where it fails -------------------------------------------------------------------------------

  const First: Unit := Unit(File(0, UnitSuffix), 0, [], [])
  const Second: Unit := Unit(File(1, UnitSuffix), 0, [], [])

  function Modified(p: File): Change {
    Change(Some(p), Some(p), Modify)
  }

  /** Both sides alike, everything complete. */
  function Steady(units: seq<Unit>, records: seq<Record>): Evidence {
    Evidence(Inventory(units, Complete, {}), Inventory(units, Complete, {}),
             Metadata(records, Complete, {}), Metadata(records, Complete, {}))
  }

  /** The first unit includes a file that is no header by its suffix, and that file is modified: the verdict is safe,
      coverage complete, and the unit is left out. */
  lemma IncludedFileIsMissed()
    ensures var p := File(2, OtherSuffix);
            var e := Steady([First], [Record(First, [First.source, p])]);
            && e.Valid() && Modified(p).Valid() && OverallCoverage(e) == Complete
            && StatusOf(e, {Modified(p)}) == SafeIncremental
            && e.Declares(First) && ListsChanged(e, Modified(p), First) && !Affected(e, {Modified(p)}, First)
            && !LeftOutListsNothing(e, {Modified(p)})
  {
    var p := File(2, OtherSuffix);
    var e := Steady([First], [Record(First, [First.source, p])]);
    var c := Modified(p);
    assert c.Paths() == [p, p];
    assert e.beforeRecords.records[0].translationUnit == First && p in e.beforeRecords.records[0].dependencies;
    assert Elements(e.before.units) == RecordedUnits(e.beforeRecords) == {First};
    assert !HasSuffix(c, HeaderSuffix) && !HasSuffix(c, UnitSuffix);
    assert ListsChanged(e, c, First);
    assert forall d :: Reports(e, {c}, d) ==> d == Diagnostic(UnsupportedChangedFile, At(p), false);
  }

  /** The first unit includes the source of the second, which is modified: the verdict is safe, coverage complete, and
      the first unit is left out. */
  lemma IncludedSourceIsMissed()
    ensures var p := Second.source;
            var e := Steady([First, Second], [Record(First, [First.source, p]), Record(Second, [p])]);
            && e.Valid() && Modified(p).Valid() && OverallCoverage(e) == Complete
            && StatusOf(e, {Modified(p)}) == SafeIncremental
            && e.Declares(First) && ListsChanged(e, Modified(p), First) && !Affected(e, {Modified(p)}, First)
            && !LeftOutListsNothing(e, {Modified(p)})
            && Affected(e, {Modified(p)}, Second)
  {
    var p := Second.source;
    var e := Steady([First, Second], [Record(First, [First.source, p]), Record(Second, [p])]);
    var c := Modified(p);
    assert c.Paths() == [p, p];
    assert e.beforeRecords.records[0].translationUnit == First && p in e.beforeRecords.records[0].dependencies;
    assert e.beforeRecords.records[1].translationUnit == Second;
    assert e.before.units[0] == First && e.before.units[1] == Second;
    assert Elements(e.before.units) == RecordedUnits(e.beforeRecords) == {First, Second};
    assert !HasSuffix(c, HeaderSuffix);
    assert ListsChanged(e, c, First);
    assert KnownSource(e, p) && p in c.Paths();
    assert ReachesSome(e, c, Second);
    assert forall d :: !Reports(e, {c}, d);
  }

  /** A unit whose source is neither source nor header by its suffix: the source is modified, the verdict is safe and
      the unit is left out. */
  lemma SourceIsMissed()
    ensures var p := File(2, OtherSuffix);
            var u := Unit(p, 0, [], []);
            var e := Steady([u], [Record(u, [p])]);
            && e.Valid() && Modified(p).Valid() && OverallCoverage(e) == Complete
            && StatusOf(e, {Modified(p)}) == SafeIncremental
            && e.Declares(u) && !Affected(e, {Modified(p)}, u)
  {
    var p := File(2, OtherSuffix);
    var u := Unit(p, 0, [], []);
    var e := Steady([u], [Record(u, [p])]);
    var c := Modified(p);
    assert c.Paths() == [p, p];
    assert e.beforeRecords.records[0].translationUnit == u;
    assert Elements(e.before.units) == RecordedUnits(e.beforeRecords) == {u};
    assert !HasSuffix(c, HeaderSuffix) && !HasSuffix(c, UnitSuffix);
    assert forall d :: Reports(e, {c}, d) ==> d == Diagnostic(UnsupportedChangedFile, At(p), false);
  }

  /** A unit whose source has a header suffix and which has no record is missed too, but never under a safe verdict. */
  lemma UnrecordedHeaderSourceIsMissed()
    ensures var p := File(2, HeaderSuffix);
            var u := Unit(p, 0, [], []);
            var e := Steady([u], []);
            && e.Valid() && Modified(p).Valid() && e.Declares(u) && !Affected(e, {Modified(p)}, u)
            && StatusOf(e, {Modified(p)}) == FullRebuildRequired
  {
    var p := File(2, HeaderSuffix);
    var u := Unit(p, 0, [], []);
    var e := Steady([u], []);
    var c := Modified(p);
    assert c.Paths() == [p, p];
    assert !HasSuffix(c, UnitSuffix);
    ReachedExactly(e, c, u);
    assert !Affected(e, {c}, u) by {
      hide HasSuffix;
    }
    hide Affected;
    assert u in Elements(e.before.units) && u !in RecordedUnits(e.beforeRecords);
    UnmatchedNeedsRebuild(e, {c});
  }

  lemma UnmatchedNeedsRebuild(e: Evidence, changes: set<Change>)
    requires AllValid(changes) && !RecordsMatch(e.before, e.beforeRecords)
    ensures StatusOf(e, changes) == FullRebuildRequired
  {
    assert Reports(e, changes, MismatchDiagnostic(e.before, e.beforeRecords, true));
  }
}
