/** Encoding typed records as JSON and decoding JSON by the type annotations of the records. */
module Codec {
  import opened Prelude

  /** A parsed JSON document; its text is not modelled. */
  datatype Json =
    | Null
    | Bool(flag: bool)
    | Int(number: int)
    | Float(literal: string)
    | Str(text: string)
    | Arr(items: seq<Json>)
    | Obj(members: map<string, Json>)

  datatype Value =
    | NoneValue
    | BoolValue(flag: bool)
    | IntValue(number: int)
    | StrValue(text: string)
    | EnumValue(enumeration: string, member: string)
    | TupleValue(items: seq<Value>)
    | RecordValue(record: string, fields: map<string, Value>)

  datatype Annotation =
    | NoneType
    | BoolType
    | IntType
    | StrType
    | EnumType(enumeration: string)
    | TupleType(item: Annotation)
    | RecordType(record: string)
    | Union(choices: seq<Annotation>)

  /** The record and enumeration types of one module, and the key that names a record's type. */
  datatype Schema = Schema(tag: string, records: map<string, map<string, Annotation>>,
                           enumerations: map<string, set<string>>)
  {
    /** Unions are flat and name known records; no field is called like the tag. */
    predicate Valid() {
      forall c :: c in records ==> tag !in records[c] && forall f :: f in records[c] ==> WellFormed(records[c][f])
    }

    predicate WellFormed(a: Annotation) {
      match a
      case TupleType(item) => WellFormed(item)
      case RecordType(c) => c in records
      case Union(choices) => forall i :: 0 <= i < |choices| ==> !choices[i].Union? && WellFormed(choices[i])
      case _ => true
    }
  }

  // ---- Encoding and decoding ------------------------------------------------------------------------

  function Encode(s: Schema, v: Value): Json {
    match v
    case NoneValue => Null
    case BoolValue(b) => Bool(b)
    case IntValue(n) => Int(n)
    case StrValue(t) => Str(t)
    case EnumValue(_, m) => Str(m)
    case TupleValue(items) => Arr(seq(|items|, i requires 0 <= i < |items| => Encode(s, items[i])))
    case RecordValue(c, fields) => Obj(map[s.tag := Str(c)] + map f | f in fields :: Encode(s, fields[f]))
  }

  /** The plain value of a scalar, and its type. */
  function Scalar(j: Json): Option<(Value, Annotation)> {
    match j
    case Null => Some((NoneValue, NoneType))
    case Bool(b) => Some((BoolValue(b), BoolType))
    case Int(n) => Some((IntValue(n), IntType))
    case Str(t) => Some((StrValue(t), StrType))
    case _ => None
  }

  /** The record type that an object names. */
  function Named(s: Schema, members: map<string, Json>): Option<string> {
    if s.tag in members && members[s.tag].Str? && members[s.tag].text in s.records then Some(members[s.tag].text)
      else None
  }

  /** Decodes by the annotation; `accepts` is what the record's own constructor checks. */
  function Decode(s: Schema, accepts: Value -> bool, j: Json, a: Annotation): Option<Value>
    decreases j, a
  {
    match a
    case Union(choices) =>
      if j.Null? && NoneType in choices then Some(NoneValue)
      else if j.Obj? then
        var named := Named(s, j.members);
        if named.Some? && RecordType(named.value) in choices then Decode(s, accepts, j, RecordType(named.value))
          else None
      else
        var scalar := Scalar(j);
        if scalar.Some? && scalar.value.1 in choices then Some(scalar.value.0) else None
    case TupleType(item) =>
      if !j.Arr? then None
      else
        var parts := seq(|j.items|, i requires 0 <= i < |j.items| => Decode(s, accepts, j.items[i], item));
        if forall i :: 0 <= i < |parts| ==> parts[i].Some? then
          Some(TupleValue(seq(|parts|, i requires 0 <= i < |parts| => parts[i].value)))
        else None
    case EnumType(e) =>
      if j.Str? && e in s.enumerations && j.text in s.enumerations[e] then Some(EnumValue(e, j.text)) else None
    case RecordType(c) =>
      if !j.Obj? || c !in s.records || j.members.Keys != {s.tag} + s.records[c].Keys ||
        j.members[s.tag] != Str(c) then None
      else
        var parts := map f | f in s.records[c] :: Decode(s, accepts, j.members[f], s.records[c][f]);
        if forall f :: f in parts ==> parts[f].Some? then
          var r := RecordValue(c, map f | f in parts :: parts[f].value);
          if accepts(r) then Some(r) else None
        else None
    case _ =>
      var scalar := Scalar(j);
      if scalar.Some? && scalar.value.1 == a then Some(scalar.value.0) else None
  }

  // ---- Values of a type -----------------------------------------------------------------------------

  /** The value is one that the annotation allows and that constructors let exist. */
  predicate HasType(s: Schema, accepts: Value -> bool, v: Value, a: Annotation)
    decreases v, a
  {
    match a
    case NoneType => v.NoneValue?
    case BoolType => v.BoolValue?
    case IntType => v.IntValue?
    case StrType => v.StrValue?
    case EnumType(e) => v.EnumValue? && v.enumeration == e && e in s.enumerations && v.member in s.enumerations[e]
    case TupleType(item) => v.TupleValue? && forall i :: 0 <= i < |v.items| ==> HasType(s, accepts, v.items[i], item)
    case RecordType(c) =>
      && v.RecordValue? && v.record == c && c in s.records && v.fields.Keys == s.records[c].Keys && accepts(v)
      && forall f :: f in s.records[c] ==> HasType(s, accepts, v.fields[f], s.records[c][f])
    case Union(choices) => exists i :: 0 <= i < |choices| && HasType(s, accepts, v, choices[i])
  }

  /** No enumeration member and no tuple stands directly under a union. */
  predicate Clean(s: Schema, v: Value, a: Annotation)
    decreases v, a
  {
    match a
    case TupleType(item) => v.TupleValue? ==> forall i :: 0 <= i < |v.items| ==> Clean(s, v.items[i], item)
    case RecordType(c) => v.RecordValue? && c in s.records ==>
      forall f :: f in s.records[c] && f in v.fields ==> Clean(s, v.fields[f], s.records[c][f])
    case Union(choices) =>
      && !v.EnumValue? && !v.TupleValue?
      && (v.RecordValue? && RecordType(v.record) in choices ==> Clean(s, v, RecordType(v.record)))
    case _ => true
  }

  // ---- Decoding undoes encoding ---------------------------------------------------------------------

  lemma EncodedRecord(s: Schema, v: Value)
    requires v.RecordValue? && s.tag !in v.fields
    ensures var j := Encode(s, v);
            && j.Obj? && j.members.Keys == {s.tag} + v.fields.Keys && j.members[s.tag] == Str(v.record)
            && forall f :: f in v.fields ==> j.members[f] == Encode(s, v.fields[f])
  {
    var encoded := map f | f in v.fields :: Encode(s, v.fields[f]);
    assert encoded.Keys == v.fields.Keys;
  }

  /** Decoding an encoded value gives it back exactly when the value is clean. */
  lemma {:induction false} RoundTrip(s: Schema, accepts: Value -> bool, v: Value, a: Annotation)
    requires s.Valid() && s.WellFormed(a) && HasType(s, accepts, v, a)
    ensures Decode(s, accepts, Encode(s, v), a) == Some(v) <==> Clean(s, v, a)
    decreases v, a
  {
    match a
    case Union(choices) => RoundTripUnion(s, accepts, v, choices);
    case TupleType(item) => RoundTripTuple(s, accepts, v, item);
    case RecordType(c) => RoundTripRecord(s, accepts, v, c);
    case _ =>
  }

  lemma {:induction false} RoundTripTuple(s: Schema, accepts: Value -> bool, v: Value, item: Annotation)
    requires s.Valid() && s.WellFormed(TupleType(item)) && HasType(s, accepts, v, TupleType(item))
    ensures Decode(s, accepts, Encode(s, v), TupleType(item)) == Some(v) <==> Clean(s, v, TupleType(item))
    decreases v, TupleType(item), 0
  {
    var j := Encode(s, v);
    forall i | 0 <= i < |v.items|
      ensures Decode(s, accepts, j.items[i], item) == Some(v.items[i]) <==> Clean(s, v.items[i], item)
    {
      RoundTrip(s, accepts, v.items[i], item);
    }
    DecodeOfTuple(s, accepts, j, item, v.items);
    hide Decode, Encode;
  }

  lemma DecodeOfTuple(s: Schema, accepts: Value -> bool, j: Json, item: Annotation, values: seq<Value>)
    requires j.Arr? && |values| == |j.items|
    ensures Decode(s, accepts, j, TupleType(item)) == Some(TupleValue(values)) <==>
            forall i :: 0 <= i < |values| ==> Decode(s, accepts, j.items[i], item) == Some(values[i])
  {
    var parts := seq(|j.items|, i requires 0 <= i < |j.items| => Decode(s, accepts, j.items[i], item));
    assert forall i :: 0 <= i < |parts| ==> parts[i] == Decode(s, accepts, j.items[i], item);
    if Decode(s, accepts, j, TupleType(item)) == Some(TupleValue(values)) {
      assert values == seq(|parts|, i requires 0 <= i < |parts| => parts[i].value);
    }
    if forall i :: 0 <= i < |values| ==> parts[i] == Some(values[i]) {
      assert seq(|parts|, i requires 0 <= i < |parts| => parts[i].value) == values;
    }
  }

  /** A record is decoded field by field. */
  predicate FieldsDecode(s: Schema, accepts: Value -> bool, j: Json, c: string, v: Value)
    requires j.Obj? && c in s.records && s.records[c].Keys <= j.members.Keys
  {
    && v.RecordValue? && v.record == c && v.fields.Keys == s.records[c].Keys && accepts(v)
    && forall f :: f in s.records[c] ==> Decode(s, accepts, j.members[f], s.records[c][f]) == Some(v.fields[f])
  }

  lemma DecodeOfRecord(s: Schema, accepts: Value -> bool, j: Json, c: string, v: Value)
    requires j.Obj? && c in s.records && j.members.Keys == {s.tag} + s.records[c].Keys && j.members[s.tag] == Str(c)
    ensures Decode(s, accepts, j, RecordType(c)) == Some(v) <==> FieldsDecode(s, accepts, j, c, v)
  {
    var hints := s.records[c];
    var parts := map f | f in hints :: Decode(s, accepts, j.members[f], hints[f]);
    if FieldsDecode(s, accepts, j, c, v) {
      assert forall f :: f in parts ==> parts[f] == Some(v.fields[f]);
      assert (map f | f in parts :: parts[f].value) == v.fields;
      assert v == RecordValue(c, v.fields);
    } else if Decode(s, accepts, j, RecordType(c)).Some? {
      var r := Decode(s, accepts, j, RecordType(c)).value;
      assert forall f :: f in hints ==> f in parts && parts[f] == Some(r.fields[f]);
    }
  }

  lemma {:induction false} RoundTripRecord(s: Schema, accepts: Value -> bool, v: Value, c: string)
    requires s.Valid() && s.WellFormed(RecordType(c)) && HasType(s, accepts, v, RecordType(c))
    ensures Decode(s, accepts, Encode(s, v), RecordType(c)) == Some(v) <==> Clean(s, v, RecordType(c))
    decreases v, RecordType(c), 0
  {
    var hints := s.records[c];
    assert s.tag !in hints;
    EncodedRecord(s, v);
    var j := Encode(s, v);
    forall f | f in hints
      ensures f in v.fields && (Decode(s, accepts, j.members[f], hints[f]) == Some(v.fields[f]) <==>
                                  Clean(s, v.fields[f], hints[f]))
    {
      RoundTrip(s, accepts, v.fields[f], hints[f]);
    }
    DecodeOfRecord(s, accepts, j, c, v);
    hide Decode, Encode;
  }

  lemma {:induction false} RoundTripUnion(s: Schema, accepts: Value -> bool, v: Value, choices: seq<Annotation>)
    requires s.Valid() && s.WellFormed(Union(choices)) && HasType(s, accepts, v, Union(choices))
    ensures Decode(s, accepts, Encode(s, v), Union(choices)) == Some(v) <==> Clean(s, v, Union(choices))
    decreases v, Union(choices), 0
  {
    var i :| 0 <= i < |choices| && HasType(s, accepts, v, choices[i]);
    assert choices[i] in choices && !choices[i].Union?;
    if v.RecordValue? {
      assert choices[i] == RecordType(v.record);
      assert s.WellFormed(choices[i]) && s.tag !in s.records[v.record];
      EncodedRecord(s, v);
      RoundTripRecord(s, accepts, v, v.record);
      assert Named(s, Encode(s, v).members) == Some(v.record);
      hide HasType, Encode, Named;
    } else {
      hide HasType;
    }
  }

  // ---- Encoding undoes decoding ---------------------------------------------------------------------

  /** Whatever is accepted is a value of the type, and encoding it gives the document back. */
  lemma {:induction false} AcceptedIsEncoded(s: Schema, accepts: Value -> bool, j: Json, a: Annotation)
    requires s.Valid() && s.WellFormed(a) && Decode(s, accepts, j, a).Some?
    ensures HasType(s, accepts, Decode(s, accepts, j, a).value, a)
    ensures Encode(s, Decode(s, accepts, j, a).value) == j
    decreases j, a
  {
    match a
    case TupleType(item) => AcceptedTuple(s, accepts, j, item);
    case RecordType(c) => AcceptedRecord(s, accepts, j, c);
    case Union(choices) => AcceptedUnion(s, accepts, j, choices);
    case _ =>
  }

  lemma {:induction false} AcceptedUnion(s: Schema, accepts: Value -> bool, j: Json, choices: seq<Annotation>)
    requires s.Valid() && s.WellFormed(Union(choices)) && Decode(s, accepts, j, Union(choices)).Some?
    ensures HasType(s, accepts, Decode(s, accepts, j, Union(choices)).value, Union(choices))
    ensures Encode(s, Decode(s, accepts, j, Union(choices)).value) == j
    decreases j, Union(choices), 0
  {
    var v := Decode(s, accepts, j, Union(choices)).value;
    var chosen := if j.Obj? then RecordType(Named(s, j.members).value) else Scalar(j).value.1;
    var i :| 0 <= i < |choices| && choices[i] == chosen;
    if j.Obj? {
      AcceptedRecord(s, accepts, j, Named(s, j.members).value);
    }
    assert HasType(s, accepts, v, choices[i]);
  }

  lemma {:induction false} AcceptedTuple(s: Schema, accepts: Value -> bool, j: Json, item: Annotation)
    requires s.Valid() && s.WellFormed(TupleType(item)) && Decode(s, accepts, j, TupleType(item)).Some?
    ensures HasType(s, accepts, Decode(s, accepts, j, TupleType(item)).value, TupleType(item))
    ensures Encode(s, Decode(s, accepts, j, TupleType(item)).value) == j
    decreases j, TupleType(item), 0
  {
    var v := Decode(s, accepts, j, TupleType(item)).value;
    var parts := seq(|j.items|, i requires 0 <= i < |j.items| => Decode(s, accepts, j.items[i], item));
    forall i | 0 <= i < |j.items| ensures HasType(s, accepts, v.items[i], item) && Encode(s, v.items[i]) == j.items[i] {
      assert parts[i] == Decode(s, accepts, j.items[i], item) == Some(v.items[i]);
      AcceptedIsEncoded(s, accepts, j.items[i], item);
    }
    assert Encode(s, v).items == j.items;
  }

  lemma HasTypeOfRecord(s: Schema, accepts: Value -> bool, v: Value, c: string)
    requires v.RecordValue? && v.record == c && c in s.records && v.fields.Keys == s.records[c].Keys && accepts(v)
    requires forall f :: f in s.records[c] ==> HasType(s, accepts, v.fields[f], s.records[c][f])
    ensures HasType(s, accepts, v, RecordType(c))
  {
  }

  lemma RecordShape(s: Schema, accepts: Value -> bool, j: Json, c: string)
    requires Decode(s, accepts, j, RecordType(c)).Some?
    ensures j.Obj? && c in s.records && j.members.Keys == {s.tag} + s.records[c].Keys && j.members[s.tag] == Str(c)
  {
  }

  lemma {:induction false} AcceptedRecord(s: Schema, accepts: Value -> bool, j: Json, c: string)
    requires s.Valid() && s.WellFormed(RecordType(c)) && Decode(s, accepts, j, RecordType(c)).Some?
    ensures HasType(s, accepts, Decode(s, accepts, j, RecordType(c)).value, RecordType(c))
    ensures Decode(s, accepts, j, RecordType(c)).value.RecordValue? &&
            Decode(s, accepts, j, RecordType(c)).value.record == c
    ensures Encode(s, Decode(s, accepts, j, RecordType(c)).value) == j
    decreases j, RecordType(c), 0
  {
    RecordShape(s, accepts, j, c);
    var v := Decode(s, accepts, j, RecordType(c)).value;
    DecodeOfRecord(s, accepts, j, c, v);
    hide Decode, Encode, HasType;
    forall f | f in s.records[c] ensures FieldAccepted(s, accepts, j, c, v, f) {
      AcceptedIsEncoded(s, accepts, j.members[f], s.records[c][f]);
    }
    hide FieldAccepted, FieldsDecode;
    AssembleRecord(s, accepts, j, c, v);
  }

  predicate FieldAccepted(s: Schema, accepts: Value -> bool, j: Json, c: string, v: Value, f: string)
    requires j.Obj? && c in s.records && f in s.records[c] && f in j.members && v.RecordValue?
  {
    f in v.fields && HasType(s, accepts, v.fields[f], s.records[c][f]) && Encode(s, v.fields[f]) == j.members[f]
  }

  lemma AssembleRecord(s: Schema, accepts: Value -> bool, j: Json, c: string, v: Value)
    requires s.Valid() && j.Obj? && c in s.records && j.members.Keys == {s.tag} + s.records[c].Keys &&
             j.members[s.tag] == Str(c)
    requires FieldsDecode(s, accepts, j, c, v) && v.RecordValue? && forall f :: f in s.records[c] ==>
               FieldAccepted(s, accepts, j, c, v, f)
    ensures HasType(s, accepts, v, RecordType(c)) && v.record == c && Encode(s, v) == j
  {
    hide Decode, Encode;
    assert s.tag !in s.records[c];
    EncodedRecord(s, v);
    HasTypeOfRecord(s, accepts, v, c);
    hide HasType;
    assert Encode(s, v).members == j.members;
  }

  // ---- Types whose values are all clean -------------------------------------------------------------

  /** An annotation whose unions hold only records, null and plain scalars. */
  predicate Plain(a: Annotation) {
    match a
    case TupleType(item) => Plain(item)
    case Union(choices) => forall i :: 0 <= i < |choices| ==> PlainChoice(choices[i])
    case _ => true
  }

  predicate PlainChoice(a: Annotation) {
    a.NoneType? || a.BoolType? || a.IntType? || a.StrType? || a.RecordType?
  }

  /** The annotation names only records of the family. */
  predicate Within(a: Annotation, family: set<string>) {
    match a
    case TupleType(item) => Within(item, family)
    case RecordType(c) => c in family
    case Union(choices) => forall i :: 0 <= i < |choices| ==> Within(choices[i], family)
    case _ => true
  }

  /** A family of records with plain fields that refer only to the family. */
  predicate PlainFamily(s: Schema, family: set<string>) {
    forall c :: c in family ==> c in s.records && forall f :: f in s.records[c] ==>
      Plain(s.records[c][f]) && Within(s.records[c][f], family)
  }

  lemma {:induction false} PlainIsClean(s: Schema, accepts: Value -> bool, family: set<string>, v: Value, a: Annotation)
    requires s.Valid() && s.WellFormed(a) && PlainFamily(s, family) && Plain(a) && Within(a, family) &&
             HasType(s, accepts, v, a)
    ensures Clean(s, v, a)
    decreases v, a
  {
    match a
    case TupleType(item) =>
      forall i | 0 <= i < |v.items| ensures Clean(s, v.items[i], item) {
        PlainIsClean(s, accepts, family, v.items[i], item);
      }
    case RecordType(c) =>
      forall f | f in s.records[c] && f in v.fields ensures Clean(s, v.fields[f], s.records[c][f]) {
        PlainIsClean(s, accepts, family, v.fields[f], s.records[c][f]);
      }
    case Union(choices) =>
      var i :| 0 <= i < |choices| && HasType(s, accepts, v, choices[i]);
      assert PlainChoice(choices[i]);
      if v.RecordValue? {
        assert choices[i] == RecordType(v.record);
        assert Within(choices[i], family);
        PlainIsClean(s, accepts, family, v, choices[i]);
      }
    case _ =>
  }

  // ---- Whole documents ------------------------------------------------------------------------------

  /** A wire format: the envelope's key for the record, and the records allowed at the root. */
  datatype Format = Format(schema: Schema, payload: string, roots: set<string>) {
    predicate Valid() {
      schema.Valid() && payload != "schema_version" && roots <= schema.records.Keys
    }
  }

  function Dump(f: Format, v: Value): Option<Json> {
    if v.RecordValue? && v.record in f.roots then
      Some(Obj(map["schema_version" := Int(1), f.payload := Encode(f.schema, v)]))
    else None
  }

  function Load(f: Format, accepts: Value -> bool, document: Json): Option<Value> {
    if !document.Obj? || document.members.Keys != {"schema_version", f.payload} ||
      document.members["schema_version"] != Int(1) then None
    else
      var record := document.members[f.payload];
      if !record.Obj? then None
      else
        var named := Named(f.schema, record.members);
        if named.Some? && named.value in f.roots then Decode(f.schema, accepts, record, RecordType(named.value))
          else None
  }

  /** Loading a dumped record gives it back exactly when it is clean. */
  lemma LoadUndoesDump(f: Format, accepts: Value -> bool, v: Value)
    requires f.Valid() && v.RecordValue? && v.record in f.roots && HasType(f.schema, accepts, v, RecordType(v.record))
    ensures Dump(f, v).Some?
    ensures Load(f, accepts, Dump(f, v).value) == Some(v) <==> Clean(f.schema, v, RecordType(v.record))
  {
    var s := f.schema;
    assert s.tag !in s.records[v.record];
    EncodedRecord(s, v);
    RoundTripRecord(s, accepts, v, v.record);
    var document := Dump(f, v).value;
    assert document.members.Keys == {"schema_version", f.payload};
  }

  /** Dumping a loaded document gives the document back. */
  lemma DumpUndoesLoad(f: Format, accepts: Value -> bool, document: Json)
    requires f.Valid() && Load(f, accepts, document).Some?
    ensures Dump(f, Load(f, accepts, document).value) == Some(document)
  {
    hide Decode, Encode, HasType, Named;
    var record := document.members[f.payload];
    AcceptedRecord(f.schema, accepts, record, Named(f.schema, record.members).value);
    var again := Dump(f, Load(f, accepts, document).value).value;
    assert again.members == document.members;
  }

  /** Records of a plain family always survive. */
  lemma PlainRecordsSurvive(f: Format, accepts: Value -> bool, family: set<string>, v: Value)
    requires f.Valid() && PlainFamily(f.schema, family) && v.RecordValue? && v.record in f.roots && v.record in family
    requires HasType(f.schema, accepts, v, RecordType(v.record))
    ensures Dump(f, v).Some? && Load(f, accepts, Dump(f, v).value) == Some(v)
  {
    PlainIsClean(f.schema, accepts, family, v, RecordType(v.record));
    LoadUndoesDump(f, accepts, v);
  }

  /** The annotation of a diagnostic's optional artifact kind. */
  const ArtifactAnnotation: Annotation := Union([EnumType("ArtifactKind"), NoneType])

  lemma ArtifactKindIsRefused(s: Schema, accepts: Value -> bool, kind: Value)
    requires HasType(s, accepts, kind, ArtifactAnnotation) && kind != NoneValue
    ensures Decode(s, accepts, Encode(s, kind), ArtifactAnnotation) == None
  {
    var i :| 0 <= i < 2 && HasType(s, accepts, kind, ArtifactAnnotation.choices[i]);
    assert kind.EnumValue?;
  }

  lemma RefusedField(s: Schema, accepts: Value -> bool, j: Json, c: string, f: string)
    requires j.Obj? && c in s.records && j.members.Keys == {s.tag} + s.records[c].Keys && j.members[s.tag] == Str(c)
    requires f in s.records[c] && Decode(s, accepts, j.members[f], s.records[c][f]) == None
    ensures Decode(s, accepts, j, RecordType(c)) == None
  {
    if Decode(s, accepts, j, RecordType(c)).Some? {
      DecodeOfRecord(s, accepts, j, c, Decode(s, accepts, j, RecordType(c)).value);
    }
  }

  lemma RefusedDocument(f: Format, accepts: Value -> bool, v: Value)
    requires f.Valid() && v.RecordValue? && v.record in f.roots && f.schema.tag !in v.fields
    requires Decode(f.schema, accepts, Encode(f.schema, v), RecordType(v.record)) == None
    ensures Dump(f, v).Some? && Load(f, accepts, Dump(f, v).value) == None
  {
    EncodedRecord(f.schema, v);
    hide Decode, Encode;
  }

  /** A diagnostic that names an artifact can be dumped, but what was dumped is refused. */
  lemma ArtifactDiagnosticIsRefused(f: Format, accepts: Value -> bool, v: Value)
    requires f.Valid() && "KnowledgeDiagnostic" in f.roots
    requires "artifact" in f.schema.records["KnowledgeDiagnostic"]
    requires f.schema.records["KnowledgeDiagnostic"]["artifact"] == ArtifactAnnotation
    requires HasType(f.schema, accepts, v, RecordType("KnowledgeDiagnostic")) && v.fields["artifact"] != NoneValue
    ensures Dump(f, v).Some? && Load(f, accepts, Dump(f, v).value) == None
  {
    hide Decode, Encode, Dump, Load;
    var s := f.schema;
    assert s.tag !in s.records["KnowledgeDiagnostic"];
    EncodedRecord(s, v);
    ArtifactKindIsRefused(s, accepts, v.fields["artifact"]);
    RefusedField(s, accepts, Encode(s, v), "KnowledgeDiagnostic", "artifact");
    RefusedDocument(f, accepts, v);
  }

  // ---- Members of an object -------------------------------------------------------------------------

  predicate DistinctKeys(pairs: seq<(string, Json)>) {
    forall i, j :: 0 <= i < j < |pairs| ==> pairs[i].0 != pairs[j].0
  }

  /** Collects the pairs of a JSON object and refuses a repeated key. */
  method CollectMembers(pairs: seq<(string, Json)>) returns (r: Option<map<string, Json>>)
    ensures r.Some? <==> DistinctKeys(pairs)
    ensures r.Some? ==> forall k, v :: (k, v) in pairs <==> k in r.value && r.value[k] == v
  {
    var result: map<string, Json> := map[];
    for i := 0 to |pairs|
      invariant DistinctKeys(pairs[..i])
      invariant forall k, v :: (k, v) in pairs[..i] <==> k in result && result[k] == v
      invariant forall k :: k in result ==> exists n :: 0 <= n < i && pairs[n].0 == k
    {
      var (key, value) := pairs[i];
      assert pairs[..i + 1] == pairs[..i] + [pairs[i]];
      if key in result {
        return None;
      }
      assert forall n :: 0 <= n < i ==> pairs[..i][n] == pairs[n] && pairs[n].0 != key by {
        forall n | 0 <= n < i ensures pairs[n].0 != key {
          assert (pairs[n].0, pairs[n].1) in pairs[..i];
        }
      }
      result := result[key := value];
    }
    assert pairs[..|pairs|] == pairs;
    return Some(result);
  }
}
