/** The generic reader (`JsonGenericRecordReader`) as functions of the path before a call:
    each returns the outcome together with the path as the call leaves it. `read` renames the
    field through the name transformer, pushes the new name unless it is already last, switches
    on the schema type, and pops the name again only when the case returned normally. Records
    route every JSON entry to a declared field, to the collected additional properties, or to
    the unknown-field listener. */
module GenericReading {
  import opened Wrappers
  import opened JsonValues
  import opened Values
  import opened AvroSchema
  import opened Paths
  import opened Text
  import opened UnknownFields
  import opened AvroTypeConverters
  import opened AdditionalProperties
  import opened DateTimeUtils
  import Utf8

  const DATE: string := "date"
  const TIMESTAMP_MICROS: string := "timestamp-micros"
  const TIME_MICROS: string := "time-micros"

  /** What a reader is built from: the unknown-field listener (None for null), the name
      transformer, the JSON names of the fields that carry additional properties, the name of
      the record field that collects them, and the formatters the date and time strings are
      parsed with. */
  datatype Settings = Settings(
    listener: Option<UnknownFieldListener>,
    nameTransformer: string -> string,
    jsonExtraPropsFieldNames: set<string>,
    avroExtraPropsFieldName: string,
    patterns: Patterns)

  /** `avroExtraPropsField`: the field the collected properties are read under. */
  function ExtraPropsField(cfg: Settings): Field
  {
    Field(cfg.avroExtraPropsFieldName, FIELD_SCHEMA, false)
  }

  /** `allowAdditionalProps`: the record schema declares the collecting field. */
  predicate AllowsExtraProps(cfg: Settings, schema: Schema)
  {
    GetField(schema, cfg.avroExtraPropsFieldName).Some?
  }

  /** The functions the leaf cases hand to `onValidType`. */
  datatype Conversion =
    | EpochDay | EpochMicros | MicroSeconds
    | IntValue | LongValue | FloatValue | DoubleValue
    | BooleanIdentity | StringIdentity | EnsureEnum | BytesForString

  /** The class `onValidType` tests the value against before applying the function. */
  function ClassOf(f: Conversion): JavaClass
  {
    match f
    case IntValue => NumberClass
    case LongValue => NumberClass
    case FloatValue => NumberClass
    case DoubleValue => NumberClass
    case BooleanIdentity => BooleanClass
    case _ => StringClass
  }

  /** `ensureEnum`: a listed symbol becomes an enum symbol; any other string is an enum
      exception naming the path and the symbols, whether or not the read is silent. A schema
      that is not an enum has no symbols to ask for. */
  function EnsureEnumSymbol(schema: Schema, s: string, path: seq<string>): (r: Result<Option<Value>, Error>)
    ensures r.Ok? <==> schema.Enum? && s in schema.symbols
    ensures r.Ok? ==> r.value == Some(VEnum(s))
    ensures schema.Enum? && r.Err? ==> r.error == EnumMismatch(Print(path), Join(schema.symbols, ", "))
  {
    if !schema.Enum? then Err(NotAnEnum(TypeName(TypeOf(schema))))
    else if s in schema.symbols then Ok(Some(VEnum(s)))
    else Err(EnumMismatch(Print(path), Join(schema.symbols, ", ")))
  }

  /** `bytesForString`: the UTF-8 bytes of the string, which decode back to it. */
  function BytesFor(s: string): (r: Value)
    ensures r.VBytes? && Utf8.Decode(r.bytes) == Some(s)
  {
    Utf8.DecodeEncode(s);
    VBytes(Utf8.Encode(s))
  }

  /** A parsed number of days as an INT datum; a null parse stays null. */
  function IntOrNull(d: Option<int>): Option<Value>
  {
    if d.Some? then Some(VInt(d.value)) else None
  }

  /** A parsed number of microseconds as a LONG datum; a null parse stays null and an
      exception propagates. */
  function LongOrNull(m: Result<Option<int>, Error>): Result<Option<Value>, Error>
  {
    if m.Err? then Err(m.error)
    else if m.value.Some? then Ok(Some(VLong(m.value.value)))
    else Ok(None)
  }

  /** The function applied to a value of its class: the result, None for Java's null, or the
      exception it throws. */
  function Apply(cfg: Settings, f: Conversion, schema: Schema, v: Json, path: seq<string>): Result<Option<Value>, Error>
    requires IsInstance(ClassOf(f), v)
  {
    match f
    case EpochDay => Ok(IntOrNull(GetEpochDay(cfg.patterns, v.s)))
    case EpochMicros => LongOrNull(GetEpochMicros(cfg.patterns, v.s))
    case MicroSeconds => LongOrNull(GetMicroSeconds(cfg.patterns, v.s))
    case IntValue => Ok(Some(VInt(ToInt(v.i))))
    case LongValue => Ok(Some(VLong(ToLong(v.i))))
    case FloatValue => Ok(Some(VFloat(v.i)))
    case DoubleValue => Ok(Some(VDouble(v.i)))
    case BooleanIdentity => Ok(Some(VBoolean(v.b)))
    case StringIdentity => Ok(Some(VString(v.s)))
    case EnsureEnum => EnsureEnumSymbol(schema, v.s, path)
    case BytesForString => Ok(Some(BytesFor(v.s)))
  }

  /** The answer to a value of another class: the `INCOMPATIBLE` object when silent, otherwise
      a type exception naming the path and the class. */
  function Reject(c: JavaClass, path: seq<string>, silently: bool): (r: Outcome)
    ensures r.Ok? <==> silently
    ensures r.Ok? ==> r.value == VSentinel
    ensures r.Err? ==> r.error == TypeMismatch(Print(path), JavaTypeName(c))
  {
    if silently then Ok(VSentinel) else Err(TypeMismatch(Print(path), JavaTypeName(c)))
  }

  /** `onValidType`: a value of the class goes through the function, whose null becomes the
      `INCOMPATIBLE` object; any other value is rejected. */
  function OnValidType(cfg: Settings, f: Conversion, schema: Schema, value: Json, path: seq<string>, silently: bool): (r: Outcome)
    ensures r.Ok? ==> r.value != VNull
  {
    if !IsInstance(ClassOf(f), value) then Reject(ClassOf(f), path, silently)
    else
      var a := Apply(cfg, f, schema, value, path);
      if a.Err? then Err(a.error)
      else if a.value.None? then Ok(VSentinel)
      else Ok(a.value.value)
  }

  /** The function a non-null primitive case hands to `onValidType`: the logical type picks
      the date and time parsers for INT and LONG. */
  function PrimitiveConversion(schema: Schema): Conversion
    requires schema.Primitive? && schema.kind != NullType
  {
    match schema.kind
    case IntType => if LogicalTypeName(schema) == Some(DATE) then EpochDay else IntValue
    case LongType =>
      if LogicalTypeName(schema) == Some(TIMESTAMP_MICROS) then EpochMicros
      else if LogicalTypeName(schema) == Some(TIME_MICROS) then MicroSeconds
      else LongValue
    case FloatType => FloatValue
    case DoubleType => DoubleValue
    case BooleanType => BooleanIdentity
    case StringType => StringIdentity
    case BytesType => BytesForString
  }

  /** The primitive cases of the switch; NULL accepts only null and is `INCOMPATIBLE`
      otherwise, silent or not. */
  function ReadPrimitive(cfg: Settings, schema: Schema, value: Json, path: seq<string>, silently: bool): (r: Outcome)
    requires schema.Primitive?
    ensures r.Ok? && r.value == VNull ==> value.JNull?
  {
    if schema.kind == NullType then (if value.JNull? then Ok(VNull) else Ok(VSentinel))
    else OnValidType(cfg, PrimitiveConversion(schema), schema, value, path, silently)
  }

  /** The collecting field's schema holds no record. */
  lemma FieldSchemaDepth()
    ensures RecDepth(FIELD_SCHEMA) == 0 && UnionSafe(FIELD_SCHEMA) && RecordFree(FIELD_SCHEMA)
  {
    assert BranchesDepth(FIELD_SCHEMA, 2) == 0;
    assert BranchesDepth(FIELD_SCHEMA, 1) == 0;
  }

  /** `read(field, schema, value, path, silently)`: push the transformed field name unless it
      is already last, switch on the type, and pop after a normal return. */
  function Read(cfg: Settings, field: Field, schema: Schema, value: Json, path: seq<string>, silently: bool): (r: Traced)
    ensures |path| <= |r.path|
    ensures r.out.Ok? && r.out.value == VNull ==> value.JNull?
    decreases RecDepth(schema), schema, 3, 0
  {
    var name := cfg.nameTransformer(field.name);
    var t := Switch(cfg, field, schema, value, Enter(path, name), silently);
    if t.out.Err? || !Pushes(path, name) then t
    else Traced(t.out, t.path[..|t.path| - 1])
  }

  /** The `switch` on the schema type, at the path with the field name pushed. FIXED, which no
      case handles, falls to the `default`: "Unsupported type" naming the type of the field's
      own schema. */
  function Switch(cfg: Settings, field: Field, schema: Schema, value: Json, path: seq<string>, silently: bool): (r: Traced)
    ensures |path| <= |r.path|
    ensures r.out.Ok? && r.out.value == VNull ==> value.JNull?
    decreases RecDepth(schema), schema, 2, 2
  {
    if schema.Fixed? then Traced(Err(UnsupportedType(TypeName(TypeOf(field.schema)))), path)
    else Cases(cfg, field, schema, value, path, silently)
  }

  /** The cases of the `switch`: the leaf types are converted where they stand and the
      containers are read by `ReadContainer`. */
  function Cases(cfg: Settings, field: Field, schema: Schema, value: Json, path: seq<string>, silently: bool): (r: Traced)
    requires !schema.Fixed?
    ensures |path| <= |r.path|
    ensures r.out.Ok? && r.out.value == VNull ==> value.JNull?
    decreases RecDepth(schema), schema, 2, 1
  {
    match schema
    case Enum(_, _) => Traced(OnValidType(cfg, EnsureEnum, schema, value, path, silently), path)
    case Primitive(_, _, _) => Traced(ReadPrimitive(cfg, schema, value, path, silently), path)
    case Record(_, _) => ReadContainer(cfg, field, schema, value, path, silently)
    case Array(_) => ReadContainer(cfg, field, schema, value, path, silently)
    case Map(_) => ReadContainer(cfg, field, schema, value, path, silently)
    case Union(_) => ReadContainer(cfg, field, schema, value, path, silently)
  }

  /** The container cases: a record or map needs a JSON object and an array a JSON array
      (otherwise the value is rejected), a union tries its branches. */
  function ReadContainer(cfg: Settings, field: Field, schema: Schema, value: Json, path: seq<string>, silently: bool): (r: Traced)
    requires schema.Record? || schema.Array? || schema.Map? || schema.Union?
    ensures |path| <= |r.path|
    ensures r.out.Ok? && r.out.value == VNull ==> value.JNull?
    decreases RecDepth(schema), schema, 2, 0
  {
    match schema
    case Record(_, _) =>
      if !IsInstance(MapClass, value) then Traced(Reject(MapClass, path, silently), path)
      else ReadRecord(cfg, schema, value.entries, path)
    case Array(_) =>
      if !IsInstance(ListClass, value) then Traced(Reject(ListClass, path, silently), path)
      else ArrayLoop(cfg, field, schema, value.items, 0, [], path)
    case Map(_) =>
      if !IsInstance(MapClass, value) then Traced(Reject(MapClass, path, silently), path)
      else MapLoop(cfg, field, schema, value.entries, 0, map[], path)
    case Union(_) => UnionLoop(cfg, field, schema, value, 0, path)
  }

  /** `readRecord`: a record builder for the schema (which fails for a schema that is not a
      record), then the entries, then the collected properties. */
  function ReadRecord(cfg: Settings, schema: Schema, entries: seq<(string, Json)>, path: seq<string>): (r: Traced)
    ensures |path| <= |r.path|
    ensures r.out.Ok? ==> r.out.value.VRecord?
    decreases RecDepth(schema), schema, 1, |entries| + 1
  {
    if !schema.Record? then Traced(Err(NotARecord(TypeName(TypeOf(schema)))), path)
    else RecordLoop(cfg, schema, entries, 0, map[], [], path)
  }

  /** The `forEach` over the JSON object from entry `i` on, with `built` the fields set so far
      and `props` the puts into `additionalProps` so far. A null value is skipped. Otherwise the
      key is renamed; a name of a carrier field merges the carrier's entries, a declared name is
      read strictly and set, any other name is collected when the record has the collecting
      field and goes to the listener, if there is one, when it has not. */
  function RecordLoop(cfg: Settings, schema: Schema, entries: seq<(string, Json)>, i: nat, built: map<string, Value>, props: Props, path: seq<string>): (r: Traced)
    requires schema.Record? && i <= |entries|
    ensures |path| <= |r.path|
    ensures r.out.Ok? ==> r.out.value.VRecord?
    decreases RecDepth(schema), schema, 1, |entries| - i
  {
    if i == |entries| then Finish(cfg, schema, built, props, path)
    else
      var key := entries[i].0;
      var v := entries[i].1;
      if v.JNull? then RecordLoop(cfg, schema, entries, i + 1, built, props, path)
      else
        var name := cfg.nameTransformer(key);
        var sub := GetField(schema, name);
        if name in cfg.jsonExtraPropsFieldNames then
          if !v.JObj? then Traced(Err(ClassCast), path)
          else RecordLoop(cfg, schema, entries, i + 1, built, props + GetObjectValues(v.entries), path)
        else if sub.Some? then
          RecDepthOfChildren(schema);
          var t := Read(cfg, sub.value, sub.value.schema, v, path, false);
          if t.out.Err? then t
          else RecordLoop(cfg, schema, entries, i + 1, built[name := t.out.value], props, t.path)
        else if AllowsExtraProps(cfg, schema) then
          RecordLoop(cfg, schema, entries, i + 1, built, props + [(name, GetValue(v))], path)
        else if cfg.listener.None? then RecordLoop(cfg, schema, entries, i + 1, built, props, path)
        else
          var failure := cfg.listener.value(key, v, PrintWith(path, key));
          if failure.Some? then Traced(Err(failure.value), path)
          else RecordLoop(cfg, schema, entries, i + 1, built, props, path)
  }

  /** After the last entry: when the record has the collecting field and something was
      collected, the collected map is read under that field and set; then the record is
      built. */
  function Finish(cfg: Settings, schema: Schema, built: map<string, Value>, props: Props, path: seq<string>): (r: Traced)
    requires schema.Record?
    ensures |path| <= |r.path|
    ensures r.out.Ok? ==> r.out.value.VRecord?
    decreases RecDepth(schema), schema, 0, 0
  {
    if AllowsExtraProps(cfg, schema) && |props| > 0 then
      FieldSchemaDepth();
      var t := Read(cfg, ExtraPropsField(cfg), FIELD_SCHEMA, PropsAsJson(props), path, false);
      if t.out.Err? then t
      else Traced(Build(schema, built[cfg.avroExtraPropsFieldName := t.out.value]), t.path)
    else Traced(Build(schema, built), path)
  }

  /** `readArray` from element `j` on: every element read strictly against the element schema
      under the same field, collected in order. */
  function ArrayLoop(cfg: Settings, field: Field, schema: Schema, items: seq<Json>, j: nat, acc: seq<Value>, path: seq<string>): (r: Traced)
    requires schema.Array? && j <= |items|
    ensures |path| <= |r.path|
    ensures r.out.Ok? ==> r.out.value.VArray?
    decreases RecDepth(schema), schema, 0, |items| - j
  {
    if j == |items| then Traced(Ok(VArray(acc)), path)
    else
      var t := Read(cfg, field, schema.items, items[j], path, false);
      if t.out.Err? then t
      else ArrayLoop(cfg, field, schema, items, j + 1, acc + [t.out.value], t.path)
  }

  /** `readMap` from entry `j` on: every value read strictly against the value schema under
      the same field and put under its key as written. */
  function MapLoop(cfg: Settings, field: Field, schema: Schema, entries: seq<(string, Json)>, j: nat, acc: map<string, Value>, path: seq<string>): (r: Traced)
    requires schema.Map? && j <= |entries|
    ensures |path| <= |r.path|
    ensures r.out.Ok? ==> r.out.value.VMap?
    decreases RecDepth(schema), schema, 0, |entries| - j
  {
    if j == |entries| then Traced(Ok(VMap(acc)), path)
    else
      var t := Read(cfg, field, schema.values, entries[j].1, path, false);
      if t.out.Err? then t
      else MapLoop(cfg, field, schema, entries, j + 1, acc[entries[j].0 := t.out.value], t.path)
  }

  /** The type names of the branches, in order. */
  function TypeNames(branches: seq<Schema>): (r: seq<string>)
    ensures |r| == |branches|
    ensures forall j :: 0 <= j < |r| ==> r[j] == TypeName(TypeOf(branches[j]))
  {
    seq(|branches|, j requires 0 <= j < |branches| => TypeName(TypeOf(branches[j])))
  }

  /** `readUnion` from branch `k` on: each branch is read silently; `INCOMPATIBLE` and an Avro
      runtime exception move on to the next branch, anything else is the result. When no
      branch is left the union exception names the field as written, the types of all the
      branches and the path. */
  function UnionLoop(cfg: Settings, field: Field, schema: Schema, value: Json, k: nat, path: seq<string>): (r: Traced)
    requires schema.Union? && k <= |schema.branches|
    ensures |path| <= |r.path|
    ensures r.out.Ok? && r.out.value == VNull ==> value.JNull?
    decreases RecDepth(schema), schema, 0, |schema.branches| - k
  {
    if k == |schema.branches| then
      Traced(Err(UnionExhausted(field.name, Join(TypeNames(schema.branches), ", "), Print(path))), path)
    else
      RecDepthOfChildren(schema);
      var t := Read(cfg, field, schema.branches[k], value, path, true);
      if t.out.Err? then
        if IsAvroRuntime(t.out.error) then UnionLoop(cfg, field, schema, value, k + 1, t.path) else t
      else if t.out.value == VSentinel then UnionLoop(cfg, field, schema, value, k + 1, t.path)
      else t
  }

  /** `read(json, schema)`: the record read on an empty path. */
  function ReadRoot(cfg: Settings, entries: seq<(string, Json)>, schema: Schema): Traced
  {
    ReadRecord(cfg, schema, entries, [])
  }
}
