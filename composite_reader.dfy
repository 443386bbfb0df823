/** The composite reader (`CompositeJsonToAvroReader` with the record, union, array and map
    converters) as functions of the path before a call: each returns the outcome together with
    the path as the call leaves it. `read` pushes the field name unless it is already last,
    picks the first registered converter that can manage the schema, runs it with the same
    `silently` flag, and pops the name again only when the converter returned normally. */
module CompositeReading {
  import opened Wrappers
  import opened JsonValues
  import opened Values
  import opened AvroSchema
  import opened Paths
  import opened Text
  import opened UnknownFields
  import opened AvroTypeConverters

  /** A converter of the registry. Every `AvroTypeConverter` that does not call back into the
      reader is a `Leaf`, known to the reader only by its `canManage` and its `convert`; the
      record, array, map and union converters, which do, are the other four. */
  datatype Converter =
    | Leaf(manages: (Schema, seq<string>) -> bool, convert: (Field, Schema, Json, seq<string>, bool) -> Outcome)
    | RecordConverter
    | ArrayConverter
    | MapConverter
    | UnionConverter

  /** `canManage(schema, path)` of each converter. */
  predicate CanManage(c: Converter, s: Schema, path: seq<string>)
  {
    match c
    case Leaf(manages, _) => manages(s, path)
    case RecordConverter => TypeOf(s) == RECORD
    case ArrayConverter => TypeOf(s) == ARRAY
    case MapConverter => TypeOf(s) == MAP
    case UnionConverter => TypeOf(s) == UNION
  }

  /** What a reader is built from: its registry and the unknown-field listener of its main
      record converter (None for a null listener). */
  datatype Config = Config(converters: seq<Converter>, listener: Option<UnknownFieldListener>)

  /** The stream `filter(canManage).findFirst()`: the position of the first converter that can
      manage the schema at this path, or the registry's length when none can. */
  function FirstManaging(converters: seq<Converter>, s: Schema, path: seq<string>): (i: nat)
    ensures i <= |converters|
    ensures i < |converters| ==> CanManage(converters[i], s, path)
    ensures forall j :: 0 <= j < i ==> !CanManage(converters[j], s, path)
  {
    if |converters| == 0 then 0
    else if CanManage(converters[0], s, path) then 0
    else 1 + FirstManaging(converters[1..], s, path)
  }

  /** `read(field, schema, value, path, silently)`: push the field name unless it is already
      last, dispatch, and pop after a normal return. */
  function Read(cfg: Config, field: Field, schema: Schema, value: Json, path: seq<string>, silently: bool): (r: Traced)
    ensures |path| <= |r.path|
    decreases schema, 3, 1
  {
    var t := Dispatch(cfg, field, schema, value, Enter(path, field.name), silently);
    if t.out.Err? || !Pushes(path, field.name) then t
    else Traced(t.out, t.path[..|t.path| - 1])
  }

  /** The first converter that can manage the schema at this path converts the value;
      "Unsupported type", naming the type of the field's own schema, when there is none. */
  function Dispatch(cfg: Config, field: Field, schema: Schema, value: Json, path: seq<string>, silently: bool): (r: Traced)
    ensures |path| <= |r.path|
    decreases schema, 3, 0
  {
    var i := FirstManaging(cfg.converters, schema, path);
    if i == |cfg.converters| then Traced(Err(UnsupportedType(TypeName(TypeOf(field.schema)))), path)
    else ConvertWith(cfg, cfg.converters[i], field, schema, value, path, silently)
  }

  /** `convert` of the chosen converter. */
  function ConvertWith(cfg: Config, c: Converter, field: Field, schema: Schema, value: Json, path: seq<string>, silently: bool): (r: Traced)
    requires CanManage(c, schema, path)
    ensures |path| <= |r.path|
    decreases schema, 2, 0
  {
    match c
    case Leaf(_, convert) => Traced(convert(field, schema, value, path, silently), path)
    case RecordConverter => ConvertRecord(cfg, schema, value, path, silently)
    case ArrayConverter =>
      if !IsInstance(CollectionClass, value) then Traced(Rejected(CollectionClass, path, silently), path)
      else ArrayLoop(cfg, field, schema, value.items, 0, [], path)
    case MapConverter =>
      if !IsInstance(MapClass, value) then Traced(Rejected(MapClass, path, silently), path)
      else MapLoop(cfg, field, schema, value.entries, 0, map[], path)
    case UnionConverter => UnionLoop(cfg, field, schema, value, 0, [], path)
  }

  /** `RecordConverter.convert`: the Map gate, then a record builder for the schema (which
      fails for a schema that is not a record), then the entries. */
  function ConvertRecord(cfg: Config, schema: Schema, value: Json, path: seq<string>, silently: bool): (r: Traced)
    ensures |path| <= |r.path|
    decreases schema, 1, 0
  {
    if !IsInstance(MapClass, value) then Traced(Rejected(MapClass, path, silently), path)
    else if !schema.Record? then Traced(Err(NotARecord(TypeName(TypeOf(schema)))), path)
    else RecordLoop(cfg, schema, value.entries, 0, map[], path)
  }

  /** The `forEach` over the JSON object from entry `i` on, with `built` the fields set so
      far: a key the schema declares is read strictly and set, where `set` throws for a null
      the field does not accept; any other key goes to the listener, if there is one. The
      record is built after the last entry, which fails for a field neither set nor
      defaulted. */
  function RecordLoop(cfg: Config, schema: Schema, entries: seq<(string, Json)>, i: nat, built: map<string, Value>, path: seq<string>): (r: Traced)
    requires schema.Record? && i <= |entries|
    ensures |path| <= |r.path|
    decreases schema, 0, |entries| - i
  {
    if i == |entries| then Traced(Build(schema, built), path)
    else
      var key := entries[i].0;
      var v := entries[i].1;
      match GetField(schema, key)
      case Some(sub) =>
        assert sub.schema < schema by { assert sub in schema.fields; }
        var t := Read(cfg, sub, sub.schema, v, path, false);
        if t.out.Err? then t
        else if !SetAccepts(sub, t.out.value) then Traced(Err(NullNotAccepted(sub.name)), t.path)
        else RecordLoop(cfg, schema, entries, i + 1, built[sub.name := t.out.value], t.path)
      case None =>
        if cfg.listener.None? then RecordLoop(cfg, schema, entries, i + 1, built, path)
        else
          match cfg.listener.value(key, v, PrintWith(path, key))
          case Some(e) => Traced(Err(e), path)
          case None => RecordLoop(cfg, schema, entries, i + 1, built, path)
  }

  /** `ArrayConverter.convertValue` from element `j` on: every element read strictly against
      the element schema under the same field, collected in order. */
  function ArrayLoop(cfg: Config, field: Field, schema: Schema, items: seq<Json>, j: nat, acc: seq<Value>, path: seq<string>): (r: Traced)
    requires schema.Array? && j <= |items|
    ensures |path| <= |r.path|
    decreases schema, 0, |items| - j
  {
    if j == |items| then Traced(Ok(VArray(acc)), path)
    else
      var t := Read(cfg, field, schema.items, items[j], path, false);
      if t.out.Err? then t
      else ArrayLoop(cfg, field, schema, items, j + 1, acc + [t.out.value], t.path)
  }

  /** `MapConverter.convertValue` from entry `j` on: every value read strictly against the
      value schema under the same field and put under its key. */
  function MapLoop(cfg: Config, field: Field, schema: Schema, entries: seq<(string, Json)>, j: nat, acc: map<string, Value>, path: seq<string>): (r: Traced)
    requires schema.Map? && j <= |entries|
    ensures |path| <= |r.path|
    decreases schema, 0, |entries| - j
  {
    if j == |entries| then Traced(Ok(VMap(acc)), path)
    else
      var t := Read(cfg, field, schema.values, entries[j].1, path, false);
      if t.out.Err? then t
      else MapLoop(cfg, field, schema, entries, j + 1, acc[entries[j].0 := t.out.value], t.path)
  }

  /** `UnionConverter.convert` from branch `k` on, with `expected` the texts of the branches
      found incompatible so far: each branch is read silently; an `Incompatible` adds its
      text, an Avro exception is skipped, and anything else is the result. */
  function UnionLoop(cfg: Config, field: Field, schema: Schema, value: Json, k: nat, expected: seq<string>, path: seq<string>): (r: Traced)
    requires schema.Union? && k <= |schema.branches|
    ensures |path| <= |r.path|
    decreases schema, 0, |schema.branches| - k
  {
    if k == |schema.branches| then Traced(Err(UnionExhausted(field.name, Join(expected, ", "), Print(path))), path)
    else
      var t := Read(cfg, field, schema.branches[k], value, path, true);
      if t.out.Err? then
        if IsAvroRuntime(t.out.error) then UnionLoop(cfg, field, schema, value, k + 1, expected, t.path) else t
      else if t.out.value.VIncompatible? then
        UnionLoop(cfg, field, schema, value, k + 1, expected + [t.out.value.expected], t.path)
      else t
  }

  /** `read(json, schema)`: the main record converter on an empty path, strictly. */
  function ReadRoot(cfg: Config, json: Json, schema: Schema): Traced
  {
    ConvertRecord(cfg, schema, json, [], false)
  }
}
