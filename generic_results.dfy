/** What the generic reader's records and unions produce: which entries a record takes, under
    which names, what the collecting field holds, and which branch a union answers with. The
    container statements hold on schemas where a successful read leaves the path unchanged
    (`UnionSafe`), so that every entry is read at the same path. */
module GenericResults {
  import opened Wrappers
  import opened JsonValues
  import opened Values
  import opened AvroSchema
  import opened Paths
  import opened Text
  import opened AvroTypeConverters
  import opened AdditionalProperties
  import opened GenericReading
  import opened GenericReaderProperties
  import CompositeResults

  // ---------------------------------------------------------------------------------------
  // The collecting field

  /** The Avro map the collecting field holds: every collected key with its string. */
  function StringValues(m: map<string, string>): (r: map<string, Value>)
    ensures r.Keys == m.Keys
    ensures forall k :: k in m ==> r[k] == VString(m[k])
  {
    map k | k in m :: VString(m[k])
  }

  /** A STRING leaf under a field already on the path reads a JSON string as itself. */
  lemma StringLeaf(cfg: Settings, field: Field, s: string, path: seq<string>)
    requires |path| > 0 && path[|path| - 1] == cfg.nameTransformer(field.name)
    ensures Read(cfg, field, Plain(StringType), JStr(s), path, false) == Traced(Ok(VString(s)), path)
  {
    assert Pushed(cfg, field, path) == path;
  }

  lemma {:induction false} CollectedMapLoop(cfg: Settings, props: Props, j: nat, path: seq<string>)
    requires j <= |props|
    requires |path| > 0 && path[|path| - 1] == cfg.nameTransformer(cfg.avroExtraPropsFieldName)
    ensures MapLoop(cfg, ExtraPropsField(cfg), Map(Plain(StringType)), PropsAsJson(props).entries, j, StringValues(AsMap(props[..j])), path)
         == Traced(Ok(VMap(StringValues(AsMap(props)))), path)
    decreases |props| - j
  {
    var entries := PropsAsJson(props).entries;
    if j == |props| {
      assert props[..j] == props;
    } else {
      assert entries[j] == (props[j].0, JStr(props[j].1));
      StringLeaf(cfg, ExtraPropsField(cfg), props[j].1, path);
      MapLoopStep(cfg, ExtraPropsField(cfg), Map(Plain(StringType)), entries, j, StringValues(AsMap(props[..j])), path,
                  VString(props[j].1));
      CollectedPrefix(props, j);
      CollectedMapLoop(cfg, props, j + 1, path);
    }
  }

  /** An entry whose value reads without touching the path is put into the map. */
  lemma MapLoopStep(cfg: Settings, field: Field, schema: Schema, entries: seq<(string, Json)>, j: nat,
                    acc: map<string, Value>, path: seq<string>, v: Value)
    requires schema.Map? && j < |entries|
    requires Read(cfg, field, schema.values, entries[j].1, path, false) == Traced(Ok(v), path)
    ensures MapLoop(cfg, field, schema, entries, j, acc, path)
         == MapLoop(cfg, field, schema, entries, j + 1, acc[entries[j].0 := v], path)
  {
  }

  /** One more collected entry overrides its key in the collected map. */
  lemma CollectedPrefix(props: Props, j: nat)
    requires j < |props|
    ensures StringValues(AsMap(props[..j + 1])) == StringValues(AsMap(props[..j]))[props[j].0 := VString(props[j].1)]
  {
    assert props[..j + 1][..j] == props[..j];
    assert AsMap(props[..j + 1]) == AsMap(props[..j])[props[j].0 := props[j].1];
  }

  /** The MAP branch of the collecting field takes the collected entries. */
  lemma CollectedMapBranch(cfg: Settings, props: Props, path: seq<string>)
    requires |path| > 0 && path[|path| - 1] == cfg.nameTransformer(cfg.avroExtraPropsFieldName)
    ensures Read(cfg, ExtraPropsField(cfg), Map(Plain(StringType)), PropsAsJson(props), path, true)
         == Traced(Ok(VMap(StringValues(AsMap(props)))), path)
  {
    var f := ExtraPropsField(cfg);
    var s := Map(Plain(StringType));
    var v := PropsAsJson(props);
    assert Pushed(cfg, f, path) == path;
    CollectedMapContainer(cfg, props, path);
    assert Switch(cfg, f, s, v, path, true) == ReadContainer(cfg, f, s, v, path, true);
  }

  /** The container case of the MAP branch: the map loop over every collected entry. */
  lemma CollectedMapContainer(cfg: Settings, props: Props, path: seq<string>)
    requires |path| > 0 && path[|path| - 1] == cfg.nameTransformer(cfg.avroExtraPropsFieldName)
    ensures ReadContainer(cfg, ExtraPropsField(cfg), Map(Plain(StringType)), PropsAsJson(props), path, true)
         == Traced(Ok(VMap(StringValues(AsMap(props)))), path)
  {
    var v := PropsAsJson(props);
    assert props[..0] == [];
    assert StringValues(AsMap(props[..0])) == map[];
    CollectedMapLoop(cfg, props, 0, path);
    assert IsInstance(MapClass, v);
  }

  /** From the MAP branch on, the union of the collecting field takes the collected entries. */
  lemma CollectedUnionTail(cfg: Settings, props: Props, path: seq<string>)
    requires |path| > 0 && path[|path| - 1] == cfg.nameTransformer(cfg.avroExtraPropsFieldName)
    ensures UnionLoop(cfg, ExtraPropsField(cfg), FIELD_SCHEMA, PropsAsJson(props), 1, path)
         == Traced(Ok(VMap(StringValues(AsMap(props)))), path)
  {
    CollectedMapBranch(cfg, props, path);
  }

  /** The NULL branch of the collecting field turns the object down, the MAP branch takes it. */
  lemma CollectedUnion(cfg: Settings, props: Props, path: seq<string>)
    requires |path| > 0 && path[|path| - 1] == cfg.nameTransformer(cfg.avroExtraPropsFieldName)
    ensures UnionLoop(cfg, ExtraPropsField(cfg), FIELD_SCHEMA, PropsAsJson(props), 0, path)
         == Traced(Ok(VMap(StringValues(AsMap(props)))), path)
  {
    NullSchemaRead(cfg, ExtraPropsField(cfg), None, None, PropsAsJson(props), path, true);
    assert UnionLoop(cfg, ExtraPropsField(cfg), FIELD_SCHEMA, PropsAsJson(props), 0, path)
        == UnionLoop(cfg, ExtraPropsField(cfg), FIELD_SCHEMA, PropsAsJson(props), 1, path);
    CollectedUnionTail(cfg, props, path);
  }

  /** Reading the collected entries under the collecting field always succeeds, leaves the
      path as it was, and yields the map of every collected key to the string last collected
      under it. */
  lemma CollectedRead(cfg: Settings, props: Props, path: seq<string>)
    ensures Read(cfg, ExtraPropsField(cfg), FIELD_SCHEMA, PropsAsJson(props), path, false)
         == Traced(Ok(VMap(StringValues(AsMap(props)))), path)
  {
    CollectedUnion(cfg, props, Pushed(cfg, ExtraPropsField(cfg), path));
  }

  /** After the last entry the record is built from the fields set, and the collecting field
      when the schema has it and something was collected; the collecting read cannot fail, so
      only `build()` can. */
  lemma FinishResult(cfg: Settings, schema: Schema, built: map<string, Value>, props: Props, path: seq<string>)
    requires schema.Record?
    ensures Finish(cfg, schema, built, props, path)
         == Traced(Build(schema, if AllowsExtraProps(cfg, schema) && |props| > 0
                                 then built[cfg.avroExtraPropsFieldName := VMap(StringValues(AsMap(props)))]
                                 else built), path)
  {
    if AllowsExtraProps(cfg, schema) && |props| > 0 {
      CollectedRead(cfg, props, path);
    }
  }

  // ---------------------------------------------------------------------------------------
  // Null entries

  /** The entries with the one at `n` taken out. */
  function Without(entries: seq<(string, Json)>, n: nat): (r: seq<(string, Json)>)
    requires n < |entries|
    ensures |r| == |entries| - 1
    ensures forall i :: 0 <= i < n ==> r[i] == entries[i]
    ensures forall i :: n <= i < |r| ==> r[i] == entries[i + 1]
  {
    entries[..n] + entries[n + 1..]
  }

  /** What `readRecord` does with one entry: go on with new state, or stop with a result. */
  datatype Next = Continue(built: map<string, Value>, props: Props, path: seq<string>) | Done(result: Traced)

  /** The body of `readRecord`'s loop for one entry. */
  function EntryNext(cfg: Settings, schema: Schema, entry: (string, Json), built: map<string, Value>, props: Props, path: seq<string>): Next
  {
    var v := entry.1;
    if v.JNull? then Continue(built, props, path)
    else
      var name := cfg.nameTransformer(entry.0);
      var sub := GetField(schema, name);
      if name in cfg.jsonExtraPropsFieldNames then
        if !v.JObj? then Done(Traced(Err(ClassCast), path))
        else Continue(built, props + GetObjectValues(v.entries), path)
      else if sub.Some? then
        var t := Read(cfg, sub.value, sub.value.schema, v, path, false);
        if t.out.Err? then Done(t) else Continue(built[name := t.out.value], props, t.path)
      else if AllowsExtraProps(cfg, schema) then Continue(built, props + [(name, GetValue(v))], path)
      else if cfg.listener.None? then Continue(built, props, path)
      else
        var failure := cfg.listener.value(entry.0, v, PrintWith(path, entry.0));
        if failure.Some? then Done(Traced(Err(failure.value), path)) else Continue(built, props, path)
  }

  /** One turn of the loop is one `EntryNext`. */
  lemma RecordLoopUnfold(cfg: Settings, schema: Schema, entries: seq<(string, Json)>, i: nat, built: map<string, Value>, props: Props, path: seq<string>)
    requires schema.Record? && i < |entries|
    ensures var next := EntryNext(cfg, schema, entries[i], built, props, path);
            RecordLoop(cfg, schema, entries, i, built, props, path)
              == if next.Done? then next.result else RecordLoop(cfg, schema, entries, i + 1, next.built, next.props, next.path)
  {
  }

  lemma {:induction false} RecordLoopShift(cfg: Settings, schema: Schema, entries: seq<(string, Json)>, n: nat, i: nat, built: map<string, Value>, props: Props, path: seq<string>)
    requires schema.Record? && n < i <= |entries|
    ensures RecordLoop(cfg, schema, entries, i, built, props, path) == RecordLoop(cfg, schema, Without(entries, n), i - 1, built, props, path)
    decreases |entries| - i
  {
    if i < |entries| {
      var rest := Without(entries, n);
      assert rest[i - 1] == entries[i];
      var next := EntryNext(cfg, schema, entries[i], built, props, path);
      RecordLoopUnfold(cfg, schema, entries, i, built, props, path);
      RecordLoopUnfold(cfg, schema, rest, i - 1, built, props, path);
      if next.Continue? {
        RecordLoopShift(cfg, schema, entries, n, i + 1, next.built, next.props, next.path);
      }
    }
  }

  lemma {:induction false} RecordLoopUpTo(cfg: Settings, schema: Schema, entries: seq<(string, Json)>, n: nat, i: nat, built: map<string, Value>, props: Props, path: seq<string>)
    requires schema.Record? && i <= n < |entries| && entries[n].1.JNull?
    ensures RecordLoop(cfg, schema, entries, i, built, props, path) == RecordLoop(cfg, schema, Without(entries, n), i, built, props, path)
    decreases n - i
  {
    RecordLoopUnfold(cfg, schema, entries, i, built, props, path);
    if i == n {
      RecordLoopShift(cfg, schema, entries, n, n + 1, built, props, path);
    } else {
      var rest := Without(entries, n);
      assert rest[i] == entries[i];
      var next := EntryNext(cfg, schema, entries[i], built, props, path);
      RecordLoopUnfold(cfg, schema, rest, i, built, props, path);
      if next.Continue? {
        RecordLoopUpTo(cfg, schema, entries, n, i + 1, next.built, next.props, next.path);
      }
    }
  }

  /** An entry whose value is JSON null is skipped entirely: reading the object with it gives
      exactly what reading the object without it gives, so it sets no field, collects nothing
      and reaches no listener. */
  lemma NullEntrySkipped(cfg: Settings, schema: Schema, entries: seq<(string, Json)>, n: nat, path: seq<string>)
    requires n < |entries| && entries[n].1.JNull?
    ensures ReadRecord(cfg, schema, entries, path) == ReadRecord(cfg, schema, Without(entries, n), path)
  {
    if schema.Record? {
      RecordLoopUpTo(cfg, schema, entries, n, 0, map[], [], path);
    }
  }

  /** A required field given as JSON null is skipped like any null entry, so `build()` finds
      it missing; a defaulted field may be left out. */
  lemma NullForRequiredFieldIsMissing(cfg: Settings)
    requires cfg.avroExtraPropsFieldName != "a"
    ensures ReadRoot(cfg, [("a", JNull)], Record("R", [Field("a", Plain(IntType), false)])).out == Err(MissingField("a"))
    ensures ReadRoot(cfg, [("a", JNull)], Record("R", [Field("a", Plain(IntType), true)])).out == Ok(VRecord(map[]))
  {
    var entries := [("a", JNull)];
    NullEntrySkipped(cfg, Record("R", [Field("a", Plain(IntType), false)]), entries, 0, []);
    NullEntrySkipped(cfg, Record("R", [Field("a", Plain(IntType), true)]), entries, 0, []);
    assert Without(entries, 0) == [];
  }

  // ---------------------------------------------------------------------------------------
  // Arrays and maps

  /** The reads of the elements of an array, each strict and at the array's path. */
  function ElementReads(cfg: Settings, field: Field, schema: Schema, items: seq<Json>, path: seq<string>): (parts: seq<Traced>)
    requires schema.Array?
    ensures |parts| == |items|
    ensures forall idx :: 0 <= idx < |items| ==> parts[idx] == Read(cfg, field, schema.items, items[idx], path, false)
  {
    seq(|items|, idx requires 0 <= idx < |items| => Read(cfg, field, schema.items, items[idx], path, false))
  }

  lemma {:induction false} ArrayLoopIsAppendAll(cfg: Settings, field: Field, schema: Schema, items: seq<Json>, j: nat, acc: seq<Value>, path: seq<string>)
    requires schema.Array? && j <= |items| && UnionSafe(schema)
    ensures ArrayLoop(cfg, field, schema, items, j, acc, path) == CompositeResults.AppendAll(ElementReads(cfg, field, schema, items, path), j, acc, path)
    decreases |items| - j
  {
    if j < |items| {
      ReadRestores(cfg, field, schema.items, items[j], path, false);
      var t := Read(cfg, field, schema.items, items[j], path, false);
      if t.out.Ok? {
        ArrayLoopIsAppendAll(cfg, field, schema, items, j + 1, acc + [t.out.value], path);
      }
    }
  }

  /** `readArray` succeeds exactly when every element reads, and then yields the elements'
      values in input order, one per element. */
  lemma ArrayElementwise(cfg: Settings, field: Field, schema: Schema, items: seq<Json>, path: seq<string>)
    requires schema.Array? && UnionSafe(schema)
    ensures var t := ArrayLoop(cfg, field, schema, items, 0, [], path);
            t.out.Ok? <==> forall idx :: 0 <= idx < |items| ==> Read(cfg, field, schema.items, items[idx], path, false).out.Ok?
    ensures var t := ArrayLoop(cfg, field, schema, items, 0, [], path);
            t.out.Ok? ==>
              t.out.value.VArray? && |t.out.value.items| == |items| &&
              forall idx :: 0 <= idx < |items| ==> Read(cfg, field, schema.items, items[idx], path, false).out == Ok(t.out.value.items[idx])
  {
    var parts := ElementReads(cfg, field, schema, items, path);
    ArrayLoopIsAppendAll(cfg, field, schema, items, 0, [], path);
    CompositeResults.AppendAllElementwise(parts, 0, [], path);
    var t := CompositeResults.AppendAll(parts, 0, [], path);
    forall idx | 0 <= idx < |items|
      ensures t.out.Ok? ==> parts[idx].out == Ok(t.out.value.items[idx])
    {
      if t.out.Ok? {
        assert parts[idx].out == Ok(t.out.value.items[0 + idx - 0]);
      }
    }
  }

  /** The reads of the values of a map, each strict and at the map's path. */
  function ValueReads(cfg: Settings, field: Field, schema: Schema, entries: seq<(string, Json)>, path: seq<string>): (parts: seq<Traced>)
    requires schema.Map?
    ensures |parts| == |entries|
    ensures forall idx :: 0 <= idx < |entries| ==> parts[idx] == Read(cfg, field, schema.values, entries[idx].1, path, false)
  {
    seq(|entries|, idx requires 0 <= idx < |entries| => Read(cfg, field, schema.values, entries[idx].1, path, false))
  }

  lemma {:induction false} MapLoopIsPutAll(cfg: Settings, field: Field, schema: Schema, entries: seq<(string, Json)>, j: nat, acc: map<string, Value>, path: seq<string>)
    requires schema.Map? && j <= |entries| && UnionSafe(schema)
    ensures MapLoop(cfg, field, schema, entries, j, acc, path) == CompositeResults.PutAll(entries, ValueReads(cfg, field, schema, entries, path), j, acc, path)
    decreases |entries| - j
  {
    if j < |entries| {
      ReadRestores(cfg, field, schema.values, entries[j].1, path, false);
      var t := Read(cfg, field, schema.values, entries[j].1, path, false);
      if t.out.Ok? {
        MapLoopIsPutAll(cfg, field, schema, entries, j + 1, acc[entries[j].0 := t.out.value], path);
      }
    }
  }

  /** `readMap` succeeds exactly when every value reads; its keys are the object's keys as
      written, and a repeated key holds the value read from its last occurrence. */
  lemma MapKeywise(cfg: Settings, field: Field, schema: Schema, entries: seq<(string, Json)>, path: seq<string>)
    requires schema.Map? && UnionSafe(schema)
    ensures MapLoop(cfg, field, schema, entries, 0, map[], path).out.Ok?
        <==> forall idx :: 0 <= idx < |entries| ==> Read(cfg, field, schema.values, entries[idx].1, path, false).out.Ok?
    ensures var t := MapLoop(cfg, field, schema, entries, 0, map[], path);
            t.out.Ok? ==>
              t.out.value.VMap? && t.out.value.entries.Keys == KeysOf(entries) &&
              forall idx :: 0 <= idx < |entries| && CompositeResults.LastWithKey(entries, idx) ==>
                Read(cfg, field, schema.values, entries[idx].1, path, false).out == Ok(t.out.value.entries[entries[idx].0])
  {
    var parts := ValueReads(cfg, field, schema, entries, path);
    MapLoopIsPutAll(cfg, field, schema, entries, 0, map[], path);
    CompositeResults.PutAllAccepts(entries, parts, 0, map[], path);
    CompositeResults.PutAllLastWins(entries, parts, 0, map[], path);
    assert CompositeResults.KeysFrom(entries, 0) == KeysOf(entries);
  }

  // ---------------------------------------------------------------------------------------
  // Records

  /** An entry whose transformed name is listed as a carrier of additional properties. */
  predicate IsCarrier(cfg: Settings, entry: (string, Json))
  {
    !entry.1.JNull? && cfg.nameTransformer(entry.0) in cfg.jsonExtraPropsFieldNames
  }

  /** An entry that sets a declared field: not null, not a carrier, and its transformed name
      is a field of the record. */
  predicate IsDeclared(cfg: Settings, schema: Schema, entry: (string, Json))
  {
    !entry.1.JNull? && !IsCarrier(cfg, entry) && GetField(schema, cfg.nameTransformer(entry.0)).Some?
  }

  /** An entry the record schema knows nothing about. */
  predicate IsUnknown(cfg: Settings, schema: Schema, entry: (string, Json))
  {
    !entry.1.JNull? && !IsCarrier(cfg, entry) && GetField(schema, cfg.nameTransformer(entry.0)).None?
  }

  /** The declared field an entry sets, read strictly at the record's path. */
  function FieldRead(cfg: Settings, schema: Schema, entry: (string, Json), path: seq<string>): Traced
    requires IsDeclared(cfg, schema, entry)
  {
    var sub := GetField(schema, cfg.nameTransformer(entry.0)).value;
    Read(cfg, sub, sub.schema, entry.1, path, false)
  }

  /** Whether `readRecord` gets past one entry: a carrier must hold an object, a declared
      field must read strictly, and an unknown key that is neither collected nor dropped must
      not make the listener, called with the key as written and its dotted path, fail. */
  predicate EntryAccepted(cfg: Settings, schema: Schema, entry: (string, Json), path: seq<string>)
  {
    if IsCarrier(cfg, entry) then entry.1.JObj?
    else if IsDeclared(cfg, schema, entry) then FieldRead(cfg, schema, entry, path).out.Ok?
    else if IsUnknown(cfg, schema, entry) && !AllowsExtraProps(cfg, schema) && cfg.listener.Some? then
      cfg.listener.value(entry.0, entry.1, PrintWith(path, entry.0)).None?
    else true
  }

  /** What one entry adds to the additional properties: every inner entry of a carrier
      object, serialized, or an unknown key under its transformed name when the record has
      the collecting field. */
  function EntryProps(cfg: Settings, schema: Schema, entry: (string, Json)): Props
  {
    if IsCarrier(cfg, entry) && entry.1.JObj? then GetObjectValues(entry.1.entries)
    else if IsUnknown(cfg, schema, entry) && AllowsExtraProps(cfg, schema) then [(cfg.nameTransformer(entry.0), GetValue(entry.1))]
    else []
  }

  /** The additional properties of the entries from position `i` on, in order. */
  function PropsFrom(cfg: Settings, schema: Schema, entries: seq<(string, Json)>, i: nat): Props
    requires i <= |entries|
    decreases |entries| - i
  {
    if i == |entries| then [] else EntryProps(cfg, schema, entries[i]) + PropsFrom(cfg, schema, entries, i + 1)
  }

  /** The transformed names of the declared entries. */
  function DeclaredNames(cfg: Settings, schema: Schema, entries: seq<(string, Json)>): set<string>
  {
    set idx | 0 <= idx < |entries| && IsDeclared(cfg, schema, entries[idx]) :: cfg.nameTransformer(entries[idx].0)
  }

  /** No later non-null entry has the same transformed name: the entry whose value the record
      keeps. */
  predicate LastDeclared(cfg: Settings, entries: seq<(string, Json)>, idx: nat)
    requires idx < |entries|
  {
    forall l :: idx < l < |entries| && !entries[l].1.JNull? ==> cfg.nameTransformer(entries[l].0) != cfg.nameTransformer(entries[idx].0)
  }

  /** What `readRecord` does with one entry once the path is known not to move: set a field,
      collect properties, skip, or stop with an exception. */
  datatype EntryStep = SetField(name: string, value: Value) | Collect(more: Props) | Skip | Stop(error: Error, at: seq<string>)

  function StepOf(cfg: Settings, schema: Schema, entry: (string, Json), path: seq<string>): EntryStep
  {
    if IsCarrier(cfg, entry) then
      if entry.1.JObj? then Collect(GetObjectValues(entry.1.entries)) else Stop(ClassCast, path)
    else if IsDeclared(cfg, schema, entry) then
      var t := FieldRead(cfg, schema, entry, path);
      if t.out.Err? then Stop(t.out.error, t.path) else SetField(cfg.nameTransformer(entry.0), t.out.value)
    else if IsUnknown(cfg, schema, entry) && AllowsExtraProps(cfg, schema) then
      Collect([(cfg.nameTransformer(entry.0), GetValue(entry.1))])
    else if IsUnknown(cfg, schema, entry) && cfg.listener.Some? then
      var failure := cfg.listener.value(entry.0, entry.1, PrintWith(path, entry.0));
      if failure.Some? then Stop(failure.value, path) else Skip
    else Skip
  }

  /** The steps for the entries of an object, each at the record's path. */
  function RecordSteps(cfg: Settings, schema: Schema, entries: seq<(string, Json)>, path: seq<string>): (steps: seq<EntryStep>)
    ensures |steps| == |entries|
    ensures forall idx :: 0 <= idx < |entries| ==> steps[idx] == StepOf(cfg, schema, entries[idx], path)
  {
    seq(|entries|, idx requires 0 <= idx < |entries| => StepOf(cfg, schema, entries[idx], path))
  }

  /** `GenericRecordBuilder.set`'s null check never fires in the generic reader: a null entry
      is skipped before any read and the read of any other value is never null, so every
      field a step sets is a declared field that accepts its value, whatever its schema and
      default. */
  lemma SetValuesNeverNull(cfg: Settings, schema: Schema, entries: seq<(string, Json)>, path: seq<string>)
    ensures var steps := RecordSteps(cfg, schema, entries, path);
            forall idx :: 0 <= idx < |entries| && steps[idx].SetField? ==>
              GetField(schema, steps[idx].name).Some? && steps[idx].value != VNull &&
              SetAccepts(GetField(schema, steps[idx].name).value, steps[idx].value)
  {
  }

  /** Applying the steps in order to the fields set and the properties collected so far:
      where the loop would go on after the last entry, or the exception it stops with. */
  function SetAll(steps: seq<EntryStep>, i: nat, built: map<string, Value>, props: Props, path: seq<string>): Next
    requires i <= |steps|
    decreases |steps| - i
  {
    if i == |steps| then Continue(built, props, path)
    else
      match steps[i]
      case SetField(name, value) => SetAll(steps, i + 1, built[name := value], props, path)
      case Collect(more) => SetAll(steps, i + 1, built, props + more, path)
      case Skip => SetAll(steps, i + 1, built, props, path)
      case Stop(error, at) => Done(Traced(Err(error), at))
  }

  /** The record finished after the loop, or the exception it stopped with. */
  function Finished(cfg: Settings, schema: Schema, next: Next): Traced
    requires schema.Record?
  {
    if next.Done? then next.result else Finish(cfg, schema, next.built, next.props, next.path)
  }

  /** On a union-safe record one entry is handled at the record's path. */
  lemma NextIsStep(cfg: Settings, schema: Schema, entry: (string, Json), built: map<string, Value>, props: Props, path: seq<string>)
    requires schema.Record? && UnionSafe(schema)
    ensures EntryNext(cfg, schema, entry, built, props, path)
         == match StepOf(cfg, schema, entry, path)
            case SetField(name, value) => Continue(built[name := value], props, path)
            case Collect(more) => Continue(built, props + more, path)
            case Skip => Continue(built, props, path)
            case Stop(error, at) => Done(Traced(Err(error), at))
  {
    if IsDeclared(cfg, schema, entry) {
      var sub := GetField(schema, cfg.nameTransformer(entry.0)).value;
      var j :| 0 <= j < |schema.fields| && schema.fields[j] == sub;
      ReadRestores(cfg, sub, sub.schema, entry.1, path, false);
    }
  }

  /** On a union-safe record `readRecord` applies the independent steps of its entries. */
  lemma {:induction false} RecordLoopIsSetAll(cfg: Settings, schema: Schema, entries: seq<(string, Json)>, i: nat, built: map<string, Value>, props: Props, path: seq<string>)
    requires schema.Record? && i <= |entries| && UnionSafe(schema)
    ensures RecordLoop(cfg, schema, entries, i, built, props, path) == Finished(cfg, schema, SetAll(RecordSteps(cfg, schema, entries, path), i, built, props, path))
    decreases |entries| - i
  {
    if i < |entries| {
      var steps := RecordSteps(cfg, schema, entries, path);
      RecordLoopUnfold(cfg, schema, entries, i, built, props, path);
      NextIsStep(cfg, schema, entries[i], built, props, path);
      match steps[i]
      case SetField(name, value) => RecordLoopIsSetAll(cfg, schema, entries, i + 1, built[name := value], props, path);
      case Collect(more) => RecordLoopIsSetAll(cfg, schema, entries, i + 1, built, props + more, path);
      case Skip => RecordLoopIsSetAll(cfg, schema, entries, i + 1, built, props, path);
      case Stop(_, _) =>
    }
  }

  /** The fields the steps from position `i` on set over `built`, later sets winning. */
  function BuiltFrom(steps: seq<EntryStep>, i: nat, built: map<string, Value>): map<string, Value>
    requires i <= |steps|
    decreases |steps| - i
  {
    if i == |steps| then built
    else BuiltFrom(steps, i + 1, if steps[i].SetField? then built[steps[i].name := steps[i].value] else built)
  }

  /** The properties the steps from position `i` on collect, in order. */
  function CollectedFrom(steps: seq<EntryStep>, i: nat): Props
    requires i <= |steps|
    decreases |steps| - i
  {
    if i == |steps| then [] else (if steps[i].Collect? then steps[i].more else []) + CollectedFrom(steps, i + 1)
  }

  /** The names set by the steps from position `i` on. */
  function NamesSet(steps: seq<EntryStep>, i: nat): set<string>
  {
    set idx | i <= idx < |steps| && steps[idx].SetField? :: steps[idx].name
  }

  /** No later step sets the same name. */
  predicate LastSet(steps: seq<EntryStep>, idx: nat)
    requires idx < |steps| && steps[idx].SetField?
  {
    forall l :: idx < l < |steps| && steps[l].SetField? ==> steps[l].name != steps[idx].name
  }

  /** Without a stop the steps go on past the last entry with everything they set and
      collected. */
  lemma {:induction false} SetAllIsFinish(steps: seq<EntryStep>, i: nat, built: map<string, Value>, props: Props, path: seq<string>)
    requires i <= |steps|
    requires forall idx :: i <= idx < |steps| ==> !steps[idx].Stop?
    ensures SetAll(steps, i, built, props, path) == Continue(BuiltFrom(steps, i, built), props + CollectedFrom(steps, i), path)
    decreases |steps| - i
  {
    if i == |steps| {
      assert props + [] == props;
    } else {
      var rest := CollectedFrom(steps, i + 1);
      match steps[i]
      case SetField(name, value) =>
        SetAllIsFinish(steps, i + 1, built[name := value], props, path);
        assert [] + rest == rest;
      case Collect(more) =>
        SetAllIsFinish(steps, i + 1, built, props + more, path);
        assert props + more + rest == props + (more + rest);
      case Skip =>
        SetAllIsFinish(steps, i + 1, built, props, path);
        assert [] + rest == rest;
    }
  }

  /** A stop anywhere ahead is an exception. */
  lemma {:induction false} SetAllStops(steps: seq<EntryStep>, i: nat, built: map<string, Value>, props: Props, path: seq<string>, n: nat)
    requires i <= n < |steps| && steps[n].Stop?
    ensures var next := SetAll(steps, i, built, props, path); next.Done? && next.result.out.Err?
    decreases |steps| - i
  {
    match steps[i]
    case SetField(name, value) => SetAllStops(steps, i + 1, built[name := value], props, path, n);
    case Collect(more) => SetAllStops(steps, i + 1, built, props + more, path, n);
    case Skip => SetAllStops(steps, i + 1, built, props, path, n);
    case Stop(_, _) =>
  }

  lemma {:induction false} BuiltFromFields(steps: seq<EntryStep>, i: nat, built: map<string, Value>)
    requires i <= |steps|
    ensures var b := BuiltFrom(steps, i, built);
            b.Keys == built.Keys + NamesSet(steps, i) &&
            (forall k :: k in built && k !in NamesSet(steps, i) ==> b[k] == built[k]) &&
            forall idx :: i <= idx < |steps| && steps[idx].SetField? && LastSet(steps, idx) ==> b[steps[idx].name] == steps[idx].value
    decreases |steps| - i
  {
    if i < |steps| {
      var names := NamesSet(steps, i + 1);
      if steps[i].SetField? {
        assert NamesSet(steps, i) == {steps[i].name} + names;
        BuiltFromFields(steps, i + 1, built[steps[i].name := steps[i].value]);
        if LastSet(steps, i) {
          assert steps[i].name !in names;
        }
      } else {
        assert NamesSet(steps, i) == names;
        BuiltFromFields(steps, i + 1, built);
      }
    }
  }

  /** What one step means for its entry. */
  lemma StepMeaning(cfg: Settings, schema: Schema, entry: (string, Json), path: seq<string>)
    ensures StepOf(cfg, schema, entry, path).Stop? <==> !EntryAccepted(cfg, schema, entry, path)
    ensures var step := StepOf(cfg, schema, entry, path);
            step.SetField? <==> IsDeclared(cfg, schema, entry) && EntryAccepted(cfg, schema, entry, path)
    ensures var step := StepOf(cfg, schema, entry, path);
            step.SetField? ==> step.name == cfg.nameTransformer(entry.0) && FieldRead(cfg, schema, entry, path).out == Ok(step.value)
    ensures (if StepOf(cfg, schema, entry, path).Collect? then StepOf(cfg, schema, entry, path).more else []) == EntryProps(cfg, schema, entry)
  {
  }

  lemma {:induction false} CollectedFromEntries(cfg: Settings, schema: Schema, entries: seq<(string, Json)>, i: nat, path: seq<string>)
    requires i <= |entries|
    ensures CollectedFrom(RecordSteps(cfg, schema, entries, path), i) == PropsFrom(cfg, schema, entries, i)
    decreases |entries| - i
  {
    if i < |entries| {
      StepMeaning(cfg, schema, entries[i], path);
      CollectedFromEntries(cfg, schema, entries, i + 1, path);
    }
  }

  /** The fields of the finished record: those set, and the collecting field when the schema
      has it and something was collected. */
  function Assembled(cfg: Settings, schema: Schema, built: map<string, Value>, props: Props): map<string, Value>
  {
    if AllowsExtraProps(cfg, schema) && |props| > 0 then built[cfg.avroExtraPropsFieldName := VMap(StringValues(AsMap(props)))]
    else built
  }

  /** Every field of the record is set by a declared entry, is the collecting field with
      something collected, or has a default. */
  predicate Provided(cfg: Settings, schema: Schema, entries: seq<(string, Json)>)
    requires schema.Record?
  {
    var extra := AllowsExtraProps(cfg, schema) && |PropsFrom(cfg, schema, entries, 0)| > 0;
    forall j :: 0 <= j < |schema.fields| ==>
      schema.fields[j].name in DeclaredNames(cfg, schema, entries) ||
      (extra && schema.fields[j].name == cfg.avroExtraPropsFieldName) || schema.fields[j].hasDefault
  }

  /** `readRecord` on a union-safe schema succeeds exactly when every entry is accepted and
      every field is provided, and then it is done after the last entry with the fields set
      and the properties collected, on the path it began. */
  lemma RecordAccepts(cfg: Settings, schema: Schema, entries: seq<(string, Json)>, path: seq<string>)
    requires schema.Record? && UnionSafe(schema)
    ensures var t := ReadRecord(cfg, schema, entries, path);
            t.out.Ok? <==> (forall idx :: 0 <= idx < |entries| ==> EntryAccepted(cfg, schema, entries[idx], path)) &&
                           Provided(cfg, schema, entries)
    ensures (forall idx :: 0 <= idx < |entries| ==> EntryAccepted(cfg, schema, entries[idx], path)) && Provided(cfg, schema, entries) ==>
              ReadRecord(cfg, schema, entries, path)
                == Traced(Ok(VRecord(Assembled(cfg, schema, BuiltFrom(RecordSteps(cfg, schema, entries, path), 0, map[]), PropsFrom(cfg, schema, entries, 0)))), path)
  {
    var steps := RecordSteps(cfg, schema, entries, path);
    RecordLoopIsSetAll(cfg, schema, entries, 0, map[], [], path);
    forall idx | 0 <= idx < |entries|
      ensures steps[idx].Stop? <==> !EntryAccepted(cfg, schema, entries[idx], path)
    {
      StepMeaning(cfg, schema, entries[idx], path);
    }
    if forall idx :: 0 <= idx < |entries| ==> EntryAccepted(cfg, schema, entries[idx], path) {
      SetAllIsFinish(steps, 0, map[], [], path);
      CollectedFromEntries(cfg, schema, entries, 0, path);
      assert [] + CollectedFrom(steps, 0) == PropsFrom(cfg, schema, entries, 0);
      FinishResult(cfg, schema, BuiltFrom(steps, 0, map[]), PropsFrom(cfg, schema, entries, 0), path);
      DeclaredFields(cfg, schema, entries, path);
    } else {
      var n :| 0 <= n < |entries| && !EntryAccepted(cfg, schema, entries[n], path);
      SetAllStops(steps, 0, map[], [], path, n);
    }
  }

  /** When every entry is accepted, the steps set exactly the declared entries' transformed
      names, each to the strict read of the last non-null entry of that name. */
  lemma DeclaredFields(cfg: Settings, schema: Schema, entries: seq<(string, Json)>, path: seq<string>)
    requires forall idx :: 0 <= idx < |entries| ==> EntryAccepted(cfg, schema, entries[idx], path)
    ensures var b := BuiltFrom(RecordSteps(cfg, schema, entries, path), 0, map[]);
            b.Keys == DeclaredNames(cfg, schema, entries) &&
            forall idx :: 0 <= idx < |entries| && IsDeclared(cfg, schema, entries[idx]) && LastDeclared(cfg, entries, idx) ==>
              FieldRead(cfg, schema, entries[idx], path).out == Ok(b[cfg.nameTransformer(entries[idx].0)])
  {
    var steps := RecordSteps(cfg, schema, entries, path);
    BuiltFromFields(steps, 0, map[]);
    forall idx | 0 <= idx < |entries|
      ensures steps[idx].SetField? <==> IsDeclared(cfg, schema, entries[idx])
      ensures steps[idx].SetField? ==>
                steps[idx].name == cfg.nameTransformer(entries[idx].0) && FieldRead(cfg, schema, entries[idx], path).out == Ok(steps[idx].value)
    {
      StepMeaning(cfg, schema, entries[idx], path);
    }
    assert NamesSet(steps, 0) == DeclaredNames(cfg, schema, entries);
    forall idx | 0 <= idx < |entries| && LastDeclared(cfg, entries, idx) && steps[idx].SetField?
      ensures LastSet(steps, idx)
    {
    }
  }

  /** The record `readRecord` builds from an object, on a union-safe schema: its fields are
      the declared entries' transformed names, plus the collecting field exactly when the
      schema has it and something was collected; the collecting field maps every collected
      key to the string last collected for it, and every other field holds the strict read of
      the last non-null entry of that name. Null entries, carriers and unknown keys set no
      declared field. */
  lemma RecordResult(cfg: Settings, schema: Schema, entries: seq<(string, Json)>, path: seq<string>)
    requires schema.Record? && UnionSafe(schema)
    ensures var t := ReadRecord(cfg, schema, entries, path);
            var props := PropsFrom(cfg, schema, entries, 0);
            var extra := AllowsExtraProps(cfg, schema) && |props| > 0;
            t.out.Ok? ==>
              t.path == path && t.out.value.VRecord? &&
              t.out.value.fields.Keys == DeclaredNames(cfg, schema, entries) + (if extra then {cfg.avroExtraPropsFieldName} else {}) &&
              (extra ==> t.out.value.fields[cfg.avroExtraPropsFieldName] == VMap(StringValues(AsMap(props)))) &&
              forall idx :: 0 <= idx < |entries| && IsDeclared(cfg, schema, entries[idx]) && LastDeclared(cfg, entries, idx) &&
                            !(extra && cfg.nameTransformer(entries[idx].0) == cfg.avroExtraPropsFieldName) ==>
                FieldRead(cfg, schema, entries[idx], path).out == Ok(t.out.value.fields[cfg.nameTransformer(entries[idx].0)])
  {
    RecordAccepts(cfg, schema, entries, path);
    if ReadRecord(cfg, schema, entries, path).out.Ok? {
      DeclaredFields(cfg, schema, entries, path);
    }
  }

  /** With the builder's default null listener and no collecting field, unknown keys are
      dropped: the read succeeds exactly when every carrier holds an object, every declared
      entry reads and every field is present or defaulted, and the record has the declared
      names only. */
  lemma NullListenerDropsUnknownKeys(cfg: Settings, schema: Schema, entries: seq<(string, Json)>, path: seq<string>)
    requires cfg.listener.None? && schema.Record? && UnionSafe(schema) && !AllowsExtraProps(cfg, schema)
    ensures var t := ReadRecord(cfg, schema, entries, path);
            (t.out.Ok? <==>
               (forall idx :: 0 <= idx < |entries| ==>
                  (IsCarrier(cfg, entries[idx]) ==> entries[idx].1.JObj?) &&
                  (IsDeclared(cfg, schema, entries[idx]) ==> FieldRead(cfg, schema, entries[idx], path).out.Ok?)) &&
               (forall j :: 0 <= j < |schema.fields| ==>
                  schema.fields[j].name in DeclaredNames(cfg, schema, entries) || schema.fields[j].hasDefault)) &&
            (t.out.Ok? ==> t.out.value.VRecord? && t.out.value.fields.Keys == DeclaredNames(cfg, schema, entries))
  {
    RecordAccepts(cfg, schema, entries, path);
    RecordResult(cfg, schema, entries, path);
  }

  /** An unknown key on a record without the collecting field reaches the listener with the
      key as written and its dotted path; the listener's exception is the record's. */
  lemma UnknownKeyToListener(cfg: Settings, schema: Schema, entry: (string, Json), path: seq<string>)
    requires IsUnknown(cfg, schema, entry) && !AllowsExtraProps(cfg, schema) && cfg.listener.Some?
    ensures var failure := cfg.listener.value(entry.0, entry.1, PrintWith(path, entry.0));
            StepOf(cfg, schema, entry, path) == if failure.Some? then Stop(failure.value, path) else Skip
  {
  }

  // ---------------------------------------------------------------------------------------
  // Unions

  /** The read of branch `k`, silently, at the union's path. */
  function BranchRead(cfg: Settings, field: Field, schema: Schema, value: Json, path: seq<string>, k: nat): Traced
    requires schema.Union? && k < |schema.branches|
  {
    Read(cfg, field, schema.branches[k], value, path, true)
  }

  /** The reads of all branches, each at the union's path. */
  function BranchReads(cfg: Settings, field: Field, schema: Schema, value: Json, path: seq<string>): (parts: seq<Traced>)
    requires schema.Union?
    ensures |parts| == |schema.branches|
    ensures forall k :: 0 <= k < |schema.branches| ==> parts[k] == BranchRead(cfg, field, schema, value, path, k)
  {
    seq(|schema.branches|, k requires 0 <= k < |schema.branches| => BranchRead(cfg, field, schema, value, path, k))
  }

  /** A branch outcome `readUnion` moves past: an Avro exception or `INCOMPATIBLE`. */
  predicate Skipped(t: Traced)
  {
    (t.out.Err? && IsAvroRuntime(t.out.error)) || t.out == Ok(VSentinel)
  }

  /** Trying the branch outcomes in order from `k` on, as `readUnion` does; on exhaustion the
      exception lists the types of all branches. */
  function TryAll(name: string, types: seq<string>, parts: seq<Traced>, k: nat, path: seq<string>): Traced
    requires k <= |parts|
    decreases |parts| - k
  {
    if k == |parts| then Traced(Err(UnionExhausted(name, Join(types, ", "), Print(path))), path)
    else if Skipped(parts[k]) then TryAll(name, types, parts, k + 1, path)
    else parts[k]
  }

  /** Under a field whose transformed name is already on the path and without records, every
      branch is read at the union's path, so `readUnion` tries the independent reads of its
      branches. */
  lemma {:induction false} UnionLoopIsTryAll(cfg: Settings, field: Field, schema: Schema, value: Json, k: nat, path: seq<string>)
    requires schema.Union? && k <= |schema.branches| && RecordFree(schema)
    requires |path| > 0 && path[|path| - 1] == cfg.nameTransformer(field.name)
    ensures UnionLoop(cfg, field, schema, value, k, path)
         == TryAll(field.name, TypeNames(schema.branches), BranchReads(cfg, field, schema, value, path), k, path)
    decreases |schema.branches| - k
  {
    if k < |schema.branches| {
      ReadStable(cfg, field, schema.branches[k], value, path, true);
      UnionLoopIsTryAll(cfg, field, schema, value, k + 1, path);
    }
  }

  lemma {:induction false} TryAllFrom(name: string, types: seq<string>, parts: seq<Traced>, path: seq<string>, m: nat, k: nat)
    requires m <= k <= |parts|
    requires forall j :: 0 <= j < k ==> Skipped(parts[j])
    requires k < |parts| ==> !Skipped(parts[k])
    ensures TryAll(name, types, parts, m, path)
         == if k == |parts| then Traced(Err(UnionExhausted(name, Join(types, ", "), Print(path))), path) else parts[k]
    decreases k - m
  {
    if m < k {
      TryAllFrom(name, types, parts, path, m + 1, k);
    }
  }

  /** `readUnion`'s result is that of the first branch, in declared order, whose silent read
      is neither an Avro exception nor `INCOMPATIBLE`; when every branch is, it fails naming
      the field, the types of all branches and the path. The union's own `silently` flag
      plays no part. */
  lemma UnionFirstDecisive(cfg: Settings, field: Field, schema: Schema, value: Json, path: seq<string>, k: nat, silently: bool)
    requires schema.Union? && RecordFree(schema)
    requires |path| > 0 && path[|path| - 1] == cfg.nameTransformer(field.name)
    requires k <= |schema.branches|
    requires forall j :: 0 <= j < k ==> Skipped(BranchRead(cfg, field, schema, value, path, j))
    requires k < |schema.branches| ==> !Skipped(BranchRead(cfg, field, schema, value, path, k))
    ensures Switch(cfg, field, schema, value, path, silently)
         == if k == |schema.branches|
            then Traced(Err(UnionExhausted(field.name, Join(TypeNames(schema.branches), ", "), Print(path))), path)
            else BranchRead(cfg, field, schema, value, path, k)
  {
    SwitchCases(cfg, field, schema, value, path, silently);
    var parts := BranchReads(cfg, field, schema, value, path);
    UnionLoopIsTryAll(cfg, field, schema, value, 0, path);
    TryAllFrom(field.name, TypeNames(schema.branches), parts, path, 0, k);
  }

  /** `INCOMPATIBLE` never leaves a union: it moves on to the next branch or to the
      exhausted-union exception. */
  lemma {:induction false} UnionNeverIncompatible(cfg: Settings, field: Field, schema: Schema, value: Json, k: nat, path: seq<string>)
    requires schema.Union? && k <= |schema.branches|
    ensures var t := UnionLoop(cfg, field, schema, value, k, path); t.out.Ok? ==> t.out.value != VSentinel
    decreases |schema.branches| - k
  {
    if k < |schema.branches| {
      var t := Read(cfg, field, schema.branches[k], value, path, true);
      if Skipped(t) {
        UnionNeverIncompatible(cfg, field, schema, value, k + 1, t.path);
      }
    }
  }

  // ---------------------------------------------------------------------------------------
  // The top level

  /** `read(json, schema)` starts on the empty path: a schema that is not a record fails the
      builder, a successful read is a record, and on a union-safe schema it ends on the empty
      path it started from. */
  lemma ReadRootResult(cfg: Settings, entries: seq<(string, Json)>, schema: Schema)
    ensures !schema.Record? ==> ReadRoot(cfg, entries, schema) == Traced(Err(NotARecord(TypeName(TypeOf(schema)))), [])
    ensures UnionSafe(schema) && ReadRoot(cfg, entries, schema).out.Ok? ==>
              ReadRoot(cfg, entries, schema).out.value.VRecord? && ReadRoot(cfg, entries, schema).path == []
  {
    if schema.Record? && UnionSafe(schema) {
      RecordResult(cfg, schema, entries, []);
    }
  }
}
