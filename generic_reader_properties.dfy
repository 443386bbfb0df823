/** What the generic reader guarantees for a single value: how `onValidType` gates it, what
    each schema type makes of it, and what becomes of the path. */
module GenericReaderProperties {
  import opened Wrappers
  import opened JsonValues
  import opened Values
  import opened AvroSchema
  import opened Paths
  import opened Text
  import opened AvroTypeConverters
  import opened AdditionalProperties
  import opened DateTimeUtils
  import opened GenericReading
  import Utf8

  // ---------------------------------------------------------------------------------------
  // onValidType

  /** A value of another class is `INCOMPATIBLE` when silent and a type exception naming the
      path and the class otherwise; a value of the class does not depend on the flag, and a
      function result of null is `INCOMPATIBLE` even when not silent. */
  lemma OnValidTypeGate(cfg: Settings, f: Conversion, schema: Schema, value: Json, path: seq<string>)
    ensures !IsInstance(ClassOf(f), value) ==>
              OnValidType(cfg, f, schema, value, path, true) == Ok(VSentinel) &&
              OnValidType(cfg, f, schema, value, path, false) == Err(TypeMismatch(Print(path), JavaTypeName(ClassOf(f))))
    ensures IsInstance(ClassOf(f), value) ==>
              OnValidType(cfg, f, schema, value, path, true) == OnValidType(cfg, f, schema, value, path, false)
    ensures IsInstance(ClassOf(f), value) && Apply(cfg, f, schema, value, path) == Ok(None) ==>
              OnValidType(cfg, f, schema, value, path, false) == Ok(VSentinel)
    ensures IsInstance(ClassOf(f), value) && Apply(cfg, f, schema, value, path).Ok? && Apply(cfg, f, schema, value, path).value.Some? ==>
              OnValidType(cfg, f, schema, value, path, false) == Ok(Apply(cfg, f, schema, value, path).value.value)
  {
  }

  /** A JSON null passes no class test: every leaf type other than NULL rejects it. */
  lemma NullPassesNoGate(cfg: Settings, f: Conversion, schema: Schema, path: seq<string>, silently: bool)
    ensures OnValidType(cfg, f, schema, JNull, path, silently) == Reject(ClassOf(f), path, silently)
  {
  }

  // ---------------------------------------------------------------------------------------
  // The leaf cases through `read`

  /** The name a read of the field pushes: the transformed one. */
  function Pushed(cfg: Settings, field: Field, path: seq<string>): seq<string>
  {
    Enter(path, cfg.nameTransformer(field.name))
  }

  /** The switch for each type: the default for FIXED, the leaf conversions, and the
      container cases. */
  lemma SwitchCases(cfg: Settings, field: Field, schema: Schema, value: Json, path: seq<string>, silently: bool)
    ensures Switch(cfg, field, schema, value, path, silently)
         == match schema
            case Fixed(_, _) => Traced(Err(UnsupportedType(TypeName(TypeOf(field.schema)))), path)
            case Enum(_, _) => Traced(OnValidType(cfg, EnsureEnum, schema, value, path, silently), path)
            case Primitive(_, _, _) => Traced(ReadPrimitive(cfg, schema, value, path, silently), path)
            case _ => ReadContainer(cfg, field, schema, value, path, silently)
  {
  }

  /** A primitive schema is converted where it stands: the path is restored after a normal
      return and keeps the pushed name after an exception. */
  lemma PrimitiveRead(cfg: Settings, field: Field, schema: Schema, value: Json, path: seq<string>, silently: bool)
    requires schema.Primitive?
    ensures var o := ReadPrimitive(cfg, schema, value, Pushed(cfg, field, path), silently);
            Read(cfg, field, schema, value, path, silently)
              == if o.Err? then Traced(o, Pushed(cfg, field, path)) else Traced(o, path)
  {
    SwitchCases(cfg, field, schema, value, Pushed(cfg, field, path), silently);
  }

  /** A NULL schema reads a JSON null as null and anything else as `INCOMPATIBLE`, whether
      or not the read is silent, and leaves the path as it was. */
  lemma NullSchemaRead(cfg: Settings, field: Field, lt: Option<string>, scale: Option<int>, value: Json, path: seq<string>, silently: bool)
    ensures Read(cfg, field, Primitive(NullType, lt, scale), value, path, silently)
         == Traced(Ok(if value.JNull? then VNull else VSentinel), path)
  {
    SwitchCases(cfg, field, Primitive(NullType, lt, scale), value, Pushed(cfg, field, path), silently);
  }

  /** A leaf of the wrong class: `INCOMPATIBLE` with the path restored when silent, otherwise
      a type exception naming the path with the transformed field name and the class. */
  lemma LeafWrongClass(cfg: Settings, field: Field, schema: Schema, value: Json, path: seq<string>)
    requires schema.Primitive? && schema.kind != NullType
    requires !IsInstance(ClassOf(PrimitiveConversion(schema)), value)
    ensures Read(cfg, field, schema, value, path, true) == Traced(Ok(VSentinel), path)
    ensures Read(cfg, field, schema, value, path, false)
         == Traced(Err(TypeMismatch(Print(Pushed(cfg, field, path)), JavaTypeName(ClassOf(PrimitiveConversion(schema))))),
                   Pushed(cfg, field, path))
  {
    SwitchCases(cfg, field, schema, value, Pushed(cfg, field, path), true);
    SwitchCases(cfg, field, schema, value, Pushed(cfg, field, path), false);
  }

  /** INT without the date logical type narrows a number as `Number.intValue` does, LONG
      without a logical type as `longValue` does; a number in range comes out unchanged. */
  lemma IntNarrowing(cfg: Settings, field: Field, lt: Option<string>, scale: Option<int>, i: int, path: seq<string>, silently: bool)
    requires lt != Some(DATE)
    ensures var r := Read(cfg, field, Primitive(IntType, lt, scale), JInt(i), path, silently);
            r == Traced(Ok(VInt(ToInt(i))), path) && InInt(ToInt(i)) && (InInt(i) ==> r.out == Ok(VInt(i)))
  {
    SwitchCases(cfg, field, Primitive(IntType, lt, scale), JInt(i), Pushed(cfg, field, path), silently);
  }

  lemma LongNarrowing(cfg: Settings, field: Field, lt: Option<string>, scale: Option<int>, i: int, path: seq<string>, silently: bool)
    requires lt != Some(TIMESTAMP_MICROS) && lt != Some(TIME_MICROS)
    ensures var r := Read(cfg, field, Primitive(LongType, lt, scale), JInt(i), path, silently);
            r == Traced(Ok(VLong(ToLong(i))), path) && InLong(ToLong(i)) && (InLong(i) ==> r.out == Ok(VLong(i)))
  {
    SwitchCases(cfg, field, Primitive(LongType, lt, scale), JInt(i), Pushed(cfg, field, path), silently);
  }

  /** BYTES holds the UTF-8 encoding of the string, which decodes back to it. */
  lemma BytesAreUtf8(cfg: Settings, field: Field, lt: Option<string>, scale: Option<int>, s: string, path: seq<string>, silently: bool)
    ensures var r := Read(cfg, field, Primitive(BytesType, lt, scale), JStr(s), path, silently);
            r.path == path && r.out.Ok? && r.out.value.VBytes? && Utf8.Decode(r.out.value.bytes) == Some(s)
  {
    var schema := Primitive(BytesType, lt, scale);
    PrimitiveRead(cfg, field, schema, JStr(s), path, silently);
    assert ReadPrimitive(cfg, schema, JStr(s), Pushed(cfg, field, path), silently) == Ok(BytesFor(s));
  }

  /** An INT with the date logical type holds the epoch day of the parsed date; a string
      that does not parse to a date is `INCOMPATIBLE` even in a strict read. */
  lemma DateRead(cfg: Settings, field: Field, scale: Option<int>, s: string, path: seq<string>, silently: bool)
    ensures var d := GetEpochDay(cfg.patterns, s);
            Read(cfg, field, Primitive(IntType, Some(DATE), scale), JStr(s), path, silently)
              == Traced(Ok(if d.Some? then VInt(d.value) else VSentinel), path)
  {
    SwitchCases(cfg, field, Primitive(IntType, Some(DATE), scale), JStr(s), Pushed(cfg, field, path), silently);
  }

  /** A LONG with the timestamp-micros or time-micros logical type holds what `getEpochMicros`
      or `getMicroSeconds` computes; their null is `INCOMPATIBLE` even in a strict read, and
      their exception propagates with the field name left on the path. */
  lemma MicrosRead(cfg: Settings, field: Field, lt: string, scale: Option<int>, s: string, path: seq<string>, silently: bool)
    requires lt == TIMESTAMP_MICROS || lt == TIME_MICROS
    ensures var m := if lt == TIMESTAMP_MICROS then GetEpochMicros(cfg.patterns, s) else GetMicroSeconds(cfg.patterns, s);
            Read(cfg, field, Primitive(LongType, Some(lt), scale), JStr(s), path, silently)
              == if m.Err? then Traced(Err(m.error), Pushed(cfg, field, path))
                 else Traced(Ok(if m.value.Some? then VLong(m.value.value) else VSentinel), path)
  {
    var schema := Primitive(LongType, Some(lt), scale);
    var f := if lt == TIMESTAMP_MICROS then EpochMicros else MicroSeconds;
    assert PrimitiveConversion(schema) == f;
    assert IsInstance(ClassOf(f), JStr(s));
    PrimitiveRead(cfg, field, schema, JStr(s), path, silently);
  }

  /** An enum holds a listed symbol; any other string is an enum exception naming the path
      and all the symbols, also in a silent read, so a union does not move past it unless
      the exception is caught as an Avro exception. */
  lemma EnumRead(cfg: Settings, field: Field, name: string, symbols: seq<string>, s: string, path: seq<string>, silently: bool)
    ensures var at := Pushed(cfg, field, path);
            Read(cfg, field, Enum(name, symbols), JStr(s), path, silently)
              == if s in symbols then Traced(Ok(VEnum(s)), path)
                 else Traced(Err(EnumMismatch(Print(at), Join(symbols, ", "))), at)
  {
    SwitchCases(cfg, field, Enum(name, symbols), JStr(s), Pushed(cfg, field, path), silently);
  }

  /** FIXED is no case of the switch: "Unsupported type", naming the type of the field's own
      schema, in silent mode too. */
  lemma FixedUnsupported(cfg: Settings, field: Field, name: string, size: nat, value: Json, path: seq<string>, silently: bool)
    ensures Read(cfg, field, Fixed(name, size), value, path, silently)
         == Traced(Err(UnsupportedType(TypeName(TypeOf(field.schema)))), Pushed(cfg, field, path))
  {
    SwitchCases(cfg, field, Fixed(name, size), value, Pushed(cfg, field, path), silently);
  }

  /** Records and maps need a JSON object and arrays a JSON array: anything else is
      `INCOMPATIBLE` when silent and a type exception naming `java.util.Map` or
      `java.util.List` otherwise. */
  lemma ContainerWrongClass(cfg: Settings, field: Field, schema: Schema, value: Json, path: seq<string>)
    requires ((schema.Record? || schema.Map?) && !value.JObj?) || (schema.Array? && !value.JArr?)
    ensures Read(cfg, field, schema, value, path, true) == Traced(Ok(VSentinel), path)
    ensures Read(cfg, field, schema, value, path, false)
         == Traced(Err(TypeMismatch(Print(Pushed(cfg, field, path)), if schema.Array? then "java.util.List" else "java.util.Map")),
                   Pushed(cfg, field, path))
  {
    SwitchCases(cfg, field, schema, value, Pushed(cfg, field, path), true);
    SwitchCases(cfg, field, schema, value, Pushed(cfg, field, path), false);
  }

  // ---------------------------------------------------------------------------------------
  // The path

  /** A read under a field whose transformed name is already the last segment, of a schema
      without records, pushes nothing, so it leaves the path as it found it whatever the
      outcome. */
  lemma {:induction false} ReadStable(cfg: Settings, field: Field, schema: Schema, value: Json, path: seq<string>, silently: bool)
    requires RecordFree(schema) && |path| > 0 && path[|path| - 1] == cfg.nameTransformer(field.name)
    ensures Read(cfg, field, schema, value, path, silently).path == path
    decreases RecDepth(schema), schema, 3, 0
  {
    assert Enter(path, cfg.nameTransformer(field.name)) == path;
    SwitchStable(cfg, field, schema, value, path, silently);
  }

  lemma {:induction false} SwitchStable(cfg: Settings, field: Field, schema: Schema, value: Json, path: seq<string>, silently: bool)
    requires RecordFree(schema) && |path| > 0 && path[|path| - 1] == cfg.nameTransformer(field.name)
    ensures Switch(cfg, field, schema, value, path, silently).path == path
    decreases RecDepth(schema), schema, 2, 2
  {
    SwitchCases(cfg, field, schema, value, path, silently);
    match schema
    case Array(_) =>
      if value.JArr? {
        ArrayLoopStable(cfg, field, schema, value.items, 0, [], path);
      }
    case Map(_) =>
      if value.JObj? {
        MapLoopStable(cfg, field, schema, value.entries, 0, map[], path);
      }
    case Union(_) =>
      UnionLoopStable(cfg, field, schema, value, 0, path);
    case _ =>
  }

  lemma {:induction false} ArrayLoopStable(cfg: Settings, field: Field, schema: Schema, items: seq<Json>, j: nat, acc: seq<Value>, path: seq<string>)
    requires schema.Array? && j <= |items| && RecordFree(schema) && |path| > 0 && path[|path| - 1] == cfg.nameTransformer(field.name)
    ensures ArrayLoop(cfg, field, schema, items, j, acc, path).path == path
    decreases RecDepth(schema), schema, 0, |items| - j
  {
    if j < |items| {
      ReadStable(cfg, field, schema.items, items[j], path, false);
      var t := Read(cfg, field, schema.items, items[j], path, false);
      if t.out.Ok? {
        ArrayLoopStable(cfg, field, schema, items, j + 1, acc + [t.out.value], path);
      }
    }
  }

  lemma {:induction false} MapLoopStable(cfg: Settings, field: Field, schema: Schema, entries: seq<(string, Json)>, j: nat, acc: map<string, Value>, path: seq<string>)
    requires schema.Map? && j <= |entries| && RecordFree(schema) && |path| > 0 && path[|path| - 1] == cfg.nameTransformer(field.name)
    ensures MapLoop(cfg, field, schema, entries, j, acc, path).path == path
    decreases RecDepth(schema), schema, 0, |entries| - j
  {
    if j < |entries| {
      ReadStable(cfg, field, schema.values, entries[j].1, path, false);
      var t := Read(cfg, field, schema.values, entries[j].1, path, false);
      if t.out.Ok? {
        MapLoopStable(cfg, field, schema, entries, j + 1, acc[entries[j].0 := t.out.value], path);
      }
    }
  }

  lemma {:induction false} UnionLoopStable(cfg: Settings, field: Field, schema: Schema, value: Json, k: nat, path: seq<string>)
    requires schema.Union? && k <= |schema.branches| && RecordFree(schema) && |path| > 0 && path[|path| - 1] == cfg.nameTransformer(field.name)
    ensures UnionLoop(cfg, field, schema, value, k, path).path == path
    decreases RecDepth(schema), schema, 0, |schema.branches| - k
  {
    if k < |schema.branches| {
      RecDepthOfChildren(schema);
      ReadStable(cfg, field, schema.branches[k], value, path, true);
      UnionLoopStable(cfg, field, schema, value, k + 1, path);
    }
  }

  /** A successful read of a schema in which no union has a record branch leaves the path as
      it found it: every segment pushed on the way down was popped on the way back. */
  lemma {:induction false} ReadRestores(cfg: Settings, field: Field, schema: Schema, value: Json, path: seq<string>, silently: bool)
    requires UnionSafe(schema)
    ensures var t := Read(cfg, field, schema, value, path, silently); t.out.Ok? ==> t.path == path
    decreases RecDepth(schema), schema, 3, 0
  {
    SwitchRestores(cfg, field, schema, value, Pushed(cfg, field, path), silently);
  }

  lemma {:induction false} SwitchRestores(cfg: Settings, field: Field, schema: Schema, value: Json, path: seq<string>, silently: bool)
    requires UnionSafe(schema) && |path| > 0 && path[|path| - 1] == cfg.nameTransformer(field.name)
    ensures var t := Switch(cfg, field, schema, value, path, silently); t.out.Ok? ==> t.path == path
    decreases RecDepth(schema), schema, 2, 2
  {
    SwitchCases(cfg, field, schema, value, path, silently);
    match schema
    case Record(_, _) =>
      if value.JObj? {
        RecordLoopRestores(cfg, schema, value.entries, 0, map[], [], path);
      }
    case Array(_) =>
      if value.JArr? {
        ArrayLoopRestores(cfg, field, schema, value.items, 0, [], path);
      }
    case Map(_) =>
      if value.JObj? {
        MapLoopRestores(cfg, field, schema, value.entries, 0, map[], path);
      }
    case Union(_) =>
      UnionLoopStable(cfg, field, schema, value, 0, path);
    case _ =>
  }

  lemma {:induction false} RecordLoopRestores(cfg: Settings, schema: Schema, entries: seq<(string, Json)>, i: nat, built: map<string, Value>, props: Props, path: seq<string>)
    requires schema.Record? && i <= |entries| && UnionSafe(schema)
    ensures var t := RecordLoop(cfg, schema, entries, i, built, props, path); t.out.Ok? ==> t.path == path
    decreases RecDepth(schema), schema, 1, |entries| - i
  {
    if i == |entries| {
      FinishRestores(cfg, schema, built, props, path);
    } else {
      var key := entries[i].0;
      var v := entries[i].1;
      var name := cfg.nameTransformer(key);
      var sub := GetField(schema, name);
      if v.JNull? {
        RecordLoopRestores(cfg, schema, entries, i + 1, built, props, path);
      } else if name in cfg.jsonExtraPropsFieldNames {
        if v.JObj? {
          RecordLoopRestores(cfg, schema, entries, i + 1, built, props + GetObjectValues(v.entries), path);
        }
      } else if sub.Some? {
        var j :| 0 <= j < |schema.fields| && schema.fields[j] == sub.value;
        RecDepthOfChildren(schema);
        ReadRestores(cfg, sub.value, sub.value.schema, v, path, false);
        var t := Read(cfg, sub.value, sub.value.schema, v, path, false);
        if t.out.Ok? {
          RecordLoopRestores(cfg, schema, entries, i + 1, built[name := t.out.value], props, path);
        }
      } else if AllowsExtraProps(cfg, schema) {
        RecordLoopRestores(cfg, schema, entries, i + 1, built, props + [(name, GetValue(v))], path);
      } else {
        RecordLoopRestores(cfg, schema, entries, i + 1, built, props, path);
      }
    }
  }

  lemma {:induction false} FinishRestores(cfg: Settings, schema: Schema, built: map<string, Value>, props: Props, path: seq<string>)
    requires schema.Record?
    ensures var t := Finish(cfg, schema, built, props, path); t.out.Ok? ==> t.path == path
    decreases RecDepth(schema), schema, 0, 0
  {
    if AllowsExtraProps(cfg, schema) && |props| > 0 {
      FieldSchemaDepth();
      ReadRestores(cfg, ExtraPropsField(cfg), FIELD_SCHEMA, PropsAsJson(props), path, false);
    }
  }

  lemma {:induction false} ArrayLoopRestores(cfg: Settings, field: Field, schema: Schema, items: seq<Json>, j: nat, acc: seq<Value>, path: seq<string>)
    requires schema.Array? && j <= |items| && UnionSafe(schema)
    ensures var t := ArrayLoop(cfg, field, schema, items, j, acc, path); t.out.Ok? ==> t.path == path
    decreases RecDepth(schema), schema, 0, |items| - j
  {
    if j < |items| {
      ReadRestores(cfg, field, schema.items, items[j], path, false);
      var t := Read(cfg, field, schema.items, items[j], path, false);
      if t.out.Ok? {
        ArrayLoopRestores(cfg, field, schema, items, j + 1, acc + [t.out.value], path);
      }
    }
  }

  lemma {:induction false} MapLoopRestores(cfg: Settings, field: Field, schema: Schema, entries: seq<(string, Json)>, j: nat, acc: map<string, Value>, path: seq<string>)
    requires schema.Map? && j <= |entries| && UnionSafe(schema)
    ensures var t := MapLoop(cfg, field, schema, entries, j, acc, path); t.out.Ok? ==> t.path == path
    decreases RecDepth(schema), schema, 0, |entries| - j
  {
    if j < |entries| {
      ReadRestores(cfg, field, schema.values, entries[j].1, path, false);
      var t := Read(cfg, field, schema.values, entries[j].1, path, false);
      if t.out.Ok? {
        MapLoopRestores(cfg, field, schema, entries, j + 1, acc[entries[j].0 := t.out.value], path);
      }
    }
  }

  // ---------------------------------------------------------------------------------------
  // A union whose record branch throws

  /** The field "a" of INT read strictly under "f": pushed, rejected, and not popped. */
  lemma StrictFieldFails(cfg: Settings)
    requires cfg.nameTransformer("a") == "a"
    ensures Read(cfg, Field("a", Primitive(IntType, None, None), false), Primitive(IntType, None, None), JStr("x"), ["f"], false)
         == Traced(Err(TypeMismatch(Print(["f", "a"]), JavaTypeName(NumberClass))), ["f", "a"])
  {
    var leaf := Primitive(IntType, None, None);
    var a := Field("a", leaf, false);
    var fa := ["f", "a"];
    assert Enter(["f"], cfg.nameTransformer(a.name)) == fa;
    assert PrimitiveConversion(leaf) == IntValue;
    OnValidTypeGate(cfg, IntValue, leaf, JStr("x"), fa);
    assert ReadPrimitive(cfg, leaf, JStr("x"), fa, false) == Reject(NumberClass, fa, false);
    SwitchCases(cfg, a, leaf, JStr("x"), fa, false);
    assert Switch(cfg, a, leaf, JStr("x"), fa, false) == Traced(Err(TypeMismatch(Print(fa), JavaTypeName(NumberClass))), fa);
  }

  /** The record branch fails at the path its field left behind. */
  lemma RecordBranchFails(cfg: Settings)
    requires cfg.nameTransformer("f") == "f" && cfg.nameTransformer("a") == "a"
    requires "a" !in cfg.jsonExtraPropsFieldNames
    ensures var inner := Record("R", [Field("a", Primitive(IntType, None, None), false)]);
            Read(cfg, Field("f", Union([inner, Primitive(StringType, None, None)]), false), inner, JObj([("a", JStr("x"))]), ["f"], true)
            == Traced(Err(TypeMismatch(Print(["f", "a"]), JavaTypeName(NumberClass))), ["f", "a"])
  {
    var a := Field("a", Primitive(IntType, None, None), false);
    var inner := Record("R", [a]);
    var f := Field("f", Union([inner, Primitive(StringType, None, None)]), false);
    var v := JObj([("a", JStr("x"))]);
    assert GetField(inner, "a") == Some(a);
    StrictFieldFails(cfg);
    assert RecordLoop(cfg, inner, v.entries, 0, map[], [], ["f"])
        == Traced(Err(TypeMismatch(Print(["f", "a"]), JavaTypeName(NumberClass))), ["f", "a"]);
    assert Enter(["f"], "f") == ["f"];
    SwitchCases(cfg, f, inner, v, ["f"], true);
  }

  /** The STRING branch, tried at the longer path, pushes "f" once more, turns the object down
      and pops it. */
  lemma StringBranchRejects(cfg: Settings, f: Field)
    requires f.name == "f" && cfg.nameTransformer("f") == "f"
    ensures Read(cfg, f, Primitive(StringType, None, None), JObj([("a", JStr("x"))]), ["f", "a"], true)
         == Traced(Ok(VSentinel), ["f", "a"])
  {
    assert Enter(["f", "a"], "f") == ["f", "a", "f"];
    SwitchCases(cfg, f, Primitive(StringType, None, None), JObj([("a", JStr("x"))]), ["f", "a", "f"], true);
    assert (["f", "a", "f"])[..2] == ["f", "a"];
  }

  /** The union of the record and STRING, tried at "f": both branches are skipped, the second
      one at the path the first one left behind. */
  lemma UnionTriedAtLongerPath(cfg: Settings)
    requires cfg.nameTransformer("f") == "f" && cfg.nameTransformer("a") == "a"
    requires "a" !in cfg.jsonExtraPropsFieldNames
    ensures var inner := Record("R", [Field("a", Primitive(IntType, None, None), false)]);
            var schema := Union([inner, Primitive(StringType, None, None)]);
            UnionLoop(cfg, Field("f", schema, false), schema, JObj([("a", JStr("x"))]), 0, ["f"])
            == Traced(Err(UnionExhausted("f", "RECORD, STRING", "f.a")), ["f", "a"])
  {
    var inner := Record("R", [Field("a", Primitive(IntType, None, None), false)]);
    var schema := Union([inner, Primitive(StringType, None, None)]);
    var f := Field("f", schema, false);
    var v := JObj([("a", JStr("x"))]);
    var fa := ["f", "a"];
    RecordBranchFails(cfg);
    assert UnionLoop(cfg, f, schema, v, 0, ["f"]) == UnionLoop(cfg, f, schema, v, 1, fa);
    StringBranchRejects(cfg, f);
    assert UnionLoop(cfg, f, schema, v, 1, fa) == UnionLoop(cfg, f, schema, v, 2, fa);
    UnionExhaustedAtLongerPath(cfg, f, schema, v);
  }

  /** With both branches skipped the exception lists their types and prints the path "f.a". */
  lemma UnionExhaustedAtLongerPath(cfg: Settings, f: Field, schema: Schema, v: Json)
    requires f.name == "f"
    requires schema == Union([Record("R", [Field("a", Primitive(IntType, None, None), false)]), Primitive(StringType, None, None)])
    ensures UnionLoop(cfg, f, schema, v, 2, ["f", "a"]) == Traced(Err(UnionExhausted("f", "RECORD, STRING", "f.a")), ["f", "a"])
  {
    assert Print(["f", "a"]) == "f.a";
    assert TypeNames(schema.branches) == ["RECORD", "STRING"];
    assert Join(["RECORD", "STRING"], ", ") == "RECORD, STRING";
  }

  /** A record branch that throws leaves its segments on the path: the union goes on at
      "f.a", and the exception for the field "f" names "f.a" as its path, with the deque two
      segments long instead of restored. */
  lemma UnionBranchLeavesSegment(cfg: Settings)
    requires cfg.nameTransformer("f") == "f" && cfg.nameTransformer("a") == "a"
    requires "a" !in cfg.jsonExtraPropsFieldNames
    ensures var inner := Record("R", [Field("a", Primitive(IntType, None, None), false)]);
            var schema := Union([inner, Primitive(StringType, None, None)]);
            Read(cfg, Field("f", schema, false), schema, JObj([("a", JStr("x"))]), [], false)
            == Traced(Err(UnionExhausted("f", "RECORD, STRING", "f.a")), ["f", "a"])
  {
    var inner := Record("R", [Field("a", Primitive(IntType, None, None), false)]);
    var schema := Union([inner, Primitive(StringType, None, None)]);
    var f := Field("f", schema, false);
    UnionTriedAtLongerPath(cfg);
    assert Enter([], cfg.nameTransformer(f.name)) == ["f"];
    SwitchCases(cfg, f, schema, JObj([("a", JStr("x"))]), ["f"], false);
  }
}
