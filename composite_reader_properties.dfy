/** What the composite reader guarantees: how the registry dispatches, what becomes of the path,
    and what the record, array, map and union converters produce. */
module CompositeReaderProperties {
  import opened Wrappers
  import opened JsonValues
  import opened Values
  import opened AvroSchema
  import opened Paths
  import opened Text
  import opened UnknownFields
  import opened AvroTypeConverters
  import opened CompositeReading

  // ---------------------------------------------------------------------------------------
  // Dispatch

  /** With no converter for the schema the read fails with "Unsupported type", naming the type
      of the field's own schema (not of the union branch being tried), in silent mode too. */
  lemma UnmanagedIsUnsupported(cfg: Config, field: Field, schema: Schema, value: Json, path: seq<string>, silently: bool)
    requires forall j :: 0 <= j < |cfg.converters| ==> !CanManage(cfg.converters[j], schema, Enter(path, field.name))
    ensures Read(cfg, field, schema, value, path, silently)
         == Traced(Err(UnsupportedType(TypeName(TypeOf(field.schema)))), Enter(path, field.name))
  {
  }

  // ---------------------------------------------------------------------------------------
  // The path

  /** A read under a field whose name is already the last segment, of a schema without
      records, pushes nothing, so it leaves the path as it found it whatever the outcome. */
  lemma {:induction false} ReadStable(cfg: Config, field: Field, schema: Schema, value: Json, path: seq<string>, silently: bool)
    requires RecordFree(schema) && |path| > 0 && path[|path| - 1] == field.name
    ensures Read(cfg, field, schema, value, path, silently).path == path
    decreases schema, 3, 1
  {
    assert Enter(path, field.name) == path;
    var i := FirstManaging(cfg.converters, schema, path);
    if i < |cfg.converters| {
      ConvertWithStable(cfg, cfg.converters[i], field, schema, value, path, silently);
    }
  }

  lemma {:induction false} ConvertWithStable(cfg: Config, c: Converter, field: Field, schema: Schema, value: Json, path: seq<string>, silently: bool)
    requires CanManage(c, schema, path) && RecordFree(schema) && |path| > 0 && path[|path| - 1] == field.name
    ensures ConvertWith(cfg, c, field, schema, value, path, silently).path == path
    decreases schema, 2, 0
  {
    match c
    case ArrayConverter =>
      if IsInstance(CollectionClass, value) {
        ArrayLoopStable(cfg, field, schema, value.items, 0, [], path);
      }
    case MapConverter =>
      if IsInstance(MapClass, value) {
        MapLoopStable(cfg, field, schema, value.entries, 0, map[], path);
      }
    case UnionConverter =>
      UnionLoopStable(cfg, field, schema, value, 0, [], path);
    case _ =>
  }

  lemma {:induction false} ArrayLoopStable(cfg: Config, field: Field, schema: Schema, items: seq<Json>, j: nat, acc: seq<Value>, path: seq<string>)
    requires schema.Array? && j <= |items| && RecordFree(schema) && |path| > 0 && path[|path| - 1] == field.name
    ensures ArrayLoop(cfg, field, schema, items, j, acc, path).path == path
    decreases schema, 0, |items| - j
  {
    if j < |items| {
      ReadStable(cfg, field, schema.items, items[j], path, false);
      var t := Read(cfg, field, schema.items, items[j], path, false);
      if t.out.Ok? {
        ArrayLoopStable(cfg, field, schema, items, j + 1, acc + [t.out.value], path);
      }
    }
  }

  lemma {:induction false} MapLoopStable(cfg: Config, field: Field, schema: Schema, entries: seq<(string, Json)>, j: nat, acc: map<string, Value>, path: seq<string>)
    requires schema.Map? && j <= |entries| && RecordFree(schema) && |path| > 0 && path[|path| - 1] == field.name
    ensures MapLoop(cfg, field, schema, entries, j, acc, path).path == path
    decreases schema, 0, |entries| - j
  {
    if j < |entries| {
      ReadStable(cfg, field, schema.values, entries[j].1, path, false);
      var t := Read(cfg, field, schema.values, entries[j].1, path, false);
      if t.out.Ok? {
        MapLoopStable(cfg, field, schema, entries, j + 1, acc[entries[j].0 := t.out.value], path);
      }
    }
  }

  lemma {:induction false} UnionLoopStable(cfg: Config, field: Field, schema: Schema, value: Json, k: nat, expected: seq<string>, path: seq<string>)
    requires schema.Union? && k <= |schema.branches| && RecordFree(schema) && |path| > 0 && path[|path| - 1] == field.name
    ensures UnionLoop(cfg, field, schema, value, k, expected, path).path == path
    decreases schema, 0, |schema.branches| - k
  {
    if k < |schema.branches| {
      ReadStable(cfg, field, schema.branches[k], value, path, true);
      var t := Read(cfg, field, schema.branches[k], value, path, true);
      if t.out.Err? {
        UnionLoopStable(cfg, field, schema, value, k + 1, expected, path);
      } else if t.out.value.VIncompatible? {
        UnionLoopStable(cfg, field, schema, value, k + 1, expected + [t.out.value.expected], path);
      }
    }
  }

  /** A successful read of a schema in which no union has a record branch leaves the path as
      it found it: every segment pushed on the way down was popped on the way back. */
  lemma {:induction false} ReadRestores(cfg: Config, field: Field, schema: Schema, value: Json, path: seq<string>, silently: bool)
    requires UnionSafe(schema)
    ensures var t := Read(cfg, field, schema, value, path, silently); t.out.Ok? ==> t.path == path
    decreases schema, 3, 1
  {
    var entered := Enter(path, field.name);
    var i := FirstManaging(cfg.converters, schema, entered);
    if i < |cfg.converters| {
      ConvertWithRestores(cfg, cfg.converters[i], field, schema, value, entered, silently);
    }
  }

  lemma {:induction false} ConvertWithRestores(cfg: Config, c: Converter, field: Field, schema: Schema, value: Json, path: seq<string>, silently: bool)
    requires CanManage(c, schema, path) && UnionSafe(schema) && |path| > 0 && path[|path| - 1] == field.name
    ensures var t := ConvertWith(cfg, c, field, schema, value, path, silently); t.out.Ok? ==> t.path == path
    decreases schema, 2, 0
  {
    match c
    case RecordConverter =>
      ConvertRecordRestores(cfg, schema, value, path, silently);
    case ArrayConverter =>
      if IsInstance(CollectionClass, value) {
        ArrayLoopRestores(cfg, field, schema, value.items, 0, [], path);
      }
    case MapConverter =>
      if IsInstance(MapClass, value) {
        MapLoopRestores(cfg, field, schema, value.entries, 0, map[], path);
      }
    case UnionConverter =>
      UnionLoopStable(cfg, field, schema, value, 0, [], path);
    case _ =>
  }

  lemma {:induction false} ConvertRecordRestores(cfg: Config, schema: Schema, value: Json, path: seq<string>, silently: bool)
    requires UnionSafe(schema)
    ensures var t := ConvertRecord(cfg, schema, value, path, silently); t.out.Ok? ==> t.path == path
    decreases schema, 1, 0
  {
    if IsInstance(MapClass, value) && schema.Record? {
      RecordLoopRestores(cfg, schema, value.entries, 0, map[], path);
    }
  }

  lemma {:induction false} RecordLoopRestores(cfg: Config, schema: Schema, entries: seq<(string, Json)>, i: nat, built: map<string, Value>, path: seq<string>)
    requires schema.Record? && i <= |entries| && UnionSafe(schema)
    ensures var t := RecordLoop(cfg, schema, entries, i, built, path); t.out.Ok? ==> t.path == path
    decreases schema, 0, |entries| - i
  {
    if i < |entries| {
      var key := entries[i].0;
      match GetField(schema, key)
      case Some(sub) =>
        var j :| 0 <= j < |schema.fields| && schema.fields[j] == sub;
        ReadRestores(cfg, sub, sub.schema, entries[i].1, path, false);
        var t := Read(cfg, sub, sub.schema, entries[i].1, path, false);
        if t.out.Ok? {
          RecordLoopRestores(cfg, schema, entries, i + 1, built[sub.name := t.out.value], path);
        }
      case None =>
        RecordLoopRestores(cfg, schema, entries, i + 1, built, path);
    }
  }

  lemma {:induction false} ArrayLoopRestores(cfg: Config, field: Field, schema: Schema, items: seq<Json>, j: nat, acc: seq<Value>, path: seq<string>)
    requires schema.Array? && j <= |items| && UnionSafe(schema)
    ensures var t := ArrayLoop(cfg, field, schema, items, j, acc, path); t.out.Ok? ==> t.path == path
    decreases schema, 0, |items| - j
  {
    if j < |items| {
      ReadRestores(cfg, field, schema.items, items[j], path, false);
      var t := Read(cfg, field, schema.items, items[j], path, false);
      if t.out.Ok? {
        ArrayLoopRestores(cfg, field, schema, items, j + 1, acc + [t.out.value], path);
      }
    }
  }

  lemma {:induction false} MapLoopRestores(cfg: Config, field: Field, schema: Schema, entries: seq<(string, Json)>, j: nat, acc: map<string, Value>, path: seq<string>)
    requires schema.Map? && j <= |entries| && UnionSafe(schema)
    ensures var t := MapLoop(cfg, field, schema, entries, j, acc, path); t.out.Ok? ==> t.path == path
    decreases schema, 0, |entries| - j
  {
    if j < |entries| {
      ReadRestores(cfg, field, schema.values, entries[j].1, path, false);
      var t := Read(cfg, field, schema.values, entries[j].1, path, false);
      if t.out.Ok? {
        MapLoopRestores(cfg, field, schema, entries, j + 1, acc[entries[j].0 := t.out.value], path);
      }
    }
  }
}
