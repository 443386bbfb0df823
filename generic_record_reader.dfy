/** `JsonGenericRecordReader` as the object it is: settings fixed at construction by its
    builder, and a `read` that threads one mutable path deque through the record, array, map
    and union reads. Every method is proved to return what the functions of `GenericReading`
    compute and to leave the deque as they say. */
module GenericRecordReaders {
  import opened Wrappers
  import opened JsonValues
  import opened Values
  import opened AvroSchema
  import opened Paths
  import opened Text
  import opened UnknownFields
  import opened AvroTypeConverters
  import opened AdditionalProperties
  import opened DateTimeUtils
  import opened GenericReading

  class JsonGenericRecordReader {
    /** The unknown-field listener; None for null. */
    const unknownFieldListener: Option<UnknownFieldListener>
    const nameTransformer: string -> string
    /** The JSON fields whose entries are merged into the collected properties. */
    const jsonExtraPropsFieldNames: set<string>
    /** The record field that receives the collected properties. */
    const avroExtraPropsFieldName: string
    const avroExtraPropsField: Field := Field(avroExtraPropsFieldName, FIELD_SCHEMA, false)
    /** The formatters `DateTimeUtils` parses date and time strings with. */
    const patterns: Patterns

    /** The settings the spec functions read. */
    function Cfg(): Settings
    {
      Settings(unknownFieldListener, nameTransformer, jsonExtraPropsFieldNames, avroExtraPropsFieldName, patterns)
    }

    /** The private constructor the builder calls. */
    constructor (listener: Option<UnknownFieldListener>, transformer: string -> string,
                 jsonNames: set<string>, avroName: string, formatters: Patterns)
      ensures Cfg() == Settings(listener, transformer, jsonNames, avroName, formatters)
      ensures avroExtraPropsField == ExtraPropsField(Cfg())
    {
      unknownFieldListener := listener;
      nameTransformer := transformer;
      jsonExtraPropsFieldNames := jsonNames;
      avroExtraPropsFieldName := avroName;
      patterns := formatters;
    }

    /** `read(json, schema)`: a fresh empty path and the record read. */
    method ReadJson(json: seq<(string, Json)>, schema: Schema) returns (r: Outcome)
      ensures r == ReadRoot(Cfg(), json, schema).out
    {
      var path := new PathDeque();
      r := ReadRecord(json, schema, path);
    }

    /** `readRecord`: a builder and an `additionalProps` map filled entry by entry, then the
        collected properties read under their field, then the record built. */
    method ReadRecord(json: seq<(string, Json)>, schema: Schema, path: PathDeque) returns (r: Outcome)
      modifies path
      ensures Traced(r, path.segments) == GenericReading.ReadRecord(Cfg(), schema, json, old(path.segments))
      decreases RecDepth(schema), schema, 1, 0
    {
      if !schema.Record? {
        r := Err(NotARecord(TypeName(TypeOf(schema))));
        return;
      }
      var record: map<string, Value> := map[];
      var additionalProps: Props := [];
      var allowAdditionalProps := GetField(schema, avroExtraPropsFieldName).Some?;
      var i := 0;
      while i < |json|
        invariant 0 <= i <= |json|
        invariant RecordLoop(Cfg(), schema, json, i, record, additionalProps, path.segments)
               == RecordLoop(Cfg(), schema, json, 0, map[], [], old(path.segments))
        decreases |json| - i
      {
        ghost var here := path.segments;
        ghost var rest := RecordLoop(Cfg(), schema, json, i, record, additionalProps, here);
        var key := json[i].0;
        var value := json[i].1;
        if !value.JNull? {
          var fieldName := nameTransformer(key);
          var field := GetField(schema, fieldName);
          if fieldName in jsonExtraPropsFieldNames {
            if !value.JObj? {
              r := Err(ClassCast);
              return;
            }
            additionalProps := additionalProps + GetObjectValues(value.entries);
          } else if field.Some? {
            RecDepthOfChildren(schema);
            var fieldValue := Read(field.value, field.value.schema, value, path, false);
            assert rest == if fieldValue.Err? then Traced(fieldValue, path.segments)
                           else RecordLoop(Cfg(), schema, json, i + 1, record[fieldName := fieldValue.value], additionalProps, path.segments);
            if fieldValue.Err? {
              r := fieldValue;
              return;
            }
            record := record[fieldName := fieldValue.value];
          } else if allowAdditionalProps {
            additionalProps := additionalProps + [(fieldName, GetValue(value))];
          } else if unknownFieldListener.Some? {
            var failure := unknownFieldListener.value(key, value, PrintWith(path.segments, key));
            if failure.Some? {
              r := Err(failure.value);
              return;
            }
          }
        }
        i := i + 1;
      }
      assert allowAdditionalProps == AllowsExtraProps(Cfg(), schema);
      assert RecordLoop(Cfg(), schema, json, i, record, additionalProps, path.segments)
          == Finish(Cfg(), schema, record, additionalProps, path.segments);
      if allowAdditionalProps && |additionalProps| > 0 {
        FieldSchemaDepth();
        var extra := Read(avroExtraPropsField, FIELD_SCHEMA, PropsAsJson(additionalProps), path, false);
        if extra.Err? {
          r := extra;
          return;
        }
        record := record[avroExtraPropsFieldName := extra.value];
      }
      r := Build(schema, record);
    }

    /** `read(field, schema, value, path, silently)`: push the transformed field name unless it
        is already last, switch on the schema type, and pop after a normal return. */
    method Read(field: Field, schema: Schema, value: Json, path: PathDeque, silently: bool) returns (r: Outcome)
      modifies path
      ensures Traced(r, path.segments) == GenericReading.Read(Cfg(), field, schema, value, old(path.segments), silently)
      decreases RecDepth(schema), schema, 3, 0
    {
      ghost var before := path.segments;
      var fieldName := nameTransformer(field.name);
      var last := path.Last();
      var pushed := last != Some(fieldName);
      if pushed {
        path.AddLast(fieldName);
      }
      ghost var entered := path.segments;
      assert entered == Enter(before, fieldName);
      r := Switch(field, schema, value, path, silently);
      ghost var t := Traced(r, path.segments);
      assert t == GenericReading.Switch(Cfg(), field, schema, value, entered, silently);
      assert GenericReading.Read(Cfg(), field, schema, value, before, silently)
          == if r.Err? || !pushed then t else Traced(r, t.path[..|t.path| - 1]);
      if r.Ok? && pushed {
        var _ := path.RemoveLast();
      }
    }

    /** The `switch` of `read` on the schema type, at the path with the field name pushed. */
    method Switch(field: Field, schema: Schema, value: Json, path: PathDeque, silently: bool) returns (r: Outcome)
      modifies path
      ensures Traced(r, path.segments) == GenericReading.Switch(Cfg(), field, schema, value, old(path.segments), silently)
      decreases RecDepth(schema), schema, 2, 2
    {
      if schema.Fixed? {
        r := Err(UnsupportedType(TypeName(TypeOf(field.schema))));
      } else {
        r := Cases(field, schema, value, path, silently);
      }
    }

    method Cases(field: Field, schema: Schema, value: Json, path: PathDeque, silently: bool) returns (r: Outcome)
      requires !schema.Fixed?
      modifies path
      ensures Traced(r, path.segments) == GenericReading.Cases(Cfg(), field, schema, value, old(path.segments), silently)
      decreases RecDepth(schema), schema, 2, 1
    {
      match schema {
        case Record(_, _) =>
          if !IsInstance(MapClass, value) {
            r := Reject(MapClass, path.segments, silently);
          } else {
            r := ReadRecord(value.entries, schema, path);
          }
        case Array(_) =>
          if !IsInstance(ListClass, value) {
            r := Reject(ListClass, path.segments, silently);
          } else {
            r := ReadArray(field, schema, value.items, path);
          }
        case Map(_) =>
          if !IsInstance(MapClass, value) {
            r := Reject(MapClass, path.segments, silently);
          } else {
            r := ReadMap(field, schema, value.entries, path);
          }
        case Union(_) =>
          r := ReadUnion(field, schema, value, path);
        case Enum(_, _) =>
          r := OnValidType(Cfg(), EnsureEnum, schema, value, path.segments, silently);
        case Primitive(_, _, _) =>
          r := ReadPrimitive(Cfg(), schema, value, path.segments, silently);
      }
    }

    /** `readArray`: every element read strictly under the same field, in order. */
    method ReadArray(field: Field, schema: Schema, items: seq<Json>, path: PathDeque) returns (r: Outcome)
      requires schema.Array?
      modifies path
      ensures Traced(r, path.segments) == ArrayLoop(Cfg(), field, schema, items, 0, [], old(path.segments))
      decreases RecDepth(schema), schema, 1, 0
    {
      var result: seq<Value> := [];
      var j := 0;
      while j < |items|
        invariant 0 <= j <= |items|
        invariant ArrayLoop(Cfg(), field, schema, items, j, result, path.segments)
               == ArrayLoop(Cfg(), field, schema, items, 0, [], old(path.segments))
        decreases |items| - j
      {
        var item := Read(field, schema.items, items[j], path, false);
        if item.Err? {
          r := item;
          return;
        }
        result := result + [item.value];
        j := j + 1;
      }
      r := Ok(VArray(result));
    }

    /** `readMap`: a `HashMap` filled with every value read strictly, under its key. */
    method ReadMap(field: Field, schema: Schema, entries: seq<(string, Json)>, path: PathDeque) returns (r: Outcome)
      requires schema.Map?
      modifies path
      ensures Traced(r, path.segments) == MapLoop(Cfg(), field, schema, entries, 0, map[], old(path.segments))
      decreases RecDepth(schema), schema, 1, 0
    {
      var result: map<string, Value> := map[];
      var j := 0;
      while j < |entries|
        invariant 0 <= j <= |entries|
        invariant MapLoop(Cfg(), field, schema, entries, j, result, path.segments)
               == MapLoop(Cfg(), field, schema, entries, 0, map[], old(path.segments))
        decreases |entries| - j
      {
        var item := Read(field, schema.values, entries[j].1, path, false);
        if item.Err? {
          r := item;
          return;
        }
        result := result[entries[j].0 := item.value];
        j := j + 1;
      }
      r := Ok(VMap(result));
    }

    /** `readUnion`: the branches in order, silently, until one gives a value. */
    method ReadUnion(field: Field, schema: Schema, value: Json, path: PathDeque) returns (r: Outcome)
      requires schema.Union?
      modifies path
      ensures Traced(r, path.segments) == UnionLoop(Cfg(), field, schema, value, 0, old(path.segments))
      decreases RecDepth(schema), schema, 1, 0
    {
      var types := schema.branches;
      var k := 0;
      RecDepthOfChildren(schema);
      while k < |types|
        invariant 0 <= k <= |types|
        invariant UnionLoop(Cfg(), field, schema, value, k, path.segments)
               == UnionLoop(Cfg(), field, schema, value, 0, old(path.segments))
        decreases |types| - k
      {
        var nestedValue := Read(field, types[k], value, path, true);
        if nestedValue.Err? {
          if !IsAvroRuntime(nestedValue.error) {
            r := nestedValue;
            return;
          }
        } else if nestedValue.value != VSentinel {
          r := nestedValue;
          return;
        }
        k := k + 1;
      }
      r := Err(UnionExhausted(field.name, Join(TypeNames(types), ", "), Print(path.segments)));
    }
  }

  /** `JsonGenericRecordReader.Builder`: every setting starts at its default and can be
      replaced before `build`. */
  class Builder {
    var unknownFieldListener: Option<UnknownFieldListener>
    var nameTransformer: string -> string
    var jsonExtraPropsFields: set<string>
    var avroExtraPropsField: string

    /** `builder()`: no listener, the identity transformer, and the default carrier and
        collecting field names. */
    constructor ()
      ensures unknownFieldListener.None?
      ensures forall s :: nameTransformer(s) == s
      ensures jsonExtraPropsFields == DEFAULT_JSON_FIELD_NAMES
      ensures avroExtraPropsField == DEFAULT_AVRO_FIELD_NAME
    {
      unknownFieldListener := None;
      nameTransformer := s => s;
      jsonExtraPropsFields := DEFAULT_JSON_FIELD_NAMES;
      avroExtraPropsField := DEFAULT_AVRO_FIELD_NAME;
    }

    method SetUnknownFieldListener(listener: Option<UnknownFieldListener>)
      modifies this
      ensures unknownFieldListener == listener
      ensures nameTransformer == old(nameTransformer) && jsonExtraPropsFields == old(jsonExtraPropsFields)
      ensures avroExtraPropsField == old(avroExtraPropsField)
    {
      unknownFieldListener := listener;
    }

    method SetNameTransformer(transformer: string -> string)
      modifies this
      ensures nameTransformer == transformer
      ensures unknownFieldListener == old(unknownFieldListener) && jsonExtraPropsFields == old(jsonExtraPropsFields)
      ensures avroExtraPropsField == old(avroExtraPropsField)
    {
      nameTransformer := transformer;
    }

    method SetJsonAdditionalPropsFieldNames(names: set<string>)
      modifies this
      ensures jsonExtraPropsFields == names
      ensures unknownFieldListener == old(unknownFieldListener) && nameTransformer == old(nameTransformer)
      ensures avroExtraPropsField == old(avroExtraPropsField)
    {
      jsonExtraPropsFields := names;
    }

    method SetAvroAdditionalPropsFieldName(name: string)
      modifies this
      ensures avroExtraPropsField == name
      ensures unknownFieldListener == old(unknownFieldListener) && nameTransformer == old(nameTransformer)
      ensures jsonExtraPropsFields == old(jsonExtraPropsFields)
    {
      avroExtraPropsField := name;
    }

    /** `build()`: a reader with the current settings. */
    method Build(formatters: Patterns) returns (reader: JsonGenericRecordReader)
      ensures fresh(reader)
      ensures reader.Cfg() == Settings(unknownFieldListener, nameTransformer, jsonExtraPropsFields, avroExtraPropsField, formatters)
    {
      reader := new JsonGenericRecordReader(unknownFieldListener, nameTransformer, jsonExtraPropsFields, avroExtraPropsField, formatters);
    }
  }
}
