/** `CompositeJsonToAvroReader` as the object it is: a registry of converters fixed at
    construction and a `read` that threads one mutable path deque through the converters it
    calls. Every method is proved to return what the functions of `CompositeReading` compute
    and to leave the deque as they say. */
module CompositeJsonToAvro {
  import opened Wrappers
  import opened JsonValues
  import opened Values
  import opened AvroSchema
  import opened Paths
  import opened Text
  import opened UnknownFields
  import opened AvroTypeConverters
  import opened CompositeReading
  import opened Registry

  class CompositeJsonToAvroReader {
    /** The caller's converters followed by the built-in ones. */
    const converters: seq<Converter>
    /** The unknown-field listener of the main record converter. */
    const listener: Option<UnknownFieldListener>

    /** The configuration the spec functions read. */
    function Cfg(): Config
    {
      Config(converters, listener)
    }

    /** The constructor taking additional converters and a listener (None for null). */
    constructor (additional: seq<Converter>, unknownFieldListener: Option<UnknownFieldListener>)
      ensures converters == additional + BUILTINS && listener == unknownFieldListener
    {
      converters := additional + BUILTINS;
      listener := unknownFieldListener;
    }

    /** The constructors without a listener: unknown fields fail the conversion. */
    constructor WithConverters(additional: seq<Converter>)
      ensures converters == additional + BUILTINS && listener == Some(FailOnUnknownField)
    {
      converters := additional + BUILTINS;
      listener := Some(FailOnUnknownField);
    }

    /** `read(json, schema)`: a fresh empty path and the main record converter, strictly. */
    method ReadJson(json: Json, schema: Schema) returns (r: Outcome)
      ensures r == ReadRoot(Cfg(), json, schema).out
    {
      var path := new PathDeque();
      r := ConvertRecord(schema, json, path, false);
    }

    /** `read(field, schema, value, path, silently)`: push the field name unless it is already
        last, dispatch, and pop after a normal return. */
    method Read(field: Field, schema: Schema, value: Json, path: PathDeque, silently: bool) returns (r: Outcome)
      modifies path
      ensures Traced(r, path.segments) == CompositeReading.Read(Cfg(), field, schema, value, old(path.segments), silently)
      decreases schema, 3, 1
    {
      ghost var before := path.segments;
      var last := path.Last();
      var pushed := last != Some(field.name);
      if pushed {
        path.AddLast(field.name);
      }
      ghost var entered := path.segments;
      assert entered == Enter(before, field.name);
      r := Dispatch(field, schema, value, path, silently);
      ghost var t := Traced(r, path.segments);
      assert t == CompositeReading.Dispatch(Cfg(), field, schema, value, entered, silently);
      assert CompositeReading.Read(Cfg(), field, schema, value, before, silently)
          == if r.Err? || !pushed then t else Traced(r, t.path[..|t.path| - 1]);
      if r.Ok? && pushed {
        var _ := path.RemoveLast();
      }
    }

    /** The first converter that can manage the schema at the current path converts the value;
        "Unsupported type" when there is none. */
    method Dispatch(field: Field, schema: Schema, value: Json, path: PathDeque, silently: bool) returns (r: Outcome)
      modifies path
      ensures Traced(r, path.segments) == CompositeReading.Dispatch(Cfg(), field, schema, value, old(path.segments), silently)
      decreases schema, 3, 0
    {
      var i := FirstManaging(converters, schema, path.segments);
      if i == |converters| {
        r := Err(UnsupportedType(TypeName(TypeOf(field.schema))));
      } else {
        r := ConvertWith(converters[i], field, schema, value, path, silently);
      }
    }

    /** The chosen converter's `convert`. */
    method ConvertWith(c: Converter, field: Field, schema: Schema, value: Json, path: PathDeque, silently: bool) returns (r: Outcome)
      requires CanManage(c, schema, path.segments)
      modifies path
      ensures Traced(r, path.segments) == CompositeReading.ConvertWith(Cfg(), c, field, schema, value, old(path.segments), silently)
      decreases schema, 2, 0
    {
      match c
      case Leaf(_, convert) =>
        r := convert(field, schema, value, path.segments, silently);
      case RecordConverter =>
        r := ConvertRecord(schema, value, path, silently);
      case ArrayConverter =>
        if !IsInstance(CollectionClass, value) {
          r := Rejected(CollectionClass, path.segments, silently);
        } else {
          r := ConvertArray(field, schema, value.items, path);
        }
      case MapConverter =>
        if !IsInstance(MapClass, value) {
          r := Rejected(MapClass, path.segments, silently);
        } else {
          r := ConvertMap(field, schema, value.entries, path);
        }
      case UnionConverter =>
        r := ConvertUnion(field, schema, value, path);
    }

    /** `RecordConverter.convert`: a builder filled entry by entry, then built. */
    method ConvertRecord(schema: Schema, value: Json, path: PathDeque, silently: bool) returns (r: Outcome)
      modifies path
      ensures Traced(r, path.segments) == CompositeReading.ConvertRecord(Cfg(), schema, value, old(path.segments), silently)
      decreases schema, 1, 0
    {
      if !IsInstance(MapClass, value) {
        r := Rejected(MapClass, path.segments, silently);
        return;
      }
      if !schema.Record? {
        r := Err(NotARecord(TypeName(TypeOf(schema))));
        return;
      }
      var entries := value.entries;
      var builder: map<string, Value> := map[];
      var i := 0;
      while i < |entries|
        invariant 0 <= i <= |entries|
        invariant RecordLoop(Cfg(), schema, entries, i, builder, path.segments)
               == RecordLoop(Cfg(), schema, entries, 0, map[], old(path.segments))
        decreases |entries| - i
      {
        ghost var here := path.segments;
        ghost var rest := RecordLoop(Cfg(), schema, entries, i, builder, here);
        var key := entries[i].0;
        var v := entries[i].1;
        var sub := GetField(schema, key);
        if sub.Some? {
          assert sub.value.schema < schema by { assert sub.value in schema.fields; }
          var fieldValue := Read(sub.value, sub.value.schema, v, path, false);
          assert rest == if fieldValue.Err? then Traced(fieldValue, path.segments)
                         else if !SetAccepts(sub.value, fieldValue.value) then Traced(Err(NullNotAccepted(sub.value.name)), path.segments)
                         else RecordLoop(Cfg(), schema, entries, i + 1, builder[sub.value.name := fieldValue.value], path.segments);
          if fieldValue.Err? {
            r := fieldValue;
            return;
          }
          if !SetAccepts(sub.value, fieldValue.value) {
            r := Err(NullNotAccepted(sub.value.name));
            return;
          }
          builder := builder[sub.value.name := fieldValue.value];
        } else if listener.Some? {
          var failure := listener.value(key, v, PrintWith(path.segments, key));
          assert rest == if failure.Some? then Traced(Err(failure.value), here)
                         else RecordLoop(Cfg(), schema, entries, i + 1, builder, here);
          if failure.Some? {
            r := Err(failure.value);
            return;
          }
        } else {
          assert rest == RecordLoop(Cfg(), schema, entries, i + 1, builder, here);
        }
        i := i + 1;
      }
      r := Build(schema, builder);
    }

    /** `ArrayConverter.convertValue`. */
    method ConvertArray(field: Field, schema: Schema, items: seq<Json>, path: PathDeque) returns (r: Outcome)
      requires schema.Array?
      modifies path
      ensures Traced(r, path.segments) == ArrayLoop(Cfg(), field, schema, items, 0, [], old(path.segments))
      decreases schema, 1, 0
    {
      var result: seq<Value> := [];
      var j := 0;
      while j < |items|
        invariant 0 <= j <= |items|
        invariant ArrayLoop(Cfg(), field, schema, items, j, result, path.segments)
               == ArrayLoop(Cfg(), field, schema, items, 0, [], old(path.segments))
        decreases |items| - j
      {
        var item := Read(field, schema.items, items[j], path, false);
        if item.Err? {
          r := item;
          return;
        }
        result := result + [item.value];
        j := j + 1;
      }
      r := Ok(VArray(result));
    }

    /** `MapConverter.convertValue`. */
    method ConvertMap(field: Field, schema: Schema, entries: seq<(string, Json)>, path: PathDeque) returns (r: Outcome)
      requires schema.Map?
      modifies path
      ensures Traced(r, path.segments) == MapLoop(Cfg(), field, schema, entries, 0, map[], old(path.segments))
      decreases schema, 1, 0
    {
      var result: map<string, Value> := map[];
      var j := 0;
      while j < |entries|
        invariant 0 <= j <= |entries|
        invariant MapLoop(Cfg(), field, schema, entries, j, result, path.segments)
               == MapLoop(Cfg(), field, schema, entries, 0, map[], old(path.segments))
        decreases |entries| - j
      {
        var item := Read(field, schema.values, entries[j].1, path, false);
        if item.Err? {
          r := item;
          return;
        }
        result := result[entries[j].0 := item.value];
        j := j + 1;
      }
      r := Ok(VMap(result));
    }

    /** `UnionConverter.convert`. */
    method ConvertUnion(field: Field, schema: Schema, value: Json, path: PathDeque) returns (r: Outcome)
      requires schema.Union?
      modifies path
      ensures Traced(r, path.segments) == UnionLoop(Cfg(), field, schema, value, 0, [], old(path.segments))
      decreases schema, 1, 0
    {
      var expected: seq<string> := [];
      var k := 0;
      while k < |schema.branches|
        invariant 0 <= k <= |schema.branches|
        invariant UnionLoop(Cfg(), field, schema, value, k, expected, path.segments)
               == UnionLoop(Cfg(), field, schema, value, 0, [], old(path.segments))
        decreases |schema.branches| - k
      {
        var nested := Read(field, schema.branches[k], value, path, true);
        if nested.Err? {
          if !IsAvroRuntime(nested.error) {
            r := nested;
            return;
          }
        } else if nested.value.VIncompatible? {
          expected := expected + [nested.value.expected];
        } else {
          r := nested;
          return;
        }
        k := k + 1;
      }
      r := Err(UnionExhausted(field.name, Join(expected, ", "), Print(path.segments)));
    }
  }
}
