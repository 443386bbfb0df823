/** What the composite reader's container converters produce, stated against the parts of the
    parts: arrays element by element, maps and records key by key, unions branch by branch. The
    statements hold on schemas where a successful read leaves the path unchanged
    (`UnionSafe`), so that every part is read at the same path. */
module CompositeResults {
  import opened Wrappers
  import opened JsonValues
  import opened Values
  import opened AvroSchema
  import opened Paths
  import opened Text
  import opened UnknownFields
  import opened AvroTypeConverters
  import opened CompositeReading
  import opened CompositeReaderProperties

  // ---------------------------------------------------------------------------------------
  // Arrays

  /** The parts of the elements of an array, each at the array's path. */
  function ElementReads(cfg: Config, field: Field, schema: Schema, items: seq<Json>, path: seq<string>): (parts: seq<Traced>)
    requires schema.Array?
    ensures |parts| == |items|
    ensures forall idx :: 0 <= idx < |items| ==> parts[idx] == Read(cfg, field, schema.items, items[idx], path, false)
  {
    seq(|items|, idx requires 0 <= idx < |items| => Read(cfg, field, schema.items, items[idx], path, false))
  }

  /** Collecting the values read in order, stopping at the first failure. */
  function AppendAll(parts: seq<Traced>, j: nat, acc: seq<Value>, path: seq<string>): Traced
    requires j <= |parts|
    decreases |parts| - j
  {
    if j == |parts| then Traced(Ok(VArray(acc)), path)
    else if parts[j].out.Err? then parts[j]
    else AppendAll(parts, j + 1, acc + [parts[j].out.value], path)
  }

  /** On a union-safe schema every element is read at the array's path, so the array
      converter folds the independent parts of its elements. */
  lemma {:induction false} ArrayLoopIsAppendAll(cfg: Config, field: Field, schema: Schema, items: seq<Json>, j: nat, acc: seq<Value>, path: seq<string>)
    requires schema.Array? && j <= |items| && UnionSafe(schema)
    ensures ArrayLoop(cfg, field, schema, items, j, acc, path) == AppendAll(ElementReads(cfg, field, schema, items, path), j, acc, path)
    decreases |items| - j
  {
    if j < |items| {
      ReadRestores(cfg, field, schema.items, items[j], path, false);
      var t := Read(cfg, field, schema.items, items[j], path, false);
      if t.out.Ok? {
        ArrayLoopIsAppendAll(cfg, field, schema, items, j + 1, acc + [t.out.value], path);
      }
    }
  }

  lemma {:induction false} AppendAllElementwise(parts: seq<Traced>, j: nat, acc: seq<Value>, path: seq<string>)
    requires j <= |parts|
    ensures AppendAll(parts, j, acc, path).out.Ok? <==> forall idx :: j <= idx < |parts| ==> parts[idx].out.Ok?
    ensures var t := AppendAll(parts, j, acc, path);
            t.out.Ok? ==>
              t.out.value.VArray? && |t.out.value.items| == |acc| + |parts| - j && t.out.value.items[..|acc|] == acc &&
              forall idx :: j <= idx < |parts| ==> parts[idx].out == Ok(t.out.value.items[|acc| + idx - j])
    decreases |parts| - j
  {
    if j < |parts| && parts[j].out.Ok? {
      var next := acc + [parts[j].out.value];
      AppendAllElementwise(parts, j + 1, next, path);
      var r := AppendAll(parts, j + 1, next, path);
      if r.out.Ok? {
        assert r.out.value.items[..|acc|] == r.out.value.items[..|next|][..|acc|];
        assert r.out.value.items[|acc|] == r.out.value.items[..|next|][|acc|];
      }
    }
  }

  /** The array converter succeeds exactly when every element parts, and then yields the
      elements' values in input order, one per element. */
  lemma ArrayElementwise(cfg: Config, field: Field, schema: Schema, items: seq<Json>, path: seq<string>)
    requires schema.Array? && UnionSafe(schema)
    ensures var t := ArrayLoop(cfg, field, schema, items, 0, [], path);
            t.out.Ok? <==> forall idx :: 0 <= idx < |items| ==> Read(cfg, field, schema.items, items[idx], path, false).out.Ok?
    ensures var t := ArrayLoop(cfg, field, schema, items, 0, [], path);
            t.out.Ok? ==>
              t.out.value.VArray? && |t.out.value.items| == |items| &&
              forall idx :: 0 <= idx < |items| ==> Read(cfg, field, schema.items, items[idx], path, false).out == Ok(t.out.value.items[idx])
  {
    var parts := ElementReads(cfg, field, schema, items, path);
    ArrayLoopIsAppendAll(cfg, field, schema, items, 0, [], path);
    AppendAllElementwise(parts, 0, [], path);
    var t := AppendAll(parts, 0, [], path);
    forall idx | 0 <= idx < |items|
      ensures parts[idx] == Read(cfg, field, schema.items, items[idx], path, false)
      ensures t.out.Ok? ==> parts[idx].out == Ok(t.out.value.items[idx])
    {
      if t.out.Ok? {
        assert parts[idx].out == Ok(t.out.value.items[0 + idx - 0]);
      }
    }
  }

  // ---------------------------------------------------------------------------------------
  // Maps

  /** The keys of the entries from position `j` on. */
  function KeysFrom(entries: seq<(string, Json)>, j: nat): set<string>
  {
    set idx | j <= idx < |entries| :: entries[idx].0
  }

  lemma KeysFromStep(entries: seq<(string, Json)>, j: nat)
    requires j < |entries|
    ensures KeysFrom(entries, j) == {entries[j].0} + KeysFrom(entries, j + 1)
  {
    assert entries[j].0 in KeysFrom(entries, j);
  }

  /** No later entry has the same key: the entry whose value a map or builder keeps. */
  predicate LastWithKey(entries: seq<(string, Json)>, idx: nat)
    requires idx < |entries|
  {
    forall l :: idx < l < |entries| ==> entries[l].0 != entries[idx].0
  }

  lemma LastWithKeyNotLater(entries: seq<(string, Json)>, idx: nat)
    requires idx < |entries| && LastWithKey(entries, idx)
    ensures entries[idx].0 !in KeysFrom(entries, idx + 1)
  {
  }

  /** The parts of the values of a map, each at the map's path. */
  function ValueReads(cfg: Config, field: Field, schema: Schema, entries: seq<(string, Json)>, path: seq<string>): (parts: seq<Traced>)
    requires schema.Map?
    ensures |parts| == |entries|
    ensures forall idx :: 0 <= idx < |entries| ==> parts[idx] == Read(cfg, field, schema.values, entries[idx].1, path, false)
  {
    seq(|entries|, idx requires 0 <= idx < |entries| => Read(cfg, field, schema.values, entries[idx].1, path, false))
  }

  /** Putting the values read under their keys in order, stopping at the first failure. */
  function PutAll(entries: seq<(string, Json)>, parts: seq<Traced>, j: nat, acc: map<string, Value>, path: seq<string>): Traced
    requires |parts| == |entries| && j <= |entries|
    decreases |entries| - j
  {
    if j == |entries| then Traced(Ok(VMap(acc)), path)
    else if parts[j].out.Err? then parts[j]
    else PutAll(entries, parts, j + 1, acc[entries[j].0 := parts[j].out.value], path)
  }

  /** On a union-safe schema every value is read at the map's path, so the map converter folds
      the independent parts of its values. */
  lemma {:induction false} MapLoopIsPutAll(cfg: Config, field: Field, schema: Schema, entries: seq<(string, Json)>, j: nat, acc: map<string, Value>, path: seq<string>)
    requires schema.Map? && j <= |entries| && UnionSafe(schema)
    ensures MapLoop(cfg, field, schema, entries, j, acc, path) == PutAll(entries, ValueReads(cfg, field, schema, entries, path), j, acc, path)
    decreases |entries| - j
  {
    if j < |entries| {
      ReadRestores(cfg, field, schema.values, entries[j].1, path, false);
      var t := Read(cfg, field, schema.values, entries[j].1, path, false);
      if t.out.Ok? {
        MapLoopIsPutAll(cfg, field, schema, entries, j + 1, acc[entries[j].0 := t.out.value], path);
      }
    }
  }

  lemma {:induction false} PutAllAccepts(entries: seq<(string, Json)>, parts: seq<Traced>, j: nat, acc: map<string, Value>, path: seq<string>)
    requires |parts| == |entries| && j <= |entries|
    ensures PutAll(entries, parts, j, acc, path).out.Ok? <==> forall idx :: j <= idx < |entries| ==> parts[idx].out.Ok?
    decreases |entries| - j
  {
    if j < |entries| && parts[j].out.Ok? {
      PutAllAccepts(entries, parts, j + 1, acc[entries[j].0 := parts[j].out.value], path);
    }
  }

  lemma {:induction false} PutAllLastWins(entries: seq<(string, Json)>, parts: seq<Traced>, j: nat, acc: map<string, Value>, path: seq<string>)
    requires |parts| == |entries| && j <= |entries|
    ensures var t := PutAll(entries, parts, j, acc, path);
            t.out.Ok? ==>
              t.out.value.VMap? && t.out.value.entries.Keys == acc.Keys + KeysFrom(entries, j) &&
              (forall k :: k in acc && k !in KeysFrom(entries, j) ==> t.out.value.entries[k] == acc[k]) &&
              forall idx :: j <= idx < |entries| && LastWithKey(entries, idx) ==>
                parts[idx].out == Ok(t.out.value.entries[entries[idx].0])
    decreases |entries| - j
  {
    if j < |entries| && parts[j].out.Ok? {
      PutAllLastWins(entries, parts, j + 1, acc[entries[j].0 := parts[j].out.value], path);
      KeysFromStep(entries, j);
      if LastWithKey(entries, j) {
        LastWithKeyNotLater(entries, j);
      }
    }
  }

  /** The map converter succeeds exactly when every value parts. */
  lemma MapAccepts(cfg: Config, field: Field, schema: Schema, entries: seq<(string, Json)>, path: seq<string>)
    requires schema.Map? && UnionSafe(schema)
    ensures MapLoop(cfg, field, schema, entries, 0, map[], path).out.Ok?
        <==> forall idx :: 0 <= idx < |entries| ==> Read(cfg, field, schema.values, entries[idx].1, path, false).out.Ok?
  {
    MapLoopIsPutAll(cfg, field, schema, entries, 0, map[], path);
    PutAllAccepts(entries, ValueReads(cfg, field, schema, entries, path), 0, map[], path);
  }

  /** The keys of the map are exactly the object's keys, and a key repeated in the object
      holds the value read from its last occurrence (later puts win). */
  lemma MapLastPutWins(cfg: Config, field: Field, schema: Schema, entries: seq<(string, Json)>, path: seq<string>)
    requires schema.Map? && UnionSafe(schema)
    ensures var t := MapLoop(cfg, field, schema, entries, 0, map[], path);
            t.out.Ok? ==>
              t.out.value.VMap? && t.out.value.entries.Keys == KeysOf(entries) &&
              forall idx :: 0 <= idx < |entries| && LastWithKey(entries, idx) ==>
                Read(cfg, field, schema.values, entries[idx].1, path, false).out == Ok(t.out.value.entries[entries[idx].0])
  {
    MapLoopIsPutAll(cfg, field, schema, entries, 0, map[], path);
    PutAllLastWins(entries, ValueReads(cfg, field, schema, entries, path), 0, map[], path);
    assert KeysFrom(entries, 0) == KeysOf(entries);
  }

  // ---------------------------------------------------------------------------------------
  // Records

  /** What the record converter does with one entry: set a declared field, skip an unknown
      key, or stop with an exception (the read's, the listener's or the builder's). */
  datatype EntryStep = SetField(name: string, value: Value) | Skip | Stop(error: Error, at: seq<string>)

  /** The step for one entry, with the path the converter is at. */
  function StepOf(cfg: Config, schema: Schema, entry: (string, Json), path: seq<string>): EntryStep
  {
    match GetField(schema, entry.0)
    case Some(sub) =>
      var t := Read(cfg, sub, sub.schema, entry.1, path, false);
      if t.out.Err? then Stop(t.out.error, t.path)
      else if !SetAccepts(sub, t.out.value) then Stop(NullNotAccepted(sub.name), t.path)
      else SetField(sub.name, t.out.value)
    case None =>
      if cfg.listener.None? then Skip
      else
        match cfg.listener.value(entry.0, entry.1, PrintWith(path, entry.0))
        case Some(e) => Stop(e, path)
        case None => Skip
  }

  /** The steps for the entries of an object, each at the record's path. */
  function RecordSteps(cfg: Config, schema: Schema, entries: seq<(string, Json)>, path: seq<string>): (steps: seq<EntryStep>)
    ensures |steps| == |entries|
    ensures forall idx :: 0 <= idx < |entries| ==> steps[idx] == StepOf(cfg, schema, entries[idx], path)
  {
    seq(|entries|, idx requires 0 <= idx < |entries| => StepOf(cfg, schema, entries[idx], path))
  }

  /** Applying the steps in order to the fields set so far. */
  function SetAll(steps: seq<EntryStep>, i: nat, built: map<string, Value>, path: seq<string>): Traced
    requires i <= |steps|
    decreases |steps| - i
  {
    if i == |steps| then Traced(Ok(VRecord(built)), path)
    else
      match steps[i]
      case SetField(name, value) => SetAll(steps, i + 1, built[name := value], path)
      case Skip => SetAll(steps, i + 1, built, path)
      case Stop(error, at) => Traced(Err(error), at)
  }

  /** `build()` after the steps: the exception they stopped with, or the record built from
      the fields they set. */
  function Built(schema: Schema, t: Traced): Traced
    requires schema.Record?
  {
    if t.out.Ok? && t.out.value.VRecord? then Traced(Build(schema, t.out.value.fields), t.path) else t
  }

  /** On a union-safe schema every entry is handled at the record's path, so the record
      converter applies the independent steps of its entries and then builds. */
  lemma {:induction false} RecordLoopIsSetAll(cfg: Config, schema: Schema, entries: seq<(string, Json)>, i: nat, built: map<string, Value>, path: seq<string>)
    requires schema.Record? && i <= |entries| && UnionSafe(schema)
    ensures RecordLoop(cfg, schema, entries, i, built, path) == Built(schema, SetAll(RecordSteps(cfg, schema, entries, path), i, built, path))
    decreases |entries| - i
  {
    if i < |entries| {
      var key := entries[i].0;
      match GetField(schema, key)
      case Some(sub) =>
        var j :| 0 <= j < |schema.fields| && schema.fields[j] == sub;
        ReadRestores(cfg, sub, sub.schema, entries[i].1, path, false);
        var t := Read(cfg, sub, sub.schema, entries[i].1, path, false);
        if t.out.Ok? {
          RecordLoopIsSetAll(cfg, schema, entries, i + 1, built[sub.name := t.out.value], path);
        }
      case None =>
        RecordLoopIsSetAll(cfg, schema, entries, i + 1, built, path);
    }
  }

  /** The names set by the steps from position `i` on. */
  function NamesSet(steps: seq<EntryStep>, i: nat): set<string>
  {
    set idx | i <= idx < |steps| && steps[idx].SetField? :: steps[idx].name
  }

  /** No later step sets the same name: the step whose value the record keeps. */
  predicate LastSet(steps: seq<EntryStep>, idx: nat)
    requires idx < |steps| && steps[idx].SetField?
  {
    forall l :: idx < l < |steps| && steps[l].SetField? ==> steps[l].name != steps[idx].name
  }

  lemma {:induction false} SetAllAccepts(steps: seq<EntryStep>, i: nat, built: map<string, Value>, path: seq<string>)
    requires i <= |steps|
    ensures SetAll(steps, i, built, path).out.Ok? <==> forall idx :: i <= idx < |steps| ==> !steps[idx].Stop?
    decreases |steps| - i
  {
    if i < |steps| {
      match steps[i]
      case SetField(name, value) => SetAllAccepts(steps, i + 1, built[name := value], path);
      case Skip => SetAllAccepts(steps, i + 1, built, path);
      case Stop(_, _) =>
    }
  }

  lemma {:induction false} SetAllFields(steps: seq<EntryStep>, i: nat, built: map<string, Value>, path: seq<string>)
    requires i <= |steps|
    ensures var t := SetAll(steps, i, built, path);
            t.out.Ok? ==>
              t.out.value.VRecord? && t.out.value.fields.Keys == built.Keys + NamesSet(steps, i) &&
              (forall k :: k in built && k !in NamesSet(steps, i) ==> t.out.value.fields[k] == built[k]) &&
              forall idx :: i <= idx < |steps| && steps[idx].SetField? && LastSet(steps, idx) ==>
                t.out.value.fields[steps[idx].name] == steps[idx].value
    decreases |steps| - i
  {
    if i < |steps| {
      var names := NamesSet(steps, i + 1);
      match steps[i]
      case SetField(name, value) =>
        SetAllFields(steps, i + 1, built[name := value], path);
        SetAllFieldsStep(steps, i, built, path);
      case Skip =>
        assert NamesSet(steps, i) == names;
        SetAllFields(steps, i + 1, built, path);
      case Stop(_, _) =>
    }
  }

  /** The step of SetAllFields over a step that sets a field. */
  lemma SetAllFieldsStep(steps: seq<EntryStep>, i: nat, built: map<string, Value>, path: seq<string>)
    requires i < |steps| && steps[i].SetField?
    requires var t := SetAll(steps, i + 1, built[steps[i].name := steps[i].value], path);
             t.out.Ok? ==>
               t.out.value.VRecord? &&
               t.out.value.fields.Keys == built[steps[i].name := steps[i].value].Keys + NamesSet(steps, i + 1) &&
               (forall k :: k in built[steps[i].name := steps[i].value] && k !in NamesSet(steps, i + 1) ==>
                  t.out.value.fields[k] == built[steps[i].name := steps[i].value][k]) &&
               forall idx :: i + 1 <= idx < |steps| && steps[idx].SetField? && LastSet(steps, idx) ==>
                 t.out.value.fields[steps[idx].name] == steps[idx].value
    ensures var t := SetAll(steps, i, built, path);
            t.out.Ok? ==>
              t.out.value.VRecord? && t.out.value.fields.Keys == built.Keys + NamesSet(steps, i) &&
              (forall k :: k in built && k !in NamesSet(steps, i) ==> t.out.value.fields[k] == built[k]) &&
              forall idx :: i <= idx < |steps| && steps[idx].SetField? && LastSet(steps, idx) ==>
                t.out.value.fields[steps[idx].name] == steps[idx].value
  {
    var name, value := steps[i].name, steps[i].value;
    var names := NamesSet(steps, i + 1);
    var after := built[name := value];
    var t := SetAll(steps, i + 1, after, path);
    assert SetAll(steps, i, built, path) == t;
    assert NamesSet(steps, i) == {name} + names;
    if t.out.Ok? {
      var fields := t.out.value.fields;
      assert fields.Keys == built.Keys + NamesSet(steps, i);
      forall k | k in built && k !in NamesSet(steps, i) ensures fields[k] == built[k] {
        assert k != name && k in after && k !in names;
      }
      if LastSet(steps, i) {
        assert name !in names;
        assert fields[name] == after[name];
      }
    }
  }

  /** The keys of the entries from position `i` on that the record schema declares. */
  function DeclaredFrom(schema: Schema, entries: seq<(string, Json)>, i: nat): set<string>
  {
    set idx | i <= idx < |entries| && GetField(schema, entries[idx].0).Some? :: entries[idx].0
  }

  /** Whether the record converter gets past one entry: a declared key must read strictly to
      a value its field accepts, an unknown one must not make the listener throw. */
  predicate EntryAccepted(cfg: Config, schema: Schema, entry: (string, Json), path: seq<string>)
  {
    match GetField(schema, entry.0)
    case Some(sub) =>
      var o := Read(cfg, sub, sub.schema, entry.1, path, false).out;
      o.Ok? && SetAccepts(sub, o.value)
    case None => cfg.listener.None? || cfg.listener.value(entry.0, entry.1, PrintWith(path, entry.0)).None?
  }

  /** A step stops exactly when its entry is not accepted, and sets a field exactly when its
      key is declared and the read succeeds, under the entry's own key. */
  lemma StepMeaning(cfg: Config, schema: Schema, entry: (string, Json), path: seq<string>)
    ensures StepOf(cfg, schema, entry, path).Stop? <==> !EntryAccepted(cfg, schema, entry, path)
    ensures var step := StepOf(cfg, schema, entry, path);
            step.SetField? <==> GetField(schema, entry.0).Some? && EntryAccepted(cfg, schema, entry, path)
    ensures var step := StepOf(cfg, schema, entry, path);
            step.SetField? ==>
              var sub := GetField(schema, entry.0).value;
              step.name == entry.0 && Read(cfg, sub, sub.schema, entry.1, path, false).out == Ok(step.value) &&
              SetAccepts(sub, step.value)
  {
  }

  /** The record converter succeeds exactly when every entry is accepted and every field of
      the schema is a declared key of the object or has a default. */
  lemma RecordAccepts(cfg: Config, schema: Schema, entries: seq<(string, Json)>, path: seq<string>)
    requires schema.Record? && UnionSafe(schema)
    ensures RecordLoop(cfg, schema, entries, 0, map[], path).out.Ok?
        <==> (forall idx :: 0 <= idx < |entries| ==> EntryAccepted(cfg, schema, entries[idx], path)) &&
             forall j :: 0 <= j < |schema.fields| ==>
               schema.fields[j].name in DeclaredFrom(schema, entries, 0) || schema.fields[j].hasDefault
  {
    var steps := RecordSteps(cfg, schema, entries, path);
    RecordLoopIsSetAll(cfg, schema, entries, 0, map[], path);
    SetAllAccepts(steps, 0, map[], path);
    SetAllFields(steps, 0, map[], path);
    forall idx | 0 <= idx < |entries|
      ensures steps[idx].Stop? <==> !EntryAccepted(cfg, schema, entries[idx], path)
      ensures steps[idx].SetField? <==> GetField(schema, entries[idx].0).Some? && EntryAccepted(cfg, schema, entries[idx], path)
      ensures steps[idx].SetField? ==> steps[idx].name == entries[idx].0
    {
      StepMeaning(cfg, schema, entries[idx], path);
    }
    if forall idx :: 0 <= idx < |entries| ==> EntryAccepted(cfg, schema, entries[idx], path) {
      assert NamesSet(steps, 0) == DeclaredFrom(schema, entries, 0);
    }
  }

  /** A record read holds exactly the declared keys present in the object (a JSON null
      included), each with the value read from its last occurrence (later sets win), which its
      field accepts, so a null only in a nullable or defaulted field; unknown keys leave no
      trace. */
  lemma RecordFieldsFromEntries(cfg: Config, schema: Schema, entries: seq<(string, Json)>, path: seq<string>)
    requires schema.Record? && UnionSafe(schema)
    ensures var t := RecordLoop(cfg, schema, entries, 0, map[], path);
            t.out.Ok? ==>
              t.out.value.VRecord? && t.out.value.fields.Keys == DeclaredFrom(schema, entries, 0) &&
              forall idx :: 0 <= idx < |entries| && LastWithKey(entries, idx) && GetField(schema, entries[idx].0).Some? ==>
                var sub := GetField(schema, entries[idx].0).value;
                Read(cfg, sub, sub.schema, entries[idx].1, path, false).out == Ok(t.out.value.fields[entries[idx].0]) &&
                SetAccepts(sub, t.out.value.fields[entries[idx].0])
  {
    var steps := RecordSteps(cfg, schema, entries, path);
    RecordLoopIsSetAll(cfg, schema, entries, 0, map[], path);
    RecordAccepts(cfg, schema, entries, path);
    SetAllFields(steps, 0, map[], path);
    var t := RecordLoop(cfg, schema, entries, 0, map[], path);
    if t.out.Ok? {
      assert t.out.value == SetAll(steps, 0, map[], path).out.value;
      forall idx | 0 <= idx < |entries|
        ensures steps[idx].SetField? <==> GetField(schema, entries[idx].0).Some?
        ensures steps[idx].SetField? ==> steps[idx].name == entries[idx].0
        ensures steps[idx].SetField? ==>
                  var sub := GetField(schema, entries[idx].0).value;
                  Read(cfg, sub, sub.schema, entries[idx].1, path, false).out == Ok(steps[idx].value) &&
                  SetAccepts(sub, steps[idx].value)
      {
        StepMeaning(cfg, schema, entries[idx], path);
      }
      assert NamesSet(steps, 0) == DeclaredFrom(schema, entries, 0);
      forall idx | 0 <= idx < |entries| && LastWithKey(entries, idx) && steps[idx].SetField?
        ensures LastSet(steps, idx)
      {
      }
    }
  }

  /** With the default listener every key of a successfully read object is a declared field. */
  lemma DefaultListenerAdmitsOnlyDeclaredKeys(cfg: Config, schema: Schema, entries: seq<(string, Json)>, path: seq<string>, silently: bool)
    requires cfg.listener == Some(FailOnUnknownField) && UnionSafe(schema)
    ensures ConvertRecord(cfg, schema, JObj(entries), path, silently).out.Ok? ==>
              forall idx :: 0 <= idx < |entries| ==> GetField(schema, entries[idx].0).Some?
  {
    if schema.Record? {
      RecordAccepts(cfg, schema, entries, path);
    }
  }

  /** With a null listener unknown keys are dropped: the read succeeds exactly when the
      declared entries read to values their fields accept and every field is present or
      defaulted, and the record holds the declared keys only. */
  lemma NullListenerDropsUnknownKeys(cfg: Config, schema: Schema, entries: seq<(string, Json)>, path: seq<string>, silently: bool)
    requires cfg.listener.None? && schema.Record? && UnionSafe(schema)
    ensures var t := ConvertRecord(cfg, schema, JObj(entries), path, silently);
            (t.out.Ok? <==>
               (forall idx :: 0 <= idx < |entries| && GetField(schema, entries[idx].0).Some? ==>
                  var sub := GetField(schema, entries[idx].0).value;
                  var o := Read(cfg, sub, sub.schema, entries[idx].1, path, false).out;
                  o.Ok? && SetAccepts(sub, o.value)) &&
               (forall j :: 0 <= j < |schema.fields| ==>
                  schema.fields[j].name in DeclaredFrom(schema, entries, 0) || schema.fields[j].hasDefault)) &&
            (t.out.Ok? ==> t.out.value.VRecord? && t.out.value.fields.Keys == DeclaredFrom(schema, entries, 0))
  {
    RecordAccepts(cfg, schema, entries, path);
    RecordFieldsFromEntries(cfg, schema, entries, path);
  }

  /** A caller-supplied converter for STRING schemas whose `convert` returns null. */
  function NullingManages(s: Schema, path: seq<string>): bool
  {
    TypeOf(s) == STRING
  }

  function NullingConvert(f: Field, s: Schema, v: Json, path: seq<string>, silently: bool): Outcome
  {
    Ok(VNull)
  }

  const Nulling: Converter := Leaf(NullingManages, NullingConvert)

  /** The `{"s": "x"}` object against a record with one STRING field `s`. */
  const NullingObject: Json := JObj([("s", JStr("x"))])

  /** `build()` throws for a field the object leaves out unless the field has a default. */
  lemma MissingFieldRejected(cfg: Config)
    ensures ReadRoot(cfg, JObj([]), Record("R", [Field("s", Plain(StringType), false)])).out == Err(MissingField("s"))
    ensures ReadRoot(cfg, JObj([]), Record("R", [Field("s", Plain(StringType), true)])).out == Ok(VRecord(map[]))
  {
  }

  /** A record branch with a required field `x`, and an empty record branch. */
  const RequiresX: Schema := Record("A", [Field("x", Plain(StringType), false)])
  const EmptyRecord: Schema := Record("B", [])

  const RecordUnion: Schema := Union([RequiresX, EmptyRecord])

  /** `build()`'s exception is an Avro runtime exception, so a union skips a record branch
      whose required field is missing and takes the next one. */
  lemma MissingFieldSkipsBranch(listener: Option<UnknownFieldListener>)
    ensures ReadRoot(Config([RecordConverter, UnionConverter], listener), JObj([("u", JObj([]))]),
                     Record("R", [Field("u", RecordUnion, false)])).out
         == Ok(VRecord(map["u" := VRecord(map[])]))
  {
    var cfg := Config([RecordConverter, UnionConverter], listener);
    var u := Field("u", RecordUnion, false);
    var r := Record("R", [u]);
    var v := JObj([]);
    RecordUnionRead(listener);
    assert GetField(r, "u") == Some(u);
    assert IsInstance(MapClass, JObj([("u", v)]));
    assert ReadRoot(cfg, JObj([("u", v)]), r) == RecordLoop(cfg, r, [("u", v)], 0, map[], []);
    assert SetAccepts(u, VRecord(map[]));
    assert RecordLoop(cfg, r, [("u", v)], 0, map[], []) == RecordLoop(cfg, r, [("u", v)], 1, map["u" := VRecord(map[])], []);
    assert Complete(r, map["u" := VRecord(map[])]);
  }

  /** The union field's read in MissingFieldSkipsBranch. */
  lemma RecordUnionRead(listener: Option<UnknownFieldListener>)
    ensures Read(Config([RecordConverter, UnionConverter], listener), Field("u", RecordUnion, false), RecordUnion, JObj([]), [], false)
         == Traced(Ok(VRecord(map[])), [])
  {
    var cfg := Config([RecordConverter, UnionConverter], listener);
    var u := Field("u", RecordUnion, false);
    var v := JObj([]);
    RecordUnionBranches(listener);
    assert Enter([], "u") == ["u"];
    assert FirstManaging(cfg.converters, RecordUnion, ["u"]) == 1;
    assert ConvertWith(cfg, UnionConverter, u, RecordUnion, v, ["u"], false) == UnionLoop(cfg, u, RecordUnion, v, 0, [], ["u"]);
  }

  /** The branch loop in MissingFieldSkipsBranch: the first branch fails to build, the second
      is the result. */
  lemma RecordUnionBranches(listener: Option<UnknownFieldListener>)
    ensures UnionLoop(Config([RecordConverter, UnionConverter], listener), Field("u", RecordUnion, false), RecordUnion, JObj([]), 0, [], ["u"])
         == Traced(Ok(VRecord(map[])), ["u"])
  {
    var cfg := Config([RecordConverter, UnionConverter], listener);
    var u := Field("u", RecordUnion, false);
    var v := JObj([]);
    assert Read(cfg, u, RequiresX, v, ["u"], true) == Traced(Err(MissingField("x")), ["u"]);
    assert Read(cfg, u, EmptyRecord, v, ["u"], true) == Traced(Ok(VRecord(map[])), ["u"]);
  }

  /** The union of NULL and STRING. */
  const NullableString: Schema := Union([Plain(NullType), Plain(StringType)])

  /** A null for a STRING field without a default makes `set` throw. */
  lemma NullRejectedWithoutDefault()
    ensures ReadRoot(Config([Nulling], None), NullingObject, Record("R", [Field("s", Plain(StringType), false)])).out
         == Err(NullNotAccepted("s"))
  {
    var f := Field("s", Plain(StringType), false);
    assert !SetAccepts(f, VNull);
    NullingRecordStep(f);
  }

  /** The same null is kept when the field has a default. */
  lemma NullKeptWithDefault()
    ensures ReadRoot(Config([Nulling], None), NullingObject, Record("R", [Field("s", Plain(StringType), true)])).out
         == Ok(VRecord(map["s" := VNull]))
  {
    var f := Field("s", Plain(StringType), true);
    var r := Record("R", [f]);
    assert SetAccepts(f, VNull);
    NullingRecordStep(f);
    assert Complete(r, map["s" := VNull]);
  }

  /** The Leaf gives null for the STRING field `s`, and the path is restored. */
  lemma NullingReadsNull(f: Field)
    requires f.name == "s" && f.schema == Plain(StringType)
    ensures Read(Config([Nulling], None), f, f.schema, JStr("x"), [], false) == Traced(Ok(VNull), [])
  {
    var cfg := Config([Nulling], None);
    assert Enter([], "s") == ["s"];
    assert FirstManaging(cfg.converters, f.schema, ["s"]) == 0;
    assert Dispatch(cfg, f, f.schema, JStr("x"), ["s"], false) == Traced(Ok(VNull), ["s"]);
  }

  /** The record of the single field `s` reads NullingObject by the Leaf's null: the set
      either fails or the loop goes on past the one entry. */
  lemma NullingRecordStep(f: Field)
    requires f.name == "s" && f.schema == Plain(StringType)
    ensures ReadRoot(Config([Nulling], None), NullingObject, Record("R", [f]))
         == if !SetAccepts(f, VNull) then Traced(Err(NullNotAccepted("s")), [])
            else RecordLoop(Config([Nulling], None), Record("R", [f]), NullingObject.entries, 1, map["s" := VNull], [])
  {
    var cfg := Config([Nulling], None);
    var r := Record("R", [f]);
    var entries := [("s", JStr("x"))];
    NullingReadsNull(f);
    assert GetField(r, "s") == Some(f);
    assert NullingObject.entries == entries;
    assert IsInstance(MapClass, NullingObject);
    assert ReadRoot(cfg, NullingObject, r) == RecordLoop(cfg, r, entries, 0, map[], []);
  }

  /** The same null is kept in a field whose union has a NULL branch: the NULL branch has no
      converter and is skipped, the STRING branch gives the null. */
  lemma NullKeptInNullableUnion()
    ensures ReadRoot(Config([Nulling, UnionConverter], None), NullingObject,
                     Record("R", [Field("s", NullableString, false)])).out
         == Ok(VRecord(map["s" := VNull]))
  {
    var cfg := Config([Nulling, UnionConverter], None);
    var f := Field("s", NullableString, false);
    var r := Record("R", [f]);
    var v := JStr("x");
    NullableUnionReadsNull();
    assert GetField(r, "s") == Some(f);
    assert TypeOf(NullableString.branches[0]) == NULL;
    assert SetAccepts(f, VNull);
    assert NullingObject.entries == [("s", v)];
    assert IsInstance(MapClass, NullingObject);
    assert ReadRoot(cfg, NullingObject, r) == RecordLoop(cfg, r, [("s", v)], 0, map[], []);
    assert RecordLoop(cfg, r, [("s", v)], 0, map[], []) == RecordLoop(cfg, r, [("s", v)], 1, map["s" := VNull], []);
    assert Complete(r, map["s" := VNull]);
  }

  /** The union field's read in NullKeptInNullableUnion. */
  lemma NullableUnionReadsNull()
    ensures Read(Config([Nulling, UnionConverter], None), Field("s", NullableString, false), NullableString, JStr("x"), [], false)
         == Traced(Ok(VNull), [])
  {
    var cfg := Config([Nulling, UnionConverter], None);
    var f := Field("s", NullableString, false);
    var v := JStr("x");
    NullableUnionBranches();
    assert Enter([], "s") == ["s"];
    assert FirstManaging(cfg.converters, NullableString, ["s"]) == 1;
    assert ConvertWith(cfg, UnionConverter, f, NullableString, v, ["s"], false) == UnionLoop(cfg, f, NullableString, v, 0, [], ["s"]);
    assert Dispatch(cfg, f, NullableString, v, ["s"], false) == Traced(Ok(VNull), ["s"]);
  }

  /** The branch loop in NullKeptInNullableUnion: no converter manages NULL, the Leaf gives
      the null for STRING. */
  lemma NullableUnionBranches()
    ensures UnionLoop(Config([Nulling, UnionConverter], None), Field("s", NullableString, false), NullableString, JStr("x"), 0, [], ["s"])
         == Traced(Ok(VNull), ["s"])
  {
    var schema := NullableString;
    var cfg := Config([Nulling, UnionConverter], None);
    var f := Field("s", schema, false);
    var v := JStr("x");
    assert Enter(["s"], "s") == ["s"];
    assert FirstManaging(cfg.converters, Plain(NullType), ["s"]) == 2;
    assert Read(cfg, f, Plain(NullType), v, ["s"], true) == Traced(Err(UnsupportedType("UNION")), ["s"]);
    assert FirstManaging(cfg.converters, Plain(StringType), ["s"]) == 0;
    var taken := Read(cfg, f, Plain(StringType), v, ["s"], true);
    assert taken == Traced(Ok(VNull), ["s"]);
    assert UnionLoop(cfg, f, schema, v, 0, [], ["s"]) == UnionLoop(cfg, f, schema, v, 1, [], ["s"]) == taken;
  }

  // ---------------------------------------------------------------------------------------
  // Unions

  /** The read of branch `k`, at the union's path. */
  function BranchRead(cfg: Config, field: Field, schema: Schema, value: Json, path: seq<string>, k: nat): Traced
    requires schema.Union? && k < |schema.branches|
  {
    Read(cfg, field, schema.branches[k], value, path, true)
  }

  /** The reads of all branches, each at the union's path. */
  function BranchReads(cfg: Config, field: Field, schema: Schema, value: Json, path: seq<string>): (parts: seq<Traced>)
    requires schema.Union?
    ensures |parts| == |schema.branches|
    ensures forall k :: 0 <= k < |schema.branches| ==> parts[k] == BranchRead(cfg, field, schema, value, path, k)
  {
    seq(|schema.branches|, k requires 0 <= k < |schema.branches| => BranchRead(cfg, field, schema, value, path, k))
  }

  /** A branch outcome the union converter moves past: an Avro exception or `Incompatible`. */
  predicate Skipped(t: Traced)
  {
    (t.out.Err? && IsAvroRuntime(t.out.error)) || (t.out.Ok? && t.out.value.VIncompatible?)
  }

  /** The texts of the `Incompatible` answers among the first `k` outcomes, in order. */
  function Texts(parts: seq<Traced>, k: nat): seq<string>
    requires k <= |parts|
  {
    if k == 0 then []
    else Texts(parts, k - 1) + (if parts[k - 1].out.Ok? && parts[k - 1].out.value.VIncompatible? then [parts[k - 1].out.value.expected] else [])
  }

  /** The texts of the `Incompatible` answers among the first `k` branches, in branch order. */
  function IncompatibleTexts(cfg: Config, field: Field, schema: Schema, value: Json, path: seq<string>, k: nat): seq<string>
    requires schema.Union? && k <= |schema.branches|
  {
    Texts(BranchReads(cfg, field, schema, value, path), k)
  }

  /** Trying the branch outcomes in order from `k` on, as the union converter does. */
  function TryAll(name: string, parts: seq<Traced>, k: nat, expected: seq<string>, path: seq<string>): Traced
    requires k <= |parts|
    decreases |parts| - k
  {
    if k == |parts| then Traced(Err(UnionExhausted(name, Join(expected, ", "), Print(path))), path)
    else if parts[k].out.Err? then
      if IsAvroRuntime(parts[k].out.error) then TryAll(name, parts, k + 1, expected, path) else parts[k]
    else if parts[k].out.value.VIncompatible? then TryAll(name, parts, k + 1, expected + [parts[k].out.value.expected], path)
    else parts[k]
  }

  /** Under a field already on the path and without records, every branch is read at the
      union's path, so the union converter tries the independent reads of its branches. */
  lemma {:induction false} UnionLoopIsTryAll(cfg: Config, field: Field, schema: Schema, value: Json, k: nat, expected: seq<string>, path: seq<string>)
    requires schema.Union? && k <= |schema.branches| && RecordFree(schema) && |path| > 0 && path[|path| - 1] == field.name
    ensures UnionLoop(cfg, field, schema, value, k, expected, path) == TryAll(field.name, BranchReads(cfg, field, schema, value, path), k, expected, path)
    decreases |schema.branches| - k
  {
    if k < |schema.branches| {
      ReadStable(cfg, field, schema.branches[k], value, path, true);
      var t := Read(cfg, field, schema.branches[k], value, path, true);
      if t.out.Err? {
        UnionLoopIsTryAll(cfg, field, schema, value, k + 1, expected, path);
      } else if t.out.value.VIncompatible? {
        UnionLoopIsTryAll(cfg, field, schema, value, k + 1, expected + [t.out.value.expected], path);
      }
    }
  }

  /** Moving past one skipped outcome. */
  lemma TryAllStep(name: string, parts: seq<Traced>, m: nat, path: seq<string>)
    requires m < |parts| && Skipped(parts[m])
    ensures TryAll(name, parts, m, Texts(parts, m), path) == TryAll(name, parts, m + 1, Texts(parts, m + 1), path)
  {
    var texts := Texts(parts, m);
    if parts[m].out.Err? {
      assert Texts(parts, m + 1) == texts;
    } else {
      assert Texts(parts, m + 1) == texts + [parts[m].out.value.expected];
    }
  }

  lemma {:induction false} TryAllFrom(name: string, parts: seq<Traced>, path: seq<string>, m: nat, k: nat)
    requires m <= k <= |parts|
    requires forall j :: 0 <= j < k ==> Skipped(parts[j])
    requires k < |parts| ==> !Skipped(parts[k])
    ensures TryAll(name, parts, m, Texts(parts, m), path)
         == if k == |parts| then Traced(Err(UnionExhausted(name, Join(Texts(parts, k), ", "), Print(path))), path)
            else parts[k]
    decreases k - m
  {
    if m < k {
      TryAllStep(name, parts, m, path);
      TryAllFrom(name, parts, path, m + 1, k);
    }
  }

  /** The union converter's result is that of the first branch whose read is neither an Avro
      exception nor `Incompatible`; when every branch is, it fails naming the field, the
      incompatible branches' expected types in order, and the path. The union reads its
      branches silently whatever its own `silently` flag. */
  lemma UnionFirstDecisive(cfg: Config, field: Field, schema: Schema, value: Json, path: seq<string>, k: nat, silently: bool)
    requires schema.Union? && RecordFree(schema) && |path| > 0 && path[|path| - 1] == field.name
    requires k <= |schema.branches|
    requires forall j :: 0 <= j < k ==> Skipped(BranchRead(cfg, field, schema, value, path, j))
    requires k < |schema.branches| ==> !Skipped(BranchRead(cfg, field, schema, value, path, k))
    ensures ConvertWith(cfg, UnionConverter, field, schema, value, path, silently)
         == if k == |schema.branches|
            then Traced(Err(UnionExhausted(field.name, Join(IncompatibleTexts(cfg, field, schema, value, path, k), ", "), Print(path))), path)
            else BranchRead(cfg, field, schema, value, path, k)
  {
    var parts := BranchReads(cfg, field, schema, value, path);
    UnionLoopIsTryAll(cfg, field, schema, value, 0, [], path);
    TryAllFrom(field.name, parts, path, 0, k);
  }

  /** `Incompatible` never leaves a union: it is turned into the next branch or the
      exhausted-union exception. */
  lemma {:induction false} UnionNeverIncompatible(cfg: Config, field: Field, schema: Schema, value: Json, k: nat, expected: seq<string>, path: seq<string>)
    requires schema.Union? && k <= |schema.branches|
    ensures var t := UnionLoop(cfg, field, schema, value, k, expected, path);
            t.out.Ok? ==> !t.out.value.VIncompatible?
    decreases |schema.branches| - k
  {
    if k < |schema.branches| {
      var t := Read(cfg, field, schema.branches[k], value, path, true);
      if t.out.Err? {
        UnionNeverIncompatible(cfg, field, schema, value, k + 1, expected, t.path);
      } else if t.out.value.VIncompatible? {
        UnionNeverIncompatible(cfg, field, schema, value, k + 1, expected + [t.out.value.expected], t.path);
      }
    }
  }

  // ---------------------------------------------------------------------------------------
  // The top level

  lemma {:induction false} RecordLoopBuildsRecord(cfg: Config, schema: Schema, entries: seq<(string, Json)>, i: nat, built: map<string, Value>, path: seq<string>)
    requires schema.Record? && i <= |entries|
    ensures var t := RecordLoop(cfg, schema, entries, i, built, path); t.out.Ok? ==> t.out.value.VRecord?
    decreases |entries| - i
  {
    if i < |entries| {
      var key := entries[i].0;
      match GetField(schema, key)
      case Some(sub) =>
        var t := Read(cfg, sub, sub.schema, entries[i].1, path, false);
        if t.out.Ok? {
          RecordLoopBuildsRecord(cfg, schema, entries, i + 1, built[sub.name := t.out.value], t.path);
        }
      case None =>
        RecordLoopBuildsRecord(cfg, schema, entries, i + 1, built, path);
    }
  }

  /** `read(json, schema)` yields a record or an exception: a JSON value that is not an
      object fails the Map gate, a schema that is not a record fails the builder, and on a
      union-safe schema a successful read ends on the empty path it started from. */
  lemma ReadRootResult(cfg: Config, json: Json, schema: Schema)
    ensures !json.JObj? ==> ReadRoot(cfg, json, schema) == Traced(Err(TypeMismatch("", "java.util.Map")), [])
    ensures json.JObj? && !schema.Record? ==> ReadRoot(cfg, json, schema) == Traced(Err(NotARecord(TypeName(TypeOf(schema)))), [])
    ensures ReadRoot(cfg, json, schema).out.Ok? ==> ReadRoot(cfg, json, schema).out.value.VRecord?
    ensures UnionSafe(schema) && ReadRoot(cfg, json, schema).out.Ok? ==> ReadRoot(cfg, json, schema).path == []
  {
    if json.JObj? && schema.Record? {
      RecordLoopBuildsRecord(cfg, schema, json.entries, 0, map[], []);
      if UnionSafe(schema) {
        RecordLoopRestores(cfg, schema, json.entries, 0, map[], []);
      }
    }
  }
}
