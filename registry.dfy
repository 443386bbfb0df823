/** The converters a composite reader can be built with: the built-in registry the constructor
    appends after the caller's converters, and the date-time and decimal converters a caller
    may pass in. Each leaf converter is its `canManage` and its `convert`. */
module Registry {
  import opened Wrappers
  import opened JsonValues
  import opened Values
  import opened AvroSchema
  import opened UnknownFields
  import opened Paths
  import opened EnumNullConverters
  import opened CompositeReading
  import PrimitiveConverters
  import DateTimeConverters
  import DateTimes
  import Decimals

  /** `PrimitiveConverter.BOOLEAN`, `STRING`, `INT`, `LONG`, `DOUBLE`, `FLOAT` and `BYTES`. */
  function PrimitiveLeaf(p: PrimitiveConverters.PrimitiveInstance): Converter
  {
    Leaf((s, path) => PrimitiveConverters.CanManage(p, s),
         (field, s, value, path, silently) => PrimitiveConverters.Convert(p, value, path, silently))
  }

  /** `EnumConverter.INSTANCE`. */
  const ENUM: Converter :=
    Leaf((s, path) => EnumCanManage(s),
         (field, s, value, path, silently) => EnumConvert(s, value, path, silently))

  /** `NullConverter.INSTANCE`. */
  const NULL: Converter :=
    Leaf((s, path) => NullCanManage(s),
         (field, s, value, path, silently) => NullConvert(value, silently))

  /** The built-in registry, in the order the constructor adds it. */
  const BUILTINS: seq<Converter> := [
    PrimitiveLeaf(PrimitiveConverters.BooleanInstance),
    PrimitiveLeaf(PrimitiveConverters.StringInstance),
    PrimitiveLeaf(PrimitiveConverters.IntInstance),
    PrimitiveLeaf(PrimitiveConverters.LongInstance),
    PrimitiveLeaf(PrimitiveConverters.DoubleInstance),
    PrimitiveLeaf(PrimitiveConverters.FloatInstance),
    PrimitiveLeaf(PrimitiveConverters.BytesInstance),
    ENUM,
    NULL,
    RecordConverter,
    ArrayConverter,
    MapConverter,
    UnionConverter
  ]

  /** The five date-time converters, each with the formatter its string form is parsed with. */
  function DateTimeLeaf(kind: DateTimeConverters.DateTimeKind, formatter: DateTimes.Formatter): Converter
  {
    Leaf((s, path) => DateTimeConverters.CanManage(kind, s),
         (field, s, value, path, silently) => DateTimeConverters.Convert(kind, formatter, value, path, silently))
  }

  /** A date-time converter written against `AbstractDateTimeConverter`. */
  function TemplateLeaf(template: DateTimeConverters.DateTimeTemplate): Converter
  {
    Leaf((s, path) => DateTimeConverters.TemplateCanManage(template, s),
         (field, s, value, path, silently) => DateTimeConverters.TemplateConvert(template, value, path, silently))
  }

  /** `BytesDecimalConverter.INSTANCE`; unboxing a missing scale throws a null pointer
      exception. */
  const DECIMAL: Converter :=
    Leaf((s, path) => Decimals.CanManage(s),
         (field, s, value, path, silently) =>
           if ScaleProp(s).None? then Err(NullPointer) else Decimals.Convert(s, value, path, silently))

  /** The configuration of a reader built from additional converters and a listener. */
  function NewConfig(additional: seq<Converter>, listener: Option<UnknownFieldListener>): Config
  {
    Config(additional + BUILTINS, listener)
  }

  /** The configuration of a reader built without a listener: unknown fields fail. */
  function DefaultConfig(additional: seq<Converter>): Config
  {
    NewConfig(additional, Some(FailOnUnknownField))
  }

  /** Dispatch over a concatenated registry consults the second part only when no converter
      of the first part manages the schema. */
  lemma {:induction false} FirstManagingAppend(a: seq<Converter>, b: seq<Converter>, s: Schema, path: seq<string>)
    ensures FirstManaging(a + b, s, path)
         == if FirstManaging(a, s, path) < |a| then FirstManaging(a, s, path) else |a| + FirstManaging(b, s, path)
  {
    if |a| == 0 {
      assert a + b == b;
    } else {
      assert (a + b)[1..] == a[1..] + b;
      FirstManagingAppend(a[1..], b, s, path);
    }
  }

  /** Converters passed to the constructor take precedence over the built-in ones: the first
      of them that manages a schema is the one used; the built-ins are reached only when
      none of them does. */
  lemma AdditionalConvertersFirst(additional: seq<Converter>, s: Schema, path: seq<string>)
    ensures FirstManaging(additional, s, path) < |additional| ==>
              FirstManaging(additional + BUILTINS, s, path) == FirstManaging(additional, s, path)
    ensures FirstManaging(additional, s, path) == |additional| ==>
              FirstManaging(additional + BUILTINS, s, path) == |additional| + FirstManaging(BUILTINS, s, path)
  {
    FirstManagingAppend(additional, BUILTINS, s, path);
  }

  /** The built-in converter responsible for each schema type; FIXED has none. */
  function BuiltinFor(t: SchemaType): Converter
    requires t != FIXED
  {
    match t
    case BOOLEAN => PrimitiveLeaf(PrimitiveConverters.BooleanInstance)
    case STRING => PrimitiveLeaf(PrimitiveConverters.StringInstance)
    case INT => PrimitiveLeaf(PrimitiveConverters.IntInstance)
    case LONG => PrimitiveLeaf(PrimitiveConverters.LongInstance)
    case DOUBLE => PrimitiveLeaf(PrimitiveConverters.DoubleInstance)
    case FLOAT => PrimitiveLeaf(PrimitiveConverters.FloatInstance)
    case BYTES => PrimitiveLeaf(PrimitiveConverters.BytesInstance)
    case ENUM => ENUM
    case NULL => NULL
    case RECORD => RecordConverter
    case ARRAY => ArrayConverter
    case MAP => MapConverter
    case UNION => UnionConverter
  }

  /** Where a converter sits in the built-in registry. */
  function BuiltinIndex(t: SchemaType): (i: nat)
    requires t != FIXED
    ensures i < |BUILTINS| && BUILTINS[i] == BuiltinFor(t)
  {
    match t
    case BOOLEAN => 0
    case STRING => 1
    case INT => 2
    case LONG => 3
    case DOUBLE => 4
    case FLOAT => 5
    case BYTES => 6
    case ENUM => 7
    case NULL => 8
    case RECORD => 9
    case ARRAY => 10
    case MAP => 11
    case UNION => 12
  }

  /** Among the built-in converters exactly the one for the schema's type manages it,
      whatever the logical type; none manages FIXED. */
  lemma BuiltinManagesOnlyItsType(j: nat, s: Schema, path: seq<string>)
    requires j < |BUILTINS|
    ensures CanManage(BUILTINS[j], s, path) <==> TypeOf(s) != FIXED && j == BuiltinIndex(TypeOf(s))
  {
  }

  /** The built-in registry dispatches on the schema type alone: every type except FIXED finds
      its converter, FIXED finds none. */
  lemma BuiltinsDispatchOnType(s: Schema, path: seq<string>)
    ensures FirstManaging(BUILTINS, s, path) == |BUILTINS| <==> TypeOf(s) == FIXED
    ensures TypeOf(s) != FIXED ==> BUILTINS[FirstManaging(BUILTINS, s, path)] == BuiltinFor(TypeOf(s))
  {
    var i := FirstManaging(BUILTINS, s, path);
    if i < |BUILTINS| {
      BuiltinManagesOnlyItsType(i, s, path);
    } else if TypeOf(s) != FIXED {
      BuiltinManagesOnlyItsType(BuiltinIndex(TypeOf(s)), s, path);
    }
  }

  /** The built-in registry has no converter for FIXED. */
  lemma FixedUnsupported(listener: Option<UnknownFieldListener>, field: Field, schema: Schema, value: Json, path: seq<string>, silently: bool)
    requires TypeOf(schema) == FIXED
    ensures Read(Config(BUILTINS, listener), field, schema, value, path, silently)
         == Traced(Err(UnsupportedType(TypeName(TypeOf(field.schema)))), Enter(path, field.name))
  {
    BuiltinsDispatchOnType(schema, Enter(path, field.name));
  }
}
