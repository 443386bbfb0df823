/** `PrimitiveConverter`: the seven converters for the primitive schema types other than null.
    Each passes values of one Java class through the strict gate and maps them; none looks at
    the logical type, the path or the `silently` flag. */
module PrimitiveConverters {
  import opened Wrappers
  import opened JsonValues
  import opened Values
  import opened AvroSchema
  import opened AvroTypeConverters
  import Utf8

  /** The static instances `BOOLEAN`, `STRING`, `INT`, `LONG`, `DOUBLE`, `FLOAT` and `BYTES`. */
  datatype PrimitiveInstance =
    BooleanInstance | StringInstance | IntInstance | LongInstance | DoubleInstance | FloatInstance | BytesInstance

  /** The converter's `avroType`. */
  function AvroType(p: PrimitiveInstance): SchemaType
  {
    match p
    case BooleanInstance => BOOLEAN
    case StringInstance => STRING
    case IntInstance => INT
    case LongInstance => LONG
    case DoubleInstance => DOUBLE
    case FloatInstance => FLOAT
    case BytesInstance => BYTES
  }

  /** The Java class its gate admits. */
  function JavaType(p: PrimitiveInstance): JavaClass
  {
    match p
    case BooleanInstance => BooleanClass
    case StringInstance => StringClass
    case BytesInstance => StringClass
    case _ => NumberClass
  }

  /** `canManage`: the schema type is the converter's type, whatever its logical type. */
  predicate CanManage(p: PrimitiveInstance, s: Schema)
  {
    TypeOf(s) == AvroType(p)
  }

  /** The `mapper` of each instance: identity for booleans and strings, `intValue` and
      `longValue` for the integral types, the number itself for the floating types (JSON numbers
      are integers here), and the UTF-8 bytes of a string for BYTES. */
  function Mapper(p: PrimitiveInstance, v: Json): Value
    requires IsInstance(JavaType(p), v)
  {
    match p
    case BooleanInstance => VBoolean(v.b)
    case StringInstance => VString(v.s)
    case IntInstance => VInt(ToInt(v.i))
    case LongInstance => VLong(ToLong(v.i))
    case DoubleInstance => VDouble(v.i)
    case FloatInstance => VFloat(v.i)
    case BytesInstance => VBytes(Utf8.Encode(v.s))
  }

  /** `convert`: the gate, then the mapper. */
  function Convert(p: PrimitiveInstance, v: Json, path: seq<string>, silently: bool): (r: Outcome)
    ensures IsInstance(JavaType(p), v) ==> r.Ok? && !r.value.VIncompatible?
    ensures !IsInstance(JavaType(p), v) ==> r == Rejected(JavaType(p), path, silently)
  {
    if IsInstance(JavaType(p), v) then Ok(Mapper(p, v)) else Rejected(JavaType(p), path, silently)
  }

  /** Booleans and strings come out as they went in. */
  lemma BooleanAndStringUnchanged(b: bool, s: string, path: seq<string>, silently: bool)
    ensures Convert(BooleanInstance, JBool(b), path, silently) == Ok(VBoolean(b))
    ensures Convert(StringInstance, JStr(s), path, silently) == Ok(VString(s))
  {
  }

  /** INT and LONG accept any number and narrow it as the JVM does; a number that fits comes
      out unchanged. */
  lemma IntegralNarrowing(i: int, path: seq<string>, silently: bool)
    ensures var r := Convert(IntInstance, JInt(i), path, silently);
            r.Ok? && r.value.VInt? && InInt(r.value.i) && (r.value.i - i) % TWO_32 == 0 && (InInt(i) ==> r.value.i == i)
    ensures var r := Convert(LongInstance, JInt(i), path, silently);
            r.Ok? && r.value.VLong? && InLong(r.value.l) && (r.value.l - i) % TWO_64 == 0 && (InLong(i) ==> r.value.l == i)
  {
  }

  /** BYTES yields the UTF-8 encoding of the string, which decodes back to the string. */
  lemma BytesAreUtf8(s: string, path: seq<string>, silently: bool)
    ensures var r := Convert(BytesInstance, JStr(s), path, silently);
            r.Ok? && r.value.VBytes? && Utf8.Decode(r.value.bytes) == Some(s)
  {
    Utf8.DecodeEncode(s);
  }

  /** The flag matters only to values the gate turns away. */
  lemma SilentlyOnlyAtTheGate(p: PrimitiveInstance, v: Json, path: seq<string>)
    requires IsInstance(JavaType(p), v)
    ensures Convert(p, v, path, true) == Convert(p, v, path, false)
  {
  }

  /** A null is refused by every primitive converter. */
  lemma NullRefused(p: PrimitiveInstance, path: seq<string>, silently: bool)
    ensures Convert(p, JNull, path, silently) == Rejected(JavaType(p), path, silently)
  {
  }
}
