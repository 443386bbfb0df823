/** What the readers produce: Avro datum values, the exceptions a read can end in, and the
    fixed-width integer arithmetic of the JVM that the conversions rely on. */
module Values {
  import opened Wrappers
  import opened JsonValues

  newtype byte = b: int | 0 <= b < 256

  /** An Avro datum as the readers build it. `VFloat` and `VDouble` keep the integer they were
      converted from. `VIncompatible` is the `AvroTypeConverter.Incompatible` marker of the
      composite reader; `VSentinel` is the private `INCOMPATIBLE` object of the generic reader. */
  datatype Value =
    | VNull
    | VBoolean(b: bool)
    | VInt(i: int)
    | VLong(l: int)
    | VFloat(f: int)
    | VDouble(d: int)
    | VString(s: string)
    | VBytes(bytes: seq<byte>)
    | VEnum(symbol: string)
    | VArray(items: seq<Value>)
    | VMap(entries: map<string, Value>)
    | VRecord(fields: map<string, Value>)
    | VIncompatible(expected: string)
    | VSentinel

  /** The exceptions a read can end in. The first group are Avro runtime exceptions, which a
      union catches; the second group are the JVM exceptions that cross a union unchanged. */
  datatype Error =
    // AvroTypeException "Field <path> is expected to be type: <javaType>"
    | TypeMismatch(path: string, expected: string)
    // AvroTypeException "Field <path> is expected to be of enum type and be one of <symbols>"
    | EnumMismatch(path: string, symbols: string)
    // AvroTypeException "Could not evaluate union, field <field> is expected to be one of these: ..."
    | UnionExhausted(field: string, expected: string, path: string)
    // AvroTypeException "Unsupported type: <type>"
    | UnsupportedType(typeName: string)
    // AvroRuntimeException "Not a record: <schema>" from the GenericRecordBuilder constructor
    | NotARecord(typeName: string)
    // AvroRuntimeException "Not an enum: <schema>" from Schema.getEnumSymbols
    | NotAnEnum(typeName: string)
    // AvroTypeException "Field <path> should be a valid <format>."
    | InvalidDateTime(path: string, format: string)
    // AvroTypeException "Field <path> is expected to be type: java.lang.String or java.lang.Number."
    | NotStringOrNumber(path: string)
    // AvroTypeException "Field <path> is expected to be a valid number. current value is <value>."
    | InvalidNumber(path: string, value: Json)
    // AvroTypeException "Field <path> is unknown"
    | UnknownField(path: string)
    // AvroRuntimeException (AvroMissingFieldException) from GenericRecordBuilder.build
    | MissingField(field: string)
    // AvroRuntimeException from GenericRecordBuilder.set
    | NullNotAccepted(field: string)
    // an exception raised by a caller-supplied converter or listener
    | Custom(message: string, avroRuntime: bool)
    // java.lang.ArithmeticException from Math.multiplyExact / addExact
    | ArithmeticOverflow
    // java.time.DateTimeException other than a parse failure
    | JavaTimeError
    // java.lang.NullPointerException
    | NullPointer
    // java.lang.ClassCastException
    | ClassCast
    // java.lang.NumberFormatException
    | NumberFormat(text: string)

  /** Whether the exception is an `AvroRuntimeException` (the class a union read catches). */
  predicate IsAvroRuntime(e: Error)
  {
    match e
    case Custom(_, avroRuntime) => avroRuntime
    case ArithmeticOverflow => false
    case JavaTimeError => false
    case NullPointer => false
    case ClassCast => false
    case NumberFormat(_) => false
    case _ => true
  }

  /** The result of a read: the converted value or the exception it threw. */
  type Outcome = Result<Value, Error>

  /** What a read leaves behind: its outcome, and the path as the read left it (on an exception
      the segments pushed below the failing field are not popped). */
  datatype Traced = Traced(out: Outcome, path: seq<string>)

  const TWO_32: int := 0x1_0000_0000
  const TWO_64: int := 0x1_0000_0000_0000_0000
  const INT_MIN: int := -0x8000_0000
  const INT_MAX: int := 0x7FFF_FFFF
  const LONG_MIN: int := -0x8000_0000_0000_0000
  const LONG_MAX: int := 0x7FFF_FFFF_FFFF_FFFF

  predicate InInt(i: int) { INT_MIN <= i <= INT_MAX }
  predicate InLong(i: int) { LONG_MIN <= i <= LONG_MAX }

  /** Narrowing to a Java `int` (`Number.intValue`, an `(int)` cast): the unique 32-bit value
      congruent to `i` modulo 2^32. */
  function ToInt(i: int): (r: int)
    ensures InInt(r)
    ensures (r - i) % TWO_32 == 0
    ensures InInt(i) ==> r == i
  {
    (i - INT_MIN) % TWO_32 + INT_MIN
  }

  /** Narrowing to a Java `long` (`Number.longValue`), and the result of an unchecked `long`
      multiplication: the unique 64-bit value congruent to `i` modulo 2^64. */
  function ToLong(i: int): (r: int)
    ensures InLong(r)
    ensures (r - i) % TWO_64 == 0
    ensures InLong(i) ==> r == i
  {
    (i - LONG_MIN) % TWO_64 + LONG_MIN
  }

  /** `Math.multiplyExact` / `Math.addExact` on `long`: the exact result, or an
      ArithmeticException when it does not fit. */
  function Exact(i: int): (r: Result<int, Error>)
    ensures r.Ok? <==> InLong(i)
    ensures r.Ok? ==> r.value == i
    ensures r.Err? ==> r.error == ArithmeticOverflow
  {
    if InLong(i) then Ok(i) else Err(ArithmeticOverflow)
  }
}
