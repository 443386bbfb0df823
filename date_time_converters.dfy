/** The logical-type converters of the composite reader for dates, times and timestamps
    (`IntDateConverter`, `IntTimeMillisConverter`, `LongTimeMicrosConverter`,
    `LongTimestampMillisConverter`, `LongTimestampMicrosConverter`), and the
    `AbstractDateTimeConverter` template with its `int` refinement
    `AbstractIntDateTimeConverter`. A string is parsed with the converter's formatter; a number
    is taken as the value itself. Only a `DateTimeParseException` is turned into an
    `Incompatible` or a "should be a valid" error; a parse that lacks the fields the converter
    needs raises a `DateTimeException` that nothing here catches. */
module DateTimeConverters {
  import opened Wrappers
  import opened JsonValues
  import opened Values
  import opened AvroSchema
  import opened Paths
  import opened DateTimes
  import opened AvroTypeConverters
  import Decimals

  /** The five concrete converters. */
  datatype DateTimeKind = IntDate | IntTimeMillis | LongTimeMicros | LongTimestampMillis | LongTimestampMicros

  /** The schema type each converter manages. */
  function UnderlyingType(k: DateTimeKind): SchemaType
  {
    if k == IntDate || k == IntTimeMillis then INT else LONG
  }

  /** The logical type each converter manages. */
  function LogicalName(k: DateTimeKind): string
  {
    match k
    case IntDate => "date"
    case IntTimeMillis => "time-millis"
    case LongTimeMicros => "time-micros"
    case LongTimestampMillis => "timestamp-millis"
    case LongTimestampMicros => "timestamp-micros"
  }

  /** The word in "should be a valid ...". */
  function StringFormat(k: DateTimeKind): string
  {
    match k
    case IntDate => "date"
    case IntTimeMillis => "time"
    case LongTimeMicros => "time"
    case LongTimestampMillis => "date time"
    case LongTimestampMicros => "date time"
  }

  /** What a number stands for. */
  function NumberFormat(k: DateTimeKind): string
  {
    match k
    case IntDate => "epoch days"
    case IntTimeMillis => "millis"
    case LongTimeMicros => "micros"
    case LongTimestampMillis => "timestamp"
    case LongTimestampMicros => "timestamp"
  }

  /** The `getValidJsonFormat` scheme of the template: "<string format> string, <number
      format> number". */
  function JsonFormat(stringFormat: string, numberFormat: string): string
  {
    stringFormat + " string, " + numberFormat + " number"
  }

  /** `VALID_JSON_FORMAT` of each converter. */
  function ValidJsonFormat(k: DateTimeKind): string
  {
    JsonFormat(StringFormat(k), NumberFormat(k))
  }

  /** The constant spelled out in `IntDateConverter` is the template's scheme filled in. */
  lemma DateFormatText()
    ensures ValidJsonFormat(IntDate) == "date string, epoch days number"
  {
    var a, b := "date", "epoch days";
    assert "date string, epoch days number" == a + " string, " + b + " number";
  }

  /** `canManage`: the converter's schema type carrying its logical type. */
  predicate CanManage(k: DateTimeKind, s: Schema)
  {
    TypeOf(s) == UnderlyingType(k) && IsLogicalType(s, LogicalName(k))
  }

  /** What parsing a string produced: a value, a `DateTimeParseException`, or another
      exception. */
  datatype Attempt = Converted(value: Value) | ParseFailed | Failed(error: Error)

  /** The instant of a parse, if it resolved `INSTANT_SECONDS` (a date, a time and an offset). */
  function InstantOf(p: Parsed): Option<Instant>
  {
    if p.date.Some? && p.time.Some? && p.offsetSeconds.Some? then
      Some(ToInstant(p.date.value, p.time.value, p.offsetSeconds.value))
    else None
  }

  /** The `try` block of each converter on a string:
      - date: `LocalDate.from(...).toEpochDay()`, a long;
      - time-millis and time-micros: `toNanoOfDay()` through `TimeUnit.toMillis` / `toMicros`;
      - timestamp-millis: `INSTANT_SECONDS` times 1000, an unchecked `long` product;
      - timestamp-micros: the exact-arithmetic conversion of the instant. */
  function ParseString(k: DateTimeKind, f: Formatter, s: string): (a: Attempt)
    ensures f(s).None? <==> a.ParseFailed?
  {
    match f(s)
    case None => ParseFailed
    case Some(p) =>
      match k
      case IntDate =>
        if p.date.None? then Failed(JavaTimeError) else Converted(VLong(ToEpochDay(p.date.value)))
      case IntTimeMillis =>
        if p.time.None? then Failed(JavaTimeError)
        else Converted(VLong(Decimals.DivDown(ToNanoOfDay(p.time.value), 1_000_000)))
      case LongTimeMicros =>
        if p.time.None? then Failed(JavaTimeError)
        else Converted(VLong(Decimals.DivDown(ToNanoOfDay(p.time.value), 1000)))
      case LongTimestampMillis =>
        (match InstantOf(p)
         case None => Failed(JavaTimeError)
         case Some(i) => Converted(VLong(ToLong(i.seconds * 1000))))
      case LongTimestampMicros =>
        match InstantOf(p)
        case None => Failed(JavaTimeError)
        case Some(i) =>
          match TimestampMicros(i)
          case Err(e) => Failed(e)
          case Ok(micros) => Converted(VLong(micros))
  }

  /** `toTargetNumberFormat` / the number branch: `intValue` for the INT converters,
      `longValue` for the LONG ones. */
  function NumberValue(k: DateTimeKind, i: int): Value
  {
    if UnderlyingType(k) == INT then VInt(ToInt(i)) else VLong(ToLong(i))
  }

  /** `convert` of a concrete converter. */
  function Convert(k: DateTimeKind, f: Formatter, v: Json, path: seq<string>, silently: bool): (r: Outcome)
    ensures v.JInt? ==> r == Ok(NumberValue(k, v.i))
    ensures r.Ok? && r.value.VIncompatible? ==> silently && r.value.expected == ValidJsonFormat(k)
    ensures v.JStr? && f(v.s).None? ==>
              r == if silently then Ok(VIncompatible(ValidJsonFormat(k))) else Err(InvalidDateTime(Print(path), StringFormat(k)))
    ensures !v.JStr? && !v.JInt? ==>
              r == if silently then Ok(VIncompatible(ValidJsonFormat(k))) else Err(NotStringOrNumber(Print(path)))
  {
    if v.JStr? then
      match ParseString(k, f, v.s)
      case Converted(value) => Ok(value)
      case Failed(e) => Err(e)
      case ParseFailed =>
        if silently then Ok(VIncompatible(ValidJsonFormat(k)))
        else Err(InvalidDateTime(Print(path), StringFormat(k)))
    else if v.JInt? then Ok(NumberValue(k, v.i))
    else if silently then Ok(VIncompatible(ValidJsonFormat(k)))
    else Err(NotStringOrNumber(Print(path)))
  }

  /** A date string becomes its signed day count since 1970-01-01. */
  lemma DateIsEpochDay(f: Formatter, s: string, d: LocalDate, path: seq<string>, silently: bool)
    requires f(s).Some? && f(s).value.date == Some(d)
    ensures Convert(IntDate, f, JStr(s), path, silently) == Ok(VLong(ToEpochDay(d)))
  {
  }

  /** A time of day becomes whole milliseconds, or microseconds, since midnight, within one
      day. */
  lemma TimeOfDayInRange(f: Formatter, s: string, t: LocalTime, path: seq<string>, silently: bool)
    requires f(s).Some? && f(s).value.time == Some(t) && ValidTime(t)
    ensures var r := Convert(IntTimeMillis, f, JStr(s), path, silently);
            r.Ok? && r.value.VLong? && 0 <= r.value.l < 86_400_000 &&
            r.value.l * 1_000_000 <= ToNanoOfDay(t) < r.value.l * 1_000_000 + 1_000_000
    ensures var r := Convert(LongTimeMicros, f, JStr(s), path, silently);
            r.Ok? && r.value.VLong? && 0 <= r.value.l < 86_400_000_000 &&
            r.value.l * 1000 <= ToNanoOfDay(t) < r.value.l * 1000 + 1000
  {
  }

  /** timestamp-millis keeps whole seconds only: without wrap-around the value is the
      instant's seconds times 1000. */
  lemma TimestampMillisWholeSeconds(f: Formatter, s: string, path: seq<string>, silently: bool)
    requires f(s).Some? && InstantOf(f(s).value).Some?
    requires InLong(InstantOf(f(s).value).value.seconds * 1000)
    ensures var r := Convert(LongTimestampMillis, f, JStr(s), path, silently);
            r.Ok? && r.value.VLong? && r.value.l % 1000 == 0 &&
            r.value.l == InstantOf(f(s).value).value.seconds * 1000
  {
  }

  /** timestamp-micros is the floor of the instant in microseconds, before or after the
      epoch; an instant outside the `long` range raises an ArithmeticException, never an
      `Incompatible`. */
  lemma TimestampMicrosIsFloorOfInstant(f: Formatter, s: string, path: seq<string>, silently: bool)
    requires f(s).Some? && InstantOf(f(s).value).Some? && ValidTime(f(s).value.time.value)
    ensures var i := InstantOf(f(s).value).value;
            var micros := (i.seconds * NANOS_PER_SECOND + i.nanos) / 1000;
            Convert(LongTimestampMicros, f, JStr(s), path, silently) ==
              if InLong(micros) then Ok(VLong(micros)) else Err(ArithmeticOverflow)
  {
    var i := InstantOf(f(s).value).value;
    TimestampMicrosIsFloor(i);
  }

  /** A parse without the fields the converter needs escapes as a java.time exception, which
      is not an Avro exception: a union does not skip it. */
  lemma MissingFieldsEscape(k: DateTimeKind, f: Formatter, s: string, path: seq<string>, silently: bool)
    requires f(s).Some? && f(s).value.date.None? && f(s).value.time.None?
    ensures Convert(k, f, JStr(s), path, silently) == Err(JavaTimeError)
    ensures !IsAvroRuntime(JavaTimeError)
  {
  }

  // ---------------------------------------------------------------------------------------
  // AbstractDateTimeConverter and AbstractIntDateTimeConverter

  /** A subclass of the template, by the methods it supplies. */
  datatype DateTimeTemplate = DateTimeTemplate(
    parseDateTime: string -> Attempt,
    toTargetNumberFormat: int -> Value,
    underlyingType: SchemaType,
    logicalType: string,
    stringFormat: string,
    numberFormat: string)

  /** `AbstractDateTimeConverter.canManage`. */
  predicate TemplateCanManage(t: DateTimeTemplate, s: Schema)
  {
    TypeOf(s) == t.underlyingType && IsLogicalType(s, t.logicalType)
  }

  /** `AbstractDateTimeConverter.convert`. */
  function TemplateConvert(t: DateTimeTemplate, v: Json, path: seq<string>, silently: bool): (r: Outcome)
    ensures v.JInt? ==> r == Ok(t.toTargetNumberFormat(v.i))
    ensures v.JStr? && t.parseDateTime(v.s).Converted? ==> r == Ok(t.parseDateTime(v.s).value)
    ensures v.JStr? && t.parseDateTime(v.s).ParseFailed? ==>
              r == if silently then Ok(VIncompatible(JsonFormat(t.stringFormat, t.numberFormat)))
                   else Err(InvalidDateTime(Print(path), t.stringFormat))
    ensures !v.JStr? && !v.JInt? ==>
              r == if silently then Ok(VIncompatible(JsonFormat(t.stringFormat, t.numberFormat)))
                   else Err(NotStringOrNumber(Print(path)))
  {
    if v.JStr? then
      match t.parseDateTime(v.s)
      case Converted(value) => Ok(value)
      case Failed(e) => Err(e)
      case ParseFailed =>
        if silently then Ok(VIncompatible(JsonFormat(t.stringFormat, t.numberFormat)))
        else Err(InvalidDateTime(Print(path), t.stringFormat))
    else if v.JInt? then Ok(t.toTargetNumberFormat(v.i))
    else if silently then Ok(VIncompatible(JsonFormat(t.stringFormat, t.numberFormat)))
    else Err(NotStringOrNumber(Print(path)))
  }

  /** `AbstractIntDateTimeConverter`: numbers narrowed with `intValue`, schema type INT. */
  function IntTemplate(parse: string -> Attempt, logicalType: string, stringFormat: string, numberFormat: string): (t: DateTimeTemplate)
    ensures t.underlyingType == INT
    ensures forall i :: t.toTargetNumberFormat(i) == VInt(ToInt(i))
  {
    DateTimeTemplate(parse, i => VInt(ToInt(i)), INT, logicalType, stringFormat, numberFormat)
  }

  /** An `int` subclass manages only INT schemas that carry its logical type. */
  lemma IntTemplateManagesInt(parse: string -> Attempt, logicalType: string, stringFormat: string, numberFormat: string, s: Schema)
    ensures TemplateCanManage(IntTemplate(parse, logicalType, stringFormat, numberFormat), s) <==>
            TypeOf(s) == INT && LogicalTypeName(s) == Some(logicalType)
  {
  }

  /** The template instance that behaves as a concrete converter. */
  function TemplateOf(k: DateTimeKind, f: Formatter): DateTimeTemplate
  {
    var parse := s => ParseString(k, f, s);
    if UnderlyingType(k) == INT then IntTemplate(parse, LogicalName(k), StringFormat(k), NumberFormat(k))
    else DateTimeTemplate(parse, i => VLong(ToLong(i)), LONG, LogicalName(k), StringFormat(k), NumberFormat(k))
  }

  /** Each concrete converter is the template filled in with its parse, formats and number
      narrowing: the same outcome on every input, and the same schemas managed. The two
      `int` converters are `AbstractIntDateTimeConverter` subclasses in all but name. */
  lemma ConcreteIsTemplate(k: DateTimeKind, f: Formatter, v: Json, path: seq<string>, silently: bool, s: Schema)
    ensures Convert(k, f, v, path, silently) == TemplateConvert(TemplateOf(k, f), v, path, silently)
    ensures CanManage(k, s) <==> TemplateCanManage(TemplateOf(k, f), s)
  {
  }
}
