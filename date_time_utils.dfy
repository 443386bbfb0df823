/** `DateTimeUtils`: the generic reader's conversions of JSON date, time and date-time strings.
    Each strips line breaks, tries its formatters in a fixed order, and returns null when every
    attempt fails. The two formatters are the class's fixed `DATE_TIME_FORMATTER` and
    `TIME_FORMATTER`; their pattern language is not modelled, so they are passed in. */
module DateTimeUtils {
  import opened Wrappers
  import opened Text
  import opened Values
  import opened DateTimes

  /** `DATE_TIME_FORMATTER` and `TIME_FORMATTER`. */
  datatype Patterns = Patterns(dateTime: Formatter, time: Formatter)

  /** `cleanLineBreaks`: `s.replace("\n", "").replace("\r", "")`. */
  function CleanLineBreaks(s: string): (r: string)
    ensures forall i :: 0 <= i < |r| ==> r[i] != '\n' && r[i] != '\r'
    ensures forall c :: c != '\n' && c != '\r' ==> (c in s <==> c in r)
  {
    var r := RemoveChar(RemoveChar(s, '\n'), '\r');
    RemoveCharKeeps(RemoveChar(s, '\n'), '\r', '\n');
    assert '\n' !in RemoveChar(s, '\n');
    forall c | c != '\n' && c != '\r' ensures c in s <==> c in r {
      RemoveCharKeeps(s, '\n', c);
      RemoveCharKeeps(RemoveChar(s, '\n'), '\r', c);
    }
    r
  }


  predicate Negative(s: string) { |s| > 0 && s[0] == '-' }

  /** The part of `s` after an optional leading minus sign. */
  function Magnitude(s: string): string
  {
    if Negative(s) then s[1..] else s
  }

  /** `s.matches("-?\\d+")`. */
  predicate IsSignedDigits(s: string)
  {
    |Magnitude(s)| > 0 && forall i :: 0 <= i < |Magnitude(s)| ==> '0' <= Magnitude(s)[i] <= '9'
  }

  /** `Long.valueOf(s)` of a string of digits with an optional minus sign: a
      NumberFormatException when the value does not fit a `long`. */
  function ParseLong(s: string): (r: Result<int, Error>)
    requires IsSignedDigits(s)
    ensures r.Ok? ==> InLong(r.value)
  {
    var magnitude: int := DigitsValue(Magnitude(s));
    var v: int := if Negative(s) then -magnitude else magnitude;
    if InLong(v) then Ok(v) else Err(NumberFormat(s))
  }

  /** `ZonedDateTime.parse(s, f).toInstant()`: needs a date, a time and a zone. */
  function ZonedInstant(f: Formatter, s: string): Option<Instant>
  {
    match f(s)
    case None => None
    case Some(p) =>
      if p.date.Some? && p.time.Some? && p.offsetSeconds.Some? then
        Some(ToInstant(p.date.value, p.time.value, p.offsetSeconds.value))
      else None
  }

  /** `LocalDateTime.parse(s, f).toInstant(ZoneOffset.UTC)`: needs a date and a time. */
  function LocalInstantAtUtc(f: Formatter, s: string): Option<Instant>
  {
    match f(s)
    case None => None
    case Some(p) =>
      if p.date.Some? && p.time.Some? then Some(ToInstant(p.date.value, p.time.value, 0)) else None
  }

  /** `LocalTime.parse(s, f).toNanoOfDay()`: needs a time. */
  function NanoOfDay(f: Formatter, s: string): Option<int>
  {
    match f(s)
    case None => None
    case Some(p) => if p.time.Some? then Some(ToNanoOfDay(p.time.value)) else None
  }

  /** `getEpochMicros`: a digit string is taken as the number itself; otherwise the instant
      of a zoned parse, or failing that of a local parse read as UTC, in whole milliseconds
      times 1000 (unchecked). None stands for the null result. */
  function GetEpochMicros(p: Patterns, text: string): (r: Result<Option<int>, Error>)
    ensures var s := CleanLineBreaks(text);
            IsSignedDigits(s) ==> r == match ParseLong(s) case Ok(v) => Ok(Some(v)) case Err(e) => Err(e)
    ensures var s := CleanLineBreaks(text);
            !IsSignedDigits(s) && ZonedInstant(p.dateTime, s).None? && LocalInstantAtUtc(p.dateTime, s).None? ==>
            r == Ok(None)
  {
    var s := CleanLineBreaks(text);
    if IsSignedDigits(s) then
      match ParseLong(s) case Ok(v) => Ok(Some(v)) case Err(e) => Err(e)
    else
      var instant := match ZonedInstant(p.dateTime, s)
                     case Some(i) => Some(i)
                     case None => LocalInstantAtUtc(p.dateTime, s);
      match instant
      case None => Ok(None)
      case Some(i) =>
        match ToEpochMilli(i)
        case Err(e) => Err(e)
        case Ok(ms) => Ok(Some(ToLong(ms * 1000)))
  }

  /** A zoned parse is preferred to a local one, and its instant is taken to whole
      milliseconds (the floor) before the unchecked multiplication by 1000. */
  lemma EpochMicrosOfZonedParse(p: Patterns, text: string)
    requires !IsSignedDigits(CleanLineBreaks(text))
    requires ZonedInstant(p.dateTime, CleanLineBreaks(text)).Some?
    requires ValidTimeOf(p.dateTime, CleanLineBreaks(text))
    ensures var i := ZonedInstant(p.dateTime, CleanLineBreaks(text)).value;
            var ms := (i.seconds * NANOS_PER_SECOND + i.nanos) / 1_000_000;
            GetEpochMicros(p, text) == if InLong(ms) then Ok(Some(ToLong(ms * 1000))) else Err(ArithmeticOverflow)
  {
    var i := ZonedInstant(p.dateTime, CleanLineBreaks(text)).value;
    EpochMilliIsFloor(i);
  }

  /** Without a zone the parsed date and time are read as UTC. */
  lemma EpochMicrosOfLocalParse(p: Patterns, text: string)
    requires !IsSignedDigits(CleanLineBreaks(text))
    requires ZonedInstant(p.dateTime, CleanLineBreaks(text)).None?
    requires LocalInstantAtUtc(p.dateTime, CleanLineBreaks(text)).Some?
    requires ValidTimeOf(p.dateTime, CleanLineBreaks(text))
    ensures var parsed := p.dateTime(CleanLineBreaks(text)).value;
            var i := ToInstant(parsed.date.value, parsed.time.value, 0);
            var ms := (i.seconds * NANOS_PER_SECOND + i.nanos) / 1_000_000;
            GetEpochMicros(p, text) == if InLong(ms) then Ok(Some(ToLong(ms * 1000))) else Err(ArithmeticOverflow)
  {
    var parsed := p.dateTime(CleanLineBreaks(text)).value;
    EpochMilliIsFloor(ToInstant(parsed.date.value, parsed.time.value, 0));
  }

  /** The parsed time, if any, is a valid time of day. */
  predicate ValidTimeOf(f: Formatter, s: string)
  {
    f(s).Some? && f(s).value.time.Some? && ValidTime(f(s).value.time.value)
  }

  /** `getEpochDay`: the epoch day of the parsed date, narrowed to `int`. There is no
      digit-string shortcut. */
  function GetEpochDay(p: Patterns, text: string): (r: Option<int>)
    ensures r.Some? ==> InInt(r.value)
    ensures var parsed := p.dateTime(CleanLineBreaks(text));
            r.Some? <==> parsed.Some? && parsed.value.date.Some?
    ensures var parsed := p.dateTime(CleanLineBreaks(text));
            r.Some? ==> r.value == ToInt(ToEpochDay(parsed.value.date.value))
  {
    var s := CleanLineBreaks(text);
    match p.dateTime(s)
    case None => None
    case Some(parsed) => if parsed.date.Some? then Some(ToInt(ToEpochDay(parsed.date.value))) else None
  }

  /** `getMicroSeconds`: a digit string is taken as the number itself; otherwise the nano of
      day of a parse with `TIME_FORMATTER`, or failing that with `DATE_TIME_FORMATTER`,
      divided by 1000. */
  function GetMicroSeconds(p: Patterns, text: string): (r: Result<Option<int>, Error>)
    ensures var s := CleanLineBreaks(text);
            !IsSignedDigits(s) ==> r.Ok?
    ensures var s := CleanLineBreaks(text);
            !IsSignedDigits(s) && (ValidTimeOf(p.time, s) || (NanoOfDay(p.time, s).None? && ValidTimeOf(p.dateTime, s))) ==>
            r.Ok? && r.value.Some? && 0 <= r.value.value < 86_400_000_000
  {
    var s := CleanLineBreaks(text);
    if IsSignedDigits(s) then
      match ParseLong(s) case Ok(v) => Ok(Some(v)) case Err(e) => Err(e)
    else
      var nanoOfDay := match NanoOfDay(p.time, s)
                       case Some(n) => Some(n)
                       case None => NanoOfDay(p.dateTime, s);
      match nanoOfDay
      case None => Ok(None)
      case Some(n) => Ok(Some(n / 1000))
  }

  /** The nano of day of a time, divided by 1000: whole microseconds after midnight, the
      sub-microsecond digits dropped. */
  lemma MicrosOfTime(t: LocalTime)
    requires ValidTime(t)
    ensures ToNanoOfDay(t) / 1000 == ((t.hour * 60 + t.minute) * 60 + t.second) * 1_000_000 + t.nano / 1000
  {
    var k := (t.hour * 60 + t.minute) * 60 + t.second;
    assert ToNanoOfDay(t) == k * 1_000_000 * 1000 + t.nano;
  }

  /** A time that `TIME_FORMATTER` resolves gives its microseconds after midnight. */
  lemma MicroSecondsOfTimeParse(p: Patterns, text: string)
    requires !IsSignedDigits(CleanLineBreaks(text))
    requires ValidTimeOf(p.time, CleanLineBreaks(text))
    ensures var t := p.time(CleanLineBreaks(text)).value.time.value;
            GetMicroSeconds(p, text) == Ok(Some(((t.hour * 60 + t.minute) * 60 + t.second) * 1_000_000 + t.nano / 1000))
  {
    MicrosOfTime(p.time(CleanLineBreaks(text)).value.time.value);
  }

  /** When `TIME_FORMATTER` gives no time, a time that `DATE_TIME_FORMATTER` resolves gives
      its microseconds after midnight. */
  lemma MicroSecondsOfDateTimeParse(p: Patterns, text: string)
    requires !IsSignedDigits(CleanLineBreaks(text))
    requires NanoOfDay(p.time, CleanLineBreaks(text)).None?
    requires ValidTimeOf(p.dateTime, CleanLineBreaks(text))
    ensures var t := p.dateTime(CleanLineBreaks(text)).value.time.value;
            GetMicroSeconds(p, text) == Ok(Some(((t.hour * 60 + t.minute) * 60 + t.second) * 1_000_000 + t.nano / 1000))
  {
    MicrosOfTime(p.dateTime(CleanLineBreaks(text)).value.time.value);
  }

  /** A text that is not a digit string is null exactly when neither formatter gives a time. */
  lemma MicroSecondsNull(p: Patterns, text: string)
    requires !IsSignedDigits(CleanLineBreaks(text))
    ensures var s := CleanLineBreaks(text);
            GetMicroSeconds(p, text) == Ok(None) <==> NanoOfDay(p.time, s).None? && NanoOfDay(p.dateTime, s).None?
  {
  }

  /** A string without line breaks is left as it is. */
  lemma CleanLineBreaksIdentity(s: string)
    requires '\n' !in s && '\r' !in s
    ensures CleanLineBreaks(s) == s
  {
  }

  /** A text with no line break that is not a digit string: the formatters decide its value. */
  predicate Plain(s: string)
  {
    '\n' !in s && '\r' !in s && !IsSignedDigits(s)
  }

  /** The result of `getEpochMicros` when the cleaned text is not a digit string and the
      formatter resolves a date and a time: the zone, when one was parsed, else UTC. */
  lemma EpochMicrosOfParsed(p: Patterns, s: string, parsed: Parsed)
    requires CleanLineBreaks(s) == s && !IsSignedDigits(s)
    requires p.dateTime(s) == Some(parsed) && parsed.date.Some? && parsed.time.Some?
    ensures var offset := if parsed.offsetSeconds.Some? then parsed.offsetSeconds.value else 0;
            GetEpochMicros(p, s) ==
              match ToEpochMilli(ToInstant(parsed.date.value, parsed.time.value, offset))
              case Err(e) => Err(e)
              case Ok(ms) => Ok(Some(ToLong(ms * 1000)))
  {
  }

  lemma MilliOf(i: Instant, ms: int)
    requires ValidInstant(i) && InLong(ms) && ms == i.seconds * 1000 + i.nanos / 1_000_000
    ensures ToEpochMilli(i) == Ok(ms)
  {
    EpochMilliIsFloor(i);
  }

  lemma Day20180915()
    ensures ToEpochDay(LocalDate(2018, 9, 15)) == 17789
  {
  }

  lemma Noon20180915(nano: int)
    requires 0 <= nano < NANOS_PER_SECOND
    ensures ToInstant(LocalDate(2018, 9, 15), LocalTime(12, 0, 0, nano), 0) == Instant(1537012800, nano)
  {
    Day20180915();
  }

  lemma Micros(ms: int)
    requires -9_000_000_000_000_000 <= ms <= 9_000_000_000_000_000
    ensures ToLong(ms * 1000) == ms * 1000
  {
  }

  /** A text the formatter reads as 2018-09-15 12:00 without a zone ("2018-09-15 12:00:00") is
      that time in UTC. */
  lemma EpochMicrosExample(p: Patterns, s: string)
    requires Plain(s)
    requires p.dateTime(s) == Some(Parsed(Some(LocalDate(2018, 9, 15)), Some(LocalTime(12, 0, 0, 0)), None))
    ensures GetEpochMicros(p, s) == Ok(Some(1537012800000000))
  {
    CleanLineBreaksIdentity(s);
    Noon20180915(0);
    MilliOf(Instant(1537012800, 0), 1537012800000);
    Micros(1537012800000);
    EpochMicrosOfParsed(p, s, p.dateTime(s).value);
  }

  /** The sub-millisecond digits of a parsed ".006542" are dropped. */
  lemma EpochMicrosDropsSubMillis(p: Patterns, s: string)
    requires Plain(s)
    requires p.dateTime(s) == Some(Parsed(Some(LocalDate(2018, 9, 15)), Some(LocalTime(12, 0, 0, 6_542_000)), None))
    ensures GetEpochMicros(p, s) == Ok(Some(1537012800006000))
  {
    CleanLineBreaksIdentity(s);
    Noon20180915(6_542_000);
    MilliOf(Instant(1537012800, 6_542_000), 1537012800006);
    Micros(1537012800006);
    EpochMicrosOfParsed(p, s, p.dateTime(s).value);
  }

  lemma PreEpochInstant()
    ensures ToInstant(LocalDate(-2021, 1, 23), LocalTime(1, 23, 45, 678_000_000), -41400) ==
            Instant(-125941863975, 678_000_000)
  {
  }

  /** A zoned parse wins over the local one: a text read as 01:23:45.678 at -11:30 on 23 January
      of 2022 BC ("2022-01-23T01:23:45.678-11:30 BC") is a pre-epoch instant with a positive
      nano part. */
  lemma EpochMicrosPreEpochExample(p: Patterns, s: string)
    requires Plain(s)
    requires p.dateTime(s) ==
             Some(Parsed(Some(LocalDate(-2021, 1, 23)), Some(LocalTime(1, 23, 45, 678_000_000)), Some(-41400)))
    ensures GetEpochMicros(p, s) == Ok(Some(-125941863974322000))
  {
    CleanLineBreaksIdentity(s);
    PreEpochInstant();
    MilliOf(Instant(-125941863975, 678_000_000), -125941863974322);
    Micros(-125941863974322);
    EpochMicrosOfParsed(p, s, p.dateTime(s).value);
  }

  lemma DayBC()
    ensures ToEpochDay(LocalDate(-2020, 1, 1)) == -1457318
  {
  }

  /** A text read as 2021-01-01 ("2021-01-01") is day 18628. */
  lemma EpochDayOfDateText(p: Patterns, s: string)
    requires '\n' !in s && '\r' !in s
    requires p.dateTime(s) == Some(Parsed(Some(LocalDate(2021, 1, 1)), None, None))
    ensures GetEpochDay(p, s) == Some(18628)
  {
    CleanLineBreaksIdentity(s);
    EpochDayExample();
  }

  /** A text read as 1 January 2021 BC ("2021-1-1 BC", proleptic year -2020) is day -1457318. */
  lemma EpochDayOfBCText(p: Patterns, s: string)
    requires '\n' !in s && '\r' !in s
    requires p.dateTime(s) == Some(Parsed(Some(LocalDate(-2020, 1, 1)), None, None))
    ensures GetEpochDay(p, s) == Some(-1457318)
  {
    CleanLineBreaksIdentity(s);
    DayBC();
  }

  /** A text read as 12:23:01.541214 ("12:23:01.541214") is 44581541214 microseconds after
      midnight. */
  lemma MicroSecondsExample(p: Patterns, s: string)
    requires Plain(s)
    requires p.time(s) == Some(Parsed(None, Some(LocalTime(12, 23, 1, 541_214_000)), None))
    ensures GetMicroSeconds(p, s) == Ok(Some(44581541214))
  {
    CleanLineBreaksIdentity(s);
    assert NanoOfDay(p.time, s) == Some(44581541214000);
  }

  /** The decimal text of an integer has no line break, and its magnitude is the digits of
      the absolute value. */
  lemma IntToStringShape(i: int)
    ensures '\n' !in IntToString(i) && '\r' !in IntToString(i)
    ensures Magnitude(IntToString(i)) == NatToString(if i < 0 then -i else i)
  {
    if i >= 0 {
      assert NatToString(i)[0] != '-';
    } else {
      assert IntToString(i)[1..] == NatToString(-i);
    }
  }

  /** The decimal text of a `long`, as `Long.toString` prints it, is a digit string that
      `Long.valueOf` reads back as the same number. */
  lemma ParseLongOfIntToString(i: int)
    requires InLong(i)
    ensures IsSignedDigits(IntToString(i)) && ParseLong(IntToString(i)) == Ok(i)
  {
    IntToStringShape(i);
    NatToStringValue(if i < 0 then -i else i);
  }

  /** A digit string is returned as its value, unscaled. */
  lemma EpochMicrosOfDigits(p: Patterns, i: int)
    requires InLong(i)
    ensures GetEpochMicros(p, IntToString(i)) == Ok(Some(i))
  {
    IntToStringShape(i);
    ParseLongOfIntToString(i);
    CleanLineBreaksIdentity(IntToString(i));
  }

  /** A digit string, negative ones included, is returned as its value. */
  lemma MicroSecondsOfDigits(p: Patterns, i: int)
    requires InLong(i)
    ensures GetMicroSeconds(p, IntToString(i)) == Ok(Some(i))
  {
    IntToStringShape(i);
    ParseLongOfIntToString(i);
    CleanLineBreaksIdentity(IntToString(i));
  }
}
