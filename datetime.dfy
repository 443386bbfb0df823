/** The `java.time` arithmetic the conversions perform on parsed date and time fields:
    `LocalDate.toEpochDay`, `LocalTime.toNanoOfDay`, the epoch second of an offset date-time,
    `Instant.toEpochMilli`, and the timestamp-micros calculation of
    `org.apache.avro.data.TimestampMicrosConversion`. Parsing itself is a parameter: a
    `Formatter` is the partial function a `DateTimeFormatter` computes. */
module DateTimes {
  import opened Wrappers
  import opened Values

  datatype LocalDate = LocalDate(year: int, month: int, day: int)
  datatype LocalTime = LocalTime(hour: int, minute: int, second: int, nano: int)

  /** The fields a `DateTimeFormatter.parse` resolved: a date, a time of day and a zone offset
      in seconds, each present or not. */
  datatype Parsed = Parsed(date: Option<LocalDate>, time: Option<LocalTime>, offsetSeconds: Option<int>)

  /** `DateTimeFormatter.parse(text)`; None stands for a DateTimeParseException. */
  type Formatter = string -> Option<Parsed>

  /** An instant: seconds from 1970-01-01T00:00:00Z and a nano-of-second in [0, 10^9). */
  datatype Instant = Instant(seconds: int, nanos: int)

  const NANOS_PER_SECOND: int := 1_000_000_000
  const SECONDS_PER_DAY: int := 86_400
  const NANOS_PER_DAY: int := 86_400_000_000_000
  const DAYS_0000_TO_1970: int := 146097 * 5 - (30 * 365 + 7)

  /** `IsoChronology.isLeapYear`. */
  predicate IsLeapYear(y: int)
  {
    y % 4 == 0 && (y % 100 != 0 || y % 400 == 0)
  }

  function LengthOfMonth(y: int, m: int): int
  {
    if m == 2 then (if IsLeapYear(y) then 29 else 28)
    else if m == 4 || m == 6 || m == 9 || m == 11 then 30
    else 31
  }

  predicate ValidDate(d: LocalDate)
  {
    1 <= d.month <= 12 && 1 <= d.day <= LengthOfMonth(d.year, d.month)
  }

  predicate ValidTime(t: LocalTime)
  {
    0 <= t.hour < 24 && 0 <= t.minute < 60 && 0 <= t.second < 60 && 0 <= t.nano < NANOS_PER_SECOND
  }

  predicate ValidInstant(i: Instant)
  {
    0 <= i.nanos < NANOS_PER_SECOND
  }

  /** The leap-day count `toEpochDay` adds for the years before `y` (subtracts for negative
      years), written with Java's truncating division: for negative `y` both operands of
      `y / -4` are negative, so the quotient is `(-y) / 4`. */
  function LeapDaysBefore(y: int): int
  {
    if y >= 0 then (y + 3) / 4 - (y + 99) / 100 + (y + 399) / 400
    else -((-y) / 4 - (-y) / 100 + (-y) / 400)
  }

  /** The days before the first of month `m`, counting February as 30 days. */
  function MonthOffset(m: int): int
  {
    (367 * m - 362) / 12
  }

  /** `LocalDate.toEpochDay`: the days from 1970-01-01, negative before it. */
  function ToEpochDay(d: LocalDate): int
  {
    var total := 365 * d.year + LeapDaysBefore(d.year) + MonthOffset(d.month) + d.day - 1;
    var adjusted := if d.month > 2 then (if IsLeapYear(d.year) then total - 1 else total - 2) else total;
    adjusted - DAYS_0000_TO_1970
  }

  /** The calendar day after `d`. */
  function NextDay(d: LocalDate): LocalDate
  {
    if d.day < LengthOfMonth(d.year, d.month) then LocalDate(d.year, d.month, d.day + 1)
    else if d.month < 12 then LocalDate(d.year, d.month + 1, 1)
    else LocalDate(d.year + 1, 1, 1)
  }

  lemma DivStep4(a: int)
    ensures (a + 1) / 4 - a / 4 == if (a + 1) % 4 == 0 then 1 else 0
  {
  }

  lemma DivStep100(a: int)
    ensures (a + 1) / 100 - a / 100 == if (a + 1) % 100 == 0 then 1 else 0
  {
  }

  lemma DivStep400(a: int)
    ensures (a + 1) / 400 - a / 400 == if (a + 1) % 400 == 0 then 1 else 0
  {
  }

  lemma DivisorChain(y: int)
    ensures y % 400 == 0 ==> y % 100 == 0
    ensures y % 100 == 0 ==> y % 4 == 0
  {
    MultipleOf400(y);
    MultipleOf100(y);
  }

  lemma MultipleOf400(y: int)
    ensures y % 400 == 0 ==> y % 100 == 0
  {
    if y % 400 == 0 {
      var q := y / 400;
      assert y == 100 * (4 * q);
    }
  }

  lemma MultipleOf100(y: int)
    ensures y % 100 == 0 ==> y % 4 == 0
  {
    if y % 100 == 0 {
      var q := y / 100;
      assert y == 4 * (25 * q);
    }
  }

  /** The number of leap years counted by the three divisibility terms. */
  function LeapIndicator(y: int): int
  {
    (if y % 4 == 0 then 1 else 0) - (if y % 100 == 0 then 1 else 0) + (if y % 400 == 0 then 1 else 0)
  }

  lemma LeapIndicatorIsLeap(y: int)
    ensures LeapIndicator(y) == if IsLeapYear(y) then 1 else 0
  {
    DivisorChain(y);
  }

  lemma LeapDaysStepNonNegative(y: int)
    requires y >= 0
    ensures LeapDaysBefore(y + 1) - LeapDaysBefore(y) == LeapIndicator(y)
  {
    DivStep4(y + 3);
    DivStep100(y + 99);
    DivStep400(y + 399);
  }

  lemma NegatedDivisible4(y: int)
    ensures (-y) % 4 == 0 <==> y % 4 == 0
  {
  }

  lemma NegatedDivisible100(y: int)
    ensures (-y) % 100 == 0 <==> y % 100 == 0
  {
  }

  lemma NegatedDivisible400(y: int)
    ensures (-y) % 400 == 0 <==> y % 400 == 0
  {
  }

  lemma LeapDaysStepNegative(y: int)
    requires y < -1
    ensures LeapDaysBefore(y + 1) - LeapDaysBefore(y) == LeapIndicator(y)
  {
    var n := -y - 1;
    DivStep4(n);
    DivStep100(n);
    DivStep400(n);
    NegatedDivisible4(y);
    NegatedDivisible100(y);
    NegatedDivisible400(y);
    assert LeapDaysBefore(y + 1) == -(n / 4 - n / 100 + n / 400);
    assert LeapDaysBefore(y) == -((n + 1) / 4 - (n + 1) / 100 + (n + 1) / 400);
  }

  /** One more year before `y + 1` than before `y` exactly when `y` is a leap year. */
  lemma LeapDaysStep(y: int)
    ensures LeapDaysBefore(y + 1) - LeapDaysBefore(y) == if IsLeapYear(y) then 1 else 0
  {
    LeapIndicatorIsLeap(y);
    if y >= 0 {
      LeapDaysStepNonNegative(y);
    } else if y < -1 {
      LeapDaysStepNegative(y);
    }
  }

  /** `toEpochDay` counts days: 1970-01-01 is day zero ... */
  lemma EpochDayOfEpoch()
    ensures ToEpochDay(LocalDate(1970, 1, 1)) == 0
  {
  }

  /** ... and every calendar day is one more than the day before it, so `toEpochDay` is the
      signed number of days from 1970-01-01. */
  lemma EpochDayOfNextDay(d: LocalDate)
    requires ValidDate(d)
    ensures ValidDate(NextDay(d))
    ensures ToEpochDay(NextDay(d)) == ToEpochDay(d) + 1
  {
    if d.day < LengthOfMonth(d.year, d.month) {
    } else if d.month < 12 {
      MonthOffsetStep(d.month);
    } else {
      assert MonthOffset(12) == 336 && MonthOffset(1) == 0;
      LeapDaysStep(d.year);
    }
  }

  /** From one first of month to the next, February counted as 30 days. */
  lemma MonthOffsetStep(m: int)
    requires 1 <= m < 12
    ensures MonthOffset(m + 1) - MonthOffset(m) == if m == 2 then 30 else LengthOfMonth(0, m)
  {
    if m == 1 { assert MonthOffset(1) == 0 && MonthOffset(2) == 31; }
    else if m == 2 { assert MonthOffset(3) == 61; }
    else if m == 3 { assert MonthOffset(3) == 61 && MonthOffset(4) == 92; }
    else if m == 4 { assert MonthOffset(5) == 122; }
    else if m == 5 { assert MonthOffset(5) == 122 && MonthOffset(6) == 153; }
    else if m == 6 { assert MonthOffset(7) == 183; }
    else if m == 7 { assert MonthOffset(7) == 183 && MonthOffset(8) == 214; }
    else if m == 8 { assert MonthOffset(9) == 245; }
    else if m == 9 { assert MonthOffset(9) == 245 && MonthOffset(10) == 275; }
    else if m == 10 { assert MonthOffset(11) == 306; }
    else { assert MonthOffset(11) == 306 && MonthOffset(12) == 336; }
  }

  /** "2021-01-01" is day 18628. */
  lemma EpochDayExample()
    ensures ToEpochDay(LocalDate(2021, 1, 1)) == 18628
  {
  }

  /** `LocalTime.toNanoOfDay`. */
  function ToNanoOfDay(t: LocalTime): (n: int)
    ensures ValidTime(t) ==> 0 <= n < NANOS_PER_DAY
  {
    ((t.hour * 60 + t.minute) * 60 + t.second) * NANOS_PER_SECOND + t.nano
  }

  /** The instant of a date and time at a zone offset (`ZonedDateTime.toInstant`,
      `LocalDateTime.toInstant(offset)`, `INSTANT_SECONDS` of a parsed date-time). */
  function ToInstant(date: LocalDate, time: LocalTime, offsetSeconds: int): (i: Instant)
    ensures ValidTime(time) ==> ValidInstant(i)
  {
    Instant(ToEpochDay(date) * SECONDS_PER_DAY + (time.hour * 60 + time.minute) * 60 + time.second - offsetSeconds,
            time.nano)
  }

  /** `Instant.toEpochMilli`, branch for branch, with `multiplyExact` and `addExact`. */
  function ToEpochMilli(i: Instant): Result<int, Error>
  {
    if i.seconds < 0 && i.nanos > 0 then
      match Exact((i.seconds + 1) * 1000)
      case Err(e) => Err(e)
      case Ok(millis) => Exact(millis + (i.nanos / 1_000_000 - 1000))
    else
      match Exact(i.seconds * 1000)
      case Err(e) => Err(e)
      case Ok(millis) => Exact(millis + i.nanos / 1_000_000)
  }

  /** Both branches of `toEpochMilli` compute the floor of the instant in milliseconds, and
      fail exactly when that does not fit a `long`. */
  lemma EpochMilliIsFloor(i: Instant)
    requires ValidInstant(i)
    ensures ToEpochMilli(i) == Exact(i.seconds * 1000 + i.nanos / 1_000_000)
    ensures i.seconds * 1000 + i.nanos / 1_000_000 == (i.seconds * NANOS_PER_SECOND + i.nanos) / 1_000_000
  {
    var q := i.nanos / 1_000_000;
    assert 0 <= q < 1000;
    assert i.seconds * NANOS_PER_SECOND + i.nanos == (i.seconds * 1000 + q) * 1_000_000 + i.nanos % 1_000_000;
  }

  /** The timestamp-micros value of an instant, as LongTimestampMicrosConverter computes it:
      the pre-epoch branch is taken for negative seconds with a positive nano part. */
  function TimestampMicros(i: Instant): Result<int, Error>
  {
    if i.seconds < 0 && i.nanos > 0 then
      match Exact((i.seconds + 1) * 1_000_000)
      case Err(e) => Err(e)
      case Ok(micros) => Exact(micros + (i.nanos / 1000 - 1_000_000))
    else
      match Exact(i.seconds * 1_000_000)
      case Err(e) => Err(e)
      case Ok(micros) => Exact(micros + i.nanos / 1000)
  }

  /** Both branches compute seconds * 10^6 + nanos / 1000, the floor of the instant in
      microseconds, and raise an ArithmeticException exactly when that does not fit. */
  lemma TimestampMicrosIsFloor(i: Instant)
    requires ValidInstant(i)
    ensures TimestampMicros(i) == Exact(i.seconds * 1_000_000 + i.nanos / 1000)
    ensures i.seconds * 1_000_000 + i.nanos / 1000 == (i.seconds * NANOS_PER_SECOND + i.nanos) / 1000
  {
    var q := i.nanos / 1000;
    assert 0 <= q < 1_000_000;
    assert i.seconds * NANOS_PER_SECOND + i.nanos == (i.seconds * 1_000_000 + q) * 1000 + i.nanos % 1000;
  }

  /** One microsecond before the epoch is -1, through the pre-epoch branch. */
  lemma TimestampMicrosPreEpochExample()
    ensures TimestampMicros(Instant(-1, 999_999_000)) == Ok(-1)
  {
  }
}
