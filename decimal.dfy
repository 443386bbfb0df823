/** `BytesDecimalConverter`: a JSON value written as a decimal number becomes the bytes of an
    Avro `decimal` logical type: the number is read with `new BigDecimal(value.toString())`,
    rescaled to the schema's scale rounding toward zero, and its unscaled value is stored as
    big-endian two's-complement bytes (Apache Avro specification, Logical Types, Decimal). */
module Decimals {
  import opened Wrappers
  import opened Text
  import opened JsonValues
  import opened Values
  import opened AvroSchema
  import opened Paths

  /** A `BigDecimal`: the number `unscaled * 10^-scale`. */
  datatype Decimal = Decimal(unscaled: int, scale: int)

  function Pow10(n: nat): (r: nat)
    ensures r >= 1
  {
    if n == 0 then 1 else 10 * Pow10(n - 1)
  }

  function Abs(i: int): nat
  {
    if i < 0 then -i else i
  }

  // ---------------------------------------------------------------------------------------
  // value.toString()

  /** `Object.toString()` of a value inside a collection (a null element prints "null"). */
  function ElementString(v: Json): string
  {
    match v
    case JNull => "null"
    case JBool(b) => if b then "true" else "false"
    case JInt(i) => IntToString(i)
    case JStr(s) => s
    case JArr(items) => "[" + ItemsString(items) + "]"
    case JObj(entries) => "{" + EntriesString(entries) + "}"
  }

  /** `AbstractCollection.toString` between the brackets: elements joined with ", ". */
  function ItemsString(items: seq<Json>): string
  {
    if |items| == 0 then ""
    else if |items| == 1 then ElementString(items[0])
    else ElementString(items[0]) + ", " + ItemsString(items[1..])
  }

  /** `AbstractMap.toString` between the braces: "key=value" joined with ", ". */
  function EntriesString(entries: seq<(string, Json)>): string
  {
    if |entries| == 0 then ""
    else
      assert entries[0] in entries;
      assert entries[0].1 < entries[0];
      var member := entries[0].0 + "=" + ElementString(entries[0].1);
      if |entries| == 1 then member else member + ", " + EntriesString(entries[1..])
  }

  /** `value.toString()` on the converted value: a NullPointerException for a JSON null. */
  function JavaString(v: Json): (r: Result<string, Error>)
    ensures v.JNull? <==> r == Err(NullPointer)
    ensures r.Ok? ==> r.value == ElementString(v)
  {
    if v.JNull? then Err(NullPointer) else Ok(ElementString(v))
  }

  // ---------------------------------------------------------------------------------------
  // new BigDecimal(String)

  /** The number of blocks of ten decimal digits (Unicode general category Nd) in the Basic
      Multilingual Plane, as of Unicode 7.0. A Java `char` is one UTF-16 unit, so these are
      all the digits `Character.isDigit(char)` accepts. */
  const BLOCKS: nat := 37

  /** The code point of the zero of the `k`-th block, in increasing order. */
  function BlockZero(k: nat): (z: int)
    requires k < BLOCKS
    ensures k == 0 <==> z == '0' as int
    ensures k > 0 ==> z >= 0x0660
    ensures z + 9 < 0xD800 || 0xE000 <= z <= 0xFFF6
  {
    match k
    case 0 => 0x0030 // ASCII
    case 1 => 0x0660 // ARABIC-INDIC
    case 2 => 0x06F0 // EXTENDED ARABIC-INDIC
    case 3 => 0x07C0 // NKO
    case 4 => 0x0966 // DEVANAGARI
    case 5 => 0x09E6 // BENGALI
    case 6 => 0x0A66 // GURMUKHI
    case 7 => 0x0AE6 // GUJARATI
    case 8 => 0x0B66 // ORIYA
    case 9 => 0x0BE6 // TAMIL
    case 10 => 0x0C66 // TELUGU
    case 11 => 0x0CE6 // KANNADA
    case 12 => 0x0D66 // MALAYALAM
    case 13 => 0x0DE6 // SINHALA LITH
    case 14 => 0x0E50 // THAI
    case 15 => 0x0ED0 // LAO
    case 16 => 0x0F20 // TIBETAN
    case 17 => 0x1040 // MYANMAR
    case 18 => 0x1090 // MYANMAR SHAN
    case 19 => 0x17E0 // KHMER
    case 20 => 0x1810 // MONGOLIAN
    case 21 => 0x1946 // LIMBU
    case 22 => 0x19D0 // NEW TAI LUE
    case 23 => 0x1A80 // TAI THAM HORA
    case 24 => 0x1A90 // TAI THAM THAM
    case 25 => 0x1B50 // BALINESE
    case 26 => 0x1BB0 // SUNDANESE
    case 27 => 0x1C40 // LEPCHA
    case 28 => 0x1C50 // OL CHIKI
    case 29 => 0xA620 // VAI
    case 30 => 0xA8D0 // SAURASHTRA
    case 31 => 0xA900 // KAYAH LI
    case 32 => 0xA9D0 // JAVANESE
    case 33 => 0xA9F0 // MYANMAR TAI LAING
    case 34 => 0xAA50 // CHAM
    case 35 => 0xABF0 // MEETEI MAYEK
    case _ => 0xFF10 // FULLWIDTH
  }

  /** No two blocks overlap. */
  lemma BlockZerosAscending(k: nat)
    requires k + 1 < BLOCKS
    ensures BlockZero(k) + 10 <= BlockZero(k + 1)
  {
  }

  /** The search for the block of `c` among the blocks from the `k`-th on. */
  function DigitFrom(c: char, k: nat): (d: int)
    requires k <= BLOCKS
    ensures -1 <= d < 10
    ensures d >= 0 && k > 0 ==> c as int >= 0x0660
    decreases BLOCKS - k
  {
    if k == BLOCKS then -1
    else if BlockZero(k) <= c as int < BlockZero(k) + 10 then c as int - BlockZero(k)
    else DigitFrom(c, k + 1)
  }

  /** `Character.digit(c, 10)`: the position of `c` in its block of decimal digits, -1 for a
      character that is not a decimal digit. */
  function DigitValue(c: char): (d: int)
    ensures -1 <= d < 10
    ensures '0' <= c <= '9' ==> d == c as int - '0' as int
    ensures d >= 0 ==> '0' <= c <= '9' || c as int >= 0x0660
  {
    if c as int < BlockZero(1) then (if '0' <= c <= '9' then c as int - '0' as int else -1)
    else DigitFrom(c, 1)
  }

  /** Below the second block only ASCII digits are digits, so the shortcut is the search
      from the first block. */
  lemma DigitValueSearch(c: char)
    ensures DigitValue(c) == DigitFrom(c, 0)
  {
  }

  /** The search finds the block a digit lies in, and no earlier one. */
  lemma {:induction false} DigitFromBlock(k: nat, j: nat, d: nat)
    requires k <= j < BLOCKS && d < 10
    ensures DigitFrom((BlockZero(j) + d) as char, k) == d
    decreases j - k
  {
    if k < j {
      BlockZerosBelow(k, j);
      DigitFromBlock(k + 1, j, d);
    }
  }

  lemma {:induction false} BlockZerosBelow(k: nat, j: nat)
    requires k < j < BLOCKS
    ensures BlockZero(k) + 10 <= BlockZero(j)
    decreases j - k
  {
    BlockZerosAscending(k);
    if k + 1 < j {
      BlockZerosBelow(k + 1, j);
    }
  }

  /** Each digit's value is its distance from the zero of its block. */
  lemma DigitValueOfBlock(j: nat, d: nat)
    requires j < BLOCKS && d < 10
    ensures DigitValue((BlockZero(j) + d) as char) == d
  {
    DigitValueSearch((BlockZero(j) + d) as char);
    DigitFromBlock(0, j, d);
  }

  /** The search answers the distance of `c` from the zero of a block it lies in, and fails
      exactly when no block from the `k`-th on holds `c`. */
  lemma {:induction false} DigitFromMeaning(c: char, k: nat)
    requires k <= BLOCKS
    ensures var d := DigitFrom(c, k);
            d >= 0 ==> exists j :: k <= j < BLOCKS && c as int == BlockZero(j) + d
    ensures DigitFrom(c, k) < 0 ==>
              forall j :: k <= j < BLOCKS ==> !(BlockZero(j) <= c as int < BlockZero(j) + 10)
    decreases BLOCKS - k
  {
    if k < BLOCKS && !(BlockZero(k) <= c as int < BlockZero(k) + 10) {
      DigitFromMeaning(c, k + 1);
    }
  }

  /** A character is a digit exactly when some block holds it, and its value is its distance
      from that block's zero. */
  lemma DigitValueMeaning(c: char)
    ensures DigitValue(c) >= 0 <==> exists j :: 0 <= j < BLOCKS && BlockZero(j) <= c as int < BlockZero(j) + 10
    ensures DigitValue(c) >= 0 ==> exists j :: 0 <= j < BLOCKS && c as int == BlockZero(j) + DigitValue(c)
  {
    DigitValueSearch(c);
    DigitFromMeaning(c, 0);
  }

  /** `Character.isDigit(c)`. */
  predicate IsDigit(c: char)
  {
    DigitValue(c) >= 0
  }

  predicate AllDigits(s: string)
  {
    forall i :: 0 <= i < |s| ==> IsDigit(s[i])
  }

  /** The value of a string of decimal digits, each read with `Character.digit`. */
  function Value(s: string): nat
    requires AllDigits(s)
  {
    if |s| == 0 then 0 else Value(s[..|s| - 1]) * 10 + DigitValue(s[|s| - 1])
  }

  /** Over ASCII digits this is the plain decimal value. */
  lemma {:induction false} ValueOfAscii(s: string)
    requires forall i :: 0 <= i < |s| ==> '0' <= s[i] <= '9'
    ensures AllDigits(s) && Value(s) == DigitsValue(s)
  {
    if |s| > 0 {
      ValueOfAscii(s[..|s| - 1]);
    }
  }

  /** Position of the first character satisfying `p`, or `|s|` when there is none. */
  function IndexOf(s: string, c: char, d: char): (k: nat)
    ensures k <= |s|
    ensures forall i :: 0 <= i < k ==> s[i] != c && s[i] != d
    ensures k < |s| ==> s[k] == c || s[k] == d
  {
    if |s| == 0 then 0
    else if s[0] == c || s[0] == d then 0
    else 1 + IndexOf(s[1..], c, d)
  }

  /** The exponent after 'e' or 'E': an optional sign and at least one digit, whose value must
      be a Java `int`. */
  function ParseExponent(t: string): (r: Option<int>)
    ensures r.Some? ==> InInt(r.value)
  {
    var neg := |t| > 0 && t[0] == '-';
    var digits := if |t| > 0 && (t[0] == '+' || t[0] == '-') then t[1..] else t;
    if |digits| == 0 || !AllDigits(digits) then None
    else
      var e := if neg then -(Value(digits) as int) else Value(digits) as int;
      if InInt(e) then Some(e) else None
  }

  /** The digits before the exponent: digits with at most one '.', at least one digit in all.
      The result is the value of the digits with the point removed and the number of digits
      after the point. */
  function ParseMantissa(m: string): (r: Option<(nat, nat)>)
  {
    var d := IndexOf(m, '.', '.');
    var intPart := m[..d];
    var frac := if d == |m| then "" else m[d + 1..];
    if !AllDigits(intPart) || !AllDigits(frac) || |intPart| + |frac| == 0 then None
    else
      AllDigitsAppend(intPart, frac);
      Some((Value(intPart + frac), |frac|))
  }

  /** The unsigned part of a number: the mantissa and an optional exponent after 'e' or 'E'.
      The scale is the number of fraction digits minus the exponent and must be a Java
      `int`. */
  function ParseMagnitude(body: string): Option<Decimal>
  {
    var k := IndexOf(body, 'e', 'E');
    Scaled(ParseMantissa(body[..k]), if k == |body| then Some(0) else ParseExponent(body[k + 1..]))
  }

  /** The number a mantissa and an exponent denote, when both parsed and the scale fits. */
  function Scaled(mantissa: Option<(nat, nat)>, exponent: Option<int>): Option<Decimal>
  {
    if mantissa.None? || exponent.None? || !InInt(mantissa.value.1 - exponent.value) then None
    else Some(Decimal(mantissa.value.0, mantissa.value.1 - exponent.value))
  }

  /** `BigDecimal.negate()`: the same scale, the unscaled value negated. */
  function Negate(d: Decimal): (r: Decimal)
  {
    Decimal(-d.unscaled, d.scale)
  }

  /** `new BigDecimal(text)`: an optional sign, then the unsigned part; anything else is a
      NumberFormatException. */
  function Parse(text: string): (r: Result<Decimal, Error>)
    ensures r.Err? ==> r.error == NumberFormat(text)
  {
    var signed := |text| > 0 && (text[0] == '+' || text[0] == '-');
    var body := if signed then text[1..] else text;
    var magnitude := ParseMagnitude(body);
    if magnitude.None? then Err(NumberFormat(text))
    else if signed && text[0] == '-' then Ok(Negate(magnitude.value))
    else Ok(magnitude.value)
  }

  lemma AllDigitsAppend(a: string, b: string)
    requires AllDigits(a) && AllDigits(b)
    ensures AllDigits(a + b)
  {
    var ab := a + b;
    forall i | 0 <= i < |ab| ensures IsDigit(ab[i]) {
      if i >= |a| { assert ab[i] == b[i - |a|]; }
    }
  }

  /** Text that does not start like a number does not parse: the one fact about the strings
      of booleans, arrays and objects the converter relies on. */
  lemma NotNumberStart(text: string)
    requires |text| > 0 && !IsDigit(text[0]) && text[0] !in {'+', '-', '.'}
    ensures Parse(text).Err?
  {
    var k := IndexOf(text, 'e', 'E');
    var mantissa := text[..k];
    if k > 0 {
      var d := IndexOf(mantissa, '.', '.');
      assert d > 0;
      assert mantissa[..d][0] == text[0];
    }
    assert ParseMantissa(mantissa).None?;
    assert ParseMagnitude(text).None?;
  }

  /** Values the fraction digits shift in: appending digits multiplies by a power of ten. */
  lemma {:induction false} ValueAppend(a: string, b: string)
    requires AllDigits(a) && AllDigits(b)
    ensures AllDigits(a + b)
    ensures Value(a + b) == Value(a) * Pow10(|b|) + Value(b)
    decreases |b|
  {
    var ab := a + b;
    AllDigitsAppend(a, b);
    if |b| == 0 {
      assert ab == a;
    } else {
      var init := b[..|b| - 1];
      assert ab[..|ab| - 1] == a + init;
      assert ab[|ab| - 1] == b[|b| - 1];
      ValueAppend(a, init);
      var last := DigitValue(b[|b| - 1]);
      var x, p, y := Value(a), Pow10(|init|), Value(init);
      assert Value(b) == y * 10 + last;
      assert Pow10(|b|) == p * 10;
      assert Value(ab) == Value(a + init) * 10 + last;
      ShiftDigit(x, p, y, last);
    }
  }

  lemma ShiftDigit(x: int, p: int, y: int, last: int)
    ensures (x * p + y) * 10 + last == x * (p * 10) + (y * 10 + last)
  {
  }

  /** Plain digits are a mantissa without fraction and without exponent. */
  lemma ParseDigits(s: string)
    requires |s| > 0 && AllDigits(s)
    ensures ParseMagnitude(s) == Some(Decimal(Value(s), 0))
  {
    SeparatorsNotDigits();
    var k := IndexOf(s, 'e', 'E');
    assert k == |s|;
    assert s[..k] == s;
    ParseMantissaOfDigits(s);
  }

  /** The separators of a number text are not digits of any block. */
  lemma SeparatorsNotDigits()
    ensures !IsDigit('e') && !IsDigit('E') && !IsDigit('.')
  {
    assert BlockZero(1) == 0x0660;
  }

  /** Plain digits are a mantissa without a fraction. */
  lemma ParseMantissaOfDigits(s: string)
    requires |s| > 0 && AllDigits(s)
    ensures ParseMantissa(s) == Some((Value(s), 0))
  {
    SeparatorsNotDigits();
    var d := IndexOf(s, '.', '.');
    assert d == |s|;
    assert s[..d] == s;
    assert s + "" == s;
  }

  lemma ParseUnsigned(digits: string)
    requires |digits| > 0 && AllDigits(digits)
    ensures Parse(digits) == Ok(Decimal(Value(digits), 0))
  {
    assert IsDigit(digits[0]);
    ParseDigits(digits);
  }

  lemma ParseNegative(text: string, digits: string)
    requires |digits| > 0 && AllDigits(digits) && |text| > 0 && text[0] == '-' && text[1..] == digits
    ensures Parse(text) == Ok(Decimal(-(Value(digits) as int), 0))
  {
    ParseDigits(digits);
    ParseMinusSign(text, digits);
    var d := Decimal(Value(digits), 0);
    assert Parse(text) == Ok(Negate(d));
    assert Negate(d) == Decimal(-d.unscaled, d.scale);
  }

  /** A JSON integer is read back as itself, at scale zero. */
  lemma ParseInteger(i: int)
    ensures Parse(IntToString(i)) == Ok(Decimal(i, 0))
  {
    NatToStringValue(Abs(i));
    ValueOfAscii(NatToString(Abs(i)));
    if i < 0 {
      ParseNegativeInteger(i);
    } else {
      assert IntToString(i) == NatToString(i);
      ParseUnsigned(NatToString(i));
    }
  }

  /** The negative case of ParseInteger: a '-' before the digits of the magnitude. */
  lemma ParseNegativeInteger(i: int)
    requires i < 0
    requires AllDigits(NatToString(-i)) && Value(NatToString(-i)) == -i
    ensures Parse(IntToString(i)) == Ok(Decimal(i, 0))
  {
    var digits := NatToString(-i);
    var text := IntToString(i);
    assert text == "-" + digits;
    assert text[1..] == digits;
    ParseNegative(text, digits);
  }

  /** The first 'e' or 'E' (or '.') of a text is found after a part holding none. */
  lemma {:induction false} IndexOfAfter(a: string, x: char, rest: string, c: char, d: char)
    requires forall k :: 0 <= k < |a| ==> a[k] != c && a[k] != d
    requires x == c || x == d
    ensures IndexOf(a + [x] + rest, c, d) == |a|
  {
    var t := a + [x] + rest;
    if |a| > 0 {
      assert t[1..] == a[1..] + [x] + rest;
      IndexOfAfter(a[1..], x, rest, c, d);
    }
  }

  /** An exponent of plain digits after an optional sign reads as its signed value, when that
      is a Java `int`. */
  lemma ParseExponentOfDigits(t: string, digits: string, neg: bool)
    requires |digits| > 0 && AllDigits(digits)
    requires t == (if neg then "-" else "") + digits
    ensures var v: int := Value(digits);
            var e := if neg then -v else v;
            ParseExponent(t) == if InInt(e) then Some(e) else None
  {
    if neg {
      assert t[0] == '-' && t[1..] == digits;
    } else {
      assert t == digits && t[0] == digits[0];
    }
  }

  /** The printed exponent reads back as itself when it is a Java `int`, and fails
      otherwise. */
  lemma ParseExponentOfInt(e: int)
    ensures ParseExponent(IntToString(e)) == if InInt(e) then Some(e) else None
  {
    var digits := NatToString(Abs(e));
    NatToStringValue(Abs(e));
    ValueOfAscii(digits);
    if e < 0 {
      assert IntToString(e) == "-" + digits;
      ParseExponentOfDigits(IntToString(e), digits, true);
    } else {
      assert IntToString(e) == "" + digits;
      ParseExponentOfDigits(IntToString(e), digits, false);
    }
  }

  /** The mantissa "i.f" is the digits of `i` and `f` together, with `|f|` digits after the
      point. */
  lemma ParseMantissaOfParts(i: string, f: string)
    requires AllDigits(i) && AllDigits(f) && |i| + |f| > 0
    ensures AllDigits(i + f)
    ensures ParseMantissa(i + "." + f) == Some((Value(i + f), |f|))
  {
    var m := i + "." + f;
    AllDigitsAppend(i, f);
    IndexOfAfter(i, '.', f, '.', '.');
    assert m[..|i|] == i;
    assert m[|i| + 1..] == f;
  }

  lemma ScaledOf(v: nat, n: nat, e: int)
    ensures InInt(e) && InInt(n - e) ==> Scaled(Some((v, n)), Some(e)) == Some(Decimal(v, n - e))
    ensures Scaled(Some((v, n)), None) == None
    ensures !InInt(n - e) ==> Scaled(Some((v, n)), Some(e)) == None
  {
  }

  /** The unsigned part splits at its first exponent letter. */
  lemma MagnitudeSplit(body: string, mantissa: string, x: string)
    requires forall k :: 0 <= k < |mantissa| ==> mantissa[k] != 'e' && mantissa[k] != 'E'
    requires body == mantissa + ['E'] + x
    ensures ParseMagnitude(body) == Scaled(ParseMantissa(mantissa), ParseExponent(x))
  {
    IndexOfAfter(mantissa, 'E', x, 'e', 'E');
    var k := |mantissa|;
    assert body[..k] == mantissa;
    assert body[k + 1..] == x;
  }

  /** The mantissa "i.f" holds no exponent letter. */
  lemma MantissaLetters(i: string, f: string)
    requires AllDigits(i) && AllDigits(f)
    ensures var m := i + "." + f;
            forall k :: 0 <= k < |m| ==> m[k] != 'e' && m[k] != 'E'
  {
    var m := i + "." + f;
    forall k | 0 <= k < |m| ensures m[k] != 'e' && m[k] != 'E' {
      if k < |i| {
        assert m[k] == i[k];
      } else if k > |i| {
        assert m[k] == f[k - |i| - 1];
      }
    }
  }

  /** The parts of an unsigned text combine as `Scaled` does. */
  lemma MagnitudeOfParts(magnitude: Option<Decimal>, mantissa: Option<(nat, nat)>, exponent: Option<int>,
                         v: nat, n: nat, e: int, scale: int)
    requires magnitude == Scaled(mantissa, exponent)
    requires mantissa == Some((v, n))
    requires exponent == if InInt(e) then Some(e) else None
    requires scale == n - e
    ensures InInt(e) && InInt(scale) ==> magnitude == Some(Decimal(v, scale))
    ensures !(InInt(e) && InInt(scale)) ==> magnitude == None
  {
    ScaledOf(v, n, e);
  }

  /** The same for the parts of "i.fEe". */
  lemma MagnitudeOfLiteralParts(body: string, i: string, f: string, e: int)
    requires AllDigits(i) && AllDigits(f) && |i| + |f| > 0
    requires ParseMagnitude(body) == Scaled(ParseMantissa(i + "." + f), ParseExponent(IntToString(e)))
    requires AllDigits(i + f)
    requires ParseMantissa(i + "." + f) == Some((Value(i + f), |f|))
    requires ParseExponent(IntToString(e)) == if InInt(e) then Some(e) else None
    ensures InInt(e) && InInt(|f| - e) ==> ParseMagnitude(body) == Some(Decimal(Value(i + f), |f| - e))
    ensures !(InInt(e) && InInt(|f| - e)) ==> ParseMagnitude(body) == None
  {
    var v := Value(i + f);
    var scale := |f| - e;
    MagnitudeOfParts(ParseMagnitude(body), ParseMantissa(i + "." + f), ParseExponent(IntToString(e)), v, |f|, e, scale);
    assert Decimal(Value(i + f), |f| - e) == Decimal(v, scale);
  }

  /** The unsigned text "i.fEe" splits at the exponent letter after the mantissa "i.f". */
  lemma MagnitudeSplitLiteral(body: string, i: string, f: string, e: int)
    requires AllDigits(i) && AllDigits(f)
    requires body == i + "." + f + "E" + IntToString(e)
    ensures ParseMagnitude(body) == Scaled(ParseMantissa(i + "." + f), ParseExponent(IntToString(e)))
  {
    var m := i + "." + f;
    var x := IntToString(e);
    MantissaLetters(i, f);
    assert body == m + ['E'] + x;
    MagnitudeSplit(body, m, x);
  }

  /** The unsigned part "i.fEe": the mantissa before the exponent letter, the printed
      exponent after it. */
  lemma ParseMagnitudeOfLiteral(body: string, i: string, f: string, e: int)
    requires AllDigits(i) && AllDigits(f) && |i| + |f| > 0
    requires body == i + "." + f + "E" + IntToString(e)
    ensures AllDigits(i + f)
    ensures InInt(e) && InInt(|f| - e) ==> ParseMagnitude(body) == Some(Decimal(Value(i + f), |f| - e))
    ensures !(InInt(e) && InInt(|f| - e)) ==> ParseMagnitude(body) == None
  {
    ParseMantissaOfParts(i, f);
    ParseExponentOfInt(e);
    MagnitudeSplitLiteral(body, i, f, e);
    MagnitudeOfLiteralParts(body, i, f, e);
  }

  /** A text that starts with '-': the negated unsigned part. */
  lemma ParseMinusSign(text: string, body: string)
    requires |text| > 0 && text[0] == '-' && text[1..] == body
    ensures Parse(text) ==
              if ParseMagnitude(body).None? then Err(NumberFormat(text))
              else Ok(Negate(ParseMagnitude(body).value))
  {
  }

  /** A text that starts with '+': the unsigned part. */
  lemma ParsePlusSign(text: string, body: string)
    requires |text| > 0 && text[0] == '+' && text[1..] == body
    ensures Parse(text) == if ParseMagnitude(body).None? then Err(NumberFormat(text)) else Ok(ParseMagnitude(body).value)
  {
  }

  /** A text that starts with neither sign is read as the unsigned part. */
  lemma ParseWithoutSign(text: string)
    requires |text| > 0 && text[0] != '+' && text[0] != '-'
    ensures Parse(text) == if ParseMagnitude(text).None? then Err(NumberFormat(text)) else Ok(ParseMagnitude(text).value)
  {
  }

  /** An optional sign in front of an unsigned part that starts with neither sign: the sign
      applies to the unscaled value. */
  lemma ParseSigned(text: string, sign: string, body: string, m: Option<Decimal>)
    requires sign == "" || sign == "+" || sign == "-"
    requires |body| > 0 && body[0] != '+' && body[0] != '-'
    requires text == sign + body
    requires ParseMagnitude(body) == m
    ensures m.None? ==> Parse(text) == Err(NumberFormat(text))
    ensures m.Some? && sign == "-" ==> Parse(text) == Ok(Negate(m.value))
    ensures m.Some? && sign != "-" ==> Parse(text) == Ok(m.value)
  {
    if sign == "" {
      assert text == body;
      ParseWithoutSign(text);
    } else if sign == "+" {
      assert text[0] == '+' && text[1..] == body;
      ParsePlusSign(text, body);
    } else {
      assert text[0] == '-' && text[1..] == body;
      ParseMinusSign(text, body);
    }
  }

  /** A literal with a point and an exponent, such as "-12.50E-3": the digits on both sides
      of the point make the unscaled value and the scale is the number of fraction digits
      minus the exponent; the exponent and the scale must both be Java `int`s, otherwise the
      text is a NumberFormatException. The digits may come from any block of decimal
      digits. */
  lemma ParseLiteral(text: string, sign: string, i: string, f: string, e: int)
    requires sign == "" || sign == "+" || sign == "-"
    requires AllDigits(i) && AllDigits(f) && |i| + |f| > 0
    requires text == sign + (i + "." + f + "E" + IntToString(e))
    ensures AllDigits(i + f)
    ensures InInt(e) && InInt(|f| - e) && sign == "-" ==> Parse(text) == Ok(Negate(Decimal(Value(i + f), |f| - e)))
    ensures InInt(e) && InInt(|f| - e) && sign != "-" ==> Parse(text) == Ok(Decimal(Value(i + f), |f| - e))
    ensures !(InInt(e) && InInt(|f| - e)) ==> Parse(text) == Err(NumberFormat(text))
  {
    var body := i + "." + f + "E" + IntToString(e);
    ParseMagnitudeOfLiteral(body, i, f, e);
    if |i| > 0 {
      assert body[0] == i[0];
      assert IsDigit(i[0]);
    } else {
      assert body[0] == '.';
    }
    if sign == "" {
      assert text == body;
      ParseWithoutSign(text);
    } else if sign == "+" {
      assert text[0] == '+' && text[1..] == body;
      ParsePlusSign(text, body);
    } else {
      assert text[0] == '-' && text[1..] == body;
      ParseMinusSign(text, body);
    }
  }

  /** The digits of any block read as their values: "\u0661\u0662\u0663" (ARABIC-INDIC)
      and "\uFF11\uFF12" (FULLWIDTH) are 123 and 12. */
  lemma ParseOtherDigits(arabic: string, fullwidth: string)
    requires arabic == ['\U{0661}', '\U{0662}', '\U{0663}'] && fullwidth == ['\U{FF11}', '\U{FF12}']
    ensures Parse(arabic) == Ok(Decimal(123, 0))
    ensures Parse(fullwidth) == Ok(Decimal(12, 0))
  {
    DigitValueOfBlock(1, 1);
    DigitValueOfBlock(1, 2);
    DigitValueOfBlock(1, 3);
    DigitValueOfBlock(BLOCKS - 1, 1);
    DigitValueOfBlock(BLOCKS - 1, 2);
    var a1, a2 := arabic[..1], arabic[..2];
    assert a1 == a2[..1] == ['\U{0661}'] && a1[..0] == [];
    assert Value(a1) == 1;
    assert a2 == arabic[..2] && a2[1] == '\U{0662}';
    assert Value(a2) == 12;
    assert arabic[2] == '\U{0663}';
    assert Value(arabic) == 123;
    var f1 := fullwidth[..1];
    assert f1 == ['\U{FF11}'] && f1[..0] == [];
    assert Value(f1) == 1;
    assert fullwidth[1] == '\U{FF12}';
    assert Value(fullwidth) == 12;
    ParseUnsigned(arabic);
    ParseUnsigned(fullwidth);
  }

  // ---------------------------------------------------------------------------------------
  // setScale(scale, RoundingMode.DOWN)

  /** Integer division rounding toward zero (Java's `/`, BigInteger.divide). */
  function DivDown(a: int, b: nat): (q: int)
    requires b > 0
    ensures Abs(q) * b <= Abs(a) < Abs(q) * b + b
    ensures q != 0 ==> (q < 0 <==> a < 0)
  {
    NatDiv(Abs(a), b);
    if a >= 0 then a / b else -((-a) / b)
  }

  lemma NatDiv(a: nat, b: nat)
    requires b > 0
    ensures a / b >= 0 && (a / b) * b <= a < (a / b) * b + b
  {
    assert a == (a / b) * b + a % b;
  }

  /** `setScale(scale, RoundingMode.DOWN)`: a larger scale appends zero digits, a smaller one
      drops the excess digits. */
  function SetScaleDown(d: Decimal, scale: int): (r: Decimal)
    ensures r.scale == scale
    ensures scale >= d.scale ==> r.unscaled == d.unscaled * Pow10(scale - d.scale)
    ensures scale < d.scale ==>
              var p := Pow10(d.scale - scale);
              Abs(r.unscaled) * p <= Abs(d.unscaled) < Abs(r.unscaled) * p + p
              && (r.unscaled != 0 ==> (r.unscaled < 0 <==> d.unscaled < 0))
  {
    if scale >= d.scale then Decimal(d.unscaled * Pow10(scale - d.scale), scale)
    else Decimal(DivDown(d.unscaled, Pow10(d.scale - scale)), scale)
  }

  /** Rescaling to the scale a number already has changes nothing. */
  lemma SetScaleSame(d: Decimal)
    ensures SetScaleDown(d, d.scale) == d
  {
  }

  // ---------------------------------------------------------------------------------------
  // BigInteger.toByteArray

  /** The signed value of big-endian two's-complement bytes (`new BigInteger(byte[])`). */
  function FromBytes(bytes: seq<byte>): int
    requires |bytes| > 0
  {
    if |bytes| == 1 then (if bytes[0] < 128 then bytes[0] as int else bytes[0] as int - 256)
    else FromBytes(bytes[..|bytes| - 1]) * 256 + bytes[|bytes| - 1] as int
  }

  /** `BigInteger.toByteArray()`: the shortest big-endian two's-complement bytes, at least one. */
  function ToBytes(i: int): (r: seq<byte>)
    ensures |r| > 0
    decreases Abs(i)
  {
    if -128 <= i < 128 then [(i % 256) as byte]
    else ToBytes(i / 256) + [(i % 256) as byte]
  }

  /** The bytes read back as the number they encode. */
  lemma {:induction false} FromToBytes(i: int)
    ensures FromBytes(ToBytes(i)) == i
    decreases Abs(i)
  {
    if !(-128 <= i < 128) {
      var r := ToBytes(i);
      FromToBytes(i / 256);
      assert r[..|r| - 1] == ToBytes(i / 256);
    }
  }

  /** The sign is the top bit of the first byte. */
  lemma {:induction false} ToBytesSign(i: int)
    ensures (ToBytes(i)[0] >= 128) <==> i < 0
    decreases Abs(i)
  {
    if !(-128 <= i < 128) {
      ToBytesSign(i / 256);
      assert ToBytes(i)[0] == ToBytes(i / 256)[0];
    }
  }

  /** No byte is redundant: the first byte is not a mere sign extension of the second. */
  lemma {:induction false} ToBytesMinimal(i: int)
    ensures var r := ToBytes(i);
            |r| > 1 ==> !(r[0] == 0 && r[1] < 128) && !(r[0] == 255 && r[1] >= 128)
    decreases Abs(i)
  {
    var r := ToBytes(i);
    if |r| > 1 {
      var q := i / 256;
      var head := ToBytes(q);
      assert r == head + [(i % 256) as byte];
      if |head| == 1 {
        assert r[0] == head[0] && r[1] == (i % 256) as byte;
      } else {
        ToBytesMinimal(q);
        assert r[0] == head[0] && r[1] == head[1];
      }
    }
  }

  // ---------------------------------------------------------------------------------------
  // The converter

  /** `canManage`: a BYTES schema with logical type "decimal" and a `scale` property. */
  predicate CanManage(s: Schema)
  {
    TypeOf(s) == BYTES && LogicalTypeName(s) == Some("decimal") && ScaleProp(s).Some?
  }

  /** `convertDecimal`: the bytes of the value rescaled to `scale`. */
  function ConvertDecimal(text: string, scale: int): (r: Result<seq<byte>, Error>)
    ensures r.Ok? <==> Parse(text).Ok?
    ensures r.Ok? ==> |r.value| > 0 && FromBytes(r.value) == SetScaleDown(Parse(text).value, scale).unscaled
  {
    match Parse(text)
    case Err(e) => Err(e)
    case Ok(d) =>
      var bytes := ToBytes(SetScaleDown(d, scale).unscaled);
      FromToBytes(SetScaleDown(d, scale).unscaled);
      Ok(bytes)
  }

  /** `convert`: a scale that is not a Java `int` fails the `(int)` cast; a null value fails
      `toString()`; text that is not a number is `Incompatible` when silent and an exception
      naming the path and the value otherwise. */
  function Convert(s: Schema, value: Json, path: seq<string>, silently: bool): (r: Outcome)
    requires ScaleProp(s).Some?
    ensures !InInt(ScaleProp(s).value) ==> r == Err(ClassCast)
    ensures InInt(ScaleProp(s).value) && value.JNull? ==> r == Err(NullPointer)
    ensures r.Ok? && r.value.VBytes? ==>
              ConvertDecimal(ElementString(value), ScaleProp(s).value) == Ok(r.value.bytes)
    ensures r.Ok? ==> r.value.VBytes? || (silently && r.value == VIncompatible("string number, decimal"))
    ensures r.Err? && InInt(ScaleProp(s).value) && !value.JNull? ==> !silently && r.error == InvalidNumber(Print(path), value)
  {
    var scale := ScaleProp(s).value;
    if !InInt(scale) then Err(ClassCast)
    else match JavaString(value)
      case Err(e) => Err(e)
      case Ok(text) =>
        match ConvertDecimal(text, scale)
        case Ok(bytes) => Ok(VBytes(bytes))
        case Err(_) =>
          if silently then Ok(VIncompatible("string number, decimal"))
          else Err(InvalidNumber(Print(path), value))
  }

  /** A JSON integer at a non-negative scale becomes the bytes of that integer times ten to
      the scale. */
  lemma ConvertInteger(s: Schema, i: int, path: seq<string>, silently: bool)
    requires CanManage(s) && 0 <= ScaleProp(s).value <= INT_MAX
    ensures Convert(s, JInt(i), path, silently) == Ok(VBytes(ToBytes(i * Pow10(ScaleProp(s).value))))
  {
    var scale := ScaleProp(s).value;
    ParseInteger(i);
    assert JavaString(JInt(i)) == Ok(IntToString(i));
    assert SetScaleDown(Decimal(i, 0), scale) == Decimal(i * Pow10(scale), scale);
    assert ConvertDecimal(IntToString(i), scale) == Ok(ToBytes(i * Pow10(scale)));
  }

  /** Booleans, arrays and objects are never numbers: silent conversion reports them
      incompatible, strict conversion throws. */
  lemma ConvertNonNumber(s: Schema, value: Json, path: seq<string>, silently: bool)
    requires CanManage(s) && InInt(ScaleProp(s).value)
    requires value.JBool? || value.JArr? || value.JObj?
    ensures Convert(s, value, path, silently) ==
              if silently then Ok(VIncompatible("string number, decimal"))
              else Err(InvalidNumber(Print(path), value))
  {
    NotNumberStart(ElementString(value));
  }

  /** The three minimal encodings the decimal logical type is most often checked against. */
  lemma ToBytesExamples()
    ensures ToBytes(1234) == [4, 210]
    ensures ToBytes(-1) == [255]
    ensures ToBytes(128) == [0, 128]
  {
  }
}
