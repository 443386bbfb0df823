/** UTF-8 as `String.getBytes(StandardCharsets.UTF_8)` produces it (section 3 of RFC 3629): each
    character becomes one to four bytes, a lead byte announcing the length followed by
    continuation bytes of six payload bits each. The decoder accepts exactly the well-formed
    sequences: no overlong forms, no surrogates, nothing above U+10FFFF. */
module Utf8 {
  import opened Wrappers
  import opened Values

  /** The bytes of one character, high bits first. */
  function EncodeChar(c: char): (r: seq<byte>)
    ensures 1 <= |r| <= 4
    ensures |r| == 1 <==> (c as int) < 0x80
    ensures |r| == 1 ==> r[0] as int == c as int
  {
    var n := c as int;
    var q1 := n / 64;
    var q2 := q1 / 64;
    var q3 := q2 / 64;
    if n < 0x80 then [n as byte]
    else if n < 0x800 then [(0xC0 + q1) as byte, (0x80 + n % 64) as byte]
    else if n < 0x10000 then [(0xE0 + q2) as byte, (0x80 + q1 % 64) as byte, (0x80 + n % 64) as byte]
    else [(0xF0 + q3) as byte, (0x80 + q2 % 64) as byte, (0x80 + q1 % 64) as byte, (0x80 + n % 64) as byte]
  }

  /** `getBytes(UTF_8)`: the characters' encodings one after another. */
  function Encode(s: string): (r: seq<byte>)
    ensures |s| <= |r| <= 4 * |s|
  {
    if |s| == 0 then [] else EncodeChar(s[0]) + Encode(s[1..])
  }

  predicate IsContinuation(b: byte)
  {
    0x80 <= b < 0xC0
  }

  /** The number of bytes a lead byte announces; 0 for a byte that cannot start a character. */
  function SequenceLength(b: byte): nat
  {
    if b < 0x80 then 1
    else if b < 0xC0 then 0
    else if b < 0xE0 then 2
    else if b < 0xF0 then 3
    else if b < 0xF8 then 4
    else 0
  }

  /** The code point of a sequence of `k` bytes: the lead byte's payload, then six bits per
      continuation byte. */
  function SequenceValue(bytes: seq<byte>, k: nat): int
    requires 1 <= k <= 4 && k <= |bytes|
  {
    var lead := bytes[0] as int;
    if k == 1 then lead
    else if k == 2 then (lead - 0xC0) * 64 + (bytes[1] as int - 0x80)
    else if k == 3 then ((lead - 0xE0) * 64 + (bytes[1] as int - 0x80)) * 64 + (bytes[2] as int - 0x80)
    else (((lead - 0xF0) * 64 + (bytes[1] as int - 0x80)) * 64 + (bytes[2] as int - 0x80)) * 64 + (bytes[3] as int - 0x80)
  }

  /** The shortest form of each length covers exactly this range of code points. */
  predicate InRangeFor(v: int, k: nat)
  {
    if k == 1 then 0 <= v < 0x80
    else if k == 2 then 0x80 <= v < 0x800
    else if k == 3 then 0x800 <= v < 0x10000 && !(0xD800 <= v < 0xE000)
    else 0x10000 <= v < 0x110000
  }

  /** The first character of `bytes` and the number of bytes it takes, if well formed. */
  function DecodeFirst(bytes: seq<byte>): (r: Option<(char, nat)>)
    requires |bytes| > 0
    ensures r.Some? ==> 1 <= r.value.1 <= |bytes|
  {
    var k := SequenceLength(bytes[0]);
    if k == 0 || |bytes| < k then None
    else if exists i :: 1 <= i < k && !IsContinuation(bytes[i]) then None
    else
      var v := SequenceValue(bytes, k);
      if InRangeFor(v, k) then Some((v as char, k)) else None
  }

  /** `new String(bytes, UTF_8)` on well-formed input; None when the bytes are not UTF-8. */
  function Decode(bytes: seq<byte>): Option<string>
    decreases |bytes|
  {
    if |bytes| == 0 then Some("")
    else match DecodeFirst(bytes)
      case None => None
      case Some((c, k)) =>
        match Decode(bytes[k..])
        case None => None
        case Some(rest) => Some([c] + rest)
  }

  lemma Split64(n: int)
    requires n >= 0
    ensures n == n / 64 * 64 + n % 64 && 0 <= n % 64 < 64 && n / 64 >= 0
  {
  }

  /** Each character's bytes are read back as that character. */
  lemma DecodeFirstOfChar(c: char, rest: seq<byte>)
    ensures DecodeFirst(EncodeChar(c) + rest) == Some((c, |EncodeChar(c)|))
  {
    var n := c as int;
    var e := EncodeChar(c);
    var bytes := e + rest;
    var q1 := n / 64;
    var q2 := q1 / 64;
    var q3 := q2 / 64;
    Split64(n);
    Split64(q1);
    Split64(q2);
    if n < 0x80 {
      assert bytes[0] == e[0];
    } else if n < 0x800 {
      assert bytes[0] == e[0] && bytes[1] == e[1];
      assert SequenceLength(bytes[0]) == 2;
      assert SequenceValue(bytes, 2) == n;
    } else if n < 0x10000 {
      assert bytes[0] == e[0] && bytes[1] == e[1] && bytes[2] == e[2];
      assert SequenceLength(bytes[0]) == 3;
      assert SequenceValue(bytes, 3) == n;
    } else {
      assert bytes[0] == e[0] && bytes[1] == e[1] && bytes[2] == e[2] && bytes[3] == e[3];
      assert SequenceLength(bytes[0]) == 4;
      assert SequenceValue(bytes, 4) == n;
    }
  }

  /** Decoding undoes encoding: the bytes of a string are well-formed UTF-8 and read back as
      that string. */
  lemma {:induction false} DecodeEncode(s: string)
    ensures Decode(Encode(s)) == Some(s)
  {
    if |s| > 0 {
      var e := EncodeChar(s[0]);
      var rest := Encode(s[1..]);
      DecodeFirstOfChar(s[0], rest);
      assert (e + rest)[|e|..] == rest;
      DecodeEncode(s[1..]);
      assert [s[0]] + s[1..] == s;
    }
  }

  /** ASCII text is its own encoding, one byte per character. */
  lemma {:induction false} EncodeAscii(s: string)
    requires forall i :: 0 <= i < |s| ==> (s[i] as int) < 0x80
    ensures |Encode(s)| == |s|
    ensures forall i :: 0 <= i < |s| ==> Encode(s)[i] as int == s[i] as int
  {
    if |s| > 0 {
      EncodeAscii(s[1..]);
    }
  }
}
