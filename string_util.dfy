/** `StringUtil`: the Base64 shape check and the conditional decode. The alphabet and the
    padding are those of section 4 of RFC 4648 ("base64", not the URL-safe alphabet). */
module StringUtil {
  import opened Wrappers
  import opened Values

  /** `[A-Za-z0-9+/]`. */
  predicate InAlphabet(c: char)
  {
    'A' <= c <= 'Z' || 'a' <= c <= 'z' || '0' <= c <= '9' || c == '+' || c == '/'
  }

  /** The six-bit value a character of the alphabet stands for. */
  function SextetValue(c: char): (v: nat)
    requires InAlphabet(c)
    ensures v < 64
  {
    if 'A' <= c <= 'Z' then c as int - 'A' as int
    else if 'a' <= c <= 'z' then c as int - 'a' as int + 26
    else if '0' <= c <= '9' then c as int - '0' as int + 52
    else if c == '+' then 62
    else 63
  }

  /** The character of the alphabet for a six-bit value. */
  function SextetChar(v: nat): (c: char)
    requires v < 64
    ensures InAlphabet(c) && SextetValue(c) == v
  {
    if v < 26 then (v + 'A' as int) as char
    else if v < 52 then (v - 26 + 'a' as int) as char
    else if v < 62 then (v - 52 + '0' as int) as char
    else if v == 62 then '+'
    else '/'
  }

  lemma CharOfSextet(c: char)
    requires InAlphabet(c)
    ensures SextetChar(SextetValue(c)) == c
  {
  }

  /** `[A-Za-z0-9+/]{4}`. */
  predicate IsGroup(g: string)
  {
    |g| == 4 && InAlphabet(g[0]) && InAlphabet(g[1]) && InAlphabet(g[2]) && InAlphabet(g[3])
  }

  /** `[A-Za-z0-9+/]{3}=|[A-Za-z0-9+/]{2}==`. */
  predicate IsPaddedGroup(g: string)
  {
    |g| == 4 && InAlphabet(g[0]) && InAlphabet(g[1]) && g[3] == '='
    && (InAlphabet(g[2]) || g[2] == '=')
  }

  /** The regular expression `^([A-Za-z0-9+/]{4})*([A-Za-z0-9+/]{3}=|[A-Za-z0-9+/]{2}==)?$`,
      read four characters at a time. */
  predicate Matches(s: string)
    decreases |s|
  {
    if |s| == 0 then true
    else if |s| < 4 then false
    else if |s| == 4 then IsGroup(s) || IsPaddedGroup(s)
    else IsGroup(s[..4]) && Matches(s[4..])
  }

  /** The same language described position by position: a whole number of four-character
      groups, every character in the alphabet except a padding '=' in the last position, or in
      the last two. */
  predicate Shape(s: string)
  {
    |s| % 4 == 0
    && forall i :: 0 <= i < |s| ==>
         InAlphabet(s[i]) || (s[i] == '=' && (i == |s| - 1 || (i == |s| - 2 && s[|s| - 1] == '=')))
  }

  lemma {:induction false} MatchesIsShape(s: string)
    ensures Matches(s) <==> Shape(s)
    decreases |s|
  {
    if |s| > 4 {
      MatchesIsShape(s[4..]);
      if Shape(s) {
        assert forall i :: 0 <= i < 4 ==> InAlphabet(s[i]) by {
          forall i | 0 <= i < 4 ensures InAlphabet(s[i]) {
            assert i != |s| - 1 && i != |s| - 2;
          }
        }
        assert forall i :: 0 <= i < |s[4..]| ==> s[4..][i] == s[i + 4];
        assert Shape(s[4..]);
      }
      if Matches(s) {
        forall i | 0 <= i < |s|
          ensures InAlphabet(s[i]) || (s[i] == '=' && (i == |s| - 1 || (i == |s| - 2 && s[|s| - 1] == '=')))
        {
          if i >= 4 {
            assert s[i] == s[4..][i - 4];
            assert s[|s| - 1] == s[4..][|s[4..]| - 1];
          }
        }
      }
    }
  }

  /** Every accepted string is made of four-character groups, and the empty string is accepted. */
  lemma AcceptedLength(s: string)
    requires Matches(s)
    ensures |s| % 4 == 0
    ensures Matches("")
  {
    MatchesIsShape(s);
  }

  /** '=' only ever appears as one of the last two characters. */
  lemma PaddingOnlyAtEnd(s: string, i: int)
    requires Matches(s)
    requires 0 <= i < |s| - 2
    ensures s[i] != '='
  {
    MatchesIsShape(s);
  }

  /** `isBase64`; `None` stands for a null string, which is not Base64. */
  predicate IsBase64(value: Option<string>)
  {
    value.Some? && Matches(value.value)
  }

  /** Decoding of one full group: 24 bits, high byte first. */
  function DecodeGroup(g: string): (r: seq<byte>)
    requires IsGroup(g)
    ensures |r| == 3
  {
    var n := ((SextetValue(g[0]) * 64 + SextetValue(g[1])) * 64 + SextetValue(g[2])) * 64 + SextetValue(g[3]);
    var p := n / 256;
    [(p / 256) as byte, (p % 256) as byte, (n % 256) as byte]
  }

  /** Decoding of a padded group: "xx==" holds one byte, "xxx=" two; the bits below them are
      dropped, as `java.util.Base64`'s basic decoder does. */
  function DecodePadded(g: string): (r: seq<byte>)
    requires IsPaddedGroup(g)
    ensures |r| == (if g[2] == '=' then 1 else 2)
  {
    if g[2] == '=' then
      [((SextetValue(g[0]) * 64 + SextetValue(g[1])) / 16) as byte]
    else
      var p := ((SextetValue(g[0]) * 64 + SextetValue(g[1])) * 64 + SextetValue(g[2])) / 4;
      [(p / 256) as byte, (p % 256) as byte]
  }

  /** The number of '=' at the end of an accepted string. */
  function Padding(s: string): nat
  {
    if |s| >= 1 && s[|s| - 1] == '=' then (if |s| >= 2 && s[|s| - 2] == '=' then 2 else 1) else 0
  }

  /** `Base64.getDecoder().decode` on an accepted string: three bytes per group, fewer for the
      padded last one. */
  function Decode(s: string): (r: seq<byte>)
    requires Matches(s)
    ensures 4 * |r| == 3 * |s| - 4 * Padding(s)
    decreases |s|
  {
    if |s| == 0 then []
    else if |s| == 4 then (if IsGroup(s) then DecodeGroup(s) else DecodePadded(s))
    else
      var t := s[4..];
      assert Matches(t) && |t| >= 4;
      assert t[|t| - 1] == s[|s| - 1] && t[|t| - 2] == s[|s| - 2];
      DecodeGroup(s[..4]) + Decode(t)
  }

  /** `decodeBase64`: the decoded bytes read as UTF-8 when the string is Base64, otherwise
      the string itself (null included). The UTF-8 decoder is a parameter. */
  function DecodeBase64(value: Option<string>, utf8: seq<byte> -> string): (r: Option<string>)
    ensures !IsBase64(value) ==> r == value
    ensures IsBase64(value) ==> r.Some?
  {
    if IsBase64(value) then Some(utf8(Decode(value.value))) else value
  }

  /** Encoding of three bytes into a full group. */
  function EncodeGroup(b0: byte, b1: byte, b2: byte): (g: string)
    ensures |g| == 4
  {
    var n := (b0 as int * 256 + b1 as int) * 256 + b2 as int;
    var q1 := n / 64;
    var q2 := q1 / 64;
    [SextetChar(q2 / 64), SextetChar(q2 % 64), SextetChar(q1 % 64), SextetChar(n % 64)]
  }

  /** Encoding of the last one or two bytes into a padded group. */
  function EncodePadded(bytes: seq<byte>): (g: string)
    requires 1 <= |bytes| <= 2
    ensures |g| == 4
  {
    if |bytes| == 1 then
      [SextetChar(bytes[0] as int / 4), SextetChar(bytes[0] as int % 4 * 16), '=', '=']
    else
      var n := (bytes[0] as int * 256 + bytes[1] as int) * 4;
      var q1 := n / 64;
      [SextetChar(q1 / 64), SextetChar(q1 % 64), SextetChar(n % 64), '=']
  }

  /** The encoder of section 4 of RFC 4648, with padding: the reference the decoder inverts. */
  function Encode(bytes: seq<byte>): (s: string)
    ensures 4 * |bytes| <= 3 * |s| < 4 * |bytes| + 12
    decreases |bytes|
  {
    if |bytes| == 0 then ""
    else if |bytes| <= 2 then EncodePadded(bytes)
    else EncodeGroup(bytes[0], bytes[1], bytes[2]) + Encode(bytes[3..])
  }

  lemma GroupRoundTrip(h: seq<byte>)
    requires |h| == 3
    ensures IsGroup(EncodeGroup(h[0], h[1], h[2]))
    ensures DecodeGroup(EncodeGroup(h[0], h[1], h[2])) == h
  {
    var g := EncodeGroup(h[0], h[1], h[2]);
    var p := h[0] as int * 256 + h[1] as int;
    var n := p * 256 + h[2] as int;
    var q1 := n / 64;
    var q2 := q1 / 64;
    assert q2 == q2 / 64 * 64 + q2 % 64 && q1 == q2 * 64 + q1 % 64 && n == q1 * 64 + n % 64;
    assert ((SextetValue(g[0]) * 64 + SextetValue(g[1])) * 64 + SextetValue(g[2])) * 64 + SextetValue(g[3]) == n;
    assert n / 256 == p && n % 256 == h[2] as int;
    assert p / 256 == h[0] as int && p % 256 == h[1] as int;
    var r := DecodeGroup(g);
    assert r[0] == h[0] && r[1] == h[1] && r[2] == h[2];
  }

  lemma PaddedRoundTrip(bytes: seq<byte>)
    requires 1 <= |bytes| <= 2
    ensures IsPaddedGroup(EncodePadded(bytes))
    ensures DecodePadded(EncodePadded(bytes)) == bytes
  {
    var g := EncodePadded(bytes);
    if |bytes| == 1 {
      var b := bytes[0] as int;
      assert SextetValue(g[0]) * 64 + SextetValue(g[1]) == b * 16;
    } else {
      var p := bytes[0] as int * 256 + bytes[1] as int;
      var n := p * 4;
      var q1 := n / 64;
      assert q1 == q1 / 64 * 64 + q1 % 64 && n == q1 * 64 + n % 64;
      assert (SextetValue(g[0]) * 64 + SextetValue(g[1])) * 64 + SextetValue(g[2]) == n;
      assert n / 4 == p;
      assert p / 256 == bytes[0] as int && p % 256 == bytes[1] as int;
    }
  }

  /** A full group in front of an accepted string: still accepted, and decoded group by group. */
  lemma DecodeCons(g: string, t: string)
    requires IsGroup(g) && Matches(t)
    ensures Matches(g + t)
    ensures Decode(g + t) == DecodeGroup(g) + Decode(t)
  {
    var s := g + t;
    assert s[..4] == g;
    assert s[4..] == t;
    if |t| == 0 {
      assert s == g;
    }
  }

  lemma DecodeAppend(g: string, t: string, head: seq<byte>, rest: seq<byte>)
    requires IsGroup(g) && DecodeGroup(g) == head
    requires Matches(t) && Decode(t) == rest
    ensures Matches(g + t) && Decode(g + t) == head + rest
  {
    DecodeCons(g, t);
  }

  lemma SplitAt<T>(s: seq<T>, k: nat)
    requires k <= |s|
    ensures s == s[..k] + s[k..]
  {
  }

  lemma DecodeEncodePadded(bytes: seq<byte>)
    requires 1 <= |bytes| <= 2
    ensures Matches(Encode(bytes))
    ensures Decode(Encode(bytes)) == bytes
  {
    PaddedRoundTrip(bytes);
    assert Encode(bytes) == EncodePadded(bytes);
    assert !IsGroup(EncodePadded(bytes));
  }

  lemma EncodeCons(bytes: seq<byte>)
    requires |bytes| >= 3
    ensures Encode(bytes) == EncodeGroup(bytes[..3][0], bytes[..3][1], bytes[..3][2]) + Encode(bytes[3..])
  {
  }

  lemma DecodeEncodeStep(bytes: seq<byte>)
    requires |bytes| >= 3
    requires Matches(Encode(bytes[3..])) && Decode(Encode(bytes[3..])) == bytes[3..]
    ensures Matches(Encode(bytes))
    ensures Decode(Encode(bytes)) == bytes
  {
    var head := bytes[..3];
    var g := EncodeGroup(head[0], head[1], head[2]);
    var t := Encode(bytes[3..]);
    EncodeCons(bytes);
    GroupRoundTrip(head);
    DecodeAppend(g, t, head, bytes[3..]);
    SplitAt(bytes, 3);
  }

  /** Everything the encoder writes is accepted, and decodes back to the bytes encoded. */
  lemma {:induction false} DecodeEncode(bytes: seq<byte>)
    ensures Matches(Encode(bytes))
    ensures Decode(Encode(bytes)) == bytes
    decreases |bytes|
  {
    if 1 <= |bytes| <= 2 {
      DecodeEncodePadded(bytes);
    } else if |bytes| >= 3 {
      DecodeEncode(bytes[3..]);
      DecodeEncodeStep(bytes);
    }
  }

  /** A Base64 string decodes to the UTF-8 text of the bytes it encodes. */
  lemma DecodeBase64OfEncoded(bytes: seq<byte>, utf8: seq<byte> -> string)
    ensures DecodeBase64(Some(Encode(bytes)), utf8) == Some(utf8(bytes))
  {
    DecodeEncode(bytes);
  }

  /** Text that is not Base64-shaped comes back untouched: a string whose length is not a
      multiple of four, or one with '=' before its last two characters. */
  lemma NotBase64Unchanged(s: string, utf8: seq<byte> -> string)
    requires |s| % 4 != 0 || exists i :: 0 <= i < |s| - 2 && s[i] == '='
    ensures DecodeBase64(Some(s), utf8) == Some(s)
  {
    if Matches(s) {
      AcceptedLength(s);
      var i :| 0 <= i < |s| - 2 && s[i] == '=';
      PaddingOnlyAtEnd(s, i);
    }
  }
}
