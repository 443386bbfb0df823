/** JSON values as the readers receive them from the JSON parser (`Map<String, Object>` trees of
    maps, lists, strings, numbers, booleans and nulls), and the compact JSON text that Jackson's
    `ObjectMapper.writeValueAsString` prints for them. */
module JsonValues {
  import opened Text
  import opened Wrappers

  /** A parsed JSON value. Numbers are integers; object entries keep the parser's order. */
  datatype Json =
    | JNull
    | JBool(b: bool)
    | JInt(i: int)
    | JStr(s: string)
    | JArr(items: seq<Json>)
    | JObj(entries: seq<(string, Json)>)

  /** The keys of an object's entries. */
  function KeysOf(entries: seq<(string, Json)>): set<string>
  {
    set i | 0 <= i < |entries| :: entries[i].0
  }

  function HexDigit(d: nat): char
    requires d < 16
  {
    "0123456789ABCDEF"[d]
  }

  /** Jackson's escape of one character inside a JSON string literal: the two-character escapes
      for quote, backslash, backspace, tab, newline, form feed and carriage return, `\u00XX`
      for the other control characters, and the character itself otherwise. */
  function EscapeChar(c: char): string
  {
    if c == '"' then "\\\""
    else if c == '\\' then "\\\\"
    else if c == '\U{8}' then "\\b"
    else if c == '\t' then "\\t"
    else if c == '\n' then "\\n"
    else if c == '\U{C}' then "\\f"
    else if c == '\r' then "\\r"
    else if (c as int) < 0x20 then "\\u00" + [HexDigit(c as int / 16), HexDigit(c as int % 16)]
    else [c]
  }

  function Escape(s: string): string
  {
    if |s| == 0 then "" else EscapeChar(s[0]) + Escape(s[1..])
  }

  function HexValue(c: char): int
  {
    if '0' <= c <= '9' then c as int - '0' as int
    else if 'A' <= c <= 'F' then c as int - 'A' as int + 10
    else if 'a' <= c <= 'f' then c as int - 'a' as int + 10
    else -1
  }

  /** The code unit of four hexadecimal digits; -1 when one of them is not a hex digit. */
  function HexQuad(a: char, b: char, c: char, d: char): int
  {
    var h := [HexValue(a), HexValue(b), HexValue(c), HexValue(d)];
    if h[0] < 0 || h[1] < 0 || h[2] < 0 || h[3] < 0 then -1
    else ((h[0] * 16 + h[1]) * 16 + h[2]) * 16 + h[3]
  }

  /** The character a two-character escape `\e` stands for. */
  function ShortEscape(e: char): Option<char>
  {
    if e == '"' then Some('"') else if e == '\\' then Some('\\') else if e == 'b' then Some('\U{8}')
    else if e == 't' then Some('\t') else if e == 'n' then Some('\n') else if e == 'f' then Some('\U{C}')
    else if e == 'r' then Some('\r') else if e == '/' then Some('/') else None
  }

  /** `c` in front of a decoded rest, if the rest decoded. */
  function Cons(c: char, r: Option<string>): Option<string>
  {
    if r.None? then None else Some([c] + r.value)
  }

  /** Reads back an escaped string literal body; None for a malformed escape. */
  function Unescape(t: string): Option<string>
  {
    if |t| == 0 then Some("")
    else if t[0] != '\\' then Cons(t[0], Unescape(t[1..]))
    else if |t| < 2 then None
    else if t[1] == 'u' then
      if |t| < 6 then None
      else
        var v := HexQuad(t[2], t[3], t[4], t[5]);
        if v < 0 || 0xD800 <= v < 0xE000 then None else Cons(v as char, Unescape(t[6..]))
    else if ShortEscape(t[1]).None? then None
    else Cons(ShortEscape(t[1]).value, Unescape(t[2..]))
  }

  lemma UnescapeControl(c: char, rest: string)
    requires (c as int) < 0x20 && c != '\U{8}' && c != '\t' && c != '\n' && c != '\U{C}' && c != '\r'
    ensures Unescape(EscapeChar(c) + rest) == Cons(c, Unescape(rest))
  {
    var t := EscapeChar(c) + rest;
    var hi, lo := c as int / 16, c as int % 16;
    assert t[..6] == "\\u00" + [HexDigit(hi), HexDigit(lo)];
    assert t[0] == '\\' && t[1] == 'u';
    assert t[2] == '0' && t[3] == '0' && t[4] == HexDigit(hi) && t[5] == HexDigit(lo);
    assert HexValue(HexDigit(hi)) == hi;
    assert HexValue(HexDigit(lo)) == lo;
    assert HexQuad(t[2], t[3], t[4], t[5]) == c as int;
    assert t[6..] == rest;
  }

  lemma UnescapeShort(c: char, rest: string)
    requires c == '"' || c == '\\' || c == '\U{8}' || c == '\t' || c == '\n' || c == '\U{C}' || c == '\r'
    ensures Unescape(EscapeChar(c) + rest) == Cons(c, Unescape(rest))
  {
    var t := EscapeChar(c) + rest;
    assert t[0] == '\\' && t[1] != 'u';
    assert ShortEscape(t[1]) == Some(c);
    assert t[2..] == rest;
  }

  lemma UnescapeChar(c: char, rest: string)
    ensures Unescape(EscapeChar(c) + rest) == Cons(c, Unescape(rest))
  {
    if c == '"' || c == '\\' || c == '\U{8}' || c == '\t' || c == '\n' || c == '\U{C}' || c == '\r' {
      UnescapeShort(c, rest);
    } else if (c as int) < 0x20 {
      UnescapeControl(c, rest);
    } else {
      var t := EscapeChar(c) + rest;
      assert t[0] == c;
      assert t[1..] == rest;
    }
  }

  /** Escaping loses nothing: the escaped text reads back as the original string. */
  lemma {:induction false} UnescapeEscape(s: string)
    ensures Unescape(Escape(s)) == Some(s)
  {
    if |s| > 0 {
      UnescapeEscape(s[1..]);
      UnescapeChar(s[0], Escape(s[1..]));
      assert [s[0]] + s[1..] == s;
    }
  }

  /** Compact JSON text of a value, as Jackson prints it: no whitespace, strings quoted and
      escaped, object members in entry order. */
  function JsonText(v: Json): string
  {
    match v
    case JNull => "null"
    case JBool(b) => if b then "true" else "false"
    case JInt(i) => IntToString(i)
    case JStr(s) => "\"" + Escape(s) + "\""
    case JArr(items) => "[" + ItemsText(items) + "]"
    case JObj(entries) => "{" + EntriesText(entries) + "}"
  }

  function ItemsText(items: seq<Json>): string
  {
    if |items| == 0 then ""
    else if |items| == 1 then JsonText(items[0])
    else JsonText(items[0]) + "," + ItemsText(items[1..])
  }

  function EntriesText(entries: seq<(string, Json)>): string
  {
    if |entries| == 0 then ""
    else
      assert entries[0] in entries;
      assert entries[0].1 < entries[0];
      var member := "\"" + Escape(entries[0].0) + "\":" + JsonText(entries[0].1);
      if |entries| == 1 then member else member + "," + EntriesText(entries[1..])
  }
}
