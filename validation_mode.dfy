/** `ValidationMode` of the validator: the three conversion directions, and the lookup of a
    direction by a short command-line name such as "json2avro". */
module ValidationModes {
  import opened Wrappers
  import opened Text

  datatype ValidationMode = JSON_TO_AVRO | AVRO_TO_JSON | JSON_TO_AVRO_TO_JSON

  /** `name()`. */
  function Name(m: ValidationMode): string
  {
    match m
    case JSON_TO_AVRO => "JSON_TO_AVRO"
    case AVRO_TO_JSON => "AVRO_TO_JSON"
    case JSON_TO_AVRO_TO_JSON => "JSON_TO_AVRO_TO_JSON"
  }

  /** `values()`, in declaration order. */
  const ALL: seq<ValidationMode> := [JSON_TO_AVRO, AVRO_TO_JSON, JSON_TO_AVRO_TO_JSON]

  /** `replaceAll("TO", "2")`: every occurrence, scanning from the left. */
  function ReplaceTo(s: string): string
  {
    ReplaceFrom(s, 0)
  }

  /** The scan of `replaceAll("TO", "2")` from position `i` on. */
  function ReplaceFrom(s: string, i: nat): string
    requires i <= |s|
    decreases |s| - i
  {
    if i == |s| then ""
    else if i + 1 < |s| && s[i] == 'T' && s[i + 1] == 'O' then "2" + ReplaceFrom(s, i + 2)
    else [s[i]] + ReplaceFrom(s, i + 1)
  }

  /** The name a mode answers to: its constant name without underscores, "TO" written "2". */
  function Normalized(m: ValidationMode): string
  {
    ReplaceTo(RemoveChar(Name(m), '_'))
  }

  /** `Character.toUpperCase(char)` on the characters whose upper case is an ASCII letter:
      the ASCII letters themselves, LATIN SMALL LETTER LONG S (U+017F, upper case 'S') and
      LATIN SMALL LETTER DOTLESS I (U+0131, upper case 'I'). Every other character is taken
      as its own upper case; none of them has an ASCII upper case. */
  function ToUpper(c: char): char
  {
    if 'a' <= c <= 'z' then (c as int - 32) as char
    else if c == '\U{017F}' then 'S'
    else if c == '\U{0131}' then 'I'
    else c
  }

  /** `Character.toLowerCase(char)` on the characters whose lower case is an ASCII letter:
      the ASCII letters themselves, LATIN CAPITAL LETTER I WITH DOT ABOVE (U+0130, lower case
      'i') and KELVIN SIGN (U+212A, lower case 'k'). Every other character is taken as its
      own lower case; none of them has an ASCII lower case. */
  function ToLower(c: char): char
  {
    if 'A' <= c <= 'Z' then (c as int + 32) as char
    else if c == '\U{0130}' then 'i'
    else if c == '\U{212A}' then 'k'
    else c
  }

  /** The per-character test of `String.equalsIgnoreCase`: the same character, the same upper
      case, or the same lower case of the upper cases. */
  predicate CharEqualsIgnoreCase(x: char, y: char)
  {
    x == y || ToUpper(x) == ToUpper(y) || ToLower(ToUpper(x)) == ToLower(ToUpper(y))
  }

  /** `String.equalsIgnoreCase`: equal lengths and every pair of characters equal ignoring
      case. */
  predicate EqualsIgnoreCase(a: string, b: string)
  {
    |a| == |b| && forall i :: 0 <= i < |a| ==> CharEqualsIgnoreCase(a[i], b[i])
  }

  /** The case fold behind the per-character test: two characters are equal ignoring case
      exactly when they fold to the same character. */
  function Fold(c: char): char
  {
    ToLower(ToUpper(c))
  }

  lemma CharEqualsIgnoreCaseIsFold(x: char, y: char)
    ensures CharEqualsIgnoreCase(x, y) <==> Fold(x) == Fold(y)
  {
  }

  /** The first of `modes` whose normalized name matches. */
  function FindMode(modes: seq<ValidationMode>, name: string): (r: Option<ValidationMode>)
    ensures r.Some? ==> r.value in modes && EqualsIgnoreCase(Normalized(r.value), name)
    ensures r.None? <==> forall i :: 0 <= i < |modes| ==> !EqualsIgnoreCase(Normalized(modes[i]), name)
  {
    if |modes| == 0 then None
    else if EqualsIgnoreCase(Normalized(modes[0]), name) then Some(modes[0])
    else FindMode(modes[1..], name)
  }

  /** `from(name)`; None stands for the NoSuchElementException of `Optional.get`. */
  function From(name: string): Option<ValidationMode>
  {
    FindMode(ALL, name)
  }

  /** The scan of a suffix does not depend on what precedes it. */
  lemma {:induction false} ReplaceFromShift(a: string, b: string, j: nat)
    requires j <= |b|
    ensures ReplaceFrom(a + b, |a| + j) == ReplaceFrom(b, j)
    decreases |b| - j
  {
    var ab := a + b;
    var k := |a| + j;
    if j < |b| {
      assert ab[k] == b[j];
      if j + 1 < |b| && b[j] == 'T' && b[j + 1] == 'O' {
        assert ab[k + 1] == b[j + 1];
        ReplaceFromShift(a, b, j + 2);
        assert ReplaceFrom(ab, k) == "2" + ReplaceFrom(ab, k + 2);
      } else {
        assert !(k + 1 < |ab| && ab[k] == 'T' && ab[k + 1] == 'O') by {
          if j + 1 < |b| {
            assert ab[k + 1] == b[j + 1];
          }
        }
        ReplaceFromShift(a, b, j + 1);
        assert ReplaceFrom(ab, k) == [b[j]] + ReplaceFrom(ab, k + 1);
      }
    }
  }

  /** The scan never straddles the end of a part that does not end in 'T'. */
  lemma {:induction false} ReplaceFromAppend(a: string, b: string, i: nat)
    requires i <= |a| && (|a| == 0 || a[|a| - 1] != 'T')
    ensures ReplaceFrom(a + b, i) == ReplaceFrom(a, i) + ReplaceFrom(b, 0)
    decreases |a| - i
  {
    if i == |a| {
      ReplaceFromShift(a, b, 0);
    } else if i + 1 < |a| && a[i] == 'T' && a[i + 1] == 'O' {
      ReplaceFromAppend(a, b, i + 2);
      ReplaceFromAppendPair(a, b, i);
    } else {
      ReplaceFromAppend(a, b, i + 1);
      ReplaceFromAppendSingle(a, b, i);
    }
  }

  /** One step of ReplaceFromAppend over a "TO" inside `a`. */
  lemma ReplaceFromAppendPair(a: string, b: string, i: nat)
    requires i + 1 < |a| && a[i] == 'T' && a[i + 1] == 'O'
    requires ReplaceFrom(a + b, i + 2) == ReplaceFrom(a, i + 2) + ReplaceFrom(b, 0)
    ensures ReplaceFrom(a + b, i) == ReplaceFrom(a, i) + ReplaceFrom(b, 0)
  {
    var ab := a + b;
    assert ab[i] == 'T' && ab[i + 1] == 'O';
    var x, y := ReplaceFrom(a, i + 2), ReplaceFrom(b, 0);
    assert ("2" + x) + y == "2" + (x + y);
  }

  /** One step of ReplaceFromAppend over a character of `a` that starts no "TO". */
  lemma ReplaceFromAppendSingle(a: string, b: string, i: nat)
    requires i < |a| && a[|a| - 1] != 'T'
    requires !(i + 1 < |a| && a[i] == 'T' && a[i + 1] == 'O')
    requires ReplaceFrom(a + b, i + 1) == ReplaceFrom(a, i + 1) + ReplaceFrom(b, 0)
    ensures ReplaceFrom(a + b, i) == ReplaceFrom(a, i) + ReplaceFrom(b, 0)
  {
    var ab := a + b;
    assert ab[i] == a[i];
    assert !(i + 1 < |ab| && ab[i] == 'T' && ab[i + 1] == 'O') by {
      if i + 1 < |a| {
        assert ab[i + 1] == a[i + 1];
      }
    }
    var x, y := ReplaceFrom(a, i + 1), ReplaceFrom(b, 0);
    assert ([a[i]] + x) + y == [a[i]] + (x + y);
  }

  lemma ReplaceToAppend(a: string, b: string)
    requires |a| == 0 || a[|a| - 1] != 'T'
    ensures ReplaceTo(a + b) == ReplaceTo(a) + ReplaceTo(b)
  {
    ReplaceFromAppend(a, b, 0);
  }

  lemma {:induction false} ReplaceFromWithoutT(s: string, i: nat)
    requires i <= |s|
    requires forall k :: 0 <= k < |s| ==> s[k] != 'T'
    ensures ReplaceFrom(s, i) == s[i..]
    decreases |s| - i
  {
    if i < |s| {
      ReplaceFromWithoutT(s, i + 1);
      assert s[i..] == [s[i]] + s[i + 1..];
    }
  }

  function Norm(s: string): string
  {
    ReplaceTo(RemoveChar(s, '_'))
  }

  lemma SeparatorNorm(y: string)
    ensures ReplaceTo(RemoveChar("_TO_" + y, '_')) == "2" + Norm(y)
  {
    RemoveCharAppend("_TO_", y, '_');
    assert RemoveChar("_TO_", '_') == "TO";
    ReplaceToAppend("TO", RemoveChar(y, '_'));
    assert ReplaceTo("TO") == "2";
  }

  lemma LastKept(x: string)
    requires |x| > 0 && x[|x| - 1] != '_'
    ensures var r := RemoveChar(x, '_'); |r| > 0 && r[|r| - 1] == x[|x| - 1]
  {
    var init := x[..|x| - 1];
    assert x == init + [x[|x| - 1]];
    RemoveCharAppend(init, [x[|x| - 1]], '_');
  }

  /** Normalizing "A_TO_B" gives the normal forms of A and B around a "2", when A does not
      end in 'T' or '_'. */
  lemma NormalizedJoin(x: string, y: string)
    requires |x| > 0 && x[|x| - 1] != 'T' && x[|x| - 1] != '_'
    ensures Norm(x + ("_TO_" + y)) == Norm(x) + "2" + Norm(y)
  {
    RemoveCharAppend(x, "_TO_" + y, '_');
    LastKept(x);
    ReplaceToAppend(RemoveChar(x, '_'), RemoveChar("_TO_" + y, '_'));
    SeparatorNorm(y);
  }

  lemma PlainNorm(s: string)
    requires forall i :: 0 <= i < |s| ==> s[i] != 'T' && s[i] != '_'
    ensures Norm(s) == s
  {
    ReplaceFromWithoutT(s, 0);
  }

  /** The short name each mode answers to. */
  function ShortName(m: ValidationMode): string
  {
    match m
    case JSON_TO_AVRO => "JSON2AVRO"
    case AVRO_TO_JSON => "AVRO2JSON"
    case JSON_TO_AVRO_TO_JSON => "JSON2AVRO2JSON"
  }

  /** The two words the constant names are made of. */
  const JsonWord: string := "JSON"
  const AvroWord: string := "AVRO"

  lemma NormalizedJsonToAvro()
    ensures Norm(JsonWord + ("_TO_" + AvroWord)) == JsonWord + "2" + AvroWord
  {
    PlainNorm(JsonWord);
    PlainNorm(AvroWord);
    NormalizedJoin(JsonWord, AvroWord);
  }

  lemma NormalizedAvroToJson()
    ensures Norm(AvroWord + ("_TO_" + JsonWord)) == AvroWord + "2" + JsonWord
  {
    PlainNorm(JsonWord);
    PlainNorm(AvroWord);
    NormalizedJoin(AvroWord, JsonWord);
  }

  lemma NormalizedJsonToAvroToJson()
    ensures Norm(JsonWord + ("_TO_" + AvroWord) + ("_TO_" + JsonWord)) == JsonWord + "2" + AvroWord + "2" + JsonWord
  {
    NormalizedJsonToAvro();
    PlainNorm(JsonWord);
    NormalizedJoin(JsonWord + ("_TO_" + AvroWord), JsonWord);
  }

  /** Each constant name, and each short name, spelled with the two words. */
  lemma NamesFromWords()
    ensures Name(JSON_TO_AVRO) == JsonWord + ("_TO_" + AvroWord) && ShortName(JSON_TO_AVRO) == JsonWord + "2" + AvroWord
    ensures Name(AVRO_TO_JSON) == AvroWord + ("_TO_" + JsonWord) && ShortName(AVRO_TO_JSON) == AvroWord + "2" + JsonWord
    ensures Name(JSON_TO_AVRO_TO_JSON) == JsonWord + ("_TO_" + AvroWord) + ("_TO_" + JsonWord)
    ensures ShortName(JSON_TO_AVRO_TO_JSON) == JsonWord + "2" + AvroWord + "2" + JsonWord
  {
  }

  /** Deleting "_" and writing "TO" as "2" turns each constant name into its short name. */
  lemma NormalizedIsShortName(m: ValidationMode)
    ensures Normalized(m) == ShortName(m)
  {
    NamesFromWords();
    if m == JSON_TO_AVRO {
      NormalizedJsonToAvro();
    } else if m == AVRO_TO_JSON {
      NormalizedAvroToJson();
    } else {
      NormalizedJsonToAvroToJson();
    }
  }

  /** A short name is made of upper-case ASCII letters and '2'. */
  predicate AsciiUpperOrDigit(c: char)
  {
    'A' <= c <= 'Z' || c == '2'
  }

  lemma ShortNameShape(m: ValidationMode)
    ensures forall i :: 0 <= i < |ShortName(m)| ==> AsciiUpperOrDigit(ShortName(m)[i])
  {
  }

  /** The fold tells upper-case ASCII letters and digits apart. */
  lemma FoldInjective(x: char, y: char)
    requires AsciiUpperOrDigit(x) && AsciiUpperOrDigit(y) && Fold(x) == Fold(y)
    ensures x == y
  {
  }

  /** Names that match one name ignoring case are the same name, when both are made of
      upper-case ASCII letters and digits. */
  lemma EqualsIgnoreCaseShared(a: string, b: string, name: string)
    requires EqualsIgnoreCase(a, name) && EqualsIgnoreCase(b, name)
    requires forall i :: 0 <= i < |a| ==> AsciiUpperOrDigit(a[i])
    requires forall i :: 0 <= i < |b| ==> AsciiUpperOrDigit(b[i])
    ensures a == b
  {
    forall i | 0 <= i < |a| ensures a[i] == b[i] {
      CharEqualsIgnoreCaseIsFold(a[i], name[i]);
      CharEqualsIgnoreCaseIsFold(b[i], name[i]);
      FoldInjective(a[i], b[i]);
    }
  }

  lemma ShortNamesDistinct(m1: ValidationMode, m2: ValidationMode)
    requires ShortName(m1) == ShortName(m2)
    ensures m1 == m2
  {
  }

  /** Two modes whose short names both match one name ignoring case are the same mode. */
  lemma ShortNameMatchUnique(a: ValidationMode, b: ValidationMode, name: string)
    requires EqualsIgnoreCase(ShortName(a), name) && EqualsIgnoreCase(ShortName(b), name)
    ensures a == b
  {
    ShortNameShape(a);
    ShortNameShape(b);
    EqualsIgnoreCaseShared(ShortName(a), ShortName(b), name);
    ShortNamesDistinct(a, b);
  }

  /** A name matching a mode's short name finds some mode. */
  lemma FromFinds(name: string, m: ValidationMode)
    requires EqualsIgnoreCase(ShortName(m), name)
    ensures From(name).Some?
  {
    NormalizedIsShortName(m);
    var k := if m == JSON_TO_AVRO then 0 else if m == AVRO_TO_JSON then 1 else 2;
    assert ALL[k] == m;
  }

  /** Whatever `from` finds matches the name by its short name. */
  lemma FromFound(name: string)
    requires From(name).Some?
    ensures EqualsIgnoreCase(ShortName(From(name).value), name)
  {
    NormalizedIsShortName(From(name).value);
  }

  /** `from` finds a mode exactly when the name is that mode's short name ignoring case: the
      three short names are distinct, so trying them in order never hides a second match. */
  lemma FromIsUnique(name: string, m: ValidationMode)
    ensures From(name) == Some(m) <==> EqualsIgnoreCase(ShortName(m), name)
  {
    if EqualsIgnoreCase(ShortName(m), name) {
      FromFinds(name, m);
      FromFound(name);
      ShortNameMatchUnique(From(name).value, m, name);
    } else if From(name).Some? {
      FromFound(name);
    }
  }

  lemma FromShortName(name: string, m: ValidationMode)
    requires EqualsIgnoreCase(ShortName(m), name)
    ensures From(name) == Some(m)
  {
    FromIsUnique(name, m);
  }

  /** The short names the validator's `--mode` option documents select the three modes. */
  lemma DocumentedNames()
    ensures From("json2avro") == Some(JSON_TO_AVRO)
    ensures From("avro2json") == Some(AVRO_TO_JSON)
    ensures From("json2avro2json") == Some(JSON_TO_AVRO_TO_JSON)
  {
    MatchesJson2Avro();
    FromShortName("json2avro", JSON_TO_AVRO);
    MatchesAvro2Json();
    FromShortName("avro2json", AVRO_TO_JSON);
    MatchesJson2Avro2Json();
    FromShortName("json2avro2json", JSON_TO_AVRO_TO_JSON);
  }

  lemma MatchesJson2Avro()
    ensures EqualsIgnoreCase(ShortName(JSON_TO_AVRO), "json2avro")
  {
  }

  lemma MatchesAvro2Json()
    ensures EqualsIgnoreCase(ShortName(AVRO_TO_JSON), "avro2json")
  {
  }

  lemma MatchesJson2Avro2Json()
    ensures EqualsIgnoreCase(ShortName(JSON_TO_AVRO_TO_JSON), "json2avro2json")
  {
  }

  /** Case is compared as `equalsIgnoreCase` does, not only for ASCII: a LATIN SMALL LETTER
      LONG S, whose upper case is 'S', stands for the 's' of "json2avro". */
  lemma LongSMatches()
    ensures From("j\U{017F}on2avro") == Some(JSON_TO_AVRO)
  {
    assert CharEqualsIgnoreCase('S', '\U{017F}');
    assert EqualsIgnoreCase(ShortName(JSON_TO_AVRO), "j\U{017F}on2avro");
    FromShortName("j\U{017F}on2avro", JSON_TO_AVRO);
  }

  /** A KELVIN SIGN matches 'k' and 'K' only through the second comparison of
      `equalsIgnoreCase`, the lower cases of the upper cases: it is its own upper case. */
  lemma KelvinSignFolds()
    ensures ToUpper('\U{212A}') != ToUpper('k') && ToUpper('\U{212A}') != ToUpper('K')
    ensures CharEqualsIgnoreCase('\U{212A}', 'k') && CharEqualsIgnoreCase('\U{212A}', 'K')
    ensures !CharEqualsIgnoreCase('\U{212A}', 'O')
  {
  }

  /** The constant's own name is not accepted: it still contains "_" and "TO". */
  lemma ConstantNameRejected()
    ensures From(Name(JSON_TO_AVRO)) == None
  {
    FromIsUnique(Name(JSON_TO_AVRO), JSON_TO_AVRO);
    FromIsUnique(Name(JSON_TO_AVRO), AVRO_TO_JSON);
    FromIsUnique(Name(JSON_TO_AVRO), JSON_TO_AVRO_TO_JSON);
  }
}
