/** `EnumConverter` and `NullConverter` of the composite reader. */
module EnumNullConverters {
  import opened Wrappers
  import opened JsonValues
  import opened Values
  import opened AvroSchema
  import opened Paths
  import opened Text
  import opened AvroTypeConverters

  /** `EnumConverter.canManage`. */
  predicate EnumCanManage(s: Schema)
  {
    TypeOf(s) == ENUM
  }

  /** `EnumConverter.convert`: strings pass the gate; a listed symbol becomes that enum symbol,
      any other string throws an exception listing every symbol, whether silent or not. Asking
      a schema that is not an enum for its symbols throws as well. */
  function EnumConvert(s: Schema, v: Json, path: seq<string>, silently: bool): (r: Outcome)
    ensures r.Ok? && r.value.VEnum? ==> v.JStr? && s.Enum? && r.value.symbol == v.s && v.s in s.symbols
    ensures s.Enum? && v.JStr? && v.s in s.symbols ==> r == Ok(VEnum(v.s))
    ensures s.Enum? && v.JStr? && v.s !in s.symbols ==> r == Err(EnumMismatch(Print(path), Join(s.symbols, ", ")))
    ensures !s.Enum? && v.JStr? ==> r == Err(NotAnEnum(TypeName(TypeOf(s))))
    ensures !v.JStr? ==> r == Rejected(StringClass, path, silently)
  {
    if !IsInstance(StringClass, v) then Rejected(StringClass, path, silently)
    else if !s.Enum? then Err(NotAnEnum(TypeName(TypeOf(s))))
    else if v.s in s.symbols then Ok(VEnum(v.s))
    else Err(EnumMismatch(Print(path), Join(s.symbols, ", ")))
  }

  /** An unlisted symbol is an error even in silent mode: the union trying an enum branch sees
      an exception, not an `Incompatible`. */
  lemma EnumMismatchEvenWhenSilent(s: Schema, symbol: string, path: seq<string>)
    requires s.Enum? && symbol !in s.symbols
    ensures EnumConvert(s, JStr(symbol), path, true).Err?
    ensures EnumConvert(s, JStr(symbol), path, true) == EnumConvert(s, JStr(symbol), path, false)
  {
  }

  /** `NullConverter.canManage`. */
  predicate NullCanManage(s: Schema)
  {
    TypeOf(s) == NULL
  }

  /** `NullConverter.convert`: null for a null, `Incompatible("NULL")` for anything else. It
      never throws and never looks at `silently`. */
  function NullConvert(v: Json, silently: bool): (r: Outcome)
    ensures r.Ok?
    ensures r.value == VNull <==> v.JNull?
    ensures r.value != VNull ==> r.value == VIncompatible("NULL")
  {
    if v.JNull? then Ok(VNull) else Ok(VIncompatible("NULL"))
  }

  /** The interface documents that `Incompatible` comes back only when `silently` is true; the
      null converter returns it outside silent mode too, so a strict read of a non-null value
      against a null schema yields the marker instead of an exception. */
  lemma NullConverterIgnoresContract(v: Json)
    requires !v.JNull?
    ensures NullConvert(v, false) == Ok(VIncompatible("NULL"))
    ensures NullConvert(v, false) == NullConvert(v, true)
  {
  }
}
