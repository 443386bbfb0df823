/** The pieces every converter of the composite reader shares: the logical-type test of
    `AvroTypeConverter`, and the runtime-type gate of `AvroTypeConverterWithStrictJavaTypeCheck`,
    which hands only values of one Java class on to the conversion proper. */
module AvroTypeConverters {
  import opened Wrappers
  import opened JsonValues
  import opened Values
  import opened AvroSchema
  import opened Paths

  /** `AvroTypeConverter.isLogicalType`: the schema carries a logical type of that name. */
  predicate IsLogicalType(s: Schema, name: string)
  {
    LogicalTypeName(s) == Some(name)
  }

  /** The Java classes the gates test a parsed JSON value against. */
  datatype JavaClass = MapClass | CollectionClass | ListClass | StringClass | NumberClass | BooleanClass

  /** `Class.getTypeName()`. */
  function JavaTypeName(c: JavaClass): string
  {
    match c
    case MapClass => "java.util.Map"
    case CollectionClass => "java.util.Collection"
    case ListClass => "java.util.List"
    case StringClass => "java.lang.String"
    case NumberClass => "java.lang.Number"
    case BooleanClass => "java.lang.Boolean"
  }

  /** `javaType.isInstance(value)` for the objects a JSON parser produces: objects are maps,
      arrays are lists, and a JSON null is no instance of anything. */
  predicate IsInstance(c: JavaClass, v: Json)
  {
    match c
    case MapClass => v.JObj?
    case CollectionClass => v.JArr?
    case ListClass => v.JArr?
    case StringClass => v.JStr?
    case NumberClass => v.JInt?
    case BooleanClass => v.JBool?
  }

  /** The gate's answer to a value of another class: an `Incompatible` naming the class when
      silent, otherwise an exception naming the path and the class. */
  function Rejected(c: JavaClass, path: seq<string>, silently: bool): (r: Outcome)
    ensures r.Ok? <==> silently
    ensures r.Ok? ==> r.value.VIncompatible? && r.value.expected == JavaTypeName(c)
    ensures r.Err? ==> r.error.TypeMismatch? && r.error.path == Print(path) && r.error.expected == JavaTypeName(c)
  {
    if silently then Ok(VIncompatible(JavaTypeName(c)))
    else Err(TypeMismatch(Print(path), JavaTypeName(c)))
  }

  /** A JSON null passes no gate, and every other value passes exactly one, except that an
      array is both a `Collection` and a `List`. */
  lemma InstanceOfExactlyOne(v: Json, c: JavaClass, d: JavaClass)
    ensures !IsInstance(c, JNull)
    ensures IsInstance(c, v) && IsInstance(d, v) ==> c == d || (v.JArr? && c in {CollectionClass, ListClass} && d in {CollectionClass, ListClass})
    ensures !v.JNull? ==> exists k :: IsInstance(k, v)
  {
    if v.JBool? { assert IsInstance(BooleanClass, v); }
    else if v.JInt? { assert IsInstance(NumberClass, v); }
    else if v.JStr? { assert IsInstance(StringClass, v); }
    else if v.JArr? { assert IsInstance(CollectionClass, v); }
    else if v.JObj? { assert IsInstance(MapClass, v); }
  }
}
