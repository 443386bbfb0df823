/** Avro schemas as far as the readers inspect them: the schema type, record fields, enum
    symbols, element, value and branch schemas, the logical type name and the `scale` property. */
module AvroSchema {
  import opened Wrappers
  import opened Values

  /** The primitive schema types, `Schema.create(type)`. */
  datatype PrimitiveType = NullType | BooleanType | IntType | LongType | FloatType | DoubleType | StringType | BytesType

  datatype Schema =
    | Record(name: string, fields: seq<Field>)
    | Enum(name: string, symbols: seq<string>)
    | Array(items: Schema)
    | Map(values: Schema)
    | Union(branches: seq<Schema>)
    | Fixed(name: string, size: nat)
    | Primitive(kind: PrimitiveType, logicalType: Option<string>, scale: Option<int>)

  /** A record field; `hasDefault` is whether `defaultVal()` is non-null (a declared default
      of JSON null counts as a default). */
  datatype Field = Field(name: string, schema: Schema, hasDefault: bool)

  /** `org.apache.avro.Schema.Type`. */
  datatype SchemaType =
    RECORD | ENUM | ARRAY | MAP | UNION | FIXED | STRING | BYTES | INT | LONG | FLOAT | DOUBLE | BOOLEAN | NULL

  function PrimitiveSchemaType(k: PrimitiveType): SchemaType
  {
    match k
    case NullType => NULL
    case BooleanType => BOOLEAN
    case IntType => INT
    case LongType => LONG
    case FloatType => FLOAT
    case DoubleType => DOUBLE
    case StringType => STRING
    case BytesType => BYTES
  }

  /** `Schema.getType()`. */
  function TypeOf(s: Schema): SchemaType
  {
    match s
    case Record(_, _) => RECORD
    case Enum(_, _) => ENUM
    case Array(_) => ARRAY
    case Map(_) => MAP
    case Union(_) => UNION
    case Fixed(_, _) => FIXED
    case Primitive(k, _, _) => PrimitiveSchemaType(k)
  }

  /** `Schema.Type.toString()`: the enum constant's name. */
  function TypeName(t: SchemaType): string
  {
    match t
    case RECORD => "RECORD"
    case ENUM => "ENUM"
    case ARRAY => "ARRAY"
    case MAP => "MAP"
    case UNION => "UNION"
    case FIXED => "FIXED"
    case STRING => "STRING"
    case BYTES => "BYTES"
    case INT => "INT"
    case LONG => "LONG"
    case FLOAT => "FLOAT"
    case DOUBLE => "DOUBLE"
    case BOOLEAN => "BOOLEAN"
    case NULL => "NULL"
  }

  /** A schema without logical type or properties. */
  function Plain(k: PrimitiveType): Schema
  {
    Primitive(k, None, None)
  }

  /** The logical type name of a schema, `schema.getLogicalType().getName()`, if any. */
  function LogicalTypeName(s: Schema): Option<string>
  {
    if s.Primitive? then s.logicalType else None
  }

  /** The `scale` property, `schema.getObjectProp("scale")`, if present. */
  function ScaleProp(s: Schema): Option<int>
  {
    if s.Primitive? then s.scale else None
  }

  /** Position of the field called `name`, as `Schema.getField(name)` finds it. */
  function FieldIndex(fields: seq<Field>, name: string): (r: Option<nat>)
    ensures r.Some? ==> r.value < |fields| && fields[r.value].name == name
    ensures r.Some? ==> forall j :: 0 <= j < r.value ==> fields[j].name != name
    ensures r.None? <==> forall j :: 0 <= j < |fields| ==> fields[j].name != name
  {
    if |fields| == 0 then None
    else if fields[0].name == name then Some(0)
    else match FieldIndex(fields[1..], name)
      case None => None
      case Some(i) => Some(i + 1)
  }

  /** `Schema.getField(name)` of a record schema; None for any other schema. */
  function GetField(s: Schema, name: string): (r: Option<Field>)
    ensures r.Some? ==> s.Record? && r.value in s.fields && r.value.name == name
    ensures r.None? ==> !s.Record? || forall f :: f in s.fields ==> f.name != name
  {
    if !s.Record? then None
    else match FieldIndex(s.fields, name)
      case None => None
      case Some(i) => Some(s.fields[i])
  }

  /** `RecordBuilderBase.isValidValue`: any value but null; null only for a field whose
      schema is NULL or a union with a NULL branch. */
  predicate IsValidValue(f: Field, v: Value)
  {
    v != VNull || TypeOf(f.schema) == NULL ||
    (f.schema.Union? && exists k :: 0 <= k < |f.schema.branches| && TypeOf(f.schema.branches[k]) == NULL)
  }

  /** `RecordBuilderBase.validate`, run by `GenericRecordBuilder.set`: the value is accepted
      when it is valid for the field or the field has a default; otherwise `set` throws an
      `AvroRuntimeException` ("Field ... does not accept null values"). */
  predicate SetAccepts(f: Field, v: Value)
  {
    IsValidValue(f, v) || f.hasDefault
  }

  /** Every field of the record is set in `built` or has a default. */
  predicate Complete(schema: Schema, built: map<string, Value>)
    requires schema.Record?
  {
    forall j :: 0 <= j < |schema.fields| ==> schema.fields[j].name in built || schema.fields[j].hasDefault
  }

  /** The position of the first field, in schema order, that is neither set nor defaulted. */
  function FirstMissing(fields: seq<Field>, built: map<string, Value>): (r: Option<nat>)
    ensures r.Some? ==> r.value < |fields| && fields[r.value].name !in built && !fields[r.value].hasDefault
    ensures r.Some? ==> forall j :: 0 <= j < r.value ==> fields[j].name in built || fields[j].hasDefault
    ensures r.None? <==> forall j :: 0 <= j < |fields| ==> fields[j].name in built || fields[j].hasDefault
  {
    if |fields| == 0 then None
    else if fields[0].name !in built && !fields[0].hasDefault then Some(0)
    else match FirstMissing(fields[1..], built)
      case None => None
      case Some(i) => Some(i + 1)
  }

  /** `GenericRecordBuilder.build()`: the first field, in schema order, that was not set and
      has no default makes it throw `AvroMissingFieldException`; otherwise the record holds
      the fields set. */
  function Build(schema: Schema, built: map<string, Value>): (r: Outcome)
    requires schema.Record?
    ensures r.Ok? <==> Complete(schema, built)
    ensures r.Ok? ==> r.value == VRecord(built)
    ensures r.Err? ==> exists j :: 0 <= j < |schema.fields| && schema.fields[j].name !in built && !schema.fields[j].hasDefault &&
                                   r.error == MissingField(schema.fields[j].name)
  {
    match FirstMissing(schema.fields, built)
    case None => Ok(VRecord(built))
    case Some(j) => Err(MissingField(schema.fields[j].name))
  }

  function Max(a: nat, b: nat): nat
  {
    if a < b then b else a
  }

  /** How deeply records nest in a schema: a record counts one more than its deepest field;
      arrays, maps and unions count as deep as their deepest child; other schemas count 0. */
  function RecDepth(s: Schema): nat
    decreases s, 1, 0
  {
    match s
    case Record(_, _) => 1 + FieldsDepth(s, 0)
    case Array(items) => RecDepth(items)
    case Map(values) => RecDepth(values)
    case Union(_) => BranchesDepth(s, 0)
    case _ => 0
  }

  /** The deepest of the fields from position `k` on. */
  function FieldsDepth(s: Schema, k: nat): (d: nat)
    requires s.Record? && k <= |s.fields|
    ensures forall j :: k <= j < |s.fields| ==> RecDepth(s.fields[j].schema) <= d
    decreases s, 0, |s.fields| - k
  {
    if k == |s.fields| then 0
    else
      assert s.fields[k] in s.fields;
      Max(RecDepth(s.fields[k].schema), FieldsDepth(s, k + 1))
  }

  /** The deepest of the branches from position `k` on. */
  function BranchesDepth(s: Schema, k: nat): (d: nat)
    requires s.Union? && k <= |s.branches|
    ensures forall j :: k <= j < |s.branches| ==> RecDepth(s.branches[j]) <= d
    decreases s, 0, |s.branches| - k
  {
    if k == |s.branches| then 0
    else Max(RecDepth(s.branches[k]), BranchesDepth(s, k + 1))
  }

  /** A record's fields nest strictly less deeply than the record; no other child nests more
      deeply than its parent. */
  lemma RecDepthOfChildren(s: Schema)
    ensures s.Record? ==> forall f :: f in s.fields ==> RecDepth(f.schema) < RecDepth(s)
    ensures s.Union? ==> forall j :: 0 <= j < |s.branches| ==> RecDepth(s.branches[j]) <= RecDepth(s)
    ensures s.Array? ==> RecDepth(s.items) == RecDepth(s)
    ensures s.Map? ==> RecDepth(s.values) == RecDepth(s)
  {
    if s.Record? {
      forall f | f in s.fields ensures RecDepth(f.schema) < RecDepth(s) {
        var j :| 0 <= j < |s.fields| && s.fields[j] == f;
      }
    }
  }

  /** No record occurs anywhere in the schema. */
  predicate RecordFree(s: Schema)
  {
    match s
    case Record(_, _) => false
    case Array(items) => RecordFree(items)
    case Map(values) => RecordFree(values)
    case Union(branches) => forall j :: 0 <= j < |branches| ==> RecordFree(branches[j])
    case _ => true
  }

  /** No union in the schema has a record in any of its branches: the schemas on which a failed
      union branch cannot leave field names behind on the path. */
  predicate UnionSafe(s: Schema)
  {
    match s
    case Record(_, fields) => forall j :: 0 <= j < |fields| ==> UnionSafe(fields[j].schema)
    case Array(items) => UnionSafe(items)
    case Map(values) => UnionSafe(values)
    case Union(branches) => forall j :: 0 <= j < |branches| ==> RecordFree(branches[j])
    case _ => true
  }
}
