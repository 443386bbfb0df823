/** `AdditionalPropertyField`: the names of the fields that carry properties the record schema
    does not declare, the schema of the record field that collects them, and the serialization
    of each such property to a string. */
module AdditionalProperties {
  import opened Wrappers
  import opened JsonValues
  import opened AvroSchema

  const DEFAULT_AVRO_FIELD_NAME: string := "_airbyte_additional_properties"
  const DEFAULT_JSON_FIELD_NAMES: set<string> := {"_ab_additional_properties", DEFAULT_AVRO_FIELD_NAME}

  /** `FIELD_SCHEMA`: a union of null and a map of strings. */
  const FIELD_SCHEMA: Schema := Union([Plain(NullType), Map(Plain(StringType))])

  /** `serialize(jsonNode)`: a textual node is stored as its raw text, every other node as its
      compact JSON text. */
  function Serialize(node: Json): string
  {
    if node.JStr? then node.s else JsonText(node)
  }

  /** `getValue(value)`: the tree of a parsed JSON value is that value itself. */
  function GetValue(value: Json): string
  {
    Serialize(value)
  }

  /** A string-to-string map kept as the sequence of its `put`s in order: the values of
      `getObjectValues` and the reader's `additionalProps`. Where a key occurs twice the later
      entry wins, as a later `put` replaces an earlier one. */
  type Props = seq<(string, string)>

  function PropsKeys(props: Props): set<string>
  {
    set i | 0 <= i < |props| :: props[i].0
  }

  /** The map an association list denotes. */
  function AsMap(props: Props): (m: map<string, string>)
    ensures m.Keys == PropsKeys(props)
  {
    if |props| == 0 then map[]
    else
      var last := props[|props| - 1];
      assert PropsKeys(props) == PropsKeys(props[..|props| - 1]) + {last.0} by {
        forall k | k in PropsKeys(props) ensures k in PropsKeys(props[..|props| - 1]) + {last.0} {
          var i :| 0 <= i < |props| && props[i].0 == k;
          if i < |props| - 1 { assert props[..|props| - 1][i] == props[i]; }
        }
      }
      AsMap(props[..|props| - 1])[last.0 := last.1]
  }

  /** `getObjectValues(json)`: every entry of an object with its value serialized. */
  function GetObjectValues(entries: seq<(string, Json)>): (r: Props)
    ensures |r| == |entries|
    ensures forall i :: 0 <= i < |r| ==> r[i] == (entries[i].0, Serialize(entries[i].1))
  {
    if |entries| == 0 then []
    else GetObjectValues(entries[..|entries| - 1]) + [(entries[|entries| - 1].0, Serialize(entries[|entries| - 1].1))]
  }

  /** The object's keys are exactly the keys of `getObjectValues`. */
  lemma GetObjectValuesKeys(entries: seq<(string, Json)>)
    ensures AsMap(GetObjectValues(entries)).Keys == KeysOf(entries)
  {
    var r := GetObjectValues(entries);
    assert forall i :: 0 <= i < |r| ==> r[i].0 == entries[i].0;
    assert PropsKeys(r) == KeysOf(entries) by {
      forall k | k in KeysOf(entries) ensures k in PropsKeys(r) {
        var i :| 0 <= i < |entries| && entries[i].0 == k;
        assert r[i].0 == k;
      }
    }
  }

  /** `props.put(key, value)` on the log of puts; the key now denotes `value`. */
  lemma PutOverrides(props: Props, key: string, value: string)
    ensures AsMap(props + [(key, value)]) == AsMap(props)[key := value]
  {
    assert (props + [(key, value)])[..|props|] == props;
  }

  /** `props.putAll(more)` appends the entries of `more`; every key of `more` now denotes its
      value there, every other key keeps its value. */
  lemma {:induction false} PutAllOverrides(props: Props, more: Props)
    ensures AsMap(props + more) == AsMap(props) + AsMap(more)
  {
    if |more| == 0 {
      assert props + more == props;
    } else {
      var init := more[..|more| - 1];
      var last := more[|more| - 1];
      assert (props + more)[..|props + more| - 1] == props + init;
      PutAllOverrides(props, init);
    }
  }

  /** The JSON object handed to the map read of the collecting field. */
  function PropsAsJson(props: Props): (j: Json)
    ensures j.JObj? && |j.entries| == |props|
    ensures forall i :: 0 <= i < |props| ==> j.entries[i] == (props[i].0, JStr(props[i].1))
  {
    JObj(seq(|props|, i requires 0 <= i < |props| => (props[i].0, JStr(props[i].1))))
  }
}
