/** What a record read does with a JSON key the record schema has no field for: it calls an
    `UnknownFieldListener` with the key, the value and the printed path of the key. */
module UnknownFields {
  import opened Wrappers
  import opened JsonValues
  import opened Values

  /** `onUnknownField(name, value, path)`: None when the listener returns normally, the
      exception when it throws. */
  type UnknownFieldListener = (string, Json, string) -> Option<Error>

  /** `FailOnUnknownField.onUnknownField`: throws "Field <path> is unknown". */
  function FailOnUnknownField(name: string, value: Json, path: string): Option<Error>
  {
    Some(UnknownField(path))
  }

  /** The listener fails for every unknown field, and its verdict depends on nothing but the
      path of the key. */
  lemma FailOnUnknownFieldAlwaysThrows(name1: string, value1: Json, name2: string, value2: Json, path: string)
    ensures FailOnUnknownField(name1, value1, path).Some?
    ensures FailOnUnknownField(name1, value1, path) == FailOnUnknownField(name2, value2, path)
    ensures FailOnUnknownField(name1, value1, path).value.path == path
  {
  }
}
