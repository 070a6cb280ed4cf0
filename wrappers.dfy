/** The optional value used where the Python code holds "a value or None". */
module Wrappers {

  datatype Option<+T> = None | Some(value: T)

  /** Python truthiness of an `Optional[str]`: `None` and `""` are both false. */
  predicate Truthy(v: Option<string>) {
    v.Some? && v.value != ""
  }
}
