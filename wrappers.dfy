/** Values shared by the account pieces: Python's optional values, the
    outcome of a Django validation, and Python truthiness of an optional
    string. */
module Wrappers {

  /** A value that Python may hold as `None`. */
  datatype Option<+T> = None | Some(value: T)

  /** The outcome of a form hook: the value it returns, or the message of
      the `ValidationError` it raises. */
  datatype Result<+T> = Ok(value: T) | Err(message: string)

  /** Python truthiness of a `str` or `None`: only a non-empty string is
      true. */
  predicate Truthy(v: Option<string>)
  {
    v.Some? && v.value != ""
  }
}
