/** The optional value and the outcome of an operation that may throw. */
module Wrappers {

  datatype Option<T> = None | Some(value: T)

  /** A Java call either returns a value or throws; `E` describes the exception. */
  datatype Result<T, E> = Ok(value: T) | Err(error: E)
}
