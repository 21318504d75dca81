/** The result types the other modules share. */
module Wrappers {

  /** A value that may be missing: Go's "value, ok" pairs and nil errors. */
  datatype Option<+T> = None | Some(value: T)

  /** A value or the error that was returned instead of it. */
  datatype Result<+T, +E> = Ok(value: T) | Err(error: E)
}
