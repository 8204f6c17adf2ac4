/** Option and Result, shared by the client queue and the server model. */
module Wrappers {

  /** A value that may be absent (JavaScript's `null` / `undefined`). */
  datatype Option<+T> = None | Some(value: T)

  /** The outcome of an operation that may throw: a value or an error message. */
  datatype Result<+T, +E> = Ok(value: T) | Err(error: E)
}
