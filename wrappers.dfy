/** Option and Result types shared by the other modules. */
module Wrappers {

  /** A value that may be absent, such as a missing key of a JSON request body. */
  datatype Option<+T> = None | Some(value: T)

  /** The outcome of an operation that either returns a value or raises. */
  datatype Result<+T, +E> = Ok(value: T) | Err(error: E)
}
