/** Failure-carrying values shared by the other modules. */
module Wrappers {

  datatype Option<+T> = None | Some(value: T)

  /** The result of an operation that may fail with a typed error. */
  datatype Result<+T, +E> = Ok(value: T) | Err(error: E)
}
