/** Failure-carrying values used in place of the exceptions the manager raises or lets propagate. */
module Wrappers {

  datatype Option<+T> = None | Some(value: T)

  /** A value, or the error that would have been raised instead. */
  datatype Result<+T, +E> = Ok(value: T) | Err(error: E)

  /** The outcome of an operation that returns nothing on success. */
  datatype Outcome<+E> = Pass | Fail(error: E)
}
