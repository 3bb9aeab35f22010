/** Failure-carrying datatypes used for the transport's exceptions and missing values. */
module Wrappers {

  /** Python's `None` or a value. */
  datatype Option<+T> = None | Some(value: T)

  /** A value, or the exception that was raised instead. */
  datatype Result<+T, +E> = Ok(value: T) | Err(error: E)

  /** An operation that returns nothing on success, or the exception it raised. */
  datatype Outcome<+E> = Pass | Fail(error: E)
}
