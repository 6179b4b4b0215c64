/** Failure-carrying results: Python's `None`, raised exceptions and silent success. */
module Wrappers {

  datatype Option<+T> = None | Some(value: T)

  /** A value, or the exception the Python code would raise instead. */
  datatype Result<+T, +E> = Ok(value: T) | Err(error: E)

  /** An operation that either completes or raises. */
  datatype Outcome<+E> = Pass | Fail(error: E)
}
