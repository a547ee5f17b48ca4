/** Failure-carrying values that stand in for Python's `None` returns and raised exceptions. */
module Wrappers {

  datatype Option<+T> = None | Some(value: T)

  datatype Result<+T, +E> = Success(value: T) | Failure(error: E)

  /** A check that either passes or fails with an error (a Python function returning `None` or raising). */
  datatype Outcome<+E> = Pass | Fail(error: E)
}
