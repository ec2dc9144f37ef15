/** Failure-carrying wrappers used across the model: Python's `None`, an
    exception raised, or a call that returned normally. */
module Wrappers {

  /** `None` in Python, or some value. */
  datatype Option<+T> = None | Some(value: T)

  /** A computation that returned a value or raised an exception. */
  datatype Result<+T, +E> = Ok(value: T) | Err(error: E)

  /** A statement that completed normally or raised an exception. */
  datatype Outcome<+E> = Pass | Fail(error: E)
}
