/** Option, Result and Outcome: absent values and error paths. */
module Wrappers {

  /** A value that may be absent (Ruby's nil). */
  datatype Option<+T> = None | Some(value: T)

  /** A value or the error message of a raised exception. */
  datatype Result<+R, +E> = Success(value: R) | Failure(error: E)

  /** Completion without a value, or the error message of a raised exception. */
  datatype Outcome<+E> = Pass | Fail(error: E)
}
