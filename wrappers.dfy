/** Failure-compatible wrappers shared by the model. */
module Wrappers {

  /** A value that may be absent (JavaScript's `undefined` where a property is read). */
  datatype Option<+T> = None | Some(value: T)

  /** The value of an operation that either returns or throws an error message. */
  datatype Result<+T, +E> = Success(value: T) | Failure(error: E)

  /** The completion of an operation that returns nothing: normally, or by throwing. */
  datatype Outcome<+E> = Pass | Fail(error: E)
}
