/** Wrapper types for absent values and raised errors, shared by the rest of the model. */
module Wrappers {

  /** A value that may be absent; stands in for a nullable reference. */
  datatype Option<+T> = None | Some(value: T)

  /** Either a value or the error that was raised instead of producing it. */
  datatype Result<+R, +E> = Success(value: R) | Failure(error: E)

  /** Success or failure of an operation that returns nothing (a `void` method). */
  datatype Outcome<+E> = Pass | Fail(error: E)
}
