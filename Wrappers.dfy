/** Result and Outcome types standing in for Kotlin's exceptions. */
module Wrappers {

  /** A computation that yields a value or fails with an error. */
  datatype Result<+R, +E> = Success(value: R) | Failure(error: E)

  /** A computation with no value that passes or fails with an error. */
  datatype Outcome<+E> = Pass | Fail(error: E)
}
