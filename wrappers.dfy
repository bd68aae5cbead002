/** Failure-carrying result types used for the exceptions and error returns of the model. */
module Wrappers {

  datatype Option<+T> = None | Some(value: T)

  /** The outcome of an operation that returns a value or raises an exception. */
  datatype Result<+T, +E> = Success(value: T) | Failure(error: E)

  /** The outcome of a void operation that may raise an exception. */
  datatype Outcome<+E> = Pass | Fail(error: E)
}
