/** Failure-carrying results: the model's stand-in for JavaScript's `throw`. */
module Wrappers {

  datatype Option<+T> = None | Some(value: T)

  /** The outcome of a constructor or pure operation that may throw. */
  datatype Result<+T, +E> = Success(value: T) | Failure(error: E)

  /** The outcome of a mutator that returns nothing but may throw. */
  datatype Outcome<+E> = Pass | Fail(error: E)
}
