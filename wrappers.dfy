/** Option and Result values used throughout the model for the source's error paths. */
module Wrappers {
  datatype Option<T> = None | Some(value: T)

  /** An operation that either yields a value or fails with the message the source throws. */
  datatype Result<T> = Success(value: T) | Failure(error: string)
  {
    predicate IsFailure() { Failure? }
  }
}
