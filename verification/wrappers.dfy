/** Failure-carrying result types shared by the model. */
module Wrappers {

  /** The outcome of a search or a parse that may find nothing. */
  datatype Option<+T> = None | Some(value: T)

  /** The outcome of an operation that either returns a value or throws. */
  datatype Result<+R, +E> = Success(value: R) | Failure(error: E)
}
