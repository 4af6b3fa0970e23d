/** Option and Result, the two failure-carrying shapes the model needs. */
module Wrappers {

  datatype Option<+T> = None | Some(value: T)

  /** A computation that either produced a value or raised an error. */
  datatype Result<+T, +E> = Success(value: T) | Failure(error: E)
}
