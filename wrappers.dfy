/** Option and Result, the two ways the model reports a lookup or an operation that can fail. */
module Wrappers {

  datatype Option<+T> = None | Some(value: T)

  /** The outcome of an operation that the source lets raise an exception. */
  datatype Result<+T> = Success(value: T) | Failure(error: string)
}
