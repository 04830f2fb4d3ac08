/** Option and Result, the failure-carrying datatypes the rest of the model uses. */
module Wrappers {

  datatype Option<+T> = None | Some(value: T)

  /** A value, or the exception the source would raise instead of returning one. */
  datatype Result<+R, +E> = Success(value: R) | Failure(error: E)
}
