/** Optional values and results with an error, used wherever the widget can fail. */
module Wrappers {

  /** A value that may be missing; JavaScript's NaN or undefined reads as None. */
  datatype Option<+T> = None | Some(value: T)

  /** The outcome of an operation that can fail with an error of type E. */
  datatype Result<+R, +E> = Success(value: R) | Failure(error: E)
}
