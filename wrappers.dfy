/** Optional values and success/failure results, shared by the modules below. */
module Wrappers {

  /** A value that may be absent: a storage key that is not set, a null reference. */
  datatype Option<+T> = None | Some(value: T)

  /** The outcome of an operation that can fail with an error of type E. */
  datatype Result<+R, +E> = Success(value: R) | Failure(error: E)
}
