/** Optional values and error-carrying results, used for lookups that can miss
    and for operations that can fail. */
module Wrappers {

  /** A value that may be absent: a lookup that found nothing, an input that did not parse. */
  datatype Option<+T> = None | Some(value: T)

  /** The outcome of an operation that either succeeds with a value or fails with an error. */
  datatype Result<+R, +E> = Success(value: R) | Failure(error: E)
}
