/** Optional values and results, standing in for JavaScript's `undefined` and
    for the error responses of the request handlers. */
module Wrappers {

  /** `None` is JavaScript's `undefined`; `Some(v)` a present value. */
  datatype Option<+T> = None | Some(value: T)

  /** The outcome of an operation that either produces a value or fails with a message. */
  datatype Result<+R, +E> = Success(value: R) | Failure(error: E)
}
