/** Option and Result: the "nothing found" and "call failed" outcomes of the
    handlers, made explicit instead of JavaScript's `null` and rejected promises. */
module Wrappers {

  /** A value that may be absent (a `findOne` that matched nothing). */
  datatype Option<+T> = None | Some(value: T)

  /** The outcome of a call into code outside the model (an on-chain read). */
  datatype Result<+R, +E> = Success(value: R) | Failure(error: E)
}
