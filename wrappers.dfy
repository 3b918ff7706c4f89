/** Optional values and outcomes that either succeed or carry an error. */
module Wrappers {

  /** A value that may be absent: `null`/`undefined` in TypeScript, `None` in Python. */
  datatype Option<+T> = None | Some(value: T)

  /** The outcome of an operation that may fail (a rejected promise, a raised exception). */
  datatype Result<+T, +E> = Success(value: T) | Failure(error: E)
}
