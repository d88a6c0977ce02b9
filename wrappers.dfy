/** Optional values and results, for the null/undefined values and thrown errors of the source. */
module Wrappers {

  /** A value that may be absent (the source's `null` or `undefined`). */
  datatype Option<+T> = None | Some(value: T)

  /** A computation that either produced a value or failed with an error (the source's `throw`). */
  datatype Result<+R, +E> = Success(value: R) | Failure(error: E)
}
