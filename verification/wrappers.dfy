/** Optional values and results used by the pool model. */
module Wrappers {

  /** A value that may be absent; Ruby's `nil` is `None`. */
  datatype Option<+T> = None | Some(value: T)

  /** A value or the error raised instead of it. */
  datatype Result<+T, +E> = Success(value: T) | Failure(error: E)
}
