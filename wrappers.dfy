/** Optional values and error-carrying results shared by every module. */
module Wrappers {

  /** A value that may be absent (Python's `None`). */
  datatype Option<+T> = None | Some(value: T)

  /** The outcome of an operation that raises on failure. */
  datatype Result<+T, +E> = Ok(value: T) | Err(error: E)
}
