/** Optional values and Go's (value, error) pairs. */
module Wrappers {

  datatype Option<+T> = None | Some(value: T)

  /** A Go result pair whose error is nil (`Ok`) or not (`Err`). */
  datatype Result<+T, +E> = Ok(value: T) | Err(error: E)
}
