/** Option and Result, the two shapes Go's `*T` and `(T, error)` returns take in this model. */
module Wrappers {

  /** A Go value that may be nil, or a map lookup that may miss. */
  datatype Option<+T> = None | Some(value: T)

  /** A Go `(value, error)` pair where exactly one side is meaningful. */
  datatype Result<+T, +E> = Ok(value: T) | Err(error: E)
}
