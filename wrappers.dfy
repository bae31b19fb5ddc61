/** Option and Result values standing in for Go's `nil` checks and `(value, error)` pairs. */
module Wrappers {
  datatype Option<T> = None | Some(value: T)

  datatype Result<T, E> = Ok(value: T) | Err(error: E)
}
