/** Option and Result, the shapes used for every library or OS outcome that may fail. */
module Wrappers {

  /** A value that may be missing (Go's nil slice, a failed parse). */
  datatype Option<+T> = None | Some(value: T)

  /** A value, or the error that prevented computing it (Go's `(T, error)` pair). */
  datatype Result<+T, +E> = Ok(value: T) | Err(error: E)
}
