/** Small failure-carrying datatypes shared by the other modules. */
module Wrappers {

  /** A value that may be absent: Go's `(value, ok)` pairs and nil slices. */
  datatype Option<+T> = None | Some(value: T)

  /** A value or an error: Go's `(value, error)` pairs. */
  datatype Result<+T, +E> = Ok(value: T) | Err(error: E)
}
