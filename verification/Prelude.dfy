/** Result types shared by every module. */
module Prelude {

  /** A value that may be Python's `None`. */
  datatype Option<+T> = None | Some(value: T)

  /** A value, or the error that a function raises or a handler answers with. */
  datatype Result<+T, +E> = Ok(value: T) | Err(error: E)

  type Byte = x: int | 0 <= x < 256
}
