/** Result types shared by every module. */
module Prelude {

  datatype Option<+T> = None | Some(value: T)

  /** A call that may throw: the thrown code is the error. */
  datatype Result<+T, +E> = Ok(value: T) | Err(error: E)
}
