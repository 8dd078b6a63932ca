/** Values shared by every module. */
module Prelude {
  datatype Option<+T> = None | Some(value: T)

  /** A computation the source ends with a return or an exception. */
  datatype Result<+T, +E> = Ok(value: T) | Err(error: E)
}
