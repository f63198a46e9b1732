/** The two result shapes shared by every module: a value that may be absent, and a call that may throw. */
module Prelude {
  datatype Option<+T> = None | Some(value: T)

  datatype Result<+T, +E> = Ok(value: T) | Err(error: E)
}
