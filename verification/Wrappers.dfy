/** Result types shared by every module: Go's nullable columns become `Option`, its `(value, error)` pairs `Result`. */
module Wrappers {

  datatype Option<+T> = None | Some(value: T)

  datatype Result<+T, +E> = Ok(value: T) | Err(error: E)
}
