/** Wrappers used throughout the model: an optional value
    (a possibly-NULL pointer or a missing registry entry) and a result that is
    either a value or the reason the run was aborted. */
module Wrappers {

  datatype Option<+T> = None | Some(value: T)

  datatype Result<+T, +E> = Ok(value: T) | Err(error: E)
}
