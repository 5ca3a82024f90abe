/** Option and Result: the model's stand-ins for `undefined`/`Option` and for typed failures. */
module Wrappers {

  datatype Option<+T> = None | Some(value: T)

  datatype Result<+T, +E> = Success(value: T) | Failure(error: E)
}
