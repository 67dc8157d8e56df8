/** Failure-compatible wrappers shared by the model: Python's `Optional[...]`
    and "a value or the error that was raised". */
module Wrappers {

  datatype Option<+T> = None | Some(value: T)

  datatype Result<+T, +E> = Success(value: T) | Failure(error: E)
}
