/** Failure-carrying datatypes shared by the whole model.
    - Option<T> stands for a Go value that may be nil (an `error` that may be nil).
    - Result<T, E> stands for a foreign call that either yields a value or an error. */
module Wrappers {

  datatype Option<+T> = None | Some(value: T)

  datatype Result<+T, +E> = Success(value: T) | Failure(error: E)
}
