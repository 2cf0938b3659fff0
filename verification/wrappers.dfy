/** Failure-carrying result types used for the Python exceptions of the model. */
module Wrappers {

  datatype Option<+T> = None | Some(value: T)

  /** Either a value or the error the Python code would raise instead. */
  datatype Result<+T, +E> = Success(value: T) | Failure(error: E)
}
