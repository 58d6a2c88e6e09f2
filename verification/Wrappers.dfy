/** Values that may be missing, and results that may be errors. */
module Wrappers {
  datatype Option<+T> = None | Some(value: T)

  datatype Outcome<+T, +E> = Success(value: T) | Failure(error: E)
}
