/** Failure-carrying datatypes shared by every module of the updater. */
module Wrappers {

  /** A value that may be absent; stands for Go's nil pointer results. */
  datatype Option<+T> = None | Some(value: T)

  /** A value or the error that prevented it; stands for Go's `(T, error)` pairs. */
  datatype Result<+T, +E> = Success(value: T) | Failure(error: E)
}
