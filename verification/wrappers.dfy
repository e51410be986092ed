/** Failure-compatible wrappers shared by every module of the model. */
module Wrappers {

  /** A value that may be absent (Python's `None`). */
  datatype Option<+T> = None | Some(value: T)

  /** A value or the error a Python call would have raised instead. */
  datatype Result<+T, +E> = Success(value: T) | Failure(error: E)
}
