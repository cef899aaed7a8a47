/** Failure-carrying datatypes shared by the modules of this model. */
module Wrappers {

  /** A value that may be absent: Python's `None`, a missing JSON field, a NULL column. */
  datatype Option<+T> = None | Some(value: T)

  /** The outcome of an operation that can raise. */
  datatype Result<+R, +E> = Success(value: R) | Failure(error: E)
}
