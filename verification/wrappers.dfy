/** Small failure-compatible datatypes shared by every module of the model. */
module Wrappers {

  /** A value that may be absent: Python's `None` or a nullable foreign key. */
  datatype Option<+T> = None | Some(value: T) {

    /** Returns the value if present, otherwise `default`. */
    function GetOr(default: T): T {
      match this
      case Some(v) => v
      case None => default
    }
  }

  /** The outcome of an operation that either produces a value or reports why it failed. */
  datatype Result<+R, +E> = Success(value: R) | Failure(error: E)
}
