/** Failure-carrying datatypes used in place of Python's `None` and raised exceptions. */
module Wrappers {

  /** A value that may be absent, as `os.cpu_count()` may return `None`. */
  datatype Option<+T> = None | Some(value: T)

  /** Either a value or the error the source would raise instead of returning one. */
  datatype Result<+T, +E> = Success(value: T) | Failure(error: E)
}
