/** Optional values and error results, in place of `null`/`undefined` and
    of Python exceptions. */
module Wrappers {

  /** `T | null`, `T | undefined`, Python `Optional[T]`. */
  datatype Option<+T> = None | Some(value: T)

  /** A value, or the error the code would raise. */
  datatype Result<+T, +E> = Success(value: T) | Failure(error: E)
}
