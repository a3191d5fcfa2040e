/** Optional values and error results, shared by every module of the model. */
module Wrappers {

  /** Python's `Optional[T]` and TypeScript's `T | null`: `None` is the absent value. */
  datatype Option<+T> = None | Some(value: T) {
    /** The value when present, otherwise `default`. */
    function GetOr(default: T): T {
      match this
      case Some(v) => v
      case None => default
    }
  }

  /** A value or the error the source raises instead of returning one. */
  datatype Result<+T, +E> = Ok(value: T) | Err(error: E)
}
