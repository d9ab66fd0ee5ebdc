/** Optional values and results with an error, shared by every module. */
module Wrappers {

  /** A value that may be absent (`undefined` in the source). */
  datatype Option<+T> = None | Some(value: T) {
    function GetOr(default: T): T {
      match this
      case Some(v) => v
      case None => default
    }
  }

  /** The outcome of a parse or of a write that may fail. */
  datatype Result<+T, +E> = Ok(value: T) | Err(error: E)
}
