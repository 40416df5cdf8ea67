/** Nullable values and error returns, shared by all modules. */
module Wrappers {

  /** A nullable column, or a missing map entry. */
  datatype Option<+T> = None | Some(value: T) {
    function GetOr(default: T): T {
      match this
      case Some(v) => v
      case None => default
    }
  }

  /** A handler's answer: a value, or the error code it throws. */
  datatype Result<+T, +E> = Ok(value: T) | Err(error: E)

  /** A request field that may be absent (undefined: leave the column alone). */
  datatype Patch<+T> = Keep | Set(value: T)
}
