/** Optional values and fallible results shared by the models below. */
module Wrappers {

  /** A value that may be `undefined` in the source. */
  datatype Option<+T> = None | Some(value: T) {
    /** `x ?? default` */
    function GetOr(default: T): T {
      match this
      case Some(v) => v
      case None => default
    }
  }

  /** The outcome of an operation that the source aborts with an assertion failure. */
  datatype Result<+T, +E> = Ok(value: T) | Err(error: E)
}
