/** Optional values and results with an error message: the shapes used for
    JavaScript's `undefined` fields and for thrown `Error`s. */
module Wrappers {

  /** A value that may be absent (`undefined` in the source). */
  datatype Option<+T> = None | Some(value: T) {
    function GetOr(default: T): T {
      match this
      case Some(v) => v
      case None => default
    }
  }

  /** The outcome of a computation that may throw an `Error` with a message. */
  datatype Result<+T> = Ok(value: T) | Err(error: string)
}
