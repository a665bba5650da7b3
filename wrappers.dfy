/** Option and Result values shared by the two to-do stores. */
module Wrappers {

  /** A value that may be missing (a file that does not exist, a lookup with no hit). */
  datatype Option<+T> = None | Some(value: T) {

    /** The wrapped value, or `default` when there is none. */
    function GetOr(default: T): T {
      match this
      case Some(v) => v
      case None => default
    }
  }

  /** The outcome of a tool that either returns a value or reports an error text. */
  datatype Result<+T, +E> = Ok(value: T) | Err(error: E)
}
