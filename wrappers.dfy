/** Option and Outcome, shared by every module. */
module Wrappers {

  /** A value that may be absent: an object key that is not set, a JavaScript `undefined`. */
  datatype Option<+T> = None | Some(value: T) {
    function GetOr(default: T): T {
      match this
      case Some(v) => v
      case None => default
    }
  }

  /** The outcome of a check that throws: `Pass`, or `Fail` with the thrown message. */
  datatype Outcome<+E> = Pass | Fail(error: E)
}
