/** Option and Result, the two failure-carrying datatypes the model uses for
    Java's nullable references and thrown exceptions, and for JavaScript's
    `undefined` and rejected promises. */
module Wrappers {

  datatype Option<+T> = None | Some(value: T) {
    /** The value in Some, or `default` for None. */
    function GetOr(default: T): T {
      match this
      case Some(v) => v
      case None => default
    }
  }

  datatype Result<+R, +E> = Success(value: R) | Failure(error: E)
}
