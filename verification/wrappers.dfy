/** The optional-value datatype used wherever the program reads a value that
    may be missing (an absent object key, a `NaN` from number parsing, an
    invalid date). */
module Wrappers {

  datatype Option<+T> = None | Some(value: T) {

    /** The wrapped value, or `default` when there is none. */
    function GetOr(default: T): T {
      match this
      case Some(v) => v
      case None => default
    }
  }
}
