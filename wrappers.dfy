/** The Some/None datatype that stands in for JavaScript's `null` (or a thrown
    exception that the caller turns into `null`). */
module Wrappers {

  datatype Option<+T> = None | Some(value: T) {

    /** The value inside Some, or a default when None. */
    function GetOr(default: T): T {
      match this
      case Some(v) => v
      case None => default
    }
  }
}
