/** Option: a value that may be missing (JavaScript's null / undefined). */
module Wrappers {

  datatype Option<+T> = None | Some(value: T) {

    /** The value, or `default` when missing (JavaScript's `x || default` for non-empty values). */
    function GetOr(default: T): T {
      match this
      case Some(v) => v
      case None => default
    }
  }
}
