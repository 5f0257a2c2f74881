/** Option, the value that may be absent, used across the model. */
module Wrappers {

  /** A value that may be absent: JavaScript's `undefined` for an optional field. */
  datatype Option<+T> = None | Some(value: T) {
    function GetOr(default: T): T {
      match this
      case Some(v) => v
      case None => default
    }
  }
}
