/** The optional value used where the source returns a value and an `ok` flag, or looks a key up in a map. */
module Wrappers {

  datatype Option<+T> = None | Some(value: T) {
    function GetOr(default: T): T {
      match this
      case Some(v) => v
      case None => default
    }
  }
}
