/** An optional value, for lookups and searches that may find nothing. */
module Wrappers {

  datatype Option<+T> = None | Some(value: T) {

    function GetOr(default: T): T {
      match this
      case Some(v) => v
      case None => default
    }
  }
}
