/** A minimal Option datatype, used for values that may be absent: a stored
    state that was never written, a rule index that was not found, a field
    an update does not supply. */
module Wrappers {

  datatype Option<+T> = None | Some(value: T) {

    /** Falls back to `default` for an absent value. */
    function GetOr(default: T): T {
      match this
      case Some(v) => v
      case None => default
    }
  }
}
