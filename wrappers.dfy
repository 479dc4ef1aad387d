/** Failure-compatible helper types shared by every module. */
module Wrappers {

  /** A Go pointer or optional value: nil is None. */
  datatype Option<+T> = None | Some(value: T) {
    function GetOr(default: T): T {
      match this
      case Some(v) => v
      case None => default
    }
  }
}
