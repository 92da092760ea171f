/** The optional value used wherever the engine silently drops a failed parse
    (a Python `try ... except: continue`) instead of propagating an error. */
module Wrappers {

  datatype Option<+T> = None | Some(value: T) {

    /** Returns the value held in Some, or `default` when None. */
    function GetOr(default: T): T {
      match this
      case Some(v) => v
      case None => default
    }
  }
}
