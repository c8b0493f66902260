/** Python's `None`-or-value, as used throughout both integrations. */
module Wrappers {

  datatype Option<+T> = None | Some(value: T) {

    /** The value, or `default` when there is none. For a number, `x.GetOr(0.0)` is
        exactly Python's `x or 0.0`: a stored 0.0 gives 0.0 either way. */
    function GetOr(default: T): T {
      match this
      case Some(v) => v
      case None => default
    }
  }
}
