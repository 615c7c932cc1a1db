/** Optional values, standing in for JavaScript's `undefined` (and `NaN`, where
    the source uses it as "no number"). */
module Wrappers {

  datatype Option<+T> = None | Some(value: T) {

    /** The value in Some, or `default` when None. */
    function GetOr(default: T): T {
      match this
      case Some(v) => v
      case None => default
    }
  }
}
