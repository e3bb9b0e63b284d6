/** Optional values: `None` stands for JavaScript's `undefined`. */
module Wrappers {

  datatype Option<+T> = None | Some(value: T) {

    /** `this ?? d` for a value that is either absent or present. */
    function GetOr(d: T): T {
      match this
      case Some(v) => v
      case None => d
    }
  }
}
