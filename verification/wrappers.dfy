/** Optional values, used where the source reads a key that may be absent
    (JavaScript `undefined`) or a callback that may not be invoked. */
module Wrappers {

  datatype Option<+T> = None | Some(value: T) {

    /** The value, or `default` when there is none (JavaScript `x ?? default`). */
    function GetOr(default: T): T {
      match this
      case Some(v) => v
      case None => default
    }
  }
}
