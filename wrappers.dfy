/** Optional values and escaping exceptions. */
module Wrappers {

  /** Python's `None` on one side, a present value on the other. */
  datatype Option<+T> = None | Some(value: T) {

    /** `d.get(key, default)` once the lookup has produced this option. */
    function GetOr(default: T): T {
      match this
      case Some(v) => v
      case None => default
    }
  }

  /** A Python call either returns a value or lets an exception of the named class escape. */
  datatype Outcome<+T> = Returned(value: T) | Raised(exception: string)
}
