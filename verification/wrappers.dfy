/** Optional values, the result of the enums' fallible conversions from their register codes. */
module Wrappers {

  datatype Option<T> = None | Some(value: T)
  {
    /** The value held, or `default` when there is none (`unwrap_or_default`). */
    function GetOr(default: T): (r: T)
      ensures Some? ==> r == value
      ensures None? ==> r == default
    {
      match this
      case Some(v) => v
      case None => default
    }
  }
}
