/** Optional values, standing for the `field?: T` members and `undefined`
    results of the point-of-sale client. */
module Wrappers {

  datatype Option<+T> = None | Some(value: T) {

    /** The value, or `default` when there is none. */
    function GetOr(default: T): T {
      match this
      case Some(v) => v
      case None => default
    }
  }

  /** JavaScript's `s || d` on an optional string: the empty string and a
      missing value are both falsy. */
  function OrElse(s: Option<string>, d: string): (r: string)
    ensures r == d || (s.Some? && r == s.value && r != "")
    ensures (s.Some? && s.value != "") ==> r == s.value
  {
    if s.Some? && s.value != "" then s.value else d
  }
}
