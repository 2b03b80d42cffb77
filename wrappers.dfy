/** Optional values, standing for the source's `undefined` / `null`. */
module Wrappers {
  datatype Option<+T> = None | Some(value: T)

  // JavaScript `||` on an optional string skips both a missing and an empty string.

  predicate Truthy(c: Option<string>) {
    c.Some? && c.value != ""
  }

  /** `c || fallback`. */
  function OrElse(c: Option<string>, fallback: string): (s: string)
    ensures Truthy(c) ==> s == c.value
    ensures !Truthy(c) ==> s == fallback
  {
    if Truthy(c) then c.value else fallback
  }
}
