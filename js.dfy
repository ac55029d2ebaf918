/** The pieces of JavaScript value semantics the service relies on. */
module Js {

  /** A property or query parameter that may be absent: `None` is JavaScript's `undefined`. */
  datatype Option<+T> = None | Some(value: T)

  /** JavaScript truthiness of a string that may be absent: `undefined` and `''` are falsy,
      every other string is truthy. */
  predicate Truthy(v: Option<string>)
  {
    v.Some? && v.value != ""
  }

  /** The template-literal rendering `${v}` of a property that may be absent. */
  function Show(v: Option<string>): string
  {
    if v.Some? then v.value else "undefined"
  }

  /** The country every normalised address is placed in (`DEFAULT_COUNTRY`). */
  const DEFAULT_COUNTRY: string := "Belgi\U{EB}"

  /** What both normalisers append to a display string. */
  const COUNTRY_SUFFIX: string := ", " + DEFAULT_COUNTRY

  predicate EndsWith(s: string, suffix: string)
  {
    |suffix| <= |s| && s[|s| - |suffix|..] == suffix
  }

  /** No element occurs twice. For parsed records, as `response.json()` builds them, this
      always holds: no object is shared. */
  ghost predicate Distinct<T>(xs: seq<T>)
  {
    forall i, j :: 0 <= i < j < |xs| ==> xs[i] != xs[j]
  }
}
