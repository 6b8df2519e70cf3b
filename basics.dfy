/** Small shared vocabulary: an optional value and the JavaScript notion of a
    "truthy" identifier, which the store uses in `a || b` and `!id` tests. */
module Basics {

  datatype Option<+T> = None | Some(value: T)

  /** An optional string is truthy in JavaScript when it is present and not "". */
  predicate Truthy(o: Option<string>) {
    o.Some? && o.value != ""
  }

  /** JavaScript `a || b` on a nullable string, with `b` a plain string. */
  function OrElse(a: Option<string>, b: string): (r: Option<string>)
    ensures Truthy(a) ==> r == a
    ensures !Truthy(a) ==> r == Some(b)
  {
    if Truthy(a) then a else Some(b)
  }

  /** JavaScript `x || null` on a possibly missing string. */
  function OrNull(x: Option<string>): (r: Option<string>)
    ensures r.None? <==> !Truthy(x)
    ensures r.Some? ==> r == x
  {
    if Truthy(x) then x else None
  }

  function MaxReal(a: real, b: real): (r: real)
    ensures r >= a && r >= b && (r == a || r == b)
  {
    if a >= b then a else b
  }

  function MinReal(a: real, b: real): (r: real)
    ensures r <= a && r <= b && (r == a || r == b)
  {
    if a <= b then a else b
  }
}
