/** The few pieces of JavaScript value semantics the clock server relies on:
    payload fields that may be absent, the `x || d` default idiom, truthiness
    of a timestamp, `Math.floor(a / b)`, the truncating `%` operator and
    `indexOf` on a string. */
module Js {

  datatype Option<+T> = None | Some(value: T)

  /** `x || d` for a numeric payload field: an absent field and 0 are both
      falsy, so either yields the default `d`. */
  function OrDefault(x: Option<int>, d: int): (r: int)
    ensures r == d || (x.Some? && r == x.value && r != 0)
    ensures x.Some? && x.value != 0 ==> r == x.value
  {
    if x.Some? && x.value != 0 then x.value else d
  }

  /** `x || false` for a boolean payload field. */
  function OrFalse(x: Option<bool>): (r: bool)
    ensures x == None ==> !r
    ensures x.Some? ==> r == x.value
  {
    x == Some(true)
  }

  /** A nullable timestamp field read by `if (t)`: null and 0 are falsy. */
  predicate Truthy(t: Option<int>)
    ensures t == None ==> !Truthy(t)
    ensures t.Some? ==> (Truthy(t) <==> t.value != 0)
  {
    t.Some? && t.value != 0
  }

  /** `Math.floor(a / b)` for a positive divisor. */
  function FloorDiv(a: int, b: int): (q: int)
    requires b > 0
    ensures b * q <= a < b * q + b
  {
    a / b
  }

  /** JavaScript's `a % b`: the remainder takes the sign of the dividend. */
  function Rem(a: int, b: int): (r: int)
    requires b > 0
    ensures a >= 0 ==> 0 <= r < b && a == b * FloorDiv(a, b) + r
    ensures a < 0 ==> -b < r <= 0 && a == -(b * FloorDiv(-a, b)) + r
  {
    if a >= 0 then a % b else -((-a) % b)
  }

  /** `s.indexOf(sep)` when `sep` occurs in `s`: the index of its first
      occurrence. */
  function IndexOf(s: string, sep: char): (i: nat)
    requires sep in s
    ensures i < |s| && s[i] == sep && sep !in s[..i]
  {
    if s[0] == sep then 0 else
      assert s == [s[0]] + s[1..];
      1 + IndexOf(s[1..], sep)
  }
}
