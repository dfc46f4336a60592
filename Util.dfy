/** Small shared vocabulary: optional values, JavaScript truthiness of the
    nullable strings the application passes around, and JavaScript's integer
    division and remainder operators written out over Dafny's unbounded ints. */
module Util {

  datatype Option<+T> = None | Some(value: T)

  /** `if (s)` on a value that is `null` or a string: `null` and the empty
      string are falsy, every other string is truthy. */
  predicate Truthy(s: Option<string>)
  {
    s.Some? && s.value != ""
  }

  function Min(a: int, b: int): (r: int)
    ensures r <= a && r <= b
    ensures r == a || r == b
  {
    if a <= b then a else b
  }

  function Max(a: int, b: int): (r: int)
    ensures r >= a && r >= b
    ensures r == a || r == b
  {
    if a >= b then a else b
  }

  /** `Math.floor(a / d)` for a positive divisor. Dafny's `/` on `int` is
      Euclidean, which for a positive divisor is floor division. */
  function FloorDiv(a: int, d: int): (q: int)
    requires d > 0
    ensures q * d <= a < q * d + d
  {
    a / d
  }

  /** JavaScript's `a % d` on integers: the remainder takes the sign of the
      dividend (truncated division), unlike Dafny's `%`. */
  function JsRem(a: int, d: int): (r: int)
    requires d > 0
    ensures a >= 0 ==> 0 <= r < d
    ensures a < 0 ==> -d < r <= 0
  {
    if a >= 0 then a % d else -((-a) % d)
  }
}
