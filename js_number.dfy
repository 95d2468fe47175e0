/**
 * The JavaScript number operations the application relies on, over exact reals:
 * `Math.floor`, `Math.ceil`, truncation, and the `%` operator, whose result takes
 * the sign of the dividend (unlike Dafny's Euclidean `%`).
 */
module JsNumber {

  /** `Math.floor` */
  function Floor(x: real): (r: int)
    ensures r as real <= x < r as real + 1.0
  {
    x.Floor
  }

  /** `Math.ceil` */
  function Ceil(x: real): (r: int)
    ensures x <= r as real < x + 1.0
  {
    -((-x).Floor)
  }

  /** Rounding toward zero, as `%` does internally. */
  function Trunc(x: real): (r: int)
    ensures 0.0 <= x ==> 0 <= r && r as real <= x < r as real + 1.0
    ensures x < 0.0 ==> r <= 0 && r as real - 1.0 < x <= r as real
  {
    if 0.0 <= x then x.Floor else -((-x).Floor)
  }

  /** JavaScript `a % b` on numbers, for a positive divisor: `a - b * trunc(a / b)`. */
  function Rem(a: real, b: real): (r: real)
    requires 0.0 < b
    ensures 0.0 <= a ==> 0.0 <= r < b
    ensures a < 0.0 ==> -b < r <= 0.0
  {
    var q := a / b;
    var k := Trunc(q);
    RemBounds(a, b, q, k as real);
    a - k as real * b
  }

  /** The remainder `a - k * b` left by a quotient `k` truncated from `q = a / b`. */
  lemma RemBounds(a: real, b: real, q: real, k: real)
    requires 0.0 < b && q * b == a
    requires 0.0 <= q ==> k <= q < k + 1.0
    requires q < 0.0 ==> k - 1.0 < q <= k
    ensures 0.0 <= a ==> 0.0 <= a - k * b < b
    ensures a < 0.0 ==> -b < a - k * b <= 0.0
  {
    ScaledFraction(q, b);
    if 0.0 <= q {
      RemBoundsUp(a, b, q, k);
    } else {
      RemBoundsDown(a, b, q, k);
    }
  }

  lemma RemBoundsUp(a: real, b: real, q: real, k: real)
    requires 0.0 < b && q * b == a && k <= q < k + 1.0
    ensures 0.0 <= a - k * b < b
  {
    var d := q - k;
    ScaledFraction(d, b);
    calc {
      a - k * b;
      q * b - k * b;
      d * b;
    }
  }

  lemma RemBoundsDown(a: real, b: real, q: real, k: real)
    requires 0.0 < b && q * b == a && k - 1.0 < q <= k
    ensures -b < a - k * b <= 0.0
  {
    var d := q - k;
    ScaledFraction(d, b);
    calc {
      a - k * b;
      q * b - k * b;
      d * b;
    }
  }

  /** A fraction of a positive `b` keeps its sign and stays below `b` in size. */
  lemma ScaledFraction(d: real, b: real)
    requires 0.0 < b
    ensures 0.0 <= d < 1.0 ==> 0.0 <= d * b < b
    ensures -1.0 < d <= 0.0 ==> -b < d * b <= 0.0
    ensures 0.0 <= d <==> 0.0 <= d * b
  {
  }

  /** JavaScript `a % b` on integer-valued numbers: the sign follows the dividend. */
  function RemInt(a: int, b: int): (r: int)
    requires b != 0
    ensures 0 <= a ==> 0 <= r < if b < 0 then -b else b
    ensures a < 0 ==> -(if b < 0 then -b else b) < r <= 0
    ensures 0 <= a && 0 < b ==> r == a % b
  {
    var m := if b < 0 then -b else b;
    if 0 <= a then a % m else -((-a) % m)
  }
}
