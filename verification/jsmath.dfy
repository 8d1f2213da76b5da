/** Exact versions of the handful of JavaScript `Math` operations the game uses.
    Numbers are `int` or `real` (exact rationals); IEEE-754 rounding is not modelled. */
module JsMath {

  datatype Option<+T> = None | Some(value: T)

  /** `Math.round`: the nearest integer, with halves rounded towards +infinity. */
  function Round(x: real): (n: int)
    ensures x - 0.5 < n as real <= x + 0.5
  {
    (x + 0.5).Floor
  }

  /** `Math.round` never decreases when its argument grows. */
  lemma RoundMonotone(x: real, y: real)
    requires x <= y
    ensures Round(x) <= Round(y)
  {
  }

  /** `Math.round` of an integer is that integer. */
  lemma RoundInt(n: int)
    ensures Round(n as real) == n
  {
  }

  function Max(a: int, b: int): (m: int)
    ensures m >= a && m >= b && (m == a || m == b)
  {
    if a >= b then a else b
  }

  function Min(a: int, b: int): (m: int)
    ensures m <= a && m <= b && (m == a || m == b)
  {
    if a <= b then a else b
  }

  /** `Math.ceil(a / b)` for a positive divisor. */
  function CeilDiv(a: int, b: int): (n: int)
    requires b > 0
    ensures (n - 1) * b < a <= n * b
  {
    -((-a) / b)
  }

  /** `Math.floor(a / b)` for a positive divisor; Dafny's Euclidean `/` agrees with
      flooring division whenever the divisor is positive. */
  function FloorDiv(a: int, b: int): (n: int)
    requires b > 0
    ensures n * b <= a < (n + 1) * b
  {
    a / b
  }

  /** Flooring division by a positive divisor never decreases when the dividend grows. */
  lemma FloorDivMonotone(a: int, b: int, d: int)
    requires d > 0 && a <= b
    ensures FloorDiv(a, d) <= FloorDiv(b, d)
  {
    var p, q := FloorDiv(a, d), FloorDiv(b, d);
    if p > q {
      assert (q + 1) * d <= p * d by {
        MulLe(q + 1, p, d);
      }
    }
  }

  lemma MulLe(a: int, b: int, d: int)
    requires a <= b && d >= 0
    ensures a * d <= b * d
  {
  }

  /** `Math.max(0, Math.min(1, x))`. */
  function Clamp01(x: real): (c: real)
    ensures 0.0 <= c <= 1.0
    ensures 0.0 <= x <= 1.0 ==> c == x
  {
    if x < 0.0 then 0.0 else if x > 1.0 then 1.0 else x
  }
}
