/** Integer renderings of the JavaScript arithmetic the game uses. */
module Arith {

  function Min(a: int, b: int): int { if a <= b then a else b }
  function Max(a: int, b: int): int { if a >= b then a else b }
  function Abs(a: int): int { if a < 0 then -a else a }

  /** JavaScript `a % b` for `b > 0`: the remainder takes the sign of `a` and its magnitude is
      that of `|a| mod b` (truncating division), unlike Dafny's `%`, whose remainder is never
      negative. */
  function JsRem(a: int, b: int): (r: int)
    requires b > 0
    ensures a >= 0 ==> 0 <= r < b && r == a % b
    ensures a < 0 ==> -b < r <= 0
    ensures -b < a < 0 ==> r == a
    ensures Abs(r) == Abs(a) % b
  {
    if a >= 0 then a % b else -((-a) % b)
  }

  /** `Math.round(n / d)` for `d > 0`: the nearest integer, halves rounded up. Computed as
      `floor((2n + d) / 2d)`; Dafny's `/` is floor division for a positive divisor. */
  function RoundDiv(n: int, d: int): (r: int)
    requires d > 0
    ensures d * (2 * r - 1) <= 2 * n < d * (2 * r + 1)
  {
    var q := (2 * n + d) / (2 * d);
    assert 2 * d * q <= 2 * n + d < 2 * d * q + 2 * d;
    q
  }

  /** Rounding a quotient that lies in `[lo, hi]` gives an integer in `[lo, hi]`. */
  lemma RoundDivBounds(n: int, d: int, lo: int, hi: int)
    requires d > 0
    requires d * lo <= n <= d * hi
    ensures lo <= RoundDiv(n, d) <= hi
  {
    var r := RoundDiv(n, d);
    if r > hi {
      MulMonotone(d, 2 * hi + 1, 2 * r - 1);
    }
    if r < lo {
      MulMonotone(d, 2 * r + 1, 2 * lo);
    }
  }

  /** An exact quotient rounds to itself. */
  lemma RoundDivExact(q: int, d: int)
    requires d > 0
    ensures RoundDiv(q * d, d) == q
  {
    RoundDivBounds(q * d, d, q, q);
  }

  lemma MulMonotone(d: int, x: int, y: int)
    requires d > 0 && x <= y
    ensures d * x <= d * y
  {
    assert d * y - d * x == d * (y - x);
  }
}
