/**
 * Python's `round(x, n)` on exact values: the nearest multiple of 10^-n,
 * with exact ties going to the even neighbour (banker's rounding).
 * The scanner rounds 24h volumes to 1 decimal, spreads to 2, mean fill
 * prices to 5 and filled volumes to 2.
 */
module Rounding {

  /** 10^n as a real. */
  function Pow10(n: nat): (p: real)
    ensures p >= 1.0
  {
    if n == 0 then 1.0 else 10.0 * Pow10(n - 1)
  }

  /** k units of 10^-n. */
  function Units(k: int, n: nat): real
  {
    k as real / Pow10(n)
  }

  /** The integer nearest to `y`, ties to even. */
  function RoundInt(y: real): (k: int)
    ensures -0.5 <= k as real - y <= 0.5
    ensures (k as real - y == 0.5 || y - k as real == 0.5) ==> k % 2 == 0
  {
    var f := y.Floor;
    var frac := y - f as real;
    if frac > 0.5 then f + 1
    else if frac < 0.5 then f
    else if f % 2 == 0 then f
    else f + 1
  }

  /** The multiple of 1/p nearest to `x`, ties to an even multiple. */
  function RoundToScale(x: real, p: real): (r: real)
    requires p >= 1.0
    ensures -0.5 / p <= r - x <= 0.5 / p
  {
    var k := RoundInt(x * p);
    DivideError(k as real, x, p);
    k as real / p
  }

  /** `round(x, n)`: the result is within half a unit of the n-th decimal
      of `x` (RoundHasNDecimals: and it has at most n decimals). */
  function Round(x: real, n: nat): (r: real)
    ensures -0.5 / Pow10(n) <= r - x <= 0.5 / Pow10(n)
  {
    RoundToScale(x, Pow10(n))
  }

  /** Dividing a half-unit error on `x * p` by `p` gives the error on `x`. */
  lemma DivideError(k: real, x: real, p: real)
    requires p > 0.0
    requires -0.5 <= k - x * p <= 0.5
    ensures -0.5 / p <= k / p - x <= 0.5 / p
  {
    var d := k - x * p;
    assert k / p - x == d / p;
    DivMonotone(-0.5, d, p);
    DivMonotone(d, 0.5, p);
  }

  /** Multiplying by a non-negative factor keeps an order. */
  lemma MulMonotone(a: real, b: real, p: real)
    requires a <= b && p >= 0.0
    ensures a * p <= b * p
  {
    assert (b - a) * p >= 0.0;
  }

  lemma DivMonotone(a: real, b: real, p: real)
    requires a <= b && p > 0.0
    ensures a / p <= b / p
  {
    assert b / p - a / p == (b - a) / p;
  }

  /** Rounding to the nearest integer (ties to even) never inverts an order. */
  lemma RoundIntMonotone(y1: real, y2: real)
    requires y1 <= y2
    ensures RoundInt(y1) <= RoundInt(y2)
  {
  }

  lemma RoundToScaleMonotone(x1: real, x2: real, p: real)
    requires x1 <= x2 && p >= 1.0
    ensures RoundToScale(x1, p) <= RoundToScale(x2, p)
  {
    MulMonotone(x1, x2, p);
    RoundIntMonotone(x1 * p, x2 * p);
    DivMonotone(RoundInt(x1 * p) as real, RoundInt(x2 * p) as real, p);
  }

  /** `round(., n)` is monotone: it never swaps two values. */
  lemma RoundMonotone(x1: real, x2: real, n: nat)
    requires x1 <= x2
    ensures Round(x1, n) <= Round(x2, n)
  {
    RoundToScaleMonotone(x1, x2, Pow10(n));
  }

  lemma RoundToScaleExact(k: int, p: real)
    requires p >= 1.0
    ensures RoundToScale(k as real / p, p) == k as real / p
  {
    var x := k as real / p;
    UnfoldRoundToScale(x, p);
    assert x * p == k as real;
    assert RoundInt(k as real) == k;
  }

  lemma UnfoldRoundToScale(x: real, p: real)
    requires p >= 1.0
    ensures RoundToScale(x, p) == RoundInt(x * p) as real / p
  {
  }

  /** A value that already has at most n decimals is returned unchanged. */
  lemma RoundExact(k: int, n: nat)
    ensures Round(Units(k, n), n) == Units(k, n)
  {
    RoundToScaleExact(k, Pow10(n));
  }

  /** `round(x, n)` has at most n decimals: it is a whole number of
      10^-n units. */
  lemma RoundHasNDecimals(x: real, n: nat)
    ensures exists k: int :: Round(x, n) == Units(k, n)
  {
    UnfoldRoundToScale(x, Pow10(n));
    var k := RoundInt(x * Pow10(n));
    assert Round(x, n) == Units(k, n);
  }
}
