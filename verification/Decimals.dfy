/** Decimal arithmetic: exact, except division, which rounds to 16 places, half away from zero. */
module Decimals {

  const SCALE := 10000000000000000.0
  const HALF_ULP := 0.5 / SCALE

  function Round16(x: real): real {
    if x >= 0.0 then (x * SCALE + 0.5).Floor as real / SCALE else -((-x * SCALE + 0.5).Floor as real / SCALE)
  }

  function Div16(a: real, b: real): real
    requires b != 0.0
  {
    Round16(a / b)
  }

  function Floor(x: real): real {
    x.Floor as real
  }

  function Truncate(x: real): real {
    if x >= 0.0 then Floor(x) else -Floor(-x)
  }

  function Abs(x: real): real {
    if x >= 0.0 then x else -x
  }

  /** Truncation drops the digits after the point on either side of zero. */
  lemma TruncateTowardZero(x: real)
    ensures Truncate(-x) == -Truncate(x)
    ensures x >= 0.0 ==> Truncate(x) == Floor(x) && 0.0 <= Truncate(x) <= x < Truncate(x) + 1.0
  {
  }

  lemma ScaledFloor(y: real)
    ensures var n := (y + 0.5).Floor as real; y - 0.5 < n <= y + 0.5
  {
  }

  lemma Unscale(x: real, n: real)
    requires x * SCALE - 0.5 < n <= x * SCALE + 0.5
    ensures x - HALF_ULP <= n / SCALE <= x + HALF_ULP
  {
    assert (n / SCALE) * SCALE == n;
    assert HALF_ULP * SCALE == 0.5;
  }

  /** Rounding moves a number by at most half a unit in the 16th place. */
  lemma RoundError(x: real)
    ensures x - HALF_ULP <= Round16(x) <= x + HALF_ULP
  {
    var y := if x >= 0.0 then x else -x;
    ScaledFloor(y * SCALE);
    Unscale(y, (y * SCALE + 0.5).Floor as real);
  }

  lemma FloorMonotone(a: real, b: real)
    requires a <= b
    ensures a.Floor <= b.Floor
  {
  }

  lemma ScaleMonotone(a: real, b: real)
    requires a <= b
    ensures a * SCALE <= b * SCALE && a / SCALE <= b / SCALE
  {
  }

  lemma RoundMonotone(a: real, b: real)
    requires 0.0 <= a <= b
    ensures Round16(a) <= Round16(b)
  {
    ScaleMonotone(a, b);
    FloorMonotone(a * SCALE + 0.5, b * SCALE + 0.5);
    ScaleMonotone((a * SCALE + 0.5).Floor as real, (b * SCALE + 0.5).Floor as real);
  }

  lemma RoundWhole(n: nat)
    ensures Round16(n as real) == n as real
  {
    var m := n * 10000000000000000;
    assert n as real * SCALE == m as real;
    assert (m as real + 0.5).Floor == m;
    assert m as real / SCALE == n as real;
  }

  /** A rounded number below a whole one was below it before rounding. */
  lemma RoundBelowWhole(x: real, n: nat)
    requires x >= 0.0 && Round16(x) < n as real
    ensures x < n as real
  {
    if x >= n as real {
      RoundMonotone(n as real, x);
      RoundWhole(n);
    }
  }

  /** The digits behind the 16th place amount to half a unit of it or more. */
  predicate RoundsUp(x: real) {
    x * SCALE - Floor(x * SCALE) >= 0.5
  }

  lemma FloorAfterHalf(y: real)
    ensures (y + 0.5).Floor == y.Floor + if y - Floor(y) >= 0.5 then 1 else 0
  {
  }

  lemma DividedBack(n: real, x: real)
    ensures n / SCALE > x <==> n > x * SCALE
  {
    assert (n / SCALE) * SCALE == n;
  }

  lemma RoundsUpIff(x: real)
    requires x >= 0.0
    ensures Round16(x) > x <==> RoundsUp(x)
  {
    FloorAfterHalf(x * SCALE);
    DividedBack((x * SCALE + 0.5).Floor as real, x);
  }

  lemma RoundPositive(x: real)
    requires Round16(x) > 0.0
    ensures x > 0.0
  {
    if x < 0.0 {
      RoundMonotone(0.0, -x);
    }
  }
}
