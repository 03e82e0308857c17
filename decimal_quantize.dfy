/**
 * Fixed-point quantization of exact decimal values, as Python's
 * `Decimal.quantize(Decimal("0.0001"))` does it under the default decimal
 * context, whose rounding mode is ROUND_HALF_EVEN.
 *
 * A value quantized to `places` fractional digits is represented by its
 * integer number of units of 10^-places.
 */
module DecimalQuantize {

  /** 10^n. */
  function Pow10(n: nat): (p: nat)
    ensures p >= 1
  {
    if n == 0 then 1 else 10 * Pow10(n - 1)
  }

  /** The value of `units` units of 10^-places. */
  function UnitsValue(units: int, places: nat): real {
    units as real / Pow10(places) as real
  }

  /**
   * `n` is a correct round-half-to-even of `y`: no integer is nearer to `y`,
   * and when `y` lies exactly half-way between two integers, `n` is the
   * even one.
   */
  predicate IsHalfEvenRounding(y: real, n: int) {
    && -0.5 <= y - n as real <= 0.5
    && ((y - n as real == 0.5 || n as real - y == 0.5) ==> n % 2 == 0)
  }

  /** Round to the nearest integer, ties to the even neighbour. */
  function RoundHalfEven(y: real): (n: int)
    ensures IsHalfEvenRounding(y, n)
  {
    var f := y.Floor;
    var frac := y - f as real;
    if frac < 0.5 then f
    else if frac > 0.5 then f + 1
    else if f % 2 == 0 then f
    else f + 1
  }

  /** Round-half-to-even rounding is a function: only one integer qualifies. */
  lemma HalfEvenRoundingUnique(y: real, m: int)
    requires IsHalfEvenRounding(y, m)
    ensures m == RoundHalfEven(y)
  {
  }

  /**
   * `x` quantized to `places` fractional digits, in units of 10^-places:
   * the half-even rounding of x * 10^places. The quantized value differs
   * from `x` by at most half a unit in the last place.
   */
  function Quantize(x: real, places: nat): (units: int)
    ensures IsHalfEvenRounding(x * Pow10(places) as real, units)
    ensures -0.5 / Pow10(places) as real <= UnitsValue(units, places) - x <= 0.5 / Pow10(places) as real
  {
    var units := RoundHalfEven(x * Pow10(places) as real);
    ScaledBound(x, units, Pow10(places) as real);
    units
  }

  /** Dividing |x*p - u| <= 1/2 by p > 0. */
  lemma ScaledBound(x: real, u: int, p: real)
    requires p >= 1.0
    requires -0.5 <= x * p - u as real <= 0.5
    ensures -0.5 / p <= u as real / p - x <= 0.5 / p
  {
    var d := u as real - x * p;
    DivideBound(d, p);
    assert (x * p) / p == x;
    assert u as real / p - x == d / p;
  }

  /** A quantity within 1/2 of zero, divided by p >= 1, is within 1/(2p) of zero. */
  lemma DivideBound(d: real, p: real)
    requires -0.5 <= d <= 0.5 && p >= 1.0
    ensures -0.5 / p <= d / p <= 0.5 / p
  {
    assert (d / p) * p == d;
  }

  /** A value that already has at most `places` fractional digits is left unchanged. */
  lemma QuantizeExact(x: real, places: nat, k: int)
    requires x * Pow10(places) as real == k as real
    ensures Quantize(x, places) == k
  {
    HalfEvenRoundingUnique(x * Pow10(places) as real, k);
  }

  /**
   * Quantizing to four places, as `quantize(Decimal("0.0001"))` does: the
   * result is the half-even rounding of x * 10000 and lies within 0.00005
   * of `x`.
   */
  lemma QuantizeFourPlaces(x: real)
    ensures var units := Quantize(x, 4);
      && IsHalfEvenRounding(x * 10000.0, units)
      && -0.00005 <= units as real / 10000.0 - x <= 0.00005
  {
    assert Pow10(4) == 10000;
    var units := Quantize(x, 4);
    assert UnitsValue(units, 4) == units as real / 10000.0;
  }
}
