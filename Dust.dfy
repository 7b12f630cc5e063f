/** Dust rounding: truncating an order quantity to the number of decimals an
    instrument allows, after formatting it to 12 fractional digits. */
module Dust {

  /** 10^n. */
  function Scale(n: nat): (s: real)
    ensures s >= 1.0
  {
    if n == 0 then 1.0 else 10.0 * Scale(n - 1)
  }

  lemma {:induction false} ScaleInteger(n: nat)
    ensures IsInteger(Scale(n))
  {
    if n > 0 {
      ScaleInteger(n - 1);
      IntegerProduct(10.0, Scale(n - 1));
    }
  }

  function Min(a: nat, b: nat): (r: nat)
  {
    if a <= b then a else b
  }

  /** The number of fractional digits `toFixed` is asked for, and 10^12. */
  const FixedDigits: nat := 12
  const FixedUnit: real := 1000000000000.0

  /** `Number.isInteger` on a finite value. */
  predicate IsInteger(x: real)
  {
    x.Floor as real == x
  }

  /** `x` with its decimal point moved `e` places to the right. */
  function Shift(x: real, e: nat): (r: real)
  {
    x * Scale(e)
  }

  /** `x` has at most `e` fractional digits. */
  predicate HasDecimals(x: real, e: nat)
  {
    IsInteger(Shift(x, e))
  }

  /** The multiple of 1/p nearest to `m`, the larger one on a tie. */
  function RoundAt(m: real, p: real): (r: real)
    requires p > 0.0
  {
    (m * p + 0.5).Floor as real / p
  }

  /** The largest multiple of 1/p not above `y`. */
  function TruncateAt(y: real, p: real): (r: real)
    requires p > 0.0
  {
    (y * p).Floor as real / p
  }

  /** `m.toFixed(12)` read back as a number, for `m >= 0`. */
  function ToFixed(m: real): (r: real)
    requires m >= 0.0
  {
    RoundAt(m, FixedUnit)
  }

  /** Cutting the digit string of `y` after `e` fractional digits. */
  function Truncate(y: real, e: nat): (r: real)
  {
    TruncateAt(y, Scale(e))
  }

  /** The 12-digit string of `m >= 0` cut after `dustDecimals` fractional
      digits: there are only 12 to keep, so more than 12 keeps them all. */
  function DustlessMagnitude(m: real, dustDecimals: nat): (r: real)
    requires m >= 0.0
  {
    Truncate(ToFixed(m), Min(dustDecimals, FixedDigits))
  }

  /** `calculateDustless`: integers come back unchanged; any other amount is
      formatted to 12 fractional digits (sign kept apart, as `toFixed` does)
      and its digit string cut after `dustDecimals` fractional digits. */
  function CalculateDustless(amount: real, dustDecimals: nat): (r: real)
  {
    if IsInteger(amount) then amount
    else if amount < 0.0 then -DustlessMagnitude(-amount, dustDecimals)
    else DustlessMagnitude(amount, dustDecimals)
  }

  // ---------------------------------------------------------------------
  // Arithmetic helpers

  lemma {:induction false} ScaleSplit(e: nat, n: nat)
    requires e <= n
    ensures Scale(n) == Scale(e) * Scale(n - e)
    decreases e
  {
    if e > 0 {
      ScaleSplit(e - 1, n - 1);
      var a, b := Scale(e - 1), Scale(n - e);
      assert Scale(n) == 10.0 * (a * b);
      assert 10.0 * (a * b) == (10.0 * a) * b;
    }
  }

  lemma FixedUnitScale()
    ensures Scale(FixedDigits) == FixedUnit
  {
  }

  lemma IntegerProduct(x: real, y: real)
    requires IsInteger(x) && IsInteger(y)
    ensures IsInteger(x * y)
  {
    var n, m := x.Floor, y.Floor;
    assert x * y == (n * m) as real;
  }

  lemma IntegerEqual(x: real, y: real)
    requires IsInteger(x) && x == y
    ensures IsInteger(y)
  {
  }

  lemma IntegerNeg(x: real)
    requires IsInteger(x)
    ensures IsInteger(-x)
  {
    assert -x == (-x.Floor) as real;
  }

  lemma NegScaled(x: real, p: real)
    requires IsInteger(x * p)
    ensures IsInteger(-x * p)
  {
    var k := (x * p).Floor;
    assert -x * p == (-k) as real;
  }

  lemma MulCancel(a: real, b: real, p: real)
    requires p > 0.0 && a * p <= b * p
    ensures a <= b
  {
    assert b * p - a * p == (b - a) * p;
  }

  lemma TruncateAtDigits(y: real, p: real)
    requires p > 0.0
    ensures IsInteger(TruncateAt(y, p) * p)
  {
    var k := (y * p).Floor;
    assert TruncateAt(y, p) * p == k as real;
  }

  lemma TruncateAtBelow(y: real, p: real)
    requires p > 0.0
    ensures TruncateAt(y, p) <= y && (y - TruncateAt(y, p)) * p < 1.0
  {
    var k := (y * p).Floor;
    var t := TruncateAt(y, p);
    assert t * p == k as real;
    assert (y - t) * p == y * p - k as real;
    MulCancel(t, y, p);
  }

  lemma TruncateAtNonNegative(y: real, p: real)
    requires p > 0.0 && y >= 0.0
    ensures TruncateAt(y, p) >= 0.0
  {
    var k := (y * p).Floor;
    assert TruncateAt(y, p) * p == k as real;
    MulCancel(0.0, TruncateAt(y, p), p);
  }

  lemma TruncateAtExact(y: real, p: real)
    requires p > 0.0 && IsInteger(y * p)
    ensures TruncateAt(y, p) == y
  {
    var n := y * p;
    assert n.Floor as real == n;
    assert n / p == y;
  }

  lemma RoundAtExact(m: real, p: real)
    requires p > 0.0 && IsInteger(m * p)
    ensures RoundAt(m, p) == m
  {
    var n := m * p;
    assert (n + 0.5).Floor == n.Floor;
    assert n / p == m;
  }

  lemma RoundAtNear(m: real, p: real)
    requires p > 0.0 && m >= 0.0
    ensures RoundAt(m, p) >= 0.0
    ensures (RoundAt(m, p) - m) * p <= 0.5
  {
    var k := (m * p + 0.5).Floor;
    var r := RoundAt(m, p);
    assert r * p == k as real;
    assert (r - m) * p == k as real - m * p;
    MulCancel(0.0, r, p);
  }

  /** An amount with at most e fractional digits has at most n >= e. */
  lemma DecimalsWiden(x: real, e: nat, n: nat)
    requires e <= n && HasDecimals(x, e)
    ensures HasDecimals(x, n)
  {
    var a, pr := Shift(x, e), Scale(n - e);
    ScaleInteger(n - e);
    IntegerProduct(a, pr);
    assert Shift(x, n) == a * pr by {
      ScaleSplit(e, n);
      assert x * (Scale(e) * pr) == (x * Scale(e)) * pr;
    }
    IntegerEqual(a * pr, Shift(x, n));
  }

  lemma DecimalsNeg(x: real, e: nat)
    requires HasDecimals(x, e)
    ensures HasDecimals(-x, e)
  {
    IntegerNeg(Shift(x, e));
    assert Shift(-x, e) == -Shift(x, e);
  }

  /** `toFixed(12)` leaves an amount of at most 12 fractional digits alone. */
  lemma ToFixedExact(m: real)
    requires m >= 0.0 && HasDecimals(m, FixedDigits)
    ensures ToFixed(m) == m
  {
    FixedUnitScale();
    RoundAtExact(m, FixedUnit);
  }

  lemma TruncateBelow(y: real, e: nat)
    ensures Truncate(y, e) <= y && Shift(y - Truncate(y, e), e) < 1.0
  {
    TruncateAtBelow(y, Scale(e));
    assert Shift(y - Truncate(y, e), e) == (y - Truncate(y, e)) * Scale(e);
  }

  lemma TruncateDigits(y: real, e: nat)
    ensures HasDecimals(Truncate(y, e), e)
  {
    TruncateAtDigits(y, Scale(e));
    assert Shift(Truncate(y, e), e) == Truncate(y, e) * Scale(e);
  }

  lemma TruncateNonNegative(y: real, e: nat)
    requires y >= 0.0
    ensures Truncate(y, e) >= 0.0
  {
    TruncateAtNonNegative(y, Scale(e));
  }

  // ---------------------------------------------------------------------
  // Properties of calculateDustless

  lemma IntegerBounds(amount: real)
    requires amount >= 0.0 && IsInteger(amount)
    ensures ToFixed(amount) == amount
  {
    IntegerProduct(amount, FixedUnit);
    RoundAtExact(amount, FixedUnit);
  }

  lemma MagnitudeBounds(m: real, dustDecimals: nat)
    requires m >= 0.0
    ensures var y, e := ToFixed(m), Min(dustDecimals, FixedDigits);
      0.0 <= DustlessMagnitude(m, dustDecimals) <= y && Shift(y - DustlessMagnitude(m, dustDecimals), e) < 1.0
  {
    var y, e := ToFixed(m), Min(dustDecimals, FixedDigits);
    RoundAtNear(m, FixedUnit);
    TruncateBelow(y, e);
    TruncateNonNegative(y, e);
  }

  /** For a non-negative amount the result is never above the 12-digit value
      and loses less than one unit of the last digit kept. */
  lemma DustlessBounds(amount: real, dustDecimals: nat)
    requires amount >= 0.0
    ensures var r, y := CalculateDustless(amount, dustDecimals), ToFixed(amount);
      0.0 <= r <= y && Shift(y - r, Min(dustDecimals, FixedDigits)) < 1.0
  {
    var r, y := CalculateDustless(amount, dustDecimals), ToFixed(amount);
    if IsInteger(amount) {
      IntegerBounds(amount);
      assert y - r == 0.0;
    } else {
      assert r == DustlessMagnitude(amount, dustDecimals);
      MagnitudeBounds(amount, dustDecimals);
    }
  }

  /** The 12-digit formatting rounds to nearest, so the result exceeds a
      non-negative amount by at most half a unit of the 12th digit. */
  lemma DustlessOvershoot(amount: real, dustDecimals: nat)
    requires amount >= 0.0
    ensures (CalculateDustless(amount, dustDecimals) - amount) * FixedUnit <= 0.5
  {
    var r, y := CalculateDustless(amount, dustDecimals), ToFixed(amount);
    if !IsInteger(amount) {
      RoundAtNear(amount, FixedUnit);
      DustlessBounds(amount, dustDecimals);
      ScaledSum(r - y, y - amount, FixedUnit);
    }
  }

  lemma ScaledSum(a: real, b: real, p: real)
    requires a <= 0.0 && p > 0.0
    ensures (a + b) * p <= b * p
  {
    assert (a + b) * p == a * p + b * p;
  }

  /** The result has at most `dustDecimals` fractional digits (at most 12). */
  lemma DustlessDigits(amount: real, dustDecimals: nat)
    ensures HasDecimals(CalculateDustless(amount, dustDecimals), Min(dustDecimals, FixedDigits))
  {
    var e := Min(dustDecimals, FixedDigits);
    if IsInteger(amount) {
      ScaleInteger(e);
      IntegerProduct(amount, Scale(e));
    } else if amount < 0.0 {
      var t := Truncate(ToFixed(-amount), e);
      TruncateDigits(ToFixed(-amount), e);
      DecimalsNeg(t, e);
    } else {
      TruncateDigits(ToFixed(amount), e);
    }
  }

  lemma MagnitudeFixedPoint(m: real, dustDecimals: nat)
    requires m >= 0.0 && HasDecimals(m, Min(dustDecimals, FixedDigits))
    ensures DustlessMagnitude(m, dustDecimals) == m
  {
    var e := Min(dustDecimals, FixedDigits);
    DecimalsWiden(m, e, FixedDigits);
    ToFixedExact(m);
    TruncateAtExact(m, Scale(e));
  }

  /** An amount that already has at most `dustDecimals` (and at most 12)
      fractional digits is returned unchanged. */
  lemma DustlessFixedPoint(amount: real, dustDecimals: nat)
    requires HasDecimals(amount, Min(dustDecimals, FixedDigits))
    ensures CalculateDustless(amount, dustDecimals) == amount
  {
    if !IsInteger(amount) {
      if amount < 0.0 {
        DecimalsNeg(amount, Min(dustDecimals, FixedDigits));
        MagnitudeFixedPoint(-amount, dustDecimals);
      } else {
        MagnitudeFixedPoint(amount, dustDecimals);
      }
    }
  }

  /** Dust rounding is idempotent at a fixed precision. */
  lemma DustlessIdempotent(amount: real, dustDecimals: nat)
    ensures CalculateDustless(CalculateDustless(amount, dustDecimals), dustDecimals)
         == CalculateDustless(amount, dustDecimals)
  {
    DustlessDigits(amount, dustDecimals);
    DustlessFixedPoint(CalculateDustless(amount, dustDecimals), dustDecimals);
  }

  /** A non-negative amount already written with at most 12 fractional digits
      is never rounded up. */
  lemma DustlessNeverUp(amount: real, dustDecimals: nat)
    requires amount >= 0.0 && HasDecimals(amount, FixedDigits)
    ensures 0.0 <= CalculateDustless(amount, dustDecimals) <= amount
  {
    DustlessBounds(amount, dustDecimals);
    ToFixedExact(amount);
  }

  /** With more than 12 significant fractional digits the 12-digit formatting
      can round up: 0.9999999999999 dusted to 8 decimals is 1. */
  lemma DustlessCanRoundUp()
    ensures CalculateDustless(0.9999999999999, 8) == 1.0
  {
    assert Scale(8) == 100000000.0;
    assert ToFixed(0.9999999999999) == 1.0;
  }
}
