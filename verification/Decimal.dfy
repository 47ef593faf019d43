/** Exact decimals: a coefficient and a scale, denoting coefficient / 10^scale. */
module Decimal {
  import opened Text

  datatype BigDecimal = BigDecimal(coefficient: int, scale: int)

  function Max(a: int, b: int): int { if a < b then b else a }

  function Abs(n: int): nat { if n < 0 then -n else n }

  /** The integer `d * 10^digits`, for any number of digits that makes it one. */
  function Scaled(d: BigDecimal, digits: int): int
    requires digits >= d.scale
  {
    d.coefficient * Pow(10, digits - d.scale)
  }

  /** Exact numeric equality, whatever the representations. */
  predicate NumEq(a: BigDecimal, b: BigDecimal)
  {
    var digits := Max(a.scale, b.scale);
    Scaled(a, digits) == Scaled(b, digits)
  }

  lemma ScaledStep(d: BigDecimal, low: int, high: int)
    requires d.scale <= low <= high
    ensures Scaled(d, high) == Scaled(d, low) * Pow(10, high - low)
  {
    PowAdd(10, low - d.scale, high - low);
    MulAssoc(d.coefficient, Pow(10, low - d.scale), Pow(10, high - low));
  }

  lemma MulAssoc(a: int, b: int, c: int)
    ensures a * (b * c) == (a * b) * c
  {
  }

  lemma MulDistribute(a: int, b: int, p: int)
    ensures (a + b) * p == a * p + b * p
  {
  }

  lemma MulPositive(a: int, p: int)
    requires a >= 1 && p >= 1
    ensures a * p >= p
  {
    MulDistribute(a - 1, 1, p);
    MulNonNegative(a - 1, p);
  }

  lemma MulNonNegative(a: int, p: int)
    requires a >= 0 && p >= 0
    ensures a * p >= 0
  {
  }

  lemma MulLess(a: int, b: int, p: int)
    requires a < b && p >= 1
    ensures a * p + p <= b * p
  {
    MulDistribute(a, b - a, p);
    MulPositive(b - a, p);
  }

  lemma MulCancel(a: int, b: int, p: int)
    requires p >= 1
    ensures a * p == b * p <==> a == b
  {
    if a < b {
      MulLess(a, b, p);
    } else if b < a {
      MulLess(b, a, p);
    }
  }

  /** Any common scale decides numeric equality. */
  lemma NumEqAt(a: BigDecimal, b: BigDecimal, digits: int)
    requires a.scale <= digits && b.scale <= digits
    ensures NumEq(a, b) <==> Scaled(a, digits) == Scaled(b, digits)
  {
    var low := Max(a.scale, b.scale);
    ScaledStep(a, low, digits);
    ScaledStep(b, low, digits);
    PowPositive(10, digits - low);
    MulCancel(Scaled(a, low), Scaled(b, low), Pow(10, digits - low));
  }

  lemma NumEqTransitive(a: BigDecimal, b: BigDecimal, c: BigDecimal)
    requires NumEq(a, b) && NumEq(b, c)
    ensures NumEq(a, c)
  {
    var digits := Max(a.scale, Max(b.scale, c.scale));
    NumEqAt(a, b, digits);
    NumEqAt(b, c, digits);
    NumEqAt(a, c, digits);
  }

  /** Shifting the decimal point: the same coefficient under a smaller scale. */
  lemma NumEqShift(coefficient: int, scale: int, digits: nat)
    ensures NumEq(BigDecimal(coefficient * Pow(10, digits), scale + digits), BigDecimal(coefficient, scale))
  {
    var a, b := BigDecimal(coefficient * Pow(10, digits), scale + digits), BigDecimal(coefficient, scale);
    assert Scaled(a, scale + digits) == a.coefficient * 1;
    NumEqAt(a, b, scale + digits);
  }

  /** No representation with fewer digits: the coefficient is zero or not a multiple of ten. */
  predicate IsNormal(d: BigDecimal)
  {
    if d.coefficient == 0 then d.scale == 0 else d.coefficient % 10 != 0
  }

  function Normalized(d: BigDecimal): (n: BigDecimal)
    ensures IsNormal(n)
    ensures n.coefficient == 0 <==> d.coefficient == 0
    ensures d.coefficient != 0 ==> n.scale <= d.scale
    decreases Abs(d.coefficient)
  {
    if d.coefficient == 0 then BigDecimal(0, 0)
    else if d.coefficient % 10 == 0 then Normalized(BigDecimal(d.coefficient / 10, d.scale - 1))
    else d
  }

  lemma {:induction false} NormalizedKeepsValue(d: BigDecimal)
    ensures NumEq(Normalized(d), d)
    decreases Abs(d.coefficient)
  {
    if d.coefficient == 0 {
      var digits := Max(0, d.scale);
      assert 0 * Pow(10, digits - 0) == 0 && 0 * Pow(10, digits - d.scale) == 0;
    } else if d.coefficient % 10 == 0 {
      var shorter := BigDecimal(d.coefficient / 10, d.scale - 1);
      NormalizedKeepsValue(shorter);
      NumEqShift(d.coefficient / 10, d.scale - 1, 1);
      assert Pow(10, 1) == 10;
      assert NumEq(d, shorter);
      NumEqTransitive(Normalized(d), shorter, d);
    }
  }

  /** Numerically equal normal forms are the same coefficient and scale. */
  lemma NormalFormUnique(a: BigDecimal, b: BigDecimal)
    requires IsNormal(a) && IsNormal(b) && NumEq(a, b)
    ensures a == b
  {
    if a.scale < b.scale {
      CoarserMeansTrailingZero(a, b);
    } else if b.scale < a.scale {
      CoarserMeansTrailingZero(b, a);
    } else {
      assert Pow(10, 0) == 1;
    }
  }

  lemma CoarserMeansTrailingZero(a: BigDecimal, b: BigDecimal)
    requires NumEq(a, b) && a.scale < b.scale
    ensures b.coefficient % 10 == 0
    ensures a.coefficient == 0 <==> b.coefficient == 0
  {
    var k := b.scale - a.scale;
    NumEqAt(a, b, b.scale);
    assert Scaled(b, b.scale) == b.coefficient * Pow(10, 0) == b.coefficient;
    TenDivides(a.coefficient, k);
    PowPositive(10, k);
    MulCancel(a.coefficient, 0, Pow(10, k));
  }

  lemma TenDivides(c: int, digits: nat)
    requires digits > 0
    ensures (c * Pow(10, digits)) % 10 == 0
  {
    MulAssoc(c, 10, Pow(10, digits - 1));
    MulAssoc(c, Pow(10, digits - 1), 10);
    assert c * Pow(10, digits) == (c * Pow(10, digits - 1)) * 10;
  }

  /** Trailing zeros stripped one at a time. */
  method Normalize(d: BigDecimal) returns (n: BigDecimal)
    ensures n == Normalized(d)
  {
    if d.coefficient == 0 {
      return BigDecimal(0, 0);
    }
    n := d;
    while n.coefficient % 10 == 0
      invariant n.coefficient != 0
      invariant Normalized(n) == Normalized(d)
      decreases Abs(n.coefficient)
    {
      n := BigDecimal(n.coefficient / 10, n.scale - 1);
    }
  }

  /** `d` as an integer, when its fraction is zero. */
  predicate IsInteger(d: BigDecimal)
  {
    d.scale <= 0 || d.coefficient % Pow10(d.scale) == 0
  }

  function Pow10(n: nat): (p: nat)
    ensures p >= 1
  {
    PowPositive(10, n);
    Pow(10, n)
  }

  function IntegerValue(d: BigDecimal): int
  {
    if d.scale <= 0 then Scaled(d, 0) else d.coefficient / Pow10(d.scale)
  }

  lemma IntegerValueExact(d: BigDecimal)
    requires IsInteger(d)
    ensures NumEq(BigDecimal(IntegerValue(d), 0), d)
  {
    var n := IntegerValue(d);
    if d.scale <= 0 {
      assert Scaled(BigDecimal(n, 0), 0) == n * Pow(10, 0) == n;
    } else {
      assert d.coefficient == (d.coefficient / Pow10(d.scale)) * Pow10(d.scale);
      assert Scaled(d, d.scale) == d.coefficient * Pow(10, 0) == d.coefficient;
    }
  }

  lemma NormalInteger(d: BigDecimal)
    requires IsNormal(d) && IsInteger(d)
    ensures d.scale <= 0
  {
    if d.scale > 0 {
      TenDivides(d.coefficient / Pow10(d.scale), d.scale);
    }
  }

  // ----- Order, for rounding and saturation -----

  /** Exact numeric comparison. */
  predicate Less(a: BigDecimal, b: BigDecimal)
  {
    var digits := Max(a.scale, b.scale);
    Scaled(a, digits) < Scaled(b, digits)
  }

  function Magnitude(d: BigDecimal): BigDecimal
  {
    BigDecimal(Abs(d.coefficient), d.scale)
  }

  /** Rounding away from zero to at most `digits` decimal places. */
  function RoundedUp(d: BigDecimal, digits: nat): (r: BigDecimal)
    ensures r.scale <= Max(digits, 0)
    ensures d.scale <= digits ==> r == d
  {
    if d.scale <= digits then d
    else
      var unit := Pow10(d.scale - digits);
      var whole := (Abs(d.coefficient) + unit - 1) / unit;
      BigDecimal(if d.coefficient < 0 then -whole else whole, digits)
  }

  /**
   * What rounding away from zero means: `r` is the multiple of 10^-digits of
   * least magnitude that is at least as large in magnitude, with the same sign.
   */
  ghost predicate IsRoundedUp(d: BigDecimal, digits: nat, r: BigDecimal)
  {
    var fine := Max(d.scale, digits);
    var unit := Pow(10, fine - digits);
    var target := Abs(Scaled(d, fine));
    && r.scale <= digits
    && (r.coefficient > 0 <==> d.coefficient > 0)
    && (r.coefficient < 0 <==> d.coefficient < 0)
    && Abs(Scaled(r, fine)) >= target
    && forall m: nat :: Reaches(m, unit, target) ==> m * unit >= Abs(Scaled(r, fine))
  }

  ghost predicate Reaches(m: nat, unit: nat, target: nat)
  {
    m * unit >= target
  }

  lemma AbsTimes(c: int, p: nat)
    ensures Abs(c * p) == Abs(c) * p
  {
    if c < 0 {
      assert c * p <= 0;
      assert -(c * p) == (-c) * p;
    } else {
      assert c * p >= 0;
    }
  }

  lemma CeilingDivision(c: nat, unit: nat)
    requires unit >= 1
    ensures var whole := (c + unit - 1) / unit; whole * unit >= c && (whole > 0 <==> c > 0)
    ensures forall m: nat :: Reaches(m, unit, c) ==> m * unit >= ((c + unit - 1) / unit) * unit
  {
    var whole := (c + unit - 1) / unit;
    assert c + unit - 1 == whole * unit + (c + unit - 1) % unit;
    forall m: nat | Reaches(m, unit, c)
      ensures m * unit >= whole * unit
    {
      if m < whole {
        MulLess(m, whole, unit);
      } else if whole < m {
        MulLess(whole, m, unit);
      }
    }
  }

  lemma RoundedUpMeaning(d: BigDecimal, digits: nat)
    ensures IsRoundedUp(d, digits, RoundedUp(d, digits))
  {
    var r := RoundedUp(d, digits);
    if d.scale > digits {
      var unit := Pow10(d.scale - digits);
      CeilingDivision(Abs(d.coefficient), unit);
      AbsTimes(r.coefficient, unit);
      assert Scaled(r, d.scale) == r.coefficient * unit;
      assert Scaled(d, d.scale) == d.coefficient * Pow(10, 0) == d.coefficient;
    }
  }
}
