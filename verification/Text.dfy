/** Decimal numerals and the other string facts the wire formats rest on. */
module Text {

  /** The powers of a natural base. */
  function Pow(base: nat, exponent: nat): nat
  {
    if exponent == 0 then 1 else base * Pow(base, exponent - 1)
  }

  lemma {:induction false} PowAdd(base: nat, a: nat, b: nat)
    ensures Pow(base, a + b) == Pow(base, a) * Pow(base, b)
  {
    if a != 0 {
      PowAdd(base, a - 1, b);
      MulAssociates(base, Pow(base, a - 1), Pow(base, b));
    }
  }

  lemma MulAssociates(x: nat, y: nat, z: nat)
    ensures x * (y * z) == (x * y) * z
  {
  }

  lemma {:induction false} PowPositive(base: nat, exponent: nat)
    requires base > 0
    ensures Pow(base, exponent) >= 1
  {
    if exponent != 0 {
      PowPositive(base, exponent - 1);
      assert base * Pow(base, exponent - 1) >= 1 * Pow(base, exponent - 1);
    }
  }

  predicate IsDigit(c: char)
  {
    '0' <= c <= '9'
  }

  predicate AllDigits(s: string)
  {
    forall i :: 0 <= i < |s| ==> IsDigit(s[i])
  }

  function DigitValue(c: char): (d: nat)
    requires IsDigit(c)
    ensures d < 10
  {
    c as int - '0' as int
  }

  function DigitChar(d: nat): (c: char)
    requires d < 10
    ensures IsDigit(c) && DigitValue(c) == d
  {
    "0123456789"[d]
  }

  /** The number a run of decimal digits denotes; the empty run denotes zero. */
  function NumeralValue(s: string): nat
    requires AllDigits(s)
  {
    if s == [] then 0 else NumeralValue(s[..|s| - 1]) * 10 + DigitValue(s[|s| - 1])
  }

  /** The shortest decimal numeral of `n`. */
  function Numeral(n: nat): (s: string)
    ensures |s| > 0 && AllDigits(s)
  {
    if n < 10 then [DigitChar(n)] else Numeral(n / 10) + [DigitChar(n % 10)]
  }

  /** A numeral denotes the number it was written for. */
  lemma {:induction false} NumeralMeaning(n: nat)
    ensures NumeralValue(Numeral(n)) == n
  {
    var s := Numeral(n);
    if n < 10 {
      assert s[..|s| - 1] == [];
    } else {
      NumeralMeaning(n / 10);
      assert s[..|s| - 1] == Numeral(n / 10);
    }
  }

  function Zeros(count: nat): (s: string)
    ensures |s| == count && AllDigits(s)
  {
    if count == 0 then [] else Zeros(count - 1) + ['0']
  }

  lemma NumeralTimesTen(n: nat)
    requires n > 0
    ensures Numeral(n * 10) == Numeral(n) + ['0']
  {
    assert (n * 10) / 10 == n && (n * 10) % 10 == 0;
  }

  lemma MulSwap(n: nat, p: nat)
    ensures n * (10 * p) == (n * p) * 10
  {
  }

  /** Appending zeros multiplies by a power of ten, numeral for numeral. */
  lemma {:induction false} NumeralAppendZeros(n: nat, count: nat)
    requires n > 0
    ensures n * Pow(10, count) > 0
    ensures Numeral(n) + Zeros(count) == Numeral(n * Pow(10, count))
  {
    if count == 0 {
      assert Numeral(n) + Zeros(0) == Numeral(n);
    } else {
      NumeralAppendZeros(n, count - 1);
      var p := Pow(10, count - 1);
      assert Pow(10, count) == 10 * p;
      MulSwap(n, p);
      NumeralTimesTen(n * p);
      assert Numeral(n) + Zeros(count) == (Numeral(n) + Zeros(count - 1)) + ['0'];
    }
  }

  /** Signed decimal text, as integer formatting prints it. */
  function IntText(n: int): string
  {
    if n < 0 then "-" + Numeral(-n) else Numeral(n)
  }

  /** The longest run of digits starting at `from` ends here. */
  function DigitsEnd(s: string, from: nat): (end: nat)
    requires from <= |s|
    ensures from <= end <= |s|
    ensures AllDigits(s[from..end])
    ensures end < |s| ==> !IsDigit(s[end])
    decreases |s| - from
  {
    if from < |s| && IsDigit(s[from]) then
      var end := DigitsEnd(s, from + 1);
      assert s[from..end] == [s[from]] + s[from + 1..end];
      end
    else
      from
  }

  lemma DigitsEndUnique(s: string, from: nat, end: nat)
    requires from <= end <= |s|
    requires forall i :: from <= i < end ==> IsDigit(s[i])
    requires end < |s| ==> !IsDigit(s[end])
    ensures DigitsEnd(s, from) == end
  {
    var other := DigitsEnd(s, from);
    forall i | from <= i < other
      ensures IsDigit(s[i])
    {
      assert s[from..other][i - from] == s[i];
    }
  }
}
