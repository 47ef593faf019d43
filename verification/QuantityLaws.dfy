/** What parsing, printing and canonical text promise about each other. */
module QuantityLaws {
  import opened Wrappers
  import opened Text
  import opened Decimal
  import opened Quantity

  // ----- Comparison does not see the representation -----

  lemma LessAt(a: BigDecimal, b: BigDecimal, digits: int)
    requires a.scale <= digits && b.scale <= digits
    ensures Less(a, b) <==> Scaled(a, digits) < Scaled(b, digits)
  {
    var low := Max(a.scale, b.scale);
    ScaledStep(a, low, digits);
    ScaledStep(b, low, digits);
    var x, y, p := Scaled(a, low), Scaled(b, low), Pow(10, digits - low);
    PowPositive(10, digits - low);
    if x < y {
      MulLess(x, y, p);
    } else if y < x {
      MulLess(y, x, p);
    }
  }

  lemma LessCongruent(a: BigDecimal, b: BigDecimal, c: BigDecimal, d: BigDecimal)
    requires NumEq(a, c) && NumEq(b, d)
    ensures Less(a, b) <==> Less(c, d)
  {
    var digits := Max(Max(a.scale, b.scale), Max(c.scale, d.scale));
    LessAt(a, b, digits);
    LessAt(c, d, digits);
    NumEqAt(a, c, digits);
    NumEqAt(b, d, digits);
  }

  lemma MagnitudeCongruent(a: BigDecimal, b: BigDecimal)
    requires NumEq(a, b)
    ensures NumEq(Magnitude(a), Magnitude(b))
  {
    var digits := Max(a.scale, b.scale);
    AbsTimes(a.coefficient, Pow(10, digits - a.scale));
    AbsTimes(b.coefficient, Pow(10, digits - b.scale));
  }

  /** The normal form is the canonical representative of a number. */
  lemma NormalizedDecides(a: BigDecimal, b: BigDecimal)
    ensures NumEq(a, b) <==> Normalized(a) == Normalized(b)
  {
    NormalizedKeepsValue(a);
    NormalizedKeepsValue(b);
    if NumEq(a, b) {
      NumEqTransitive(Normalized(a), a, b);
      NumEqTransitive(Normalized(a), b, Normalized(b));
      NormalFormUnique(Normalized(a), Normalized(b));
    }
    if Normalized(a) == Normalized(b) {
      NumEqTransitive(a, Normalized(a), b);
    }
  }

  // ----- Parsing -----

  lemma FinishValid(exact: BigDecimal, format: Format)
    ensures Valid(Finish(exact, format)) && IsNormal(Finish(exact, format).value)
  {
    var q := Finish(exact, format);
    assert Normalized(q.value) == q.value;
    if q.format.BinarySI? {
      var value := Saturated(RoundedUp(exact, NANO_DIGITS));
      var top, one := BigDecimal(I64_MAX, 0), BigDecimal(1, 0);
      NormalizedKeepsValue(value);
      MagnitudeCongruent(q.value, value);
      LessCongruent(top, Magnitude(q.value), top, Magnitude(value));
      LessCongruent(Magnitude(q.value), one, Magnitude(value), one);
    }
  }

  /** Every parsed quantity can be printed: its scale is at most nano and a binary amount is bounded. */
  lemma ParseValid(input: string)
    ensures Parse(input).Ok? ==> Valid(Parse(input).value) && IsNormal(Parse(input).value.value)
    ensures Parse(input).Ok? ==> Parse(input).value.value.scale <= NANO_DIGITS
  {
    if Parse(input).Ok? {
      var literal := ReadLiteral(input).value;
      FinishValid(Exact(literal), FormatOf(literal.unit));
    }
  }

  lemma FromIntegerValid(n: int)
    ensures Valid(FromInteger(n)) && NumEq(FromInteger(n).value, BigDecimal(n, 0))
  {
  }

  /**
   * The value of a parsed quantity is its literal's exact value, rounded away
   * from zero to nano precision and, for binary units, clamped to the signed
   * 64-bit magnitude with the sign kept.
   */
  lemma ParseMeaning(input: string, literal: Literal)
    requires Parse(input).Ok? && ReadLiteral(input) == Some(literal)
    ensures
      var q, rounded := Parse(input).value, RoundedUp(Exact(literal), NANO_DIGITS);
      && IsRoundedUp(Exact(literal), NANO_DIGITS, rounded)
      && (!literal.unit.Binary? ==> NumEq(q.value, rounded))
      && (literal.unit.Binary? ==>
        if Less(BigDecimal(I64_MAX, 0), Magnitude(rounded))
        then NumEq(q.value, BigDecimal(if Exact(literal).coefficient < 0 then -I64_MAX else I64_MAX, 0))
        else NumEq(q.value, rounded))
      && (literal.unit.Binary? && q.format.BinarySI? && IsInteger(q.value) ==> 1 <= Abs(IntegerValue(q.value)) <= I64_MAX)
  {
    var q := Parse(input).value;
    RoundedUpMeaning(Exact(literal), NANO_DIGITS);
    var rounded := RoundedUp(Exact(literal), NANO_DIGITS);
    NormalizedKeepsValue(rounded);
    NormalizedKeepsValue(Saturated(rounded));
    ParseValid(input);
    if literal.unit.Binary? && q.format.BinarySI? && IsInteger(q.value) {
      BinaryValueBounds(q);
    }
  }

  // ----- Reading printed text -----

  lemma Slices(a: string, b: string, c: string)
    ensures (a + b + c)[|a|..|a| + |b|] == b
    ensures (a + b + c)[|a| + |b|..] == c
  {
  }

  lemma NumberSpan(s: string, start: nat, end: nat)
    requires start < end <= |s| && SignEnd(s) == start
    requires forall i :: start <= i < end ==> IsDigit(s[i])
    requires end < |s| ==> !IsDigit(s[end]) && s[end] != '.'
    ensures DigitsEnd(s, start) == end && NumberEnd(s) == end
  {
    DigitsEndUnique(s, start, end);
  }

  lemma ConcatIndex(a: string, b: string, c: string)
    ensures var s := a + b + c;
      && |s| == |a| + |b| + |c|
      && (forall i :: 0 <= i < |a| ==> s[i] == a[i])
      && (forall i :: |a| <= i < |a| + |b| ==> s[i] == b[i - |a|])
      && (forall i :: |a| + |b| <= i < |s| ==> s[i] == c[i - |a| - |b|])
  {
  }

  lemma SplitText(sign: string, digits: string, suffix: string)
    requires sign == "" || sign == "-"
    requires digits != [] && AllDigits(digits)
    requires suffix != [] ==> !IsDigit(suffix[0]) && suffix[0] != '.'
    ensures var s, start, end := sign + digits + suffix, |sign|, |sign| + |digits|;
      && SignEnd(s) == start && DigitsEnd(s, start) == end && NumberEnd(s) == end
      && (s[0] == '-' <==> sign == "-")
  {
    ConcatIndex(sign, digits, suffix);
    NumberSpan(sign + digits + suffix, |sign|, |sign| + |digits|);
  }

  lemma ReadIntText(n: int, suffix: string)
    requires suffix != [] ==> !IsDigit(suffix[0]) && suffix[0] != '.'
    requires UnitOf(suffix).Some?
    ensures ReadLiteral(IntText(n) + suffix) == Some(Literal(BigDecimal(n, 0), UnitOf(suffix).value))
  {
    var sign, digits := if n < 0 then "-" else "", Numeral(Abs(n));
    assert IntText(n) == sign + digits;
    NumeralMeaning(Abs(n));
    SplitText(sign, digits, suffix);
    Slices(sign, digits, suffix);
    assert digits + [] == digits;
  }

  lemma SignedIntText(n: int)
    ensures SignedInt(IntText(n)) == Some(n)
  {
    var s := IntText(n);
    var digits := Numeral(Abs(n));
    NumeralMeaning(Abs(n));
    assert s[SignEnd(s)..] == digits;
  }

  lemma ExponentUnit(group: int)
    ensures UnitOf("e" + IntText(group)) == Some(Exponent(group))
  {
    SignedIntText(group);
    assert ("e" + IntText(group))[1..] == IntText(group);
  }

  lemma SiUnit(group: int)
    requires -9 <= group <= 18 && group % 3 == 0
    ensures UnitOf(SiSuffix(group)) == Some(Si(group))
  {
    assert group in {-9, -6, -3, 0, 3, 6, 9, 12, 15, 18};
  }

  lemma BinaryUnit(i: nat)
    requires i < |BINARY_FACTORS|
    ensures UnitOf(BinarySuffix(i)) == Some(Binary(BINARY_FACTORS[i]))
  {
    assert i in {0, 1, 2, 3, 4, 5};
  }

  /** The digits printed before a group denote the number at that group's scale. */
  lemma GroupedDigitsMeaning(n: BigDecimal) returns (m: int)
    requires n.coefficient != 0
    ensures GroupedDigits(n) == IntText(m)
    ensures NumEq(BigDecimal(m, -Group(TenPower(n))), n)
  {
    var zeros := TenPower(n) % 3;
    m := n.coefficient * Pow(10, zeros);
    GroupedText(n.coefficient, zeros);
    NumEqShift(n.coefficient, n.scale, zeros);
    assert n.scale + zeros == -Group(TenPower(n));
  }

  lemma TimesKeepsSign(c: int, p: nat)
    requires p > 0 && c != 0
    ensures c * p < 0 <==> c < 0
    ensures c * p != 0
  {
    if c < 0 {
      MulLess(c, 0, p);
    } else {
      MulNonNegative(c, p);
    }
    AbsTimes(c, p);
  }

  /** Appending zeros to a signed numeral multiplies by a power of ten. */
  lemma GroupedText(c: int, zeros: nat)
    requires c != 0
    ensures IntText(c) + Zeros(zeros) == IntText(c * Pow(10, zeros))
  {
    NumeralAppendZeros(Abs(c), zeros);
    AbsTimes(c, Pow(10, zeros));
    PowPositive(10, zeros);
    TimesKeepsSign(c, Pow(10, zeros));
    if c < 0 {
      assert "-" + Numeral(-c) + Zeros(zeros) == "-" + (Numeral(-c) + Zeros(zeros));
    }
  }

  function UnitPrinted(value: BigDecimal, format: Format): Unit
  {
    if value.coefficient == 0 then Si(0) else PrintedUnit(format, Group(TenPower(Normalized(value))))
  }

  lemma SuffixReads(unit: Unit)
    requires !unit.Binary?
    requires unit.Si? ==> -9 <= unit.exponent <= 18 && unit.exponent % 3 == 0
    ensures UnitOf(DecimalSuffix(unit)) == Some(unit)
    ensures DecimalSuffix(unit) != [] ==> !IsDigit(DecimalSuffix(unit)[0]) && DecimalSuffix(unit)[0] != '.'
  {
    match unit
    case Si(exponent) => SiUnit(exponent);
    case Exponent(exponent) => ExponentUnit(exponent);
  }

  lemma ReadPlainForm(m: int)
    ensures ReadLiteral(IntText(m)) == Some(Literal(BigDecimal(m, 0), Si(0)))
  {
    ReadIntText(m, "");
    assert IntText(m) + "" == IntText(m);
  }

  lemma ReadFormattedZero(value: BigDecimal, format: Format) returns (literal: Literal)
    requires value.coefficient == 0
    ensures ReadLiteral("0") == Some(literal)
    ensures literal == Literal(BigDecimal(0, 0), Si(0)) && NumEq(Exact(literal), value)
  {
    ReadPlainForm(0);
    literal := Literal(BigDecimal(0, 0), Si(0));
    NormalizedDecides(BigDecimal(0, 0), value);
  }

  lemma ExactIsValue(exact: BigDecimal, n: BigDecimal, value: BigDecimal)
    requires n == Normalized(value) && NumEq(exact, n)
    ensures NumEq(exact, value)
  {
    NormalizedKeepsValue(value);
    NumEqTransitive(exact, n, value);
  }

  lemma ReadFormattedText(value: BigDecimal, n: BigDecimal, m: int, format: Format) returns (literal: Literal)
    requires value.coefficient != 0 && n == Normalized(value) && n.scale <= NANO_DIGITS && GroupedDigits(n) == IntText(m)
    ensures ReadLiteral(FormatDecimal(value, format)) == Some(literal)
    ensures literal.unit == PrintedUnit(format, Group(TenPower(n))) && Exact(literal) == BigDecimal(m, -Group(TenPower(n)))
  {
    literal := ReadWithUnit(GroupedDigits(n), m, TenPower(n), format);
  }

  lemma ReadFormattedNonzero(value: BigDecimal, format: Format) returns (literal: Literal)
    requires value.coefficient != 0 && Normalized(value).scale <= NANO_DIGITS
    ensures ReadLiteral(FormatDecimal(value, format)) == Some(literal)
    ensures literal.unit == UnitPrinted(value, format)
    ensures NumEq(Exact(literal), value) && Exact(literal).scale <= NANO_DIGITS
  {
    var n := Normalized(value);
    var m := GroupedDigitsMeaning(n);
    literal := ReadFormattedText(value, n, m, format);
    GroupMultiple(TenPower(n));
    ExactIsValue(BigDecimal(m, -Group(TenPower(n))), n, value);
  }

  /** Grouped text reads back as the number it was printed from, unit and all. */
  lemma ReadFormatted(value: BigDecimal, format: Format) returns (literal: Literal)
    requires Normalized(value).scale <= NANO_DIGITS
    ensures ReadLiteral(FormatDecimal(value, format)) == Some(literal)
    ensures literal.unit == UnitPrinted(value, format)
    ensures NumEq(Exact(literal), value) && Exact(literal).scale <= NANO_DIGITS
  {
    if value.coefficient == 0 {
      literal := ReadFormattedZero(value, format);
    } else {
      literal := ReadFormattedNonzero(value, format);
    }
  }

  lemma ReadWithUnit(digits: string, m: int, exponent: int, format: Format) returns (literal: Literal)
    requires exponent >= -9 && digits == IntText(m)
    ensures literal == Literal(BigDecimal(m, 0), PrintedUnit(format, Group(exponent)))
    ensures ReadLiteral(WithUnit(digits, exponent, format)) == Some(literal)
    ensures Exact(literal) == BigDecimal(m, -Group(exponent))
  {
    GroupMultiple(exponent);
    var unit := PrintedUnit(format, Group(exponent));
    SuffixReads(unit);
    ReadIntText(m, DecimalSuffix(unit));
    literal := Literal(BigDecimal(m, 0), unit);
  }

  // ----- Canonical text decides equality -----

  /** Two quantities have the same canonical text exactly when they are the same number. */
  lemma CanonicalDecides(a: Quantity, b: Quantity)
    requires Valid(a) && Valid(b)
    ensures CanonicalDecimal(a) == CanonicalDecimal(b) <==> NumEq(a.value, b.value)
  {
    if CanonicalDecimal(a) == CanonicalDecimal(b) {
      SameTextSameNumber(a.value, b.value);
    }
    if NumEq(a.value, b.value) {
      SameNumberSameText(a.value, b.value, DecimalSI);
    }
  }

  lemma SameTextSameNumber(a: BigDecimal, b: BigDecimal)
    requires Normalized(a).scale <= NANO_DIGITS && Normalized(b).scale <= NANO_DIGITS
    requires FormatDecimal(a, DecimalSI) == FormatDecimal(b, DecimalSI)
    ensures NumEq(a, b)
  {
    var x := ReadFormatted(a, DecimalSI);
    var y := ReadFormatted(b, DecimalSI);
    NumEqTransitive(a, Exact(x), b);
  }

  lemma SameNumberSameText(a: BigDecimal, b: BigDecimal, format: Format)
    requires Normalized(a).scale <= NANO_DIGITS && Normalized(b).scale <= NANO_DIGITS && NumEq(a, b)
    ensures FormatDecimal(a, format) == FormatDecimal(b, format)
  {
    NormalizedDecides(a, b);
  }

  // ----- Print, then parse -----

  predicate PrintsBinary(q: Quantity)
  {
    q.format.BinarySI? && IsInteger(q.value) && BinaryIndex(IntegerValue(q.value), |BINARY_FACTORS|).Some?
  }

  /** The recomputed exponent stays within the 32 bits the parser accepts. */
  predicate PrintedExponentFits(q: Quantity)
  {
    PrintsBinary(q) || ExponentFits(UnitPrinted(q.value, q.format))
  }

  lemma FinishExactDecimal(exact: BigDecimal, format: Format)
    requires exact.scale <= NANO_DIGITS && format != BinarySI
    ensures Finish(exact, format) == Quantity(Normalized(exact), format)
  {
  }

  lemma PrintDependsOnValue(value: BigDecimal, format: Format)
    requires Normalized(value).scale <= NANO_DIGITS
    ensures FormatDecimal(Normalized(value), FormatOf(UnitPrinted(value, format))) == FormatDecimal(value, format)
  {
    assert Normalized(Normalized(value)) == Normalized(value);
  }

  lemma RoundTripDecimal(q: Quantity)
    requires Valid(q) && !PrintsBinary(q)
    ensures Parse(Print(q)).Ok? <==> ExponentFits(UnitPrinted(q.value, q.format))
    ensures Parse(Print(q)).Ok? ==> Parse(Print(q)).value == Quantity(Normalized(q.value), FormatOf(UnitPrinted(q.value, q.format)))
  {
    var literal := ReadFormatted(q.value, q.format);
    assert Print(q) == FormatDecimal(q.value, q.format);
    if ExponentFits(literal.unit) {
      FinishExactDecimal(Exact(literal), FormatOf(literal.unit));
      NormalizedDecides(Exact(literal), q.value);
    }
  }

  lemma FinishBinaryInteger(n: int, q: Quantity)
    requires Valid(q) && q.format.BinarySI? && NumEq(BigDecimal(n, 0), q.value)
    ensures Finish(BigDecimal(n, 0), BinarySI) == q
  {
    var d, top, one := BigDecimal(n, 0), BigDecimal(I64_MAX, 0), BigDecimal(1, 0);
    NormalizedDecides(d, q.value);
    MagnitudeCongruent(d, q.value);
    LessCongruent(top, Magnitude(d), top, Magnitude(q.value));
    LessCongruent(Magnitude(d), one, Magnitude(q.value), one);
  }

  lemma ReadBinaryForm(m: int, i: nat)
    requires i < |BINARY_FACTORS|
    ensures ReadLiteral(IntText(m) + BinarySuffix(i)) == Some(Literal(BigDecimal(m, 0), Binary(BINARY_FACTORS[i])))
  {
    BinaryUnit(i);
    var suffix := BinarySuffix(i);
    assert suffix != [] && !IsDigit(suffix[0]) && suffix[0] != '.';
    ReadIntText(m, suffix);
  }

  lemma ExactDivision(n: int, factor: nat)
    requires factor >= 1 && n % factor == 0
    ensures (n / factor) * factor == n
  {
  }

  lemma RoundTripBinary(q: Quantity)
    requires Valid(q) && PrintsBinary(q)
    ensures Parse(Print(q)) == Ok(q)
  {
    var n := IntegerValue(q.value);
    var i := BinaryIndex(n, |BINARY_FACTORS|).value;
    var factor := BINARY_FACTORS[i];
    ReadBinaryForm(n / factor, i);
    ExactDivision(n, factor);
    IntegerValueExact(q.value);
    FinishBinaryInteger(n, q);
  }

  /**
   * Printed text re-parses exactly when its recomputed exponent fits 32 bits;
   * then it denotes the same number, and prints as the same text again.
   */
  lemma RoundTrip(q: Quantity)
    requires Valid(q)
    ensures Parse(Print(q)).Ok? <==> PrintedExponentFits(q)
    ensures PrintedExponentFits(q) ==>
      var again := Parse(Print(q)).value;
      Valid(again) && NumEq(again.value, q.value) && Print(again) == Print(q)
  {
    if PrintsBinary(q) {
      RoundTripBinary(q);
    } else {
      RoundTripDecimal(q);
      if PrintedExponentFits(q) {
        ParseValid(Print(q));
        NormalizedKeepsValue(q.value);
        PrintDependsOnValue(q.value, q.format);
      }
    }
  }

  /** Grouping can push an accepted exponent past 32 bits: 10000e2147483647 prints as 100e2147483649. */
  lemma AcceptedButNotReprintable() returns (q: Quantity)
    ensures Parse(IntText(10000) + ("e" + IntText(I32_MAX))) == Ok(q)
    ensures Valid(q) && Print(q) == IntText(100) + ("e" + IntText(2147483649))
    ensures Parse(Print(q)).Err?
  {
    SuffixReads(Exponent(I32_MAX));
    ReadIntText(10000, DecimalSuffix(Exponent(I32_MAX)));
    var exact := BigDecimal(10000, -I32_MAX);
    NormalizeTenThousand(-I32_MAX);
    q := Quantity(BigDecimal(1, -2147483651), DecimalExponent);
    FinishExactDecimal(exact, DecimalExponent);
    FinishValid(exact, DecimalExponent);
    OneHundred();
    PrintsAsExponent(q.value);
    RoundTripDecimal(q);
  }

  lemma PrintsAsExponent(value: BigDecimal)
    requires IsNormal(value) && value.coefficient != 0 && value.scale <= NANO_DIGITS && Group(TenPower(value)) != 0
    ensures Print(Quantity(value, DecimalExponent)) == GroupedDigits(value) + DecimalSuffix(Exponent(Group(TenPower(value))))
  {
  }

  lemma OneHundred()
    ensures GroupedDigits(BigDecimal(1, -2147483651)) == IntText(100)
    ensures Group(2147483651) == 2147483649
  {
    NumeralAppendZeros(1, 2);
    assert Pow(10, 2) == 100;
  }

  lemma NormalizeTenThousand(scale: int)
    ensures Normalized(BigDecimal(10000, scale)) == BigDecimal(1, scale - 4)
  {
    assert Normalized(BigDecimal(10, scale - 3)) == BigDecimal(1, scale - 4);
    assert Normalized(BigDecimal(1000, scale - 1)) == Normalized(BigDecimal(100, scale - 2));
  }

  // ----- The spelling quotient used when comparing stored objects -----

  /** Parseable text is replaced by its canonical text; other text is kept. */
  function CanonicalText(s: string): string
  {
    match Parse(s)
    case Ok(q) =>
      ParseValid(s);
      CanonicalDecimal(q)
    case Err(_) => s
  }

  predicate SameAmount(s: string, t: string)
  {
    s == t || (Parse(s).Ok? && Parse(t).Ok? && NumEq(Parse(s).value.value, Parse(t).value.value))
  }

  /** On parseable text the quotient identifies spellings of one number and nothing else. */
  lemma CanonicalTextDecides(s: string, t: string)
    ensures SameAmount(s, t) ==> CanonicalText(s) == CanonicalText(t)
    ensures Parse(s).Ok? && Parse(t).Ok? && CanonicalText(s) == CanonicalText(t) ==> SameAmount(s, t)
  {
    ParseValid(s);
    ParseValid(t);
    if Parse(s).Ok? && Parse(t).Ok? {
      CanonicalDecides(Parse(s).value, Parse(t).value);
    }
  }
}
