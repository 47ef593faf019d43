/** What a quantity's text says, digit by digit and unit by unit, read and printed. */
module QuantityText {
  import opened Wrappers
  import opened Text
  import opened Decimal
  import opened Quantity
  import opened QuantityLaws

  /** The units from nano to exa, each a thousand times the one before. */
  const DECIMAL_UNITS: seq<string> := ["n", "u", "m", "", "k", "M", "G", "T", "P", "E"]
  /** The units from kibi to exbi, each 1024 times the one before. */
  const BINARY_UNITS: seq<string> := ["Ki", "Mi", "Gi", "Ti", "Pi", "Ei"]

  // ----- The unit -----

  /** The empty unit is one, and each decimal unit is 10^3 times its predecessor. */
  lemma DecimalLadder(i: nat)
    requires i < |DECIMAL_UNITS|
    ensures UnitOf(DECIMAL_UNITS[i]) == Some(Si(3 * i - 9))
  {
    assert i in {0, 1, 2, 3, 4, 5, 6, 7, 8, 9};
  }

  lemma BinaryLadder(i: nat)
    requires i < |BINARY_UNITS|
    ensures UnitOf(BINARY_UNITS[i]) == Some(Binary(Pow(1024, i + 1)))
  {
    assert Pow(1024, 1) == 1024 && Pow(1024, 2) == 1024 * Pow(1024, 1) && Pow(1024, 3) == 1024 * Pow(1024, 2);
    assert Pow(1024, 4) == 1024 * Pow(1024, 3) && Pow(1024, 5) == 1024 * Pow(1024, 4) && Pow(1024, 6) == 1024 * Pow(1024, 5);
    assert i in {0, 1, 2, 3, 4, 5};
  }

  predicate IsSign(sign: string)
  {
    sign == "" || sign == "+" || sign == "-"
  }

  function Signed(sign: string, n: nat): int
  {
    if sign == "-" then 0 - n else n
  }

  /** `e` or `E` and a signed whole number is that power of ten. */
  lemma ExponentReads(mark: char, sign: string, digits: string)
    requires (mark == 'e' || mark == 'E') && IsSign(sign) && digits != [] && AllDigits(digits)
    ensures UnitOf([mark] + (sign + digits)) == Some(Exponent(Signed(sign, NumeralValue(digits))))
  {
    var t := sign + digits;
    assert sign == "" ==> t == digits && IsDigit(digits[0]);
    assert t[SignEnd(t)..] == digits;
    var s := [mark] + t;
    assert s[1..] == t && |s| >= 2 && s[1] == t[0];
    assert !IsDigit('i') && t[0] != 'i';
  }

  lemma DecimalIsListed(prefix: char) returns (i: nat)
    requires SiExponent(prefix).Some?
    ensures i < |DECIMAL_UNITS| && DECIMAL_UNITS[i] == [prefix]
  {
    i := SiExponent(prefix).value / 3 + 3;
  }

  lemma BinaryIsListed(prefix: char) returns (i: nat)
    requires BinaryFactorOf(prefix).Some?
    ensures i < |BINARY_UNITS| && BINARY_UNITS[i] == [prefix, 'i']
  {
    i := if prefix == 'K' then 0 else if prefix == 'M' then 1 else if prefix == 'G' then 2
         else if prefix == 'T' then 3 else if prefix == 'P' then 4 else 5;
  }

  lemma ExponentIsListed(suffix: string)
    requires |suffix| > 0 && (suffix[0] == 'e' || suffix[0] == 'E') && SignedInt(suffix[1..]).Some?
    ensures IsExponent(suffix)
  {
    var t := suffix[1..];
    assert suffix == [suffix[0]] + (t[..SignEnd(t)] + t[SignEnd(t)..]);
    assert IsExponentOf(suffix, suffix[0], t[..SignEnd(t)], t[SignEnd(t)..]);
  }

  /** There are no other units. */
  lemma UnitIsListed(suffix: string)
    requires UnitOf(suffix).Some?
    ensures suffix in DECIMAL_UNITS || suffix in BINARY_UNITS || IsExponent(suffix)
  {
    if suffix == "" {
      assert DECIMAL_UNITS[3] == suffix;
    } else if |suffix| == 1 && SiExponent(suffix[0]).Some? {
      var i := DecimalIsListed(suffix[0]);
      assert suffix == [suffix[0]];
    } else if |suffix| == 2 && suffix[1] == 'i' && BinaryFactorOf(suffix[0]).Some? {
      var i := BinaryIsListed(suffix[0]);
      assert suffix == [suffix[0], 'i'];
    } else {
      ExponentIsListed(suffix);
    }
  }

  predicate IsExponentOf(suffix: string, mark: char, sign: string, digits: string)
  {
    (mark == 'e' || mark == 'E') && IsSign(sign) && digits != [] && AllDigits(digits) && suffix == [mark] + (sign + digits)
  }

  ghost predicate IsExponent(suffix: string)
  {
    exists mark, sign, digits :: IsExponentOf(suffix, mark, sign, digits)
  }

  // ----- The numeral -----

  /** A quantity's text, taken apart. */
  datatype Parts = Parts(sign: string, whole: string, point: bool, fraction: string, suffix: string)

  predicate Shaped(p: Parts)
  {
    && IsSign(p.sign) && AllDigits(p.whole) && AllDigits(p.fraction) && |p.whole| + |p.fraction| > 0
    && (!p.point ==> p.fraction == "")
  }

  function Middle(p: Parts): string
  {
    if p.point then "." + p.fraction else ""
  }

  function Spelled(p: Parts): string
  {
    p.sign + (p.whole + (Middle(p) + p.suffix))
  }

  /** The digits with the fraction's share: what stands over 10 to the number of fraction digits. */
  function Numerator(p: Parts): int
    requires Shaped(p)
  {
    Signed(p.sign, NumeralValue(p.whole) * Pow(10, |p.fraction|) + NumeralValue(p.fraction))
  }

  lemma {:induction false} NumeralConcat(a: string, b: string)
    requires AllDigits(a) && AllDigits(b)
    ensures AllDigits(a + b) && NumeralValue(a + b) == NumeralValue(a) * Pow(10, |b|) + NumeralValue(b)
  {
    if b == [] {
      assert a + b == a;
    } else {
      var n := |b| - 1;
      NumeralConcat(a, b[..n]);
      assert (a + b)[..|a + b| - 1] == a + b[..n];
      MulSwap(NumeralValue(a), Pow(10, n));
    }
  }

  lemma SuffixStart(suffix: string)
    requires UnitOf(suffix).Some?
    ensures suffix != [] ==> !IsDigit(suffix[0]) && suffix[0] != '.'
  {
  }

  /** What starts at a place is first one text, then the other. */
  lemma Peel(s: string, at: nat, x: string, y: string)
    requires at <= |s| && s[at..] == x + y
    ensures at + |x| + |y| == |s| && s[at..at + |x|] == x && s[at + |x|..] == y
  {
    assert |s[at..]| == |s| - at;
    assert s[at..at + |x|] == s[at..][..|x|];
    assert s[at + |x|..] == s[at..][|x|..];
  }

  function DotAt(p: Parts): nat { |p.sign| + |p.whole| }

  function EndAt(p: Parts): nat { DotAt(p) + |Middle(p)| }

  /** Where the parts stand in a text. */
  predicate Places(s: string, p: Parts)
  {
    && |s| == EndAt(p) + |p.suffix|
    && s[..|p.sign|] == p.sign && s[|p.sign|..DotAt(p)] == p.whole && s[DotAt(p)..EndAt(p)] == Middle(p) && s[EndAt(p)..] == p.suffix
  }

  lemma FourParts(s: string, a: string, b: string, c: string, d: string)
    requires s == a + (b + (c + d))
    ensures |s| == |a| + |b| + |c| + |d| && s[..|a|] == a && s[|a|..|a| + |b|] == b
    ensures s[|a| + |b|..|a| + |b| + |c|] == c && s[|a| + |b| + |c|..] == d
  {
    var cd := c + d;
    var bcd := b + cd;
    assert s[0..] == s;
    Peel(s, 0, a, bcd);
    Peel(s, |a|, b, cd);
    Peel(s, |a| + |b|, c, d);
    assert s[0..|a|] == s[..|a|];
  }

  lemma Pieces(p: Parts)
    ensures Places(Spelled(p), p)
  {
    FourParts(Spelled(p), p.sign, p.whole, Middle(p), p.suffix);
  }

  lemma DigitsWithin(s: string, from: nat, to: nat)
    requires from <= to <= |s| && AllDigits(s[from..to])
    ensures forall i :: from <= i < to ==> IsDigit(s[i])
  {
    forall i | from <= i < to
      ensures IsDigit(s[i])
    {
      assert s[from..to][i - from] == s[i];
    }
  }

  lemma StartOf(s: string, at: nat, rest: string)
    requires at <= |s| && s[at..] == rest
    ensures at < |s| <==> rest != []
    ensures rest != [] ==> s[at] == rest[0]
  {
  }

  lemma PointScanned(s: string, dot: nat, fraction: string)
    requires dot + 1 + |fraction| <= |s| && s[dot..dot + 1 + |fraction|] == "." + fraction
    ensures s[dot] == '.' && s[dot + 1..dot + 1 + |fraction|] == fraction
  {
    var part := s[dot..dot + 1 + |fraction|];
    assert part[0] == '.' && part[1..] == fraction;
  }

  lemma FirstOf(s: string, from: nat, to: nat, part: string)
    requires from < to <= |s| && s[from..to] == part
    ensures s[from] == part[0]
  {
  }

  /** The sign is read off the front, and not from the digits or the point. */
  lemma SignScanned(s: string, p: Parts)
    requires Shaped(p) && Places(s, p)
    ensures s != "" && SignEnd(s) == |p.sign| && (s[0] == '-' <==> p.sign == "-")
  {
    if p.sign != "" {
      assert s[..1] == s[0..1];
      FirstOf(s, 0, 1, p.sign);
    } else if p.whole != "" {
      FirstOf(s, 0, |p.whole|, p.whole);
    } else {
      FirstOf(s, 0, |Middle(p)|, Middle(p));
    }
  }

  /** Digits from one place on, up to something else. */
  lemma RunScanned(s: string, from: nat, to: nat, digits: string)
    requires from <= to <= |s| && s[from..to] == digits && AllDigits(digits) && (to < |s| ==> !IsDigit(s[to]))
    ensures DigitsEnd(s, from) == to
  {
    DigitsWithin(s, from, to);
    DigitsEndUnique(s, from, to);
  }

  lemma WholeScanned(s: string, p: Parts)
    requires Shaped(p) && Places(s, p) && UnitOf(p.suffix).Some?
    ensures DigitsEnd(s, |p.sign|) == DotAt(p)
    ensures if p.point then s[DotAt(p)] == '.' else DotAt(p) < |s| ==> s[DotAt(p)] != '.'
  {
    SuffixStart(p.suffix);
    if p.point {
      FirstOf(s, DotAt(p), EndAt(p), Middle(p));
    } else {
      StartOf(s, DotAt(p), p.suffix);
    }
    RunScanned(s, |p.sign|, DotAt(p), p.whole);
  }

  lemma FractionScanned(s: string, p: Parts)
    requires Shaped(p) && Places(s, p) && UnitOf(p.suffix).Some? && p.point
    ensures DigitsEnd(s, DotAt(p) + 1) == EndAt(p) && s[DotAt(p) + 1..EndAt(p)] == p.fraction
  {
    SuffixStart(p.suffix);
    PointScanned(s, DotAt(p), p.fraction);
    StartOf(s, EndAt(p), p.suffix);
    RunScanned(s, DotAt(p) + 1, EndAt(p), p.fraction);
  }

  /** Where the scan stops. */
  lemma Scanned(s: string, p: Parts)
    requires Shaped(p) && Places(s, p) && UnitOf(p.suffix).Some?
    ensures SignEnd(s) == |p.sign| && DigitsEnd(s, |p.sign|) == DotAt(p) && NumberEnd(s) == EndAt(p)
  {
    SignScanned(s, p);
    WholeScanned(s, p);
    if p.point {
      FractionScanned(s, p);
    }
  }

  lemma NumberRead(s: string, p: Parts)
    requires Shaped(p) && Places(s, p) && UnitOf(p.suffix).Some?
    ensures AllDigits(s[|p.sign|..DotAt(p)]) && (EndAt(p) > DotAt(p) ==> AllDigits(s[DotAt(p) + 1..EndAt(p)]))
    ensures ReadNumber(s, |p.sign|, DotAt(p), EndAt(p)) == BigDecimal(Numerator(p), |p.fraction|)
  {
    SignScanned(s, p);
    if p.point {
      FractionScanned(s, p);
    }
    NumeralConcat(p.whole, p.fraction);
    assert p.whole + [] == p.whole;
  }

  /** Text with a sign, digits, an optional point with further digits, and a unit is the number those digits say, in that unit. */
  lemma TextDenotes(s: string, p: Parts)
    requires Shaped(p) && Places(s, p) && UnitOf(p.suffix).Some?
    ensures ReadLiteral(s) == Some(Literal(BigDecimal(Numerator(p), |p.fraction|), UnitOf(p.suffix).value))
  {
    Scanned(s, p);
    NumberRead(s, p);
  }

  /** Nothing else is read as a quantity. */
  lemma ReadTextIsSpelled(input: string) returns (p: Parts)
    requires ReadLiteral(input).Some?
    ensures Shaped(p) && Spelled(p) == input && Places(input, p) && UnitOf(p.suffix).Some?
  {
    var start := SignEnd(input);
    var dot := DigitsEnd(input, start);
    var end := NumberEnd(input);
    FourPieces(input, start, dot, end);
    if end > dot {
      p := Parts(input[..start], input[start..dot], true, input[dot + 1..end], input[end..]);
      OnePoint(input, dot, end);
    } else {
      p := Parts(input[..start], input[start..dot], false, "", input[end..]);
    }
    PartsAre(input, start, dot, end, p);
  }

  lemma PartsAre(s: string, start: nat, dot: nat, end: nat, p: Parts)
    requires start <= dot <= end <= |s| && p.sign == s[..start] && p.whole == s[start..dot] && Middle(p) == s[dot..end] && p.suffix == s[end..]
    ensures Places(s, p)
  {
  }

  lemma OnePoint(s: string, dot: nat, end: nat)
    requires dot < end <= |s| && s[dot] == '.'
    ensures s[dot..end] == "." + s[dot + 1..end]
  {
  }

  lemma JoinSlices(s: string, i: nat, j: nat)
    requires i <= j <= |s|
    ensures s[i..j] + s[j..] == s[i..]
  {
  }

  lemma FourPieces(s: string, start: nat, dot: nat, end: nat)
    requires start <= dot <= end <= |s|
    ensures s == s[..start] + (s[start..dot] + (s[dot..end] + s[end..]))
  {
    JoinSlices(s, dot, end);
    JoinSlices(s, start, dot);
    JoinSlices(s, 0, start);
    assert s[0..start] == s[..start] && s[0..] == s;
  }

  // ----- The parsed number -----

  /** The number said: numerator over a power of ten, times the unit. */
  function Said(p: Parts): BigDecimal
    requires Shaped(p) && UnitOf(p.suffix).Some?
  {
    match UnitOf(p.suffix).value
    case Si(exponent) => BigDecimal(Numerator(p), |p.fraction| - exponent)
    case Exponent(exponent) => BigDecimal(Numerator(p), |p.fraction| - exponent)
    case Binary(factor) => BigDecimal(Numerator(p) * factor, |p.fraction|)
  }

  predicate Above(d: BigDecimal, limit: nat)
  {
    Abs(Scaled(d, Max(d.scale, 0))) > limit * Pow(10, Max(d.scale, 0))
  }

  predicate Below(d: BigDecimal, limit: nat)
  {
    Abs(Scaled(d, Max(d.scale, 0))) < limit * Pow(10, Max(d.scale, 0))
  }

  lemma AboveIsLess(d: BigDecimal, limit: nat)
    ensures Above(d, limit) <==> Less(BigDecimal(limit, 0), Magnitude(d))
    ensures Below(d, limit) <==> Less(Magnitude(d), BigDecimal(limit, 0))
  {
    AbsTimes(d.coefficient, Pow(10, Max(d.scale, 0) - d.scale));
    assert Max(0, d.scale) == Max(d.scale, 0);
  }

  lemma ParseIsFinish(s: string, p: Parts)
    requires Shaped(p) && Places(s, p) && UnitOf(p.suffix).Some?
    ensures Parse(s).Ok? <==> ExponentFits(UnitOf(p.suffix).value)
    ensures Parse(s).Ok? ==> Parse(s).value == Finish(Said(p), FormatOf(UnitOf(p.suffix).value))
  {
    SaidIsExact(p);
    TextDenotes(s, p);
    ParseOf(s, LiteralOf(p));
  }

  function LiteralOf(p: Parts): Literal
    requires Shaped(p) && UnitOf(p.suffix).Some?
  {
    Literal(BigDecimal(Numerator(p), |p.fraction|), UnitOf(p.suffix).value)
  }

  lemma SaidIsExact(p: Parts)
    requires Shaped(p) && UnitOf(p.suffix).Some?
    ensures Exact(LiteralOf(p)) == Said(p)
  {
  }

  lemma ParseOf(s: string, literal: Literal)
    requires ReadLiteral(s) == Some(literal)
    ensures Parse(s).Ok? <==> ExponentFits(literal.unit)
    ensures Parse(s).Ok? ==> Parse(s).value == Finish(Exact(literal), FormatOf(literal.unit))
  {
  }

  /**
   * Every text of that shape, and no other, is accepted, unless its exponent
   * needs more than 32 bits. Its value is the number said, rounded away from
   * zero to a billionth; binary amounts are kept within 64 bits, and those
   * below one count as decimal.
   */
  lemma ParsedMeaning(s: string, p: Parts) returns (rounded: BigDecimal)
    requires Shaped(p) && Places(s, p) && UnitOf(p.suffix).Some?
    ensures Parse(s).Ok? <==> (UnitOf(p.suffix).value.Exponent? ==> -2147483648 <= UnitOf(p.suffix).value.exponent <= 2147483647)
    ensures IsRoundedUp(Said(p), 9, rounded)
    ensures Parse(s).Ok? && !UnitOf(p.suffix).value.Binary? ==>
      && NumEq(Parse(s).value.value, rounded)
      && Parse(s).value.format == if UnitOf(p.suffix).value.Exponent? then DecimalExponent else DecimalSI
    ensures Parse(s).Ok? && UnitOf(p.suffix).value.Binary? ==>
      && NumEq(Parse(s).value.value,
               if Above(rounded, 9223372036854775807) then BigDecimal(Signed(p.sign, 9223372036854775807), 0) else rounded)
      && Parse(s).value.format == if Below(rounded, 1) then DecimalSI else BinarySI
  {
    ParseIsFinish(s, p);
    rounded := RoundedUp(Said(p), NANO_DIGITS);
    RoundedUpMeaning(Said(p), NANO_DIGITS);
    NormalizedKeepsValue(rounded);
    NormalizedKeepsValue(Saturated(rounded));
    if UnitOf(p.suffix).value.Binary? {
      ClampedMeaning(p, rounded);
    }
  }

  lemma ClampedMeaning(p: Parts, rounded: BigDecimal)
    requires Shaped(p) && UnitOf(p.suffix).Some? && UnitOf(p.suffix).value.Binary? && rounded == RoundedUp(Said(p), NANO_DIGITS)
    ensures Above(rounded, I64_MAX) ==> Saturated(rounded) == BigDecimal(Signed(p.sign, I64_MAX), 0)
    ensures !Above(rounded, I64_MAX) ==> Saturated(rounded) == rounded
    ensures Less(Magnitude(Saturated(rounded)), BigDecimal(1, 0)) <==> Below(rounded, 1)
  {
    AboveIsLess(rounded, I64_MAX);
    AboveIsLess(rounded, 1);
    RoundedUpMeaning(Said(p), NANO_DIGITS);
    if Above(rounded, I64_MAX) {
      var top := BigDecimal(I64_MAX, 0);
      assert Magnitude(Saturated(rounded)) == top;
      assert Scaled(top, 0) == I64_MAX * Pow(10, 0) && Scaled(BigDecimal(1, 0), 0) == 1 * Pow(10, 0);
      PowPositive(10, Max(rounded.scale, 0));
      MulLess(1, I64_MAX, Pow(10, Max(rounded.scale, 0)));
      SignKept(p, rounded);
    }
  }

  /** A number that is not zero is negative exactly when its text has a minus. */
  lemma SignKept(p: Parts, rounded: BigDecimal)
    requires Shaped(p) && UnitOf(p.suffix).Some? && UnitOf(p.suffix).value.Binary? && rounded == RoundedUp(Said(p), NANO_DIGITS)
    requires Above(rounded, I64_MAX)
    ensures rounded.coefficient < 0 <==> p.sign == "-"
  {
    RoundedUpMeaning(Said(p), NANO_DIGITS);
    var n := NumeralValue(p.whole) * Pow(10, |p.fraction|) + NumeralValue(p.fraction);
    MulNonNegative(NumeralValue(p.whole), Pow(10, |p.fraction|));
    var factor := UnitOf(p.suffix).value.factor;
    AbsTimes(Numerator(p), factor);
    assert Scaled(BigDecimal(0, rounded.scale), Max(rounded.scale, 0)) == 0;
    MulNonNegative(n, factor);
    assert p.sign == "-" ==> Said(p).coefficient == -n * factor == -(n * factor);
  }

  /** A decimal amount of at most nine places is taken as it is said. */
  lemma ParsedExactly(s: string, p: Parts)
    requires Shaped(p) && Places(s, p) && UnitOf(p.suffix).Some? && UnitOf(p.suffix).value.Si? && Said(p).scale <= 9
    ensures Parse(s).Ok? && NumEq(Parse(s).value.value, Said(p))
  {
    ParseIsFinish(s, p);
    NormalizedKeepsValue(Said(p));
  }

  /** A unit of the tables, or a power of ten of at most 32 bits. */
  ghost predicate KnownUnit(suffix: string)
  {
    || suffix in DECIMAL_UNITS || suffix in BINARY_UNITS
    || exists mark, sign, digits :: IsExponentOf(suffix, mark, sign, digits) && -2147483648 <= Signed(sign, NumeralValue(digits)) <= 2147483647
  }

  lemma KnownUnitReads(suffix: string)
    ensures KnownUnit(suffix) <==> UnitOf(suffix).Some? && ExponentFits(UnitOf(suffix).value)
  {
    forall mark, sign, digits | IsExponentOf(suffix, mark, sign, digits)
      ensures UnitOf(suffix) == Some(Exponent(Signed(sign, NumeralValue(digits))))
    {
      ExponentReads(mark, sign, digits);
    }
    forall i: nat | i < |DECIMAL_UNITS|
      ensures UnitOf(DECIMAL_UNITS[i]) == Some(Si(3 * i - 9))
    {
      DecimalLadder(i);
    }
    forall i: nat | i < |BINARY_UNITS|
      ensures UnitOf(BINARY_UNITS[i]) == Some(Binary(Pow(1024, i + 1)))
    {
      BinaryLadder(i);
    }
    if UnitOf(suffix).Some? {
      UnitIsListed(suffix);
    }
  }

  /** A sign, digits around an optional point, and a known unit: that is the whole grammar. */
  lemma AcceptedExactly(input: string)
    ensures Parse(input).Ok? <==> exists p :: Shaped(p) && Places(input, p) && KnownUnit(p.suffix)
  {
    if Parse(input).Ok? {
      var p := ReadTextIsSpelled(input);
      ParseIsFinish(input, p);
      KnownUnitReads(p.suffix);
    }
    forall p | Shaped(p) && Places(input, p) && KnownUnit(p.suffix)
      ensures Parse(input).Ok?
    {
      KnownUnitReads(p.suffix);
      ParseIsFinish(input, p);
    }
  }

  function Half(): Parts { Parts("", "0", true, "5", "") }

  function FiveHundredMilli(): Parts { Parts("", "500", false, "", "m") }

  lemma HalfIsSaid()
    ensures Shaped(Half()) && Spelled(Half()) == "0.5"
    ensures UnitOf("") == Some(Si(0)) && Numerator(Half()) == 5
  {
    assert "5"[..0] == "" && "0"[..0] == "";
    assert NumeralValue("5") == 5 && NumeralValue("0") == 0;
  }

  lemma FiveHundredMilliIsSaid()
    ensures Shaped(FiveHundredMilli()) && Spelled(FiveHundredMilli()) == "500m"
    ensures UnitOf("m") == Some(Si(-3)) && Numerator(FiveHundredMilli()) == 500
  {
    assert AllDigits("50") && AllDigits("5");
    assert "500"[..2] == "50" && "50"[..1] == "5" && "5"[..0] == "";
    assert NumeralValue("5") == 5;
    assert NumeralValue("50") == 50;
    assert NumeralValue("") == 0 && Pow(10, 0) == 1;
  }

  lemma FiveHundredThousandths()
    ensures NumEq(BigDecimal(500, 3), BigDecimal(5, 1))
  {
    NumEqShift(5, 1, 2);
    assert Pow(10, 1) == 10 && Pow(10, 2) == 100;
  }

  lemma HalfParses()
    ensures Parse("0.5").Ok? && NumEq(Parse("0.5").value.value, BigDecimal(5, 1))
  {
    HalfIsSaid();
    Pieces(Half());
    ParsedExactly("0.5", Half());
  }

  lemma FiveHundredMilliParses()
    ensures Parse("500m").Ok? && NumEq(Parse("500m").value.value, BigDecimal(500, 3))
  {
    FiveHundredMilliIsSaid();
    Pieces(FiveHundredMilli());
    ParsedExactly("500m", FiveHundredMilli());
  }

  /** One half, as the documentation writes it. */
  lemma HalfIsFiveHundredMilli()
    ensures Parse("0.5").Ok? && NumEq(Parse("0.5").value.value, BigDecimal(5, 1))
    ensures Parse("500m").Ok? && NumEq(Parse("500m").value.value, BigDecimal(5, 1))
  {
    HalfParses();
    FiveHundredMilliParses();
    FiveHundredThousandths();
    NumEqTransitive(Parse("500m").value.value, BigDecimal(500, 3), BigDecimal(5, 1));
  }

  // ----- The printed text -----

  /** The unit written after the digits of a decimal number, for a power of ten that is a multiple of three. */
  function UnitText(format: Format, group: int): string
    requires group % 3 == 0 && group >= -9
  {
    if group == 0 then ""
    else if format.DecimalExponent? || group > 18 then "e" + IntText(group)
    else DECIMAL_UNITS[group / 3 + 3]
  }

  /** Digits that are not a multiple of a thousand, before a power of a thousand. */
  predicate IsGrouped(value: BigDecimal, format: Format, text: string, m: int, group: int)
  {
    && group % 3 == 0 && group >= -9 && m % 1000 != 0 && NumEq(BigDecimal(m, -group), value)
    && text == IntText(m) + UnitText(format, group)
  }

  lemma SuffixText(format: Format, group: int)
    requires group % 3 == 0 && group >= -9
    ensures DecimalSuffix(PrintedUnit(format, group)) == UnitText(format, group)
  {
    if group <= 18 {
      assert group in {-9, -6, -3, 0, 3, 6, 9, 12, 15, 18};
    }
  }

  lemma NotThousands(c: int, zeros: nat)
    requires c % 10 != 0 && zeros < 3
    ensures (c * Pow(10, zeros)) % 1000 != 0
  {
    assert Pow(10, 0) == 1 && Pow(10, 1) == 10 && Pow(10, 2) == 100;
    TenNotThousand(c);
  }

  lemma TenNotThousand(c: int)
    requires c % 10 != 0
    ensures c % 1000 != 0 && (c * 10) % 1000 != 0 && (c * 100) % 1000 != 0
  {
    var x, y, z := c / 1000, (c * 10) / 1000, (c * 100) / 1000;
    assert c == 1000 * x ==> c == 10 * (100 * x);
    assert c * 10 == 1000 * y ==> c == 10 * (10 * y);
    assert c * 100 == 1000 * z ==> c == 10 * z;
  }

  /** Decimal printing: zero is "0"; any other number has its thousands moved into the unit. */
  lemma DecimalForm(value: BigDecimal, format: Format) returns (m: int, group: int)
    requires Normalized(value).scale <= NANO_DIGITS
    ensures value.coefficient == 0 ==> FormatDecimal(value, format) == "0"
    ensures value.coefficient != 0 ==> IsGrouped(value, format, FormatDecimal(value, format), m, group)
  {
    m, group := 0, 0;
    if value.coefficient != 0 {
      var n := Normalized(value);
      group := Group(TenPower(n));
      GroupMultiple(TenPower(n));
      var zeros := TenPower(n) % 3;
      m := n.coefficient * Pow(10, zeros);
      GroupedText(n.coefficient, zeros);
      NumEqShift(n.coefficient, n.scale, zeros);
      assert n.scale + zeros == -group;
      NotThousands(n.coefficient, zeros);
      SuffixText(format, group);
      ExactIsValue(BigDecimal(m, -group), n, value);
    }
  }

  /** The size of a binary unit: 1024 to its position. */
  function UnitSize(i: nat): (size: nat)
    ensures size >= 1
  {
    PowPositive(1024, i + 1);
    Pow(1024, i + 1)
  }

  /** `i` is the largest binary unit that divides `n`. */
  predicate LargestUnit(n: int, i: nat)
  {
    i < |BINARY_UNITS| && n % UnitSize(i) == 0 && forall j :: i < j < |BINARY_UNITS| ==> n % UnitSize(j) != 0
  }

  lemma UnitSizes(i: nat)
    requires i < |BINARY_UNITS|
    ensures UnitSize(i) == BINARY_FACTORS[i] && BinarySuffix(i) == BINARY_UNITS[i]
  {
    BinaryLadder(i);
    BinaryUnit(i);
    assert i in {0, 1, 2, 3, 4, 5};
  }

  lemma {:induction false} IndexIsLargest(n: int, limit: nat)
    requires limit <= |BINARY_FACTORS| && forall j :: limit <= j < |BINARY_UNITS| ==> n % UnitSize(j) != 0
    ensures BinaryIndex(n, limit).Some? ==> LargestUnit(n, BinaryIndex(n, limit).value)
    ensures BinaryIndex(n, limit).None? ==> forall j :: 0 <= j < |BINARY_UNITS| ==> n % UnitSize(j) != 0
  {
    if limit > 0 {
      UnitSizes(limit - 1);
      if n % UnitSize(limit - 1) != 0 {
        IndexIsLargest(n, limit - 1);
      }
    }
  }

  /** The whole number a binary amount is. */
  predicate IsWhole(q: Quantity, n: int)
  {
    q.format.BinarySI? && NumEq(BigDecimal(n, 0), q.value)
  }

  /** What is printed: a whole binary amount in its largest unit, anything else in groups of a thousand. */
  ghost predicate IsPrinted(q: Quantity, text: string)
  {
    || (exists n, i: nat :: IsWhole(q, n) && LargestUnit(n, i) && text == IntText(n / UnitSize(i)) + BINARY_UNITS[i])
    || ((forall n, i: nat :: IsWhole(q, n) ==> !LargestUnit(n, i))
        && if q.value.coefficient == 0 then text == "0" else exists m, group :: IsGrouped(q.value, q.format, text, m, group))
  }

  lemma WholeIsInteger(q: Quantity, n: int)
    requires Valid(q) && IsWhole(q, n)
    ensures IsInteger(q.value) && IntegerValue(q.value) == n
  {
    NormalizedDecides(BigDecimal(n, 0), q.value);
    assert Normalized(q.value) == q.value;
    assert q.value.scale <= 0;
    IntegerValueExact(q.value);
    NumEqTransitive(BigDecimal(n, 0), q.value, BigDecimal(IntegerValue(q.value), 0));
    assert Pow(10, 0) == 1;
  }

  /** The printer's choice of unit and grouping, for every quantity. */
  lemma PrintedForm(q: Quantity)
    requires Valid(q)
    ensures IsPrinted(q, Print(q))
  {
    if PrintsBinary(q) {
      var n := IntegerValue(q.value);
      IntegerValueExact(q.value);
      IndexIsLargest(n, |BINARY_FACTORS|);
      UnitSizes(BinaryIndex(n, |BINARY_FACTORS|).value);
      assert IsWhole(q, n) && LargestUnit(n, BinaryIndex(n, |BINARY_FACTORS|).value);
    } else {
      forall n, i: nat | IsWhole(q, n)
        ensures !LargestUnit(n, i)
      {
        WholeIsInteger(q, n);
        IndexIsLargest(n, |BINARY_FACTORS|);
      }
      var m, group := DecimalForm(q.value, q.format);
    }
  }
}
