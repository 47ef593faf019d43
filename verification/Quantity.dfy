/**
 * Kubernetes resource quantities: the parser, the printer, and what they
 * promise each other.
 */
module Quantity {
  import opened Wrappers
  import opened Text
  import opened Decimal

  /** The suffix tables. The decimal one also holds the empty suffix, for units. */
  const BINARY_PREFIXES := "KMGTPE"
  const BINARY_FACTORS: seq<nat> := [0x400, 0x10_0000, 0x4000_0000, 0x100_0000_0000, 0x4_0000_0000_0000, 0x1000_0000_0000_0000]
  const I64_MAX: int := 0x7fff_ffff_ffff_ffff
  const I32_MAX: int := 0x7fff_ffff
  const NANO_DIGITS: nat := 9

  datatype Format = DecimalSI | BinarySI | DecimalExponent

  datatype Quantity = Quantity(value: BigDecimal, format: Format)

  datatype ParseError = InvalidQuantity(input: string)

  /** The scale a suffix stands for. `Exponent` covers every integer; the parser accepts 32 bits of it. */
  datatype Unit = Si(exponent: int) | Binary(factor: nat) | Exponent(exponent: int)

  /** A numeral with its unit, before any rounding. */
  datatype Literal = Literal(number: BigDecimal, unit: Unit)

  // ----- Reading -----

  function SiExponent(prefix: char): Option<int>
  {
    match prefix
    case 'n' => Some(-9)
    case 'u' => Some(-6)
    case 'm' => Some(-3)
    case 'k' => Some(3)
    case 'M' => Some(6)
    case 'G' => Some(9)
    case 'T' => Some(12)
    case 'P' => Some(15)
    case 'E' => Some(18)
    case _ => None
  }

  function SiSuffix(group: int): string
    requires -9 <= group <= 18 && group % 3 == 0
  {
    if group == 0 then "" else ["numkMGTPE"[if group < 0 then group / 3 + 3 else group / 3 + 2]]
  }

  function BinaryFactorOf(prefix: char): Option<nat>
  {
    match prefix
    case 'K' => Some(BINARY_FACTORS[0])
    case 'M' => Some(BINARY_FACTORS[1])
    case 'G' => Some(BINARY_FACTORS[2])
    case 'T' => Some(BINARY_FACTORS[3])
    case 'P' => Some(BINARY_FACTORS[4])
    case 'E' => Some(BINARY_FACTORS[5])
    case _ => None
  }

  function BinarySuffix(index: nat): string
    requires index < |BINARY_PREFIXES|
  {
    [BINARY_PREFIXES[index], 'i']
  }

  /** An optional sign and at least one digit. */
  function SignedInt(s: string): Option<int>
  {
    var start := SignEnd(s);
    if start == |s| || !AllDigits(s[start..]) then None
    else
      var n: int := NumeralValue(s[start..]);
      Some(if s[0] == '-' then -n else n)
  }

  function SignEnd(s: string): (start: nat)
    ensures start <= |s|
  {
    if |s| > 0 && (s[0] == '+' || s[0] == '-') then 1 else 0
  }

  function UnitOf(suffix: string): Option<Unit>
  {
    if suffix == [] then Some(Si(0))
    else if |suffix| == 1 && SiExponent(suffix[0]).Some? then Some(Si(SiExponent(suffix[0]).value))
    else if |suffix| == 2 && suffix[1] == 'i' && BinaryFactorOf(suffix[0]).Some? then
      Some(Binary(BinaryFactorOf(suffix[0]).value))
    else if suffix[0] == 'e' || suffix[0] == 'E' then
      match SignedInt(suffix[1..])
      case Some(e) => Some(Exponent(e))
      case None => None
    else None
  }

  /** The end of the sign, digits and fraction. */
  function NumberEnd(s: string): (end: nat)
    ensures DigitsEnd(s, SignEnd(s)) <= end <= |s|
  {
    var dot := DigitsEnd(s, SignEnd(s));
    if dot < |s| && s[dot] == '.' then DigitsEnd(s, dot + 1) else dot
  }

  function ReadNumber(s: string, start: nat, dot: nat, end: nat): BigDecimal
    requires start <= dot <= end <= |s|
    requires AllDigits(s[start..dot]) && (end > dot ==> AllDigits(s[dot + 1..end]))
  {
    var fraction := if end > dot then s[dot + 1..end] else [];
    var digits: int := NumeralValue(s[start..dot] + fraction);
    BigDecimal(if |s| > 0 && s[0] == '-' then -digits else digits, |fraction|)
  }

  function ReadLiteral(s: string): Option<Literal>
  {
    var start := SignEnd(s);
    var dot := DigitsEnd(s, start);
    var end := NumberEnd(s);
    var fractionDigits := if end > dot then end - dot - 1 else 0;
    if dot - start + fractionDigits == 0 then None
    else match UnitOf(s[end..])
      case None => None
      case Some(unit) => Some(Literal(ReadNumber(s, start, dot, end), unit))
  }

  /** The number a literal denotes, exactly. */
  function Exact(literal: Literal): BigDecimal
  {
    var BigDecimal(coefficient, scale) := literal.number;
    match literal.unit
    case Si(exponent) => BigDecimal(coefficient, scale - exponent)
    case Exponent(exponent) => BigDecimal(coefficient, scale - exponent)
    case Binary(factor) => BigDecimal(coefficient * factor, scale)
  }

  function FormatOf(unit: Unit): Format
  {
    match unit
    case Si(_) => DecimalSI
    case Binary(_) => BinarySI
    case Exponent(_) => DecimalExponent
  }

  function Saturated(d: BigDecimal): BigDecimal
  {
    if Less(BigDecimal(I64_MAX, 0), Magnitude(d)) then
      BigDecimal(if d.coefficient < 0 then -I64_MAX else I64_MAX, 0)
    else d
  }

  /** Nano rounding, then the signed 64-bit bound of binary amounts. */
  function Finish(exact: BigDecimal, format: Format): Quantity
  {
    var rounded := RoundedUp(exact, NANO_DIGITS);
    if format == BinarySI then
      var value := Saturated(rounded);
      Quantity(Normalized(value), if Less(Magnitude(value), BigDecimal(1, 0)) then DecimalSI else BinarySI)
    else
      Quantity(Normalized(rounded), format)
  }

  predicate ExponentFits(unit: Unit)
  {
    unit.Exponent? ==> -I32_MAX - 1 <= unit.exponent <= I32_MAX
  }

  function Parse(input: string): Result<Quantity, ParseError>
  {
    match ReadLiteral(input)
    case None => Err(InvalidQuantity(input))
    case Some(literal) =>
      if ExponentFits(literal.unit) then Ok(Finish(Exact(literal), FormatOf(literal.unit)))
      else Err(InvalidQuantity(input))
  }

  /** The scanning loops of the parser: two digit runs around an optional point. */
  method FromStr(input: string) returns (r: Result<Quantity, ParseError>)
    ensures r == Parse(input)
  {
    var end := SignEnd(input);
    var start := end;
    while end < |input| && IsDigit(input[end])
      invariant start <= end <= |input|
      invariant forall i :: start <= i < end ==> IsDigit(input[i])
    {
      end := end + 1;
    }
    DigitsEndUnique(input, start, end);
    var dot := end;
    var fractionDigits := 0;
    if end < |input| && input[end] == '.' {
      end := end + 1;
      while end < |input| && IsDigit(input[end])
        invariant dot + 1 <= end <= |input|
        invariant forall i :: dot + 1 <= i < end ==> IsDigit(input[i])
      {
        end := end + 1;
      }
      DigitsEndUnique(input, dot + 1, end);
      fractionDigits := end - dot - 1;
    }
    if dot - start + fractionDigits == 0 {
      return Err(InvalidQuantity(input));
    }
    var number := ReadNumber(input, start, dot, end);
    match UnitOf(input[end..]) {
      case None =>
        return Err(InvalidQuantity(input));
      case Some(unit) =>
        if !ExponentFits(unit) {
          return Err(InvalidQuantity(input));
        }
        return Ok(Finish(Exact(Literal(number, unit)), FormatOf(unit)));
    }
  }

  /** Integers convert without rounding, whatever their width. */
  function FromInteger(n: int): Quantity
  {
    Quantity(BigDecimal(n, 0), DecimalSI)
  }

  // ----- What every quantity the library can hold satisfies -----

  ghost predicate Valid(q: Quantity)
  {
    && Normalized(q.value).scale <= NANO_DIGITS
    && (q.format.BinarySI? ==>
      && IsNormal(q.value)
      && !Less(BigDecimal(I64_MAX, 0), Magnitude(q.value))
      && !Less(Magnitude(q.value), BigDecimal(1, 0)))
  }

  // ----- Printing -----

  /** Three-digit grouping: the exponent printed, and the zeros moved in front of it. */
  function Group(exponent: int): int
  {
    exponent - exponent % 3
  }

  /** The power of ten a decimal's coefficient counts. */
  function TenPower(n: BigDecimal): int
  {
    -n.scale
  }

  function GroupedDigits(n: BigDecimal): string
  {
    IntText(n.coefficient) + Zeros(TenPower(n) % 3)
  }

  predicate UsesExponent(format: Format, group: int)
  {
    format == DecimalExponent || group > 18
  }

  /** The unit printed after the digits of a number at a group's scale. */
  function PrintedUnit(format: Format, group: int): Unit
  {
    if UsesExponent(format, group) && group != 0 then Exponent(group) else Si(group)
  }

  function DecimalSuffix(unit: Unit): string
    requires unit.Si? ==> -9 <= unit.exponent <= 18 && unit.exponent % 3 == 0
  {
    match unit
    case Si(exponent) => SiSuffix(exponent)
    case Exponent(exponent) => "e" + IntText(exponent)
    case Binary(_) => ""
  }

  lemma GroupMultiple(exponent: int)
    ensures Group(exponent) % 3 == 0
    ensures 0 <= exponent - Group(exponent) < 3
    ensures exponent - Group(exponent) == exponent % 3
    ensures exponent >= -9 ==> Group(exponent) >= -9
  {
  }

  /** Digits followed by the unit of an exponent's group. */
  function WithUnit(digits: string, exponent: int, format: Format): string
    requires exponent >= -9
  {
    GroupMultiple(exponent);
    digits + DecimalSuffix(PrintedUnit(format, Group(exponent)))
  }

  function FormatDecimal(value: BigDecimal, format: Format): string
    requires Normalized(value).scale <= NANO_DIGITS
  {
    if value.coefficient == 0 then "0" else WithUnit(GroupedDigits(Normalized(value)), TenPower(Normalized(value)), format)
  }

  /** Zeros are pushed onto the digits one at a time. */
  method PushZeros(text: string, count: nat) returns (digits: string)
    ensures digits == text + Zeros(count)
  {
    digits := text;
    for i := 0 to count
      invariant digits == text + Zeros(i)
    {
      digits := digits + ['0'];
    }
  }

  method FormatGroupsLoop(n: BigDecimal, format: Format) returns (digits: string)
    requires n.scale <= NANO_DIGITS
    ensures digits == WithUnit(GroupedDigits(n), TenPower(n), format)
  {
    GroupMultiple(TenPower(n));
    digits := PushZeros(IntText(n.coefficient), TenPower(n) % 3);
    var suffix := DecimalSuffix(PrintedUnit(format, Group(TenPower(n))));
    digits := digits + suffix;
  }

  method FormatDecimalLoop(value: BigDecimal, format: Format) returns (digits: string)
    requires Normalized(value).scale <= NANO_DIGITS
    ensures digits == FormatDecimal(value, format)
  {
    if value.coefficient == 0 {
      return "0";
    }
    var n := Normalize(value);
    digits := FormatGroupsLoop(n, format);
  }

  /** The largest binary unit, below `limit`, that divides `n`. */
  function BinaryIndex(n: int, limit: nat): (r: Option<nat>)
    requires limit <= |BINARY_FACTORS|
    ensures r.Some? ==> r.value < limit && n % BINARY_FACTORS[r.value] == 0
  {
    if limit == 0 then None
    else if n % BINARY_FACTORS[limit - 1] == 0 then Some(limit - 1)
    else BinaryIndex(n, limit - 1)
  }

  function Print(q: Quantity): string
    requires Valid(q)
  {
    if q.format.BinarySI? then PrintBinary(q.value) else FormatDecimal(q.value, q.format)
  }

  function PrintBinary(value: BigDecimal): string
    requires Normalized(value).scale <= NANO_DIGITS
  {
    if IsInteger(value) then
      var n := IntegerValue(value);
      match BinaryIndex(n, |BINARY_FACTORS|)
      case Some(i) => IntText(n / BINARY_FACTORS[i]) + BinarySuffix(i)
      case None => FormatDecimal(value, BinarySI)
    else FormatDecimal(value, BinarySI)
  }

  /** The unit loop of the printer, from Exbi down. */
  method FindBinaryUnit(n: int) returns (r: Option<nat>)
    requires n != 0
    ensures r == BinaryIndex(n, |BINARY_FACTORS|)
  {
    var index: nat := |BINARY_FACTORS|;
    while index > 0
      invariant index <= |BINARY_FACTORS|
      invariant BinaryIndex(n, index) == BinaryIndex(n, |BINARY_FACTORS|)
    {
      var factor := BINARY_FACTORS[index - 1];
      if n % factor == 0 {
        return Some(index - 1);
      }
      index := index - 1;
    }
    return None;
  }

  method Display(q: Quantity) returns (text: string)
    requires Valid(q)
    ensures text == Print(q)
  {
    if q.format.BinarySI? && IsInteger(q.value) {
      var n := IntegerValue(q.value);
      BinaryValueBounds(q);
      var unit := FindBinaryUnit(n);
      if unit.Some? {
        return IntText(n / BINARY_FACTORS[unit.value]) + BinarySuffix(unit.value);
      }
    }
    text := FormatDecimalLoop(q.value, q.format);
  }

  function CanonicalDecimal(q: Quantity): string
    requires Valid(q)
  {
    FormatDecimal(q.value, DecimalSI)
  }

  /** A binary amount that is an integer is a nonzero signed 64-bit one. */
  lemma BinaryValueBounds(q: Quantity)
    requires Valid(q) && q.format.BinarySI? && IsInteger(q.value)
    ensures 1 <= Abs(IntegerValue(q.value)) <= I64_MAX
    ensures q.value.scale <= 0
  {
    NormalInteger(q.value);
    var n := IntegerValue(q.value);
    assert n == q.value.coefficient * Pow(10, 0 - q.value.scale);
    AbsTimes(q.value.coefficient, Pow(10, 0 - q.value.scale));
    assert Scaled(Magnitude(q.value), 0) == Abs(n);
    assert Scaled(BigDecimal(I64_MAX, 0), 0) == I64_MAX * Pow(10, 0);
    assert Scaled(BigDecimal(1, 0), 0) == Pow(10, 0);
  }
}
