/** Bounded, hash-suffixed names for sockets and ResourceSlices. */
module Naming {
  import opened Text
  import opened Slices
  import Names

  const WORD: nat := 0x1_0000_0000_0000_0000
  const OFFSET_BASIS: nat := 0xcbf29ce484222325
  const PRIME: nat := 0x0000_0100_0000_01b3
  /** PRIME is odd, so it has an inverse modulo 2^64. */
  const PRIME_INVERSE: nat := 0xce965057aff6957b

  type byte = b: nat | b < 0x100

  /** A 64-bit unsigned word. */
  type u64 = h: nat | h < WORD

  // ----- FNV-1a -----

  function Xor(a: nat, b: nat): nat
    decreases a + b
  {
    if a == 0 && b == 0 then 0 else 2 * Xor(a / 2, b / 2) + (a % 2 + b % 2) % 2
  }

  lemma XorHalf(a: nat, b: nat)
    ensures Xor(a, b) / 2 == Xor(a / 2, b / 2) && Xor(a, b) % 2 == (a % 2 + b % 2) % 2
  {
  }

  lemma ParityCancels(a: nat, b: nat)
    ensures ((a % 2 + b % 2) % 2 + b % 2) % 2 == a % 2
  {
  }

  lemma {:induction false} XorCancels(a: nat, b: nat)
    ensures Xor(Xor(a, b), b) == a
    decreases a + b
  {
    if a != 0 || b != 0 {
      XorCancels(a / 2, b / 2);
      XorHalf(a, b);
      XorHalf(Xor(a, b), b);
      ParityCancels(a, b);
      var again := Xor(Xor(a, b), b);
      assert again / 2 == a / 2 && again % 2 == a % 2;
    }
  }

  lemma {:induction false} XorSymmetric(a: nat, b: nat)
    ensures Xor(a, b) == Xor(b, a)
    decreases a + b
  {
    if a != 0 || b != 0 {
      XorSymmetric(a / 2, b / 2);
    }
  }

  lemma {:induction false} XorBound(a: nat, b: nat, bits: nat)
    requires a < Pow(2, bits) && b < Pow(2, bits)
    ensures Xor(a, b) < Pow(2, bits)
    decreases a + b
  {
    if a != 0 || b != 0 {
      XorBound(a / 2, b / 2, bits - 1);
    }
  }

  lemma WordIsPower()
    ensures Pow(2, 64) == WORD
  {
    assert Pow(2, 4) == 16;
    PowAdd(2, 4, 4);
    PowAdd(2, 8, 8);
    PowAdd(2, 16, 16);
    PowAdd(2, 32, 32);
  }

  /** The bit at a position, counted from the lowest. */
  function Bit(a: nat, position: nat): nat
  {
    if position == 0 then a % 2 else Bit(a / 2, position - 1)
  }

  /** Each bit of the result says whether the operands differ there. */
  lemma {:induction false} XorBits(a: nat, b: nat, position: nat)
    ensures Bit(Xor(a, b), position) == if Bit(a, position) == Bit(b, position) then 0 else 1
    decreases position
  {
    XorHalf(a, b);
    if position > 0 {
      XorBits(a / 2, b / 2, position - 1);
    }
  }

  function WrappingMul(x: u64, y: u64): u64
  {
    x * y % WORD
  }

  function Step(hash: u64, b: byte): u64
  {
    WordIsPower();
    XorBound(hash, b, 64);
    WrappingMul(Xor(hash, b), PRIME)
  }

  function FoldBytes(hash: u64, bytes: seq<byte>): u64
    decreases |bytes|
  {
    if bytes == [] then hash else FoldBytes(Step(hash, bytes[0]), bytes[1..])
  }

  function Fnv1a64(bytes: seq<byte>): u64
  {
    FoldBytes(OFFSET_BASIS, bytes)
  }

  lemma {:induction false} XorZero(a: nat)
    ensures Xor(a, 0) == a
  {
    if a != 0 {
      XorZero(a / 2);
    }
  }

  /** The hash of the single byte 0x61. */
  lemma HashOfA()
    ensures Fnv1a64([0x61]) == 0xaf63dc4c8601ec8c
  {
    XorZero(0x197e539c9084446);
    assert Xor(0x197e539c9084446, 0x0) == 0x197e539c9084446;
    assert Xor(0x32fca739210888c, 0x1) == 0x32fca739210888d;
    assert Xor(0x65f94e724211119, 0x3) == 0x65f94e72421111a;
    assert Xor(0xcbf29ce48422232, 0x6) == 0xcbf29ce48422234;
    assert Xor(0x197e539c90844464, 0xc) == 0x197e539c90844468;
    assert Xor(0x32fca739210888c9, 0x18) == 0x32fca739210888d1;
    assert Xor(0x65f94e7242111192, 0x30) == 0x65f94e72421111a2;
    assert Xor(0xcbf29ce484222325, 0x61) == 0xcbf29ce484222344;
    assert WrappingMul(0xcbf29ce484222344, PRIME) == 0xaf63dc4c8601ec8c;
    assert [0x61][1..] == [];
  }

  /** The fold as a loop over the bytes. */
  method HashBytes(bytes: seq<byte>) returns (hash: u64)
    ensures hash == Fnv1a64(bytes)
  {
    hash := OFFSET_BASIS;
    for i := 0 to |bytes|
      invariant FoldBytes(hash, bytes[i..]) == Fnv1a64(bytes)
    {
      assert bytes[i..][0] == bytes[i] && bytes[i..][1..] == bytes[i + 1..];
      hash := Step(hash, bytes[i]);
    }
  }

  /** Multiplying by the inverse undoes the multiplication. */
  lemma UnmultiplyPrime(x: u64)
    ensures WrappingMul(x, PRIME) * PRIME_INVERSE % WORD == x
  {
    var wraps := x * PRIME / WORD;
    assert PRIME * PRIME_INVERSE == 1 + 0xce9650590f * WORD;
    assert WrappingMul(x, PRIME) == x * PRIME - wraps * WORD;
    var turns := 0xce9650590f * x - wraps * PRIME_INVERSE;
    assert WrappingMul(x, PRIME) * PRIME_INVERSE == x + turns * WORD;
    ModOfMultiple(x, turns);
  }

  lemma ModOfMultiple(x: u64, turns: int)
    ensures (x + turns * WORD) % WORD == x
  {
  }

  lemma StepInjective(h: u64, g: u64, b: byte, c: byte)
    requires Step(h, b) == Step(g, c)
    ensures b == c ==> h == g
    ensures h == g ==> b == c
  {
    WordIsPower();
    XorBound(h, b, 64);
    XorBound(g, c, 64);
    UnmultiplyPrime(Xor(h, b));
    UnmultiplyPrime(Xor(g, c));
    XorCancels(h, b);
    XorCancels(g, c);
    XorSymmetric(h, b);
    XorSymmetric(g, c);
    XorCancels(b, h);
    XorCancels(c, g);
  }

  /** With the same bytes left to fold, different hashes stay different. */
  lemma {:induction false} FoldInjective(h: u64, g: u64, bytes: seq<byte>)
    requires h != g
    ensures FoldBytes(h, bytes) != FoldBytes(g, bytes)
    decreases |bytes|
  {
    if bytes != [] {
      if Step(h, bytes[0]) == Step(g, bytes[0]) {
        StepInjective(h, g, bytes[0], bytes[0]);
      }
      FoldInjective(Step(h, bytes[0]), Step(g, bytes[0]), bytes[1..]);
    }
  }

  predicate DifferOnlyAt(a: seq<byte>, b: seq<byte>, at: nat)
  {
    |a| == |b| && at < |a| && a[at] != b[at] && a[..at] == b[..at] && a[at + 1..] == b[at + 1..]
  }

  /** One changed byte always changes the hash. */
  lemma {:induction false} OneByteChangesHash(h: u64, a: seq<byte>, b: seq<byte>, at: nat)
    requires DifferOnlyAt(a, b, at)
    ensures FoldBytes(h, a) != FoldBytes(h, b)
    decreases at
  {
    if at == 0 {
      if Step(h, a[0]) == Step(h, b[0]) {
        StepInjective(h, h, a[0], b[0]);
      }
      FoldInjective(Step(h, a[0]), Step(h, b[0]), a[1..]);
    } else {
      assert a[0] == a[..at][0] == b[..at][0] == b[0];
      assert a[1..][..at - 1] == a[..at][1..] == b[..at][1..] == b[1..][..at - 1];
      assert a[1..][at..] == a[at + 1..] == b[at + 1..] == b[1..][at..];
      OneByteChangesHash(Step(h, a[0]), a[1..], b[1..], at - 1);
    }
  }

  // ----- Sixteen hexadecimal digits -----

  function HexDigit(d: nat): (c: char)
    requires d < 16
    ensures NameChar(c)
  {
    "0123456789abcdef"[d]
  }

  /** The lowest `count` hexadecimal digits, most significant first. */
  function Hex(hash: nat, count: nat): (s: string)
    ensures |s| == count
    ensures forall i :: 0 <= i < count ==> NameChar(s[i])
  {
    if count == 0 then [] else Hex(hash / 16, count - 1) + [HexDigit(hash % 16)]
  }

  /** The hexadecimal digit at a position, counted from the lowest. */
  function Nibble(n: nat, position: nat): (d: nat)
    ensures d < 16
  {
    if position == 0 then n % 16 else Nibble(n / 16, position - 1)
  }

  /** Every digit is there, lower-case and in its place. */
  lemma {:induction false} HexMeaning(n: nat, count: nat, i: nat)
    requires i < count
    ensures var d := Nibble(n, count - 1 - i);
      Hex(n, count)[i] as int == if d < 10 then '0' as int + d else 'a' as int + d - 10
  {
    if i < count - 1 {
      HexMeaning(n / 16, count - 1, i);
    }
  }

  lemma HexDigitInjective(d: nat, e: nat)
    requires d < 16 && e < 16 && HexDigit(d) == HexDigit(e)
    ensures d == e
  {
  }

  /** Enough digits determine the number. */
  lemma {:induction false} HexInjective(h: nat, g: nat, count: nat)
    requires Hex(h, count) == Hex(g, count)
    requires h < Pow(16, count) && g < Pow(16, count)
    ensures h == g
  {
    if count != 0 {
      var s, t := Hex(h / 16, count - 1), Hex(g / 16, count - 1);
      assert s == Hex(h, count)[..count - 1] == Hex(g, count)[..count - 1] == t;
      assert HexDigit(h % 16) == Hex(h, count)[count - 1] == Hex(g, count)[count - 1] == HexDigit(g % 16);
      HexDigitInjective(h % 16, g % 16);
      HexInjective(h / 16, g / 16, count - 1);
    }
  }

  lemma SixteenDigitsSuffice()
    ensures Pow(16, 16) == WORD
  {
    assert Pow(16, 4) == 0x1_0000;
    PowAdd(16, 4, 4);
    PowAdd(16, 8, 8);
  }

  // ----- Sanitized names -----

  predicate NameChar(c: char)
  {
    ('a' <= c <= 'z') || ('A' <= c <= 'Z') || ('0' <= c <= '9') || c == '-' || c == '_'
  }

  /** The UTF-8 bytes of a character. */
  function CharBytes(c: char): seq<byte>
  {
    var n := c as int;
    if n < 0x80 then [n]
    else if n < 0x800 then [(0xc0 + n / 0x40), (0x80 + n % 0x40)]
    else if n < 0x1_0000 then [(0xe0 + n / 0x1000), (0x80 + n / 0x40 % 0x40), (0x80 + n % 0x40)]
    else [(0xf0 + n / 0x4_0000), (0x80 + n / 0x1000 % 0x40), (0x80 + n / 0x40 % 0x40), (0x80 + n % 0x40)]
  }

  /** One character as RFC 3629, section 3, lays it out: a leading byte, then six bits to each byte after it. */
  predicate Utf8(bytes: seq<int>, n: nat)
  {
    && (forall i :: 1 <= i < |bytes| ==> 0x80 <= bytes[i] < 0xc0)
    && match |bytes|
       case 1 => bytes[0] < 0x80 && n == bytes[0]
       case 2 => 0xc2 <= bytes[0] < 0xe0 && n == (bytes[0] - 0xc0) * 0x40 + (bytes[1] - 0x80)
       case 3 =>
         && 0xe0 <= bytes[0] < 0xf0 && n >= 0x800
         && n == ((bytes[0] - 0xe0) * 0x40 + (bytes[1] - 0x80)) * 0x40 + (bytes[2] - 0x80)
       case 4 =>
         && 0xf0 <= bytes[0] < 0xf5 && n >= 0x1_0000
         && n == (((bytes[0] - 0xf0) * 0x40 + (bytes[1] - 0x80)) * 0x40 + (bytes[2] - 0x80)) * 0x40 + (bytes[3] - 0x80)
       case _ => false
  }

  lemma Sextets(n: nat)
    ensures n == n / 0x40 * 0x40 + n % 0x40
    ensures n / 0x40 == n / 0x1000 * 0x40 + n / 0x40 % 0x40
    ensures n / 0x1000 == n / 0x4_0000 * 0x40 + n / 0x1000 % 0x40
  {
  }

  lemma CharIsUtf8(c: char)
    ensures Utf8(CharBytes(c), c as int)
  {
    var n := c as int;
    Sextets(n);
    var s := CharBytes(c);
    if n < 0x80 {
      assert s == [n];
    } else if n < 0x800 {
      assert |s| == 2 && s[0] == 0xc0 + n / 0x40 && s[1] == 0x80 + n % 0x40;
    } else if n < 0x1_0000 {
      assert |s| == 3 && s[0] == 0xe0 + n / 0x1000 && s[1] == 0x80 + n / 0x40 % 0x40 && s[2] == 0x80 + n % 0x40;
    } else {
      assert |s| == 4 && s[0] == 0xf0 + n / 0x4_0000 && s[1] == 0x80 + n / 0x1000 % 0x40;
      assert s[2] == 0x80 + n / 0x40 % 0x40 && s[3] == 0x80 + n % 0x40;
    }
  }

  function Bytes(name: string): seq<byte>
  {
    if name == [] then [] else CharBytes(name[0]) + Bytes(name[1..])
  }

  lemma LeadingDecides(a: seq<byte>, m: nat, x: seq<byte>, b: seq<byte>, n: nat, y: seq<byte>)
    requires Utf8(a, m) && Utf8(b, n) && a + x == b + y
    ensures m == n && x == y
  {
    assert (a + x)[0] == a[0] && (b + y)[0] == b[0];
    assert |a| == |b|;
    assert forall i :: 0 <= i < |a| ==> (a + x)[i] == a[i] && (b + y)[i] == b[i];
    assert x == (a + x)[|a|..] && y == (b + y)[|b|..];
  }

  /** The hashed bytes decide the name. */
  lemma {:induction false} BytesDecide(a: string, b: string)
    requires Bytes(a) == Bytes(b)
    ensures a == b
  {
    if a != [] && b != [] {
      CharIsUtf8(a[0]);
      CharIsUtf8(b[0]);
      LeadingDecides(CharBytes(a[0]), a[0] as int, Bytes(a[1..]), CharBytes(b[0]), b[0] as int, Bytes(b[1..]));
      BytesDecide(a[1..], b[1..]);
      assert a == [a[0]] + a[1..] && b == [b[0]] + b[1..];
    } else if a != [] {
      CharIsUtf8(a[0]);
    } else if b != [] {
      CharIsUtf8(b[0]);
    }
  }

  function Replaced(name: string): (s: string)
    ensures |s| == |name| && forall i :: 0 <= i < |s| ==> NameChar(s[i])
  {
    seq(|name|, i requires 0 <= i < |name| => if NameChar(name[i]) then name[i] else '_')
  }

  /** The width hashes are padded to. */
  const HASH_TEMPLATE := "0000000000000000"

  function HashSuffix(name: string): (s: string)
    ensures |s| == 17 && forall i :: 0 <= i < |s| ==> NameChar(s[i])
  {
    "-" + Hex(Fnv1a64(Bytes(name)), |HASH_TEMPLATE|)
  }

  function SanitizeSocketName(name: string, maxLen: nat): (s: string)
    ensures |s| <= maxLen
    ensures maxLen < 17 ==> |s| == maxLen
    ensures forall i :: 0 <= i < |s| ==> NameChar(s[i])
    ensures maxLen >= 17 ==> |s| >= 17 && s[|s| - 17..] == HashSuffix(name)
    ensures maxLen >= 17 ==> |s| - 17 == if |name| < maxLen - 17 then |name| else maxLen - 17
    ensures maxLen >= 17 ==> forall i :: 0 <= i < |s| - 17 ==> s[i] == if NameChar(name[i]) then name[i] else '_'
  {
    var suffix := HashSuffix(name);
    if maxLen < |suffix| then suffix[..maxLen]
    else
      var budget := maxLen - |suffix|;
      var sanitized := Replaced(name);
      (if budget < |sanitized| then sanitized[..budget] else sanitized) + suffix
  }

  /** Names of equal byte length that differ in one byte never share a sanitized name. */
  lemma OneByteSeparatesNames(a: string, b: string, at: nat, maxA: nat, maxB: nat)
    requires DifferOnlyAt(Bytes(a), Bytes(b), at)
    requires maxA >= 17 && maxB >= 17
    ensures SanitizeSocketName(a, maxA) != SanitizeSocketName(b, maxB)
  {
    OneByteChangesHash(OFFSET_BASIS, Bytes(a), Bytes(b), at);
    var h, g := Fnv1a64(Bytes(a)), Fnv1a64(Bytes(b));
    SixteenDigitsSuffice();
    if HashSuffix(a) == HashSuffix(b) {
      assert HashSuffix(a)[1..] == Hex(h, 16) && HashSuffix(b)[1..] == Hex(g, 16);
      HexInjective(h, g, 16);
    }
  }

  // ----- ResourceSlice names -----

  const MAX_NAME: nat := 63
  const USIZE_LIMIT: nat := 0x1_0000_0000_0000_0000

  function SlicePrefix(index: nat): string
  {
    "slice-" + Numeral(index) + "-"
  }

  lemma {:induction false} NumeralLength(n: nat, digits: nat)
    requires digits > 0 && n < Pow(10, digits)
    ensures |Numeral(n)| <= digits
  {
    assert Pow(10, 1) == 10;
    if n >= 10 {
      NumeralLength(n / 10, digits - 1);
    }
  }

  lemma SlicePrefixFits(index: nat)
    requires index < USIZE_LIMIT
    ensures |SlicePrefix(index)| <= 27
  {
    assert Pow(10, 5) == 100000;
    PowAdd(10, 5, 5);
    PowAdd(10, 10, 10);
    assert Pow(10, 20) == 10000000000 * 10000000000;
    NumeralLength(index, 20);
  }

  function Dashed(s: string): (r: string)
    ensures |r| == |s|
  {
    seq(|s|, i requires 0 <= i < |s| => if s[i] == '_' then '-' else s[i])
  }

  function SliceName(driver: string, node: string, pool: string, index: nat): (name: string)
    requires index < USIZE_LIMIT
    ensures |name| <= MAX_NAME
  {
    SlicePrefixFits(index);
    var identity := driver + "|" + node + "|" + pool;
    SlicePrefix(index) + Dashed(SanitizeSocketName(identity, MAX_NAME - |SlicePrefix(index)|))
  }

  /** What a character becomes in a slice name. */
  function Shown(c: char): char
  {
    if ('a' <= c <= 'z') || ('A' <= c <= 'Z') || ('0' <= c <= '9') then c else '-'
  }

  function SliceIdentity(driver: string, node: string, pool: string): string
  {
    driver + "|" + node + "|" + pool
  }

  lemma HexIsPlain(n: nat, count: nat)
    ensures forall i :: 0 <= i < count ==> ('0' <= Hex(n, count)[i] <= '9') || ('a' <= Hex(n, count)[i] <= 'f')
  {
    forall i | 0 <= i < count
      ensures ('0' <= Hex(n, count)[i] <= '9') || ('a' <= Hex(n, count)[i] <= 'f')
    {
      HexMeaning(n, count, i);
    }
  }

  /** The index, then as much of the identity as fits, then the whole identity's hash. */
  predicate Composed(name: string, prefix: string, identity: string, hash: string)
  {
    && prefix <= name && |prefix| + 17 <= |name|
    && |name| == (if |prefix| + |identity| + 17 < 63 then |prefix| + |identity| + 17 else 63)
    && (forall i :: |prefix| <= i < |name| - 17 ==> name[i] == Shown(identity[i - |prefix|]))
    && name[|name| - 17] == '-' && name[|name| - 16..] == hash
  }

  lemma SliceNameForm(driver: string, node: string, pool: string, index: nat)
    requires index < USIZE_LIMIT
    ensures Composed(SliceName(driver, node, pool, index), "slice-" + Numeral(index) + "-", SliceIdentity(driver, node, pool),
                     Hex(Fnv1a64(Bytes(SliceIdentity(driver, node, pool))), 16))
  {
    SlicePrefixFits(index);
    var prefix, identity := SlicePrefix(index), SliceIdentity(driver, node, pool);
    var sanitized := SanitizeSocketName(identity, MAX_NAME - |prefix|);
    var hash := Hex(Fnv1a64(Bytes(identity)), 16);
    HexIsPlain(Fnv1a64(Bytes(identity)), 16);
    assert sanitized[|sanitized| - 17..] == "-" + hash;
    DashedForm(prefix + Dashed(sanitized), prefix, identity, hash, sanitized);
  }

  lemma DashedForm(name: string, prefix: string, identity: string, hash: string, sanitized: string)
    requires name == prefix + Dashed(sanitized) && |hash| == 16 && |prefix| + |sanitized| <= 63 && |sanitized| >= 17
    requires sanitized[|sanitized| - 17..] == "-" + hash && '_' !in hash
    requires |sanitized| - 17 == if |identity| < 63 - |prefix| - 17 then |identity| else 63 - |prefix| - 17
    requires forall i :: 0 <= i < |sanitized| - 17 ==> sanitized[i] == if NameChar(identity[i]) then identity[i] else '_'
    ensures Composed(name, prefix, identity, hash)
  {
    var n := |sanitized| - 17;
    assert forall i :: 0 <= i < |sanitized| ==> name[|prefix| + i] == Dashed(sanitized)[i];
    assert sanitized[n] == sanitized[n..][0];
    forall k | 0 <= k < 16
      ensures name[|name| - 16..][k] == hash[k]
    {
      assert sanitized[n + 1 + k] == sanitized[n..][k + 1];
      assert name[|name| - 16..][k] == name[|prefix| + (n + 1 + k)];
    }
    forall i | |prefix| <= i < |name| - 17
      ensures name[i] == Shown(identity[i - |prefix|])
    {
      assert name[i] == name[|prefix| + (i - |prefix|)];
    }
  }

  /** Driver, node and pool names hold no upper-case letters. */
  predicate LowerCase(s: string)
  {
    forall i :: 0 <= i < |s| ==> !('A' <= s[i] <= 'Z')
  }

  /** Every slice name is a DNS label. */
  lemma SliceNameIsLabel(driver: string, node: string, pool: string, index: nat)
    requires index < USIZE_LIMIT && LowerCase(driver) && LowerCase(node) && LowerCase(pool)
    ensures Names.Label(SliceName(driver, node, pool, index), 63)
  {
    SliceNameForm(driver, node, pool, index);
    var identity := SliceIdentity(driver, node, pool);
    HexIsPlain(Fnv1a64(Bytes(identity)), 16);
    forall i | 0 <= i < |SlicePrefix(index)|
      ensures Names.LabelChar(SlicePrefix(index)[i])
    {
      PrefixChars(index, i);
    }
    ComposedIsLabel(SliceName(driver, node, pool, index), SlicePrefix(index), identity, Hex(Fnv1a64(Bytes(identity)), 16));
  }

  lemma ComposedIsLabel(name: string, prefix: string, identity: string, hash: string)
    requires Composed(name, prefix, identity, hash) && prefix != [] && prefix[0] != '-' && LowerCase(identity) && |hash| == 16
    requires forall i :: 0 <= i < |prefix| ==> Names.LabelChar(prefix[i])
    requires forall i :: 0 <= i < 16 ==> ('0' <= hash[i] <= '9') || ('a' <= hash[i] <= 'f')
    ensures Names.Label(name, 63)
  {
    forall i | 0 <= i < |name|
      ensures Names.LabelChar(name[i])
    {
      if i < |prefix| {
        assert name[i] == prefix[i];
      } else if |name| - 16 <= i {
        assert name[i] == name[|name| - 16..][i - (|name| - 16)];
      }
    }
    assert name[0] == prefix[0];
    assert name[|name| - 1] == name[|name| - 16..][15];
  }

  lemma PrefixChars(index: nat, i: nat)
    requires i < |SlicePrefix(index)|
    ensures Names.LabelChar(SlicePrefix(index)[i])
  {
    NumeralMeaning(index);
    var digits := Numeral(index);
    if 6 <= i < 6 + |digits| {
      assert SlicePrefix(index)[i] == digits[i - 6];
    }
  }

  /** Within one pool, slice names are distinct by index. */
  lemma SliceNameInjective(driver: string, node: string, pool: string, i: nat, j: nat)
    requires i < USIZE_LIMIT && j < USIZE_LIMIT
    requires SliceName(driver, node, pool, i) == SliceName(driver, node, pool, j)
    ensures i == j
  {
    var name := SliceName(driver, node, pool, i);
    PrefixDigits(name, i, name[|SlicePrefix(i)|..]);
    PrefixDigits(name, j, name[|SlicePrefix(j)|..]);
    NumeralMeaning(i);
    NumeralMeaning(j);
  }

  lemma PrefixDigits(name: string, index: nat, rest: string)
    requires name == SlicePrefix(index) + rest
    ensures |name| >= 6 && name[6..DigitsEnd(name, 6)] == Numeral(index)
  {
    var digits := Numeral(index);
    var end := 6 + |digits|;
    assert name == "slice-" + digits + "-" + rest;
    assert name[6..end] == digits;
    forall k | 6 <= k < end
      ensures IsDigit(name[k])
    {
      assert name[k] == digits[k - 6];
    }
    assert name[end] == '-';
    DigitsEndUnique(name, 6, end);
  }
}
