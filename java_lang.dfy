/**
 * The fragments of the Java platform and of Apache commons-lang that the modelled code relies on:
 * fixed-width integers, `StringUtils.isBlank` / `isEmpty`, `Character.isWhitespace`
 * and the decimal rendering of `Integer.toString`.
 */
module JavaLang {
  import opened Wrappers

  newtype int8 = x: int | -0x80 <= x < 0x80
  newtype int16 = x: int | -0x8000 <= x < 0x8000
  newtype int32 = x: int | -0x8000_0000 <= x < 0x8000_0000
  newtype int64 = x: int | -0x8000_0000_0000_0000 <= x < 0x8000_0000_0000_0000

  function Pow2(k: nat): (p: nat)
    ensures p >= 1
  {
    if k == 0 then 1 else 2 * Pow2(k - 1)
  }

  /** An int's 32-bit two's-complement pattern, read as an unsigned number. */
  function Unsigned32(x: int32): (u: nat)
    ensures u < 0x1_0000_0000
    ensures x >= 0 ==> u == x as int
    ensures x < 0 ==> u == x as int + 0x1_0000_0000
  {
    if x >= 0 then x as int else x as int + 0x1_0000_0000
  }

  /** A 32-bit pattern read back as a signed int. */
  function Signed32(u: nat): (x: int32)
    requires u < 0x1_0000_0000
    ensures Unsigned32(x) == u
  {
    if u < 0x8000_0000 then u as int32 else (u as int - 0x1_0000_0000) as int32
  }

  /** Bitwise AND of two bit patterns, from the least significant bit up. */
  function BitAnd(a: nat, b: nat): (r: nat)
    ensures r <= a
    decreases a
  {
    if a == 0 || b == 0 then 0
    else 2 * BitAnd(a / 2, b / 2) + (if a % 2 == 1 && b % 2 == 1 then 1 else 0)
  }

  /** Java's `x & y` on ints. */
  function IntAnd(x: int32, y: int32): int32 {
    Signed32(BitAnd(Unsigned32(x), Unsigned32(y)))
  }

  /** Java's `(short) x`: keep the low 16 bits, read them as signed. */
  function NarrowToShort(x: int32): (s: int16)
    ensures -0x8000 <= x as int < 0x8000 ==> s as int == x as int
  {
    var low := Unsigned32(x) % 0x1_0000;
    if low < 0x8000 then low as int16 else (low - 0x1_0000) as int16
  }

  lemma MulAtLeast(d: int, k: int)
    requires d > 0 && k >= 1
    ensures d * k >= d
  {
  }

  /** Quotient and remainder are the only decomposition with a remainder in [0, d). */
  lemma DivModUnique(a: int, d: int, m: int, t: int)
    requires d > 0 && a == d * m + t && 0 <= t < d
    ensures a % d == t && a / d == m
  {
    var m', t' := a / d, a % d;
    assert d * m + t == d * m' + t';
    assert d * (m - m') == t' - t by {
      assert d * (m - m') == d * m - d * m';
    }
    if m > m' {
      MulAtLeast(d, m - m');
    } else if m < m' {
      MulAtLeast(d, m' - m);
    }
  }

  lemma ModDouble(a: nat, p: nat)
    requires p >= 1
    ensures a % (2 * p) == 2 * ((a / 2) % p) + a % 2
  {
    var q, r := a / 2, a % 2;
    var m, s := q / p, q % p;
    assert q == p * m + s;
    assert a == 2 * q + r;
    assert a == (2 * p) * m + (2 * s + r) by {
      assert 2 * (p * m) == (2 * p) * m;
    }
    DivModUnique(a, 2 * p, m, 2 * s + r);
  }

  /** One step of `BitAnd` against an odd mask: the low bit of `a` is kept. */
  lemma BitAndOddMask(a: nat, p: nat)
    requires a > 0 && p >= 1
    ensures BitAnd(a, 2 * p - 1) == 2 * BitAnd(a / 2, p - 1) + a % 2
  {
    var mask := 2 * p - 1;
    assert mask / 2 == p - 1 && mask % 2 == 1;
  }

  /** The induction step of `BitAndLowMask`: if the mask p - 1 keeps the residue modulo p of
      a / 2, then the mask 2p - 1 keeps the residue modulo 2p of a. */
  lemma BitAndMaskStep(a: nat, p: nat)
    requires a > 0 && p >= 1
    requires BitAnd(a / 2, p - 1) == (a / 2) % p
    ensures BitAnd(a, 2 * p - 1) == a % (2 * p)
  {
    BitAndOddMask(a, p);
    ModDouble(a, p);
  }

  /** Masking with k low one-bits keeps the residue modulo 2^k. */
  lemma {:induction false} BitAndLowMask(a: nat, k: nat)
    ensures BitAnd(a, Pow2(k) - 1) == a % Pow2(k)
    decreases k
  {
    if k == 0 {
      assert Pow2(k) == 1 && BitAnd(a, 0) == 0;
    } else if a == 0 {
      assert BitAnd(0, Pow2(k) - 1) == 0;
    } else {
      var p := Pow2(k - 1);
      assert Pow2(k) == 2 * p;
      BitAndLowMask(a / 2, k - 1);
      BitAndMaskStep(a, p);
    }
  }

  lemma Pow2Of8()
    ensures Pow2(8) == 256
  {
    assert Pow2(2) == 4;
    assert Pow2(4) == 16;
    assert Pow2(6) == 64;
  }

  /** `b & 0xff` on a byte promoted to int: the byte's value modulo 256, in [0, 255]. */
  lemma ByteMask(b: int8)
    ensures var m := IntAnd(b as int as int32, 0xff);
      0 <= m as int <= 255 && m as int == if b < 0 then b as int + 256 else b as int
  {
    var u := Unsigned32(b as int as int32);
    BitAndLowMask(u, 8);
    Pow2Of8();
    if b < 0 {
      DivModUnique(u, 256, 0xFF_FFFF, b as int + 256);
    } else {
      DivModUnique(u, 256, 0, b as int);
    }
  }

  /** A Java `String` reference: `None` is `null`. */
  type JString = Option<string>

  /** `Character.isWhitespace` of Java 8 (Unicode 6.2 tables): a Unicode space, line or
      paragraph separator other than the no-break spaces U+00A0, U+2007 and U+202F (U+180E
      is still a space separator there), or one of the control characters U+0009..U+000D and
      U+001C..U+001F. */
  predicate IsWhitespace(c: char) {
    var n := c as int;
    (0x09 <= n <= 0x0D) || (0x1C <= n <= 0x20)
    || n == 0x1680 || n == 0x180E || (0x2000 <= n <= 0x200A && n != 0x2007)
    || n == 0x2028 || n == 0x2029 || n == 0x205F || n == 0x3000
  }

  /** `StringUtils.isEmpty`: null or of length zero. */
  predicate IsEmpty(s: JString) {
    s.None? || |s.value| == 0
  }

  /** `StringUtils.isBlank`: null, empty, or made of whitespace only. */
  predicate IsBlank(s: JString) {
    s.None? || forall i :: 0 <= i < |s.value| ==> IsWhitespace(s.value[i])
  }

  /** Every empty string is blank; the converse fails for whitespace-only strings. */
  lemma EmptyIsBlank(s: JString)
    ensures IsEmpty(s) ==> IsBlank(s)
    ensures IsBlank(Some(" ")) && !IsEmpty(Some(" "))
  {
  }

  function DigitChar(d: nat): (c: char)
    requires d < 10
    ensures '0' <= c <= '9' && c as int - '0' as int == d
  {
    ('0' as int + d) as char
  }

  /** The decimal digits of a natural number, most significant first, without leading zeros. */
  function Digits(n: nat): (s: string)
    ensures |s| >= 1
    ensures forall i :: 0 <= i < |s| ==> '0' <= s[i] <= '9'
    decreases n
  {
    if n < 10 then [DigitChar(n)] else Digits(n / 10) + [DigitChar(n % 10)]
  }

  /** `Integer.toString` / `String.valueOf(int)`: a leading '-' for negative values, then the
      digits of the magnitude. */
  function DecimalString(n: int): (s: string)
    ensures |s| >= 1
    ensures (s[0] == '-') <==> n < 0
  {
    if n < 0 then "-" + Digits(-n) else Digits(n)
  }

  /** Reads back a string of decimal digits. */
  function ParseDigits(s: string): int
    decreases |s|
  {
    if |s| == 0 then 0 else ParseDigits(s[..|s| - 1]) * 10 + (s[|s| - 1] as int - '0' as int)
  }

  /** Reads back an optionally signed decimal numeral. */
  function ParseDecimal(s: string): int {
    if |s| > 0 && s[0] == '-' then -ParseDigits(s[1..]) else ParseDigits(s)
  }

  lemma {:induction false} ParseDigitsOfDigits(n: nat)
    ensures ParseDigits(Digits(n)) == n
    decreases n
  {
    if n >= 10 {
      var s := Digits(n);
      assert s[..|s| - 1] == Digits(n / 10);
      ParseDigitsOfDigits(n / 10);
    }
  }

  /** Decimal rendering is inverted by parsing, so distinct values render differently. */
  lemma ParseDecimalOfDecimalString(n: int)
    ensures ParseDecimal(DecimalString(n)) == n
  {
    if n < 0 {
      assert DecimalString(n)[1..] == Digits(-n);
      ParseDigitsOfDigits(-n);
    } else {
      ParseDigitsOfDigits(n);
    }
  }

  lemma DecimalStringInjective(m: int, n: int)
    ensures DecimalString(m) == DecimalString(n) ==> m == n
  {
    ParseDecimalOfDecimalString(m);
    ParseDecimalOfDecimalString(n);
  }
}
