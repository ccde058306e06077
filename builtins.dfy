/** Go's machine integers, the UTF-8 facts the services rely on (Go's `len` counts bytes),
    and the small `fmt`/`strings` helpers the services use. */
module Builtins {

  const TwoTo64: int := 0x1_0000_0000_0000_0000
  const MinInt64: int := -0x8000_0000_0000_0000
  const MaxInt64: int := 0x7fff_ffff_ffff_ffff

  /** Go's `int64` (also Go's `int` on the 64-bit targets the service runs on). */
  type int64 = x: int | MinInt64 <= x <= MaxInt64
  /** Go's `uint64`. */
  type uint64 = x: int | 0 <= x < TwoTo64
  /** Go's `byte`. */
  type byte = x: int | 0 <= x < 256

  /** Two's-complement wrap-around of a mathematical result into int64, as Go's
      `+`, `-` and `*` on int64 behave. */
  function Wrap64(x: int): (r: int64)
    ensures MinInt64 <= x <= MaxInt64 ==> r == x
    decreases if x > MaxInt64 then x - MaxInt64 else if x < MinInt64 then MinInt64 - x else 0
  {
    if x > MaxInt64 then Wrap64(x - TwoTo64)
    else if x < MinInt64 then Wrap64(x + TwoTo64)
    else x
  }

  /** The wrapped value is congruent to x modulo 2^64, so it is the int64 that two's
      complement arithmetic produces. */
  lemma {:induction false} Wrap64IsModular(x: int)
    ensures (x - Wrap64(x)) % TwoTo64 == 0
    decreases if x > MaxInt64 then x - MaxInt64 else if x < MinInt64 then MinInt64 - x else 0
  {
    if x > MaxInt64 {
      Wrap64IsModular(x - TwoTo64);
      ModShift(x - Wrap64(x));
    } else if x < MinInt64 {
      Wrap64IsModular(x + TwoTo64);
      ModShift(x + TwoTo64 - Wrap64(x));
    }
  }

  /** A value k multiples of 2^64 above the int64 range wraps to the value k * 2^64 below it. */
  lemma {:induction false} Wrap64Down(x: int, k: nat)
    requires MinInt64 <= x - k * TwoTo64 <= MaxInt64
    ensures Wrap64(x) == x - k * TwoTo64
  {
    if k > 0 {
      Wrap64Down(x - TwoTo64, k - 1);
    }
  }

  /** A multiple of 2^64 stays one when 2^64 is added or taken off. */
  lemma ModShift(y: int)
    ensures (y - TwoTo64) % TwoTo64 == 0 ==> y % TwoTo64 == 0
    ensures y % TwoTo64 == 0 ==> (y - TwoTo64) % TwoTo64 == 0
  {
  }

  /** A non-negative value below 2^64 keeps its value when it fits, and otherwise wraps to
      the negative side. */
  lemma Wrap64Unsigned(x: int)
    requires 0 <= x < TwoTo64
    ensures x <= MaxInt64 ==> Wrap64(x) == x
    ensures x > MaxInt64 ==> Wrap64(x) == x - TwoTo64 < 0
  {
  }

  /** Number of bytes of the UTF-8 encoding of one scalar value. */
  function Utf8Width(c: char): (n: nat)
    ensures 1 <= n <= 4
    ensures n == 1 <==> c as int < 0x80
  {
    if c as int < 0x80 then 1
    else if c as int < 0x800 then 2
    else if c as int < 0x10000 then 3
    else 4
  }

  /** Go's `len(s)` for a string: the length of its UTF-8 encoding in bytes. */
  function Utf8Length(s: string): (n: nat)
    ensures n >= |s|
    ensures n == |s| <==> forall i :: 0 <= i < |s| ==> s[i] as int < 0x80
  {
    if s == [] then 0 else Utf8Width(s[0]) + Utf8Length(s[1..])
  }

  /** The first byte of the UTF-8 encoding of `c`, i.e. Go's `s[0]` for a string starting with `c`. */
  function Utf8LeadByte(c: char): (b: byte)
    ensures c as int < 0x80 ==> b == c as int
    ensures c as int >= 0x80 ==> b >= 0xC0
  {
    if c as int < 0x80 then c as int
    else if c as int < 0x800 then 0xC0 + c as int / 0x40
    else if c as int < 0x10000 then 0xE0 + c as int / 0x1000
    else 0xF0 + c as int / 0x40000
  }

  /** `strings.Repeat(string(c), n)`. */
  function Repeat(c: char, n: nat): (r: string)
    ensures |r| == n
    ensures forall i :: 0 <= i < n ==> r[i] == c
  {
    if n == 0 then [] else [c] + Repeat(c, n - 1)
  }

  predicate IsDigit(c: char) {
    '0' <= c <= '9'
  }

  function DigitChar(d: nat): (c: char)
    requires d < 10
    ensures IsDigit(c) && c as int - '0' as int == d
  {
    ('0' as int + d) as char
  }

  /** Decimal digits of a natural number, most significant first, no leading zeros. */
  function NatDigits(n: nat): (r: string)
    ensures |r| >= 1
    ensures forall i :: 0 <= i < |r| ==> IsDigit(r[i])
    ensures n > 0 ==> r[0] != '0'
    decreases n
  {
    if n < 10 then [DigitChar(n)] else NatDigits(n / 10) + [DigitChar(n % 10)]
  }

  /** The value of a string of decimal digits. */
  function DigitsValue(s: string): (v: nat)
    requires forall i :: 0 <= i < |s| ==> IsDigit(s[i])
  {
    if s == [] then 0
    else
      var last := s[|s| - 1];
      assert IsDigit(last);
      DigitsValue(s[..|s| - 1]) * 10 + (last as int - '0' as int)
  }

  lemma {:induction false} NatDigitsValue(n: nat)
    ensures DigitsValue(NatDigits(n)) == n
    decreases n
  {
    var r := NatDigits(n);
    if n >= 10 {
      NatDigitsValue(n / 10);
      assert r[..|r| - 1] == NatDigits(n / 10);
    }
  }

  /** `fmt.Sprintf("%d", n)` / `%v` of an integer. */
  function Decimal(n: int): (r: string)
    ensures |r| >= 1
    ensures n >= 0 ==> forall i :: 0 <= i < |r| ==> IsDigit(r[i])
    ensures n < 0 ==> r[0] == '-'
  {
    if n < 0 then "-" + NatDigits(-n) else NatDigits(n)
  }

  /** Decimal rendering loses nothing: distinct integers print differently. */
  lemma DecimalInjective(a: int, b: int)
    requires Decimal(a) == Decimal(b)
    ensures a == b
  {
    if a >= 0 && b >= 0 {
      NatDigitsValue(a);
      NatDigitsValue(b);
    } else if a < 0 && b < 0 {
      assert NatDigits(-a) == Decimal(a)[1..];
      assert NatDigits(-b) == Decimal(b)[1..];
      NatDigitsValue(-a);
      NatDigitsValue(-b);
    }
  }
}
