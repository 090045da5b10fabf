/** Bytes as the C sources see them, and the decimal notation the JSON
    printer, the HTTP printer and the log stream share. */
module Bytes {
  /** One byte. */
  type byte = c: char | c as int < 256
  type bytes = seq<byte>

  datatype Option<+T> = None | Some(value: T)

  /** A C string ends at its first NUL; a `bytes` value is the memory before the final one. */
  predicate AtEnd(s: bytes) {
    s == [] || s[0] == '\0'
  }

  /** What `*p` reads when `s` is the text from `p` on. */
  function Head(s: bytes): byte {
    if s == [] then '\0' else s[0]
  }

  predicate NulFree(s: bytes) {
    forall i :: 0 <= i < |s| ==> s[i] != '\0'
  }

  predicate StartsWith(s: bytes, w: bytes) {
    |w| <= |s| && s[..|w|] == w
  }

  predicate IsDigit(c: byte) {
    '0' <= c <= '9'
  }

  function DigitValue(c: byte): nat
    requires IsDigit(c)
  {
    c as int - '0' as int
  }

  function DigitChar(d: nat): byte
    requires d < 10
  {
    ('0' as int + d) as char
  }

  predicate IsHex(c: byte) {
    IsDigit(c) || 'a' <= c <= 'f' || 'A' <= c <= 'F'
  }

  function HexValue(c: byte): (v: nat)
    requires IsHex(c)
    ensures v < 16
  {
    if IsDigit(c) then c as int - '0' as int
    else if 'a' <= c then c as int - 'a' as int + 10
    else c as int - 'A' as int + 10
  }

  const HEX_LOWER: bytes := "0123456789abcdef"
  const HEX_UPPER: bytes := "0123456789ABCDEF"

  /** `c` is the hex digit `d`, in either case. */
  predicate HexDigit(c: byte, d: nat)
    requires d < 16
  {
    c == HEX_LOWER[d] || c == HEX_UPPER[d]
  }

  lemma DigitIsHex(c: byte, d: nat)
    requires d < 16 && HexDigit(c, d)
    ensures IsHex(c) && HexValue(c) == d
  {
    assert HEX_LOWER[10] == 'a' && HEX_LOWER[11] == 'b' && HEX_LOWER[12] == 'c' && HEX_LOWER[13] == 'd' && HEX_LOWER[14] == 'e' && HEX_LOWER[15] == 'f';
    assert HEX_UPPER[10] == 'A' && HEX_UPPER[11] == 'B' && HEX_UPPER[12] == 'C' && HEX_UPPER[13] == 'D' && HEX_UPPER[14] == 'E' && HEX_UPPER[15] == 'F';
    assert d < 10 ==> HEX_LOWER[d] == HEX_UPPER[d] == DigitChar(d);
  }

  lemma HexIsDigit(c: byte)
    requires IsHex(c)
    ensures HexDigit(c, HexValue(c))
  {
    assert HEX_LOWER[10] == 'a' && HEX_LOWER[11] == 'b' && HEX_LOWER[12] == 'c' && HEX_LOWER[13] == 'd' && HEX_LOWER[14] == 'e' && HEX_LOWER[15] == 'f';
    assert HEX_UPPER[10] == 'A' && HEX_UPPER[11] == 'B' && HEX_UPPER[12] == 'C' && HEX_UPPER[13] == 'D' && HEX_UPPER[14] == 'E' && HEX_UPPER[15] == 'F';
    assert forall d: nat :: d < 10 ==> HEX_LOWER[d] == DigitChar(d);
  }

  function Lower(c: byte): byte {
    if 'A' <= c <= 'Z' then (c as int + 32) as char else c
  }

  /** The decimal numeral of `n`, without leading zeros. */
  function Decimal(n: nat): (r: bytes)
    ensures |r| > 0
    ensures forall i :: 0 <= i < |r| ==> IsDigit(r[i])
  {
    if n < 10 then [DigitChar(n)] else Decimal(n / 10) + [DigitChar(n % 10)]
  }

  /** The numeral of a signed integer. */
  function SignedDecimal(v: int): bytes {
    if v < 0 then "-" + Decimal(-v) else Decimal(v)
  }

  /** Reads the longest run of digits, continuing a number whose value so far is `acc`. */
  function ReadDigits(s: bytes, acc: nat): (r: (nat, bytes))
    ensures |r.1| <= |s|
    ensures !IsDigit(Head(r.1))
  {
    if s == [] || !IsDigit(s[0]) then (acc, s)
    else ReadDigits(s[1..], acc * 10 + DigitValue(s[0]))
  }

  lemma {:induction false} DecimalReadsBack(n: nat, rest: bytes)
    ensures ReadDigits(Decimal(n) + rest, 0) == ReadDigits(rest, n)
  {
    if n < 10 {
      assert (Decimal(n) + rest)[1..] == rest;
    } else {
      var last := [DigitChar(n % 10)];
      assert Decimal(n) + rest == Decimal(n / 10) + (last + rest);
      DecimalReadsBack(n / 10, last + rest);
      assert (last + rest)[1..] == rest;
    }
  }

  /** Only zero has a numeral that starts with '0'. */
  lemma {:induction false} DecimalLeadingDigit(n: nat)
    ensures n > 0 ==> Decimal(n)[0] != '0'
    ensures n == 0 ==> Decimal(n) == "0"
  {
    if n >= 10 {
      DecimalLeadingDigit(n / 10);
    }
  }

  function Pow10(k: nat): nat {
    if k == 0 then 1 else 10 * Pow10(k - 1)
  }

  lemma {:induction false} DecimalLength(n: nat, k: nat)
    requires k > 0 && n < Pow10(k)
    ensures |Decimal(n)| <= k
  {
    if n >= 10 {
      assert k > 1;
      assert n / 10 < Pow10(k - 1);
      DecimalLength(n / 10, k - 1);
    }
  }

  lemma {:induction false} DecimalIsLong(n: nat, k: nat)
    requires n >= Pow10(k)
    ensures |Decimal(n)| > k
  {
    if k > 0 {
      assert n >= 10 * Pow10(k - 1);
      PowerIsPositive(k - 1);
      DecimalIsLong(n / 10, k - 1);
    }
  }

  lemma {:induction false} PowerIsPositive(k: nat)
    ensures Pow10(k) > 0
  {
    if k > 0 {
      PowerIsPositive(k - 1);
    }
  }
}
