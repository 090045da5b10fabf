/** Integers in the log stream of base/LogStream.h and base/LogStream.cpp: digits written
    backwards into the buffer and reversed in place. */
module LogStream {
  import opened Bytes

  const MAX_NUMERIC_SIZE: nat := 21

  /** The values of the source's integer types. */
  predicate IsInteger(v: int) {
    -0x8000_0000_0000_0000 <= v < 0x1_0000_0000_0000_0000
  }

  /** The integer a numeral stands for. */
  function Read(s: bytes): int {
    if s != [] && s[0] == '-' then 0 - ReadDigits(s[1..], 0).0 else ReadDigits(s, 0).0
  }

  /** Every integer reads back from its text. */
  lemma TextReadsBack(v: int)
    ensures Read(SignedDecimal(v)) == v
  {
    var n := if v < 0 then -v else v;
    DecimalReadsBack(n, []);
    assert Decimal(n) + [] == Decimal(n);
    if v < 0 {
      assert SignedDecimal(v)[1..] == Decimal(n);
    }
  }

  /** No integer of the source's types takes more than 20 characters, so 21 bytes hold it and
      the NUL that convert writes. */
  lemma TextFits(v: int)
    requires IsInteger(v)
    ensures |SignedDecimal(v)| <= 20
  {
    assert Pow10(5) == 10_0000 && Pow10(10) == 10_0000 * Pow10(5) && Pow10(15) == 10_0000 * Pow10(10);
    assert Pow10(19) == 1_0000 * Pow10(15) && Pow10(20) == 10 * Pow10(19);
    if v < 0 {
      DecimalLength(-v, 19);
    } else {
      DecimalLength(v, 20);
    }
  }

  // ---------- Reversal ----------

  function Reversed(s: bytes): (r: bytes)
    ensures |r| == |s|
  {
    if s == [] then [] else Reversed(s[1..]) + [s[0]]
  }

  lemma {:induction false} ReversedAt(s: bytes, k: nat)
    requires k < |s|
    ensures Reversed(s)[k] == s[|s| - 1 - k]
  {
    if k < |s| - 1 {
      ReversedAt(s[1..], k);
    }
  }

  lemma {:induction false} ReversedAppend(s: bytes, c: byte)
    ensures Reversed(s + [c]) == [c] + Reversed(s)
  {
    if s == [] {
      assert s + [c] == [c] && [c][1..] == [];
    } else {
      assert (s + [c])[1..] == s[1..] + [c];
      ReversedAppend(s[1..], c);
    }
  }

  lemma ReversedTwice(s: bytes)
    ensures Reversed(Reversed(s)) == s
  {
    forall k | 0 <= k < |s| ensures Reversed(Reversed(s))[k] == s[k] {
      ReversedAt(Reversed(s), k);
      ReversedAt(s, |s| - 1 - k);
    }
  }

  /** A buffer being reversed: the characters of the range outside `i..j` are turned, and the
      others are not yet. */
  ghost predicate Turned(before: bytes, now: bytes, first: nat, last: nat, i: nat, j: nat)
    requires first <= last <= |before| == |now| && i <= last && first <= j <= last
  {
    && (forall k :: first <= k < i || j <= k < last ==> now[k] == before[first + last - 1 - k])
    && (forall k :: 0 <= k < first || i <= k < j || last <= k < |now| ==> now[k] == before[k])
  }

  lemma TurnsOneMore(before: bytes, was: bytes, first: nat, last: nat, i: nat, j: nat)
    requires first <= last <= |before| == |was| && first <= i < j - 1 && j <= last && i - first == last - j
    requires Turned(before, was, first, last, i, j)
    ensures Turned(before, was[i := was[j - 1]][j - 1 := was[i]], first, last, i + 1, j - 1)
  {
  }

  lemma TurnedIsReversed(before: bytes, after: bytes, first: nat, last: nat, i: nat, j: nat)
    requires first <= last <= |before| == |after| && i - first == last - j && j <= i + 1 && i <= last && first <= j && Turned(before, after, first, last, i, j)
    ensures after[first..last] == Reversed(before[first..last])
    ensures after[..first] == before[..first] && after[last..] == before[last..]
  {
    var was := before[first..last];
    forall k | 0 <= k < last - first ensures after[first..last][k] == Reversed(was)[k] {
      ReversedAt(was, k);
      assert after[first + k] == before[last - 1 - k];
    }
  }

  method Swap(buf: array<byte>, i: nat, j: nat)
    requires i < j < buf.Length
    modifies buf
    ensures buf[..] == old(buf[..])[i := old(buf[j])][j := old(buf[i])]
  {
    buf[i], buf[j] := buf[j], buf[i];
  }

  /** std::reverse. */
  method Reverse(buf: array<byte>, first: nat, last: nat)
    requires first <= last <= buf.Length
    modifies buf
    ensures buf[first..last] == Reversed(old(buf[first..last]))
    ensures buf[..first] == old(buf[..first]) && buf[last..] == old(buf[last..])
  {
    ghost var before := buf[..];
    var i, j: nat := first, last;
    while i < j && i < j - 1
      invariant first <= i <= j + 1 && j <= last && i - first == last - j && i <= last && first <= j
      invariant |before| == buf.Length
      invariant Turned(before, buf[..], first, last, i, j)
      decreases j - i
    {
      ghost var was := buf[..];
      j := j - 1;
      Swap(buf, i, j);
      TurnsOneMore(before, was, first, last, i, j + 1);
      i := i + 1;
    }
    TurnedIsReversed(before, buf[..], first, last, i, j);
    assert buf[..][first..last] == buf[first..last] && before[first..last] == old(buf[first..last]);
    assert buf[..][..first] == buf[..first] && buf[..][last..] == buf[last..];
  }

  // ---------- convert ----------

  /** `/` and `%` of C, which round towards zero. */
  function Quotient(i: int): int {
    if i < 0 then -((-i) / 10) else i / 10
  }

  function Remainder(i: int): int {
    i - 10 * Quotient(i)
  }

  const DIGITS: bytes := "9876543210123456789"

  function Magnitude(i: int): nat {
    if i < 0 then -i else i
  }

  /** The character looked up for the last digit, of either sign, is that digit's. */
  lemma LastDigit(i: int)
    ensures -9 <= Remainder(i) <= 9 && DIGITS[9 + Remainder(i)] == DigitChar(Magnitude(i) % 10)
    ensures Magnitude(Quotient(i)) == Magnitude(i) / 10 && (Quotient(i) != 0 ==> Magnitude(i) >= 10)
  {
    var d := Magnitude(i) % 10;
    assert Remainder(i) == if i < 0 then -d else d;
    hide Quotient, Remainder, Magnitude;
    DigitsAreDigits(d);
  }

  lemma DigitsAreDigits(d: nat)
    requires d < 10
    ensures DIGITS[9 + d] == DigitChar(d) && DIGITS[9 - d] == DigitChar(d)
  {
    assert d in {0, 1, 2, 3, 4, 5, 6, 7, 8, 9};
  }

  /** The numeral, last digit first: what the loop still has to write for `i`. */
  function Backwards(i: int): bytes {
    Reversed(Decimal(Magnitude(i)))
  }

  lemma BackwardsStep(i: int)
    ensures var c := DigitChar(Magnitude(i) % 10);
      Backwards(i) == if Quotient(i) == 0 then [c] else [c] + Backwards(Quotient(i))
  {
    LastDigit(i);
    var n := Magnitude(i);
    if n < 10 {
      assert Decimal(n)[1..] == [];
    } else {
      ReversedAppend(Decimal(n / 10), DigitChar(n % 10));
    }
  }

  /** The reversed numeral is the text, sign included. */
  lemma BackwardsIsText(value: int)
    ensures value >= 0 ==> Reversed(Backwards(value)) == SignedDecimal(value)
    ensures value < 0 ==> Reversed(Backwards(value) + ['-']) == SignedDecimal(value)
    ensures |SignedDecimal(value)| == |Decimal(Magnitude(value))| + (if value < 0 then 1 else 0)
  {
    ReversedTwice(Decimal(Magnitude(value)));
    ReversedAppend(Backwards(value), '-');
    hide Decimal, Reversed;
  }

  method PutChar(buf: array<byte>, at: nat, p: nat, c: byte)
    requires at <= p < buf.Length
    modifies buf
    ensures buf[at..p + 1] == old(buf[at..p]) + [c] && buf[at..p] == old(buf[at..p])
    ensures buf[..at] == old(buf[..at]) && buf[p] == c
  {
    buf[p] := c;
  }

  /** convert, for any of the integer types: the text of `value` from `at` on, and a NUL. */
  method Convert(buf: array<byte>, at: nat, value: int) returns (len: nat)
    requires IsInteger(value) && at + MAX_NUMERIC_SIZE <= buf.Length
    modifies buf
    ensures len == |SignedDecimal(value)| && at + len < buf.Length
    ensures buf[at..at + len] == SignedDecimal(value) && buf[at + len] == '\0'
    ensures buf[..at] == old(buf[..at])
  {
    TextFits(value);
    hide SignedDecimal, Reversed;
    var p := WriteBackwards(buf, at, value);
    Terminate(buf, at, p);
    len := p - at;
    assert at + len == p;
  }

  /** The digits and the sign. */
  method WriteBackwards(buf: array<byte>, at: nat, value: int) returns (p: nat)
    requires at + |SignedDecimal(value)| < buf.Length
    modifies buf
    ensures p == at + |SignedDecimal(value)| && Reversed(buf[at..p]) == SignedDecimal(value)
    ensures buf[..at] == old(buf[..at])
  {
    BackwardsIsText(value);
    hide Decimal, Reversed, Backwards, SignedDecimal, Magnitude;
    p := WriteDigits(buf, at, value);
    p := PutSign(buf, at, p, value);
  }

  method PutSign(buf: array<byte>, at: nat, p: nat, value: int) returns (next: nat)
    requires at <= p < buf.Length
    modifies buf
    ensures next == (if value < 0 then p + 1 else p) && buf[..at] == old(buf[..at])
    ensures value < 0 ==> buf[at..next] == old(buf[at..p]) + ['-']
    ensures value >= 0 ==> buf[at..next] == old(buf[at..p])
  {
    next := p;
    if value < 0 {
      PutChar(buf, at, p, '-');
      next := p + 1;
    }
  }

  /** The end of convert: the NUL, and the reversal of what stands before it. */
  method Terminate(buf: array<byte>, at: nat, p: nat)
    requires at <= p < buf.Length
    modifies buf
    ensures buf[at..p] == Reversed(old(buf[at..p])) && buf[p] == '\0'
    ensures buf[..at] == old(buf[..at])
  {
    hide Reversed;
    PutChar(buf, at, p, '\0');
    Reverse(buf, at, p);
    assert buf[p..][0] == buf[p];
  }

  /** The loop of convert. */
  method WriteDigits(buf: array<byte>, at: nat, value: int) returns (p: nat)
    requires at + |Decimal(Magnitude(value))| <= buf.Length
    modifies buf
    ensures p == at + |Decimal(Magnitude(value))| && buf[at..p] == Backwards(value)
    ensures buf[..at] == old(buf[..at])
  {
    ghost var all := Backwards(value);
    assert |all| == |Decimal(Magnitude(value))|;
    hide Backwards, Decimal, Reversed;
    var i := value;
    p := at;
    var again := true;
    assert buf[at..p] + Backwards(i) == all;
    while again
      invariant at <= p <= at + |all| <= buf.Length
      invariant again ==> all == buf[at..p] + Backwards(i)
      invariant !again ==> all == buf[at..p]
      invariant buf[..at] == old(buf[..at])
      decreases again, Magnitude(i)
    {
      BackwardsStep(i);
      LastDigit(i);
      ghost var done, rest := buf[at..p], Backwards(i);
      var c := LastChar(i);
      i := Quotient(i);
      assert rest == if i == 0 then [c] else [c] + Backwards(i);
      PutChar(buf, at, p, c);
      p := p + 1;
      Shift(done, c, Backwards(i));
      again := i != 0;
    }
  }

  /** zero[i % 10]. */
  method LastChar(i: int) returns (c: byte)
    ensures c == DigitChar(Magnitude(i) % 10)
  {
    LastDigit(i);
    var lsd := Remainder(i);
    c := DIGITS[9 + lsd];
  }

  lemma Shift(a: bytes, c: byte, b: bytes)
    ensures (a + [c]) + b == a + ([c] + b)
  {
  }

  // ---------- The stream ----------

  class FixedBuffer {
    const data: array<byte>
    var cur: nat

    ghost predicate Valid()
      reads this
    {
      cur <= data.Length
    }

    ghost function Contents(): bytes
      requires Valid()
      reads this, data
    {
      data[..cur]
    }

    function Avail(): nat
      requires Valid()
      reads this
    {
      data.Length - cur
    }

    constructor (size: nat)
      ensures Valid() && fresh(data) && data.Length == size && Contents() == []
    {
      data := new byte[size](_ => '\0');
      cur := 0;
    }

    /** FixedBuffer::append: what is longer than the room left, or fills it, is cut to it. */
    method Append(s: bytes)
      requires Valid()
      modifies this, data
      ensures Valid() && Contents() == old(Contents()) + (if |s| <= old(Avail()) then s else s[..old(Avail())])
    {
      var len := if Avail() > |s| then |s| else Avail();
      var k := 0;
      while k < len
        invariant 0 <= k <= len && cur + len <= data.Length && cur == old(cur)
        invariant data[..cur + k] == old(data[..cur]) + s[..k]
      {
        data[cur + k] := s[k];
        assert data[..cur + k + 1] == data[..cur + k] + [s[k]];
        assert s[..k + 1] == s[..k] + [s[k]];
        k := k + 1;
      }
      cur := cur + len;
      assert |s| <= old(Avail()) ==> s[..len] == s;
    }

    /** LogStream::formatInteger: an integer is written whole or not at all. */
    method FormatInteger(v: int)
      requires Valid() && IsInteger(v)
      modifies this, data
      ensures Valid()
      ensures Contents() == old(Contents()) + if old(Avail()) >= 21 then SignedDecimal(v) else []
    {
      if Avail() >= MAX_NUMERIC_SIZE {
        var len := Convert(data, cur, v);
        assert data[..cur + len] == data[..cur] + data[cur..cur + len];
        cur := cur + len;
      } else {
        assert Contents() + [] == Contents();
      }
    }
  }
}
