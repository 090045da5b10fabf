/** The byte deque of net/Buffer.h and net/Buffer.cpp: one vector with a reader and a writer
    index, and big-endian integers in it. */
module Buffer {
  import opened Bytes

  const PREPEND: nat := 8
  const EXTRA: nat := 65536

  // ---------- Big-endian integers ----------

  function Pow256(n: nat): (r: nat)
    ensures r > 0
  {
    if n == 0 then 1 else 256 * Pow256(n - 1)
  }

  /** The last `n` base-256 digits of `u`, most significant first. */
  function Encode(u: nat, n: nat): (r: bytes)
    ensures |r| == n
  {
    if n == 0 then [] else Encode(u / 256, n - 1) + [(u % 256) as char]
  }

  function Decode(b: bytes): nat {
    if b == [] then 0 else 256 * Decode(b[..|b| - 1]) + b[|b| - 1] as int
  }

  /** The values of a signed integer of `n` bytes. */
  predicate FitsIn(x: int, n: nat) {
    0 - Pow256(n) <= 2 * x < Pow256(n)
  }

  /** htobe: the two's complement bytes of `x` in network order. */
  function ToNetwork(x: int, n: nat): (r: bytes)
    requires FitsIn(x, n)
    ensures |r| == n
  {
    Encode(if x < 0 then x + Pow256(n) else x, n)
  }

  /** betoh, of a signed type. */
  function FromNetwork(b: bytes): int {
    var u := Decode(b);
    if 2 * u < Pow256(|b|) then u else u - Pow256(|b|)
  }

  lemma {:induction false} DecodeEncode(u: nat, n: nat)
    requires u < Pow256(n)
    ensures Decode(Encode(u, n)) == u
  {
    if n > 0 {
      var front := Encode(u / 256, n - 1);
      assert Encode(u, n)[..n - 1] == front;
      DecodeEncode(u / 256, n - 1);
    }
  }

  lemma {:induction false} EncodeDecode(b: bytes)
    ensures Decode(b) < Pow256(|b|) && Encode(Decode(b), |b|) == b
  {
    if b != [] {
      var front, last := b[..|b| - 1], b[|b| - 1];
      EncodeDecode(front);
      assert b == front + [last];
      assert Decode(b) / 256 == Decode(front) && Decode(b) % 256 == last as int;
    }
  }

  /** Integers of every width read back as written. */
  lemma NetworkRoundTrip(x: int, n: nat)
    requires FitsIn(x, n)
    ensures FromNetwork(ToNetwork(x, n)) == x
  {
    DecodeEncode(if x < 0 then x + Pow256(n) else x, n);
  }

  /** ... and every group of bytes is the encoding of the integer it reads as. */
  lemma NetworkIsOnto(b: bytes)
    requires b != []
    ensures FitsIn(FromNetwork(b), |b|) && ToNetwork(FromNetwork(b), |b|) == b
  {
    EncodeDecode(b);
  }

  /** Network order, in the widths the source has: the most significant byte comes first. */
  lemma NetworkOrder(u: nat)
    ensures Encode(u, 1) == [Byte(u)]
    ensures Encode(u, 2) == [Byte(u / 0x100), Byte(u)]
    ensures Encode(u, 4) == [Byte(u / 0x100_0000), Byte(u / 0x1_0000), Byte(u / 0x100), Byte(u)]
    ensures Encode(u, 8) == Encode(u / 0x1_0000_0000, 4) + Encode(u, 4)
  {
    Highs(u);
    InBytes(u);
    hide Encode, Byte, High;
  }

  lemma InBytes(u: nat)
    ensures Encode(u, 1) == [Byte(u)] && Encode(u, 2) == [Byte(High(u, 1)), Byte(u)]
    ensures Encode(u, 4) == [Byte(High(u, 3)), Byte(High(u, 2)), Byte(High(u, 1)), Byte(u)]
    ensures Encode(u, 8) == Encode(High(u, 4), 4) + Encode(u, 4)
  {
    hide Encode, Byte, High;
    OneByte(u);
    FrontByte(u, 1);
    FrontByte(u, 2);
    FrontByte(u, 3);
    FourBytes(u, Byte(High(u, 3)), Byte(High(u, 2)), Byte(High(u, 1)), Byte(u));
    Splits(u, 4, 4);
  }

  lemma FourBytes(u: nat, a: byte, b: byte, c: byte, d: byte)
    requires Encode(u, 1) == [d] && Encode(u, 2) == [c] + Encode(u, 1)
    requires Encode(u, 3) == [b] + Encode(u, 2) && Encode(u, 4) == [a] + Encode(u, 3)
    ensures Encode(u, 2) == [c, d] && Encode(u, 4) == [a, b, c, d]
  {
    hide Encode;
  }

  lemma FrontByte(u: nat, n: nat)
    ensures Encode(u, n + 1) == [Byte(High(u, n))] + Encode(u, n)
  {
    hide Encode, Byte, High;
    OneByte(High(u, n));
    Splits(u, 1, n);
  }

  function Byte(u: nat): byte {
    (u % 0x100) as char
  }

  /** `u` without its last `n` bytes. */
  function High(u: nat, n: nat): nat {
    if n == 0 then u else High(u / 0x100, n - 1)
  }

  lemma Highs(u: nat)
    ensures High(u, 1) == u / 0x100 && High(u, 2) == u / 0x1_0000 && High(u, 3) == u / 0x100_0000
    ensures High(u, 4) == u / 0x1_0000_0000
  {
    var a, b, c := u / 0x100, u / 0x100 / 0x100, u / 0x100 / 0x100 / 0x100;
    assert High(u, 1) == High(a, 0) && High(u, 2) == High(a, 1) == High(b, 0);
    assert High(u, 3) == High(a, 2) == High(b, 1) == High(c, 0);
    assert High(u, 4) == High(a, 3) == High(b, 2) == High(c, 1) == High(c / 0x100, 0);
    hide High;
  }

  lemma OneByte(u: nat)
    ensures Encode(u, 1) == [Byte(u)]
  {
    assert Encode(u / 256, 0) == [];
  }

  /** The last `n` bytes do not depend on the others. */
  lemma {:induction false} Splits(u: nat, m: nat, n: nat)
    ensures Encode(u, m + n) == Encode(High(u, n), m) + Encode(u, n)
    decreases n
  {
    if n > 0 {
      Splits(u / 256, m, n - 1);
      var last := [(u % 256) as char];
      assert Encode(u, m + n) == Encode(u / 256, m + n - 1) + last;
      assert (Encode(High(u, n), m) + Encode(u / 256, n - 1)) + last == Encode(High(u, n), m) + (Encode(u / 256, n - 1) + last);
    }
  }

  lemma NetworkExamples()
    ensures ToNetwork(1, 1) == [1 as char] && ToNetwork(0x0102, 2) == [1 as char, 2 as char]
    ensures ToNetwork(-2, 2) == [255 as char, 254 as char]
    ensures ToNetwork(0x01020304, 4) == [1 as char, 2 as char, 3 as char, 4 as char]
  {
    assert Pow256(1) == 256 && Pow256(2) == 65536;
    assert Pow256(4) == 65536 * 65536;
    assert Encode(0x0102, 2) == Encode(1, 1) + [2 as char] && Encode(1, 1) == Encode(0, 0) + [1 as char];
    assert Encode(0xFFFE, 2) == Encode(0xFF, 1) + [254 as char] && Encode(0xFF, 1) == Encode(0, 0) + [255 as char];
    assert Encode(0x01020304, 4) == Encode(0x010203, 3) + [4 as char];
    assert Encode(0x010203, 3) == Encode(0x0102, 2) + [3 as char];
  }

  // ---------- Slices ----------

  lemma TailSlice(a: bytes, k: nat, n: nat)
    requires k <= n <= |a|
    ensures a[k..n] == a[k..][..n - k]
  {
  }

  lemma HeadSlice(a: bytes, k: nat, n: nat)
    requires k <= n <= |a|
    ensures a[k..n] == a[..n][k..]
  {
  }

  lemma Grown(a: bytes, b: bytes, k: nat, n: nat)
    requires k <= n <= |a| <= |b| && b[..|a|] == a
    ensures b[k..n] == a[k..n]
  {
    forall i | k <= i < n ensures b[i] == a[i] {
      assert b[..|a|][i] == b[i];
    }
  }

  lemma Joined(a: bytes, i: nat, j: nat, k: nat)
    requires i <= j <= k <= |a|
    ensures a[i..k] == a[i..j] + a[j..k]
  {
  }

  // ---------- The deque ----------

  class Buffer {
    var data: array<byte>      // buffer_
    var readerIndex: nat
    var writerIndex: nat

    ghost predicate Valid()
      reads this, data
    {
      readerIndex <= writerIndex <= data.Length && PREPEND <= data.Length
    }

    /** The readable bytes. */
    ghost function Contents(): (r: bytes)
      requires Valid()
      reads this, data
    {
      data[readerIndex..writerIndex]
    }

    constructor (initialSize: nat)
      ensures Valid() && fresh(data) && Contents() == []
      ensures readerIndex == 8 && WriteableBytes() == initialSize
    {
      data := new byte[PREPEND + initialSize](_ => '\0');
      readerIndex, writerIndex := PREPEND, PREPEND;
    }

    function ReadableBytes(): (r: nat)
      requires Valid()
      reads this, data
      ensures r == |Contents()|
    {
      writerIndex - readerIndex
    }

    function WriteableBytes(): nat
      requires Valid()
      reads this, data
    {
      data.Length - writerIndex
    }

    /** std::copy from `src[from..end]` to `dst` at `to`, one byte at a time, forwards; the two
        may be the same array when the copy moves down. */
    static method Copy(src: array<byte>, from: nat, end: nat, dst: array<byte>, to: nat)
      requires from <= end <= src.Length && to + (end - from) <= dst.Length
      requires src == dst ==> to <= from
      modifies dst
      ensures dst[to..to + (end - from)] == old(src[from..end])
      ensures dst[..to] == old(dst[..to]) && dst[to + (end - from)..] == old(dst[to + (end - from)..])
    {
      ghost var was := src[from..end];
      var first, result := from, to;
      while first != end
        invariant from <= first <= end && result == to + (first - from)
        invariant forall k :: to <= k < result ==> dst[k] == was[k - to]
        invariant forall k :: 0 <= k < to || result <= k < dst.Length ==> dst[k] == old(dst[k])
        decreases end - first
      {
        assert src[first] == was[first - from];
        dst[result] := src[first];
        first, result := first + 1, result + 1;
      }
    }

    /** std::copy of bytes that are not in the buffer. */
    static method CopyIn(src: bytes, dst: array<byte>, to: nat)
      requires to + |src| <= dst.Length
      modifies dst
      ensures dst[to..to + |src|] == src
      ensures dst[..to] == old(dst[..to]) && dst[to + |src|..] == old(dst[to + |src|..])
    {
      var first, result := 0, to;
      while first < |src|
        invariant 0 <= first <= |src| && result == to + first
        invariant forall k :: to <= k < result ==> dst[k] == src[k - to]
        invariant forall k :: 0 <= k < to || result <= k < dst.Length ==> dst[k] == old(dst[k])
      {
        dst[result] := src[first];
        first, result := first + 1, result + 1;
      }
    }

    /** vector::resize to a larger size. */
    method Resize(size: nat)
      requires Valid() && size >= data.Length
      modifies `data
      ensures Valid() && fresh(data) && data.Length == size && Contents() == old(Contents())
    {
      var larger := new byte[size](_ => '\0');
      Copy(data, 0, data.Length, larger, 0);
      assert larger[..][..data.Length] == larger[0..data.Length] == data[0..data.Length] == data[..];
      Grown(data[..], larger[..], readerIndex, writerIndex);
      assert data[readerIndex..writerIndex] == data[..][readerIndex..writerIndex];
      data := larger;
      assert Contents() == larger[..][readerIndex..writerIndex];
    }

    /** Makes room by growing, or by moving the contents down to the prepend area. */
    method MakeSpace(len: nat)
      requires Valid() && WriteableBytes() < len
      modifies this, data
      ensures Valid() && (data == old(data) || fresh(data))
      ensures Contents() == old(Contents()) && WriteableBytes() >= len
      ensures old(WriteableBytes()) + old(readerIndex) >= len + 8 ==> data == old(data) && readerIndex == 8
    {
      if WriteableBytes() + readerIndex < len + PREPEND {
        Resize(writerIndex + len);
      } else {
        assert PREPEND < readerIndex;
        var readable := ReadableBytes();
        Copy(data, readerIndex, writerIndex, data, PREPEND);
        readerIndex := PREPEND;
        writerIndex := readerIndex + readable;
        assert readable == ReadableBytes();
      }
    }

    method EnsureWritableBytes(len: nat)
      requires Valid()
      modifies this, data
      ensures Valid() && (data == old(data) || fresh(data))
      ensures Contents() == old(Contents()) && WriteableBytes() >= len
    {
      if WriteableBytes() < len {
        MakeSpace(len);
      }
    }

    method Append(s: bytes)
      requires Valid()
      modifies this, data
      ensures Valid() && (data == old(data) || fresh(data))
      ensures Contents() == old(Contents()) + s
    {
      EnsureWritableBytes(|s|);
      FillRoom(s);
    }

    /** Needs room before the contents, as the source asserts. */
    method Prepend(s: bytes)
      requires Valid() && |s| <= readerIndex
      modifies this, data
      ensures Valid() && data == old(data)
      ensures Contents() == s + old(Contents())
    {
      var start := readerIndex - |s|;
      ghost var before := data[..];
      CopyIn(s, data, start);
      ghost var after := data[..];
      assert after[readerIndex..] == before[readerIndex..];
      TailSlice(before, readerIndex, writerIndex);
      TailSlice(after, readerIndex, writerIndex);
      assert after[start..readerIndex] == s;
      Joined(after, start, readerIndex, writerIndex);
      readerIndex := start;
      assert Contents() == after[start..writerIndex];
    }

    method RetrieveAll()
      requires Valid()
      modifies `readerIndex, `writerIndex
      ensures Valid() && Contents() == [] && readerIndex == 8
    {
      readerIndex, writerIndex := PREPEND, PREPEND;
    }

    method Retrieve(len: nat)
      requires Valid() && len <= ReadableBytes()
      modifies `readerIndex, `writerIndex
      ensures Valid() && Contents() == old(Contents())[len..]
    {
      if len < ReadableBytes() {
        readerIndex := readerIndex + len;
      } else {
        RetrieveAll();
      }
    }

    method RetrieveAsString(len: nat) returns (s: bytes)
      requires Valid() && len <= ReadableBytes()
      modifies `readerIndex, `writerIndex
      ensures Valid() && old(Contents()) == s + Contents() && |s| == len
    {
      s := data[readerIndex..readerIndex + len];
      assert data[readerIndex..writerIndex] == s + data[readerIndex + len..writerIndex];
      Retrieve(len);
    }

    /** appendInt64, appendInt32, appendInt16 and appendInt8, by the width in bytes. */
    method AppendInt(x: int, width: nat)
      requires Valid() && FitsIn(x, width)
      modifies this, data
      ensures Valid() && (data == old(data) || fresh(data))
      ensures Contents() == old(Contents()) + ToNetwork(x, width)
    {
      Append(ToNetwork(x, width));
    }

    method PrependInt(x: int, width: nat)
      requires Valid() && FitsIn(x, width) && width <= readerIndex
      modifies this, data
      ensures Valid() && data == old(data)
      ensures Contents() == ToNetwork(x, width) + old(Contents())
    {
      Prepend(ToNetwork(x, width));
    }

    method PeekInt(width: nat) returns (x: int)
      requires Valid() && width <= ReadableBytes()
      ensures x == FromNetwork(Contents()[..width])
    {
      assert Contents()[..width] == data[readerIndex..readerIndex + width];
      x := FromNetwork(data[readerIndex..readerIndex + width]);
    }

    /** readInt64 and the others: what comes back is the integer whose bytes the contents start
        with. */
    method ReadInt(width: nat) returns (x: int)
      requires Valid() && 0 < width <= ReadableBytes()
      modifies `readerIndex, `writerIndex
      ensures Valid() && FitsIn(x, width) && old(Contents()) == ToNetwork(x, width) + Contents()
    {
      x := PeekInt(width);
      NetworkIsOnto(Contents()[..width]);
      assert Contents() == Contents()[..width] + Contents()[width..];
      Retrieve(width);
    }

    /** readFd: `incoming` is what readv delivers, into the room left and then into a buffer of
        64 KiB on the stack; None is an error. */
    method ReadFd(incoming: Option<bytes>) returns (n: int)
      requires Valid()
      requires incoming.Some? ==>
        |incoming.value| <= if WriteableBytes() < EXTRA then WriteableBytes() + EXTRA else WriteableBytes()
      modifies this, data
      ensures Valid() && (data == old(data) || fresh(data))
      ensures incoming.None? ==> n == -1 && Contents() == old(Contents())
      ensures incoming.Some? ==> n == |incoming.value| && Contents() == old(Contents()) + incoming.value
    {
      if incoming.None? {
        return -1;
      }
      var s := incoming.value;
      var writable := WriteableBytes();
      n := |s|;
      if |s| <= writable {
        FillRoom(s);
      } else {
        FillRoom(s[..writable]);
        Append(s[writable..]);
        assert s == s[..writable] + s[writable..];
        assert old(Contents()) + s == (old(Contents()) + s[..writable]) + s[writable..];
      }
    }

    /** Bytes written after the contents, and hasWritten. */
    method FillRoom(s: bytes)
      requires Valid() && |s| <= WriteableBytes()
      modifies this, data
      ensures Valid() && data == old(data) && Contents() == old(Contents()) + s
    {
      ghost var before := data[..];
      CopyIn(s, data, writerIndex);
      ghost var after, mid := data[..], writerIndex;
      assert after[..mid] == before[..mid] && after[mid..mid + |s|] == s;
      HeadSlice(before, readerIndex, mid);
      HeadSlice(after, readerIndex, mid);
      Joined(after, readerIndex, mid, mid + |s|);
      writerIndex := writerIndex + |s|;
      assert Contents() == after[readerIndex..writerIndex];
    }
  }
}
