/** The notation of header lines both HTTP automata read and the response printer writes, and
    facts about the places of a text in a buffer. */
module HttpText {
  import opened Bytes

  predicate IsToken(c: byte) {
    c == '!' || '#' <= c <= '\'' || '*' <= c <= '+' || '-' <= c <= '.' || IsDigit(c)
    || 'A' <= c <= 'Z' || '^' <= c <= 'z' || c == '|' || c == '~'
  }

  /** The `len` bytes from `at` on; a slice that leaves the buffer reads as empty. */
  function Slice(buf: bytes, at: nat, len: int): bytes {
    if 0 <= len && at + len <= |buf| then buf[at..at + len] else []
  }

  datatype Pair = Pair(name: bytes, value: bytes)

  const CRLF: bytes := "\r\n"

  function HeaderLine(h: Pair): bytes {
    h.name + (": " + (h.value + CRLF))
  }

  function HeaderLines(hs: seq<Pair>): bytes {
    if hs == [] then [] else HeaderLine(hs[0]) + HeaderLines(hs[1..])
  }

  predicate IsName(n: bytes) {
    n != [] && forall i :: 0 <= i < |n| ==> IsToken(n[i])
  }

  predicate OneLine(v: bytes) {
    forall i :: 0 <= i < |v| ==> v[i] != '\r' && v[i] != '\n'
  }

  // ---------- Reading pieces of a buffer ----------

  /** The bytes of `buf` from `p` on start with `piece`. */
  predicate At(buf: bytes, p: nat, piece: bytes) {
    p + |piece| <= |buf| && buf[p..p + |piece|] == piece
  }

  lemma AtSplit(buf: bytes, p: nat, a: bytes, b: bytes)
    requires At(buf, p, a + b)
    ensures At(buf, p, a) && At(buf, p + |a|, b)
  {
    assert buf[p..p + |a|] == (a + b)[..|a|] == a;
    assert buf[p + |a|..p + |a| + |b|] == (a + b)[|a|..] == b;
  }

  lemma AtIndex(buf: bytes, p: nat, piece: bytes, i: nat)
    requires At(buf, p, piece) && i < |piece|
    ensures p + i < |buf| && buf[p + i] == piece[i]
  {
    assert buf[p..p + |piece|][i] == piece[i];
  }

  lemma SliceAt(buf: bytes, p: nat, piece: bytes)
    requires At(buf, p, piece)
    ensures Slice(buf, p, |piece|) == piece
  {
  }

  lemma LineParts(buf: bytes, p: nat, h: Pair)
    requires At(buf, p, HeaderLine(h))
    ensures At(buf, p, h.name + ":") && At(buf, p, h.name) && At(buf, p + |h.name| + 1, " ")
    ensures At(buf, p + |h.name| + 2, h.value + CRLF)
    ensures At(buf, p + |h.name| + 2, h.value)
    ensures At(buf, p + |h.name| + 2 + |h.value|, CRLF)
  {
    assert HeaderLine(h) == (h.name + ":") + (" " + (h.value + CRLF));
    hide At, HeaderLine;
    AtSplit(buf, p, h.name + ":", " " + (h.value + CRLF));
    AtSplit(buf, p, h.name, ":");
    AtSplit(buf, p + |h.name| + 1, " ", h.value + CRLF);
    AtSplit(buf, p + |h.name| + 2, h.value, CRLF);
  }

  lemma LineBounds(buf: bytes, p: nat, h: Pair)
    requires At(buf, p, HeaderLine(h))
    ensures |HeaderLine(h)| == |h.name| + |h.value| + 4 && p + |HeaderLine(h)| <= |buf|
  {
  }

  lemma Suffix(buf: bytes, q: nat, v: bytes, k: nat)
    requires At(buf, q, v) && k <= |v|
    ensures buf[q + k..q + |v|] == v[k..]
  {
  }
}
