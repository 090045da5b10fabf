/** Chunked transfer as http/httpclient_parser.cpp sees it: the header that announces it, and
    the header of a chunk (sections 3.3.1 and 4.1 of RFC 7230). */
module ClientChunks {
  import opened Bytes
  import opened HttpText
  import opened HttpClient
  import opened HttpResponse

  // ---------- The header ----------

  /** Equal ignoring case, to a word of small letters. */
  predicate InAnyCase(n: bytes, word: bytes) {
    |n| == |word| && forall i :: 0 <= i < |n| ==> n[i] == word[i] || (n[i] as int + 32 == word[i] as int && 'a' <= word[i] <= 'z')
  }

  lemma AnyCaseIs(n: bytes, word: bytes)
    requires InAnyCase(n, word) && forall i :: 0 <= i < |word| ==> 'a' <= word[i] <= 'z' || word[i] == '-'
    ensures Is(n, word) && forall i :: 0 <= i < |n| ==> IsToken(n[i]) && n[i] != '\r' && n[i] != '\n' && !IsBlank(n[i])
  {
  }

  lemma EncodingName(n: bytes)
    requires InAnyCase(n, "transfer-encoding")
    ensures IsName(n) && Transition(NameState(n), ':') == Move(61, EndName)
  {
    AnyCaseIs(n, "transfer-encoding");
    KeywordsDiverge(n);
  }

  lemma ChunkedArcs()
    ensures Transition(61, ' ') == Move(61, MarkValue)
    ensures Transition(87, '\r') == Move(71, Field) && Transition(71, '\n') == Move(20, Chunked)
    ensures Transition(87, '\n') == Move(20, ChunkedField)
  {
  }

  lemma ChunkedLetters(v: bytes)
    requires InAnyCase(v, "chunked")
    ensures Transition(61, v[0]) == Move(81, MarkValue) && Spells(81, v[1..])
  {
    AnyCaseIs(v, "chunked");
    assert forall i :: 0 <= i < 7 ==> Lower(v[i]) == CHUNKED[i];
    forall i | 0 <= i < |v[1..]| ensures Transition(81 + i, v[1..][i]) == Move(81 + i + 1, Skip) {
      assert v[1..][i] == v[i + 1];
    }
  }

  /** "Transfer-Encoding: chunked", in any case, sets the flag and is reported. */
  lemma EncodingParses(s: Parser, buf: bytes, p: nat, h: Pair)
    requires s.cs == 20 || s.cs == 43
    requires InAnyCase(h.name, "transfer-encoding") && InAnyCase(h.value, "chunked") && At(buf, p, HeaderLine(h))
    ensures var (t, q) := (AfterLine(s, p, h, 20).(chunked := true), p + |HeaderLine(h)|);
      Run(s, buf, p) == Run(t, buf, q) && t.events == s.events + [Header(h.name, h.value)]
  {
    AnyCaseIs(h.value, "chunked");
    assert Stripped(h.value) == h.value;
    LineBounds(buf, p, h);
    LineParts(buf, p, h);
    EncodingName(h.name);
    hide Run, Transition, At, NameState, HeaderLine, WithHeader, Slice, InAnyCase, IsName, Stripped, Spells;
    NameThenColon(s, buf, p, h.name, 61);
    EncodingValue(Named(s, p, h.name, 61), buf, p + |h.name| + 1, h.value);
    HandsOver(s, buf, p, h, 61);
  }

  lemma EncodingValue(t: Parser, buf: bytes, q: nat, v: bytes)
    requires t.cs == 61 && InAnyCase(v, "chunked")
    requires At(buf, q, " ") && At(buf, q + 1, v) && At(buf, q + 8, CRLF)
    ensures Run(t, buf, q) == Run(WithHeader(t.(mark := q + 1), buf, q + 8).(cs := 20, chunked := true), buf, q + 10)
  {
    assert |v| == 7;
    hide Run, Transition, At, Slice, InAnyCase, Spells, WithHeader;
    ChunkedArcs();
    ChunkedLetters(v);
    AtIndex(buf, q, " ", 0);
    AtIndex(buf, q + 1, v, 0);
    MarkStep(t, buf, q, 61);
    MarkStep(t.(mark := q), buf, q + 1, 81);
    EncodingLetters(t.(mark := q + 1, cs := 81), buf, q + 1, v);
    EncodingEnd(t.(mark := q + 1), buf, q + 8);
  }

  lemma EncodingLetters(u: Parser, buf: bytes, q: nat, v: bytes)
    requires |v| == 7 && Spells(81, v[1..]) && At(buf, q, v) && u.cs == 81
    ensures Run(u, buf, q + 1) == Run(u.(cs := 87), buf, q + 7)
  {
    hide Run, At, Spells;
    assert [v[0]] + v[1..] == v && |v[1..]| == 6;
    AtSplit(buf, q, [v[0]], v[1..]);
    SkipWord(u, buf, q + 1, v[1..]);
  }

  lemma EncodingEnd(t: Parser, buf: bytes, p: nat)
    requires At(buf, p, CRLF)
    ensures Run(t.(cs := 87), buf, p) == Run(WithHeader(t, buf, p).(cs := 20, chunked := true), buf, p + 2)
  {
    ChunkedArcs();
    AtIndex(buf, p, CRLF, 0);
    AtIndex(buf, p, CRLF, 1);
    hide Run, Transition, At, Slice;
    One(t.(cs := 87), buf, p);
    One(WithHeader(t, buf, p).(cs := 71), buf, p + 1);
  }

  // ---------- A chunk header ----------

  /** The hex digits of `w` written after a number `acc`. */
  predicate SpellsFrom(w: bytes, acc: nat, v: nat)
    decreases |w|
  {
    if w == [] then v == acc
    else |w| > 0 && HexDigit(w[|w| - 1], v % 16) && SpellsFrom(w[..|w| - 1], acc, v / 16)
  }

  lemma {:induction false} HexIsRead(w: bytes, rest: bytes, acc: nat, v: nat)
    requires SpellsFrom(w, acc, v)
    ensures ReadHex(w + rest, acc) == ReadHex(rest, v)
    decreases |w|
  {
    if w == [] {
      assert w + rest == rest;
    } else {
      var front, last := w[..|w| - 1], w[|w| - 1];
      assert w + rest == front + ([last] + rest);
      HexIsRead(front, [last] + rest, acc, v / 16);
      DigitIsHex(last, v % 16);
      assert ([last] + rest)[1..] == rest;
      assert v == v / 16 * 16 + v % 16;
    }
  }

  lemma {:induction false} SpelledIsHex(w: bytes, acc: nat, v: nat)
    requires SpellsFrom(w, acc, v)
    ensures forall i :: 0 <= i < |w| ==> IsHex(w[i])
    decreases |w|
  {
    if w != [] {
      SpelledIsHex(w[..|w| - 1], acc, v / 16);
      DigitIsHex(w[|w| - 1], v % 16);
      forall i | 0 <= i < |w| ensures IsHex(w[i]) {
        if i < |w| - 1 {
          assert w[i] == w[..|w| - 1][i];
        }
      }
    }
  }

  lemma ChunkMoves(c: byte)
    ensures IsHex(c) ==> Transition(1, c) == Move(2, MarkValue) && Transition(2, c) == Move(2, Skip)
    ensures Transition(2, '\r') == Move(3, ChunkSize) && Transition(3, '\n') == Move(120, Skip)
  {
  }

  lemma {:induction false} SkipHex(s: Parser, buf: bytes, q: nat, w: bytes)
    requires s.cs == 2 && At(buf, q, w) && forall i :: 0 <= i < |w| ==> IsHex(w[i])
    ensures Run(s, buf, q) == Run(s, buf, q + |w|)
    decreases |w|
  {
    hide Run, Transition, IsHex;
    if w != [] {
      assert w == [w[0]] + w[1..];
      AtSplit(buf, q, [w[0]], w[1..]);
      AtIndex(buf, q, w, 0);
      ChunkMoves(w[0]);
      SkipStep(s, buf, q, 2);
      SkipHex(s, buf, q + 1, w[1..]);
    }
  }

  /** strtol reads the whole numeral up to the CR. */
  lemma SizeIsRead(w: bytes, rest: bytes, v: nat)
    requires w != [] && SpellsFrom(w, 0, v) && rest != [] && rest[0] == '\r' && v <= 0x7FFF_FFFF_FFFF_FFFF
    ensures Strtol(w + rest, true) == v
  {
    var s := w + rest;
    SpelledIsHex(w, 0, v);
    assert IsHex(s[0]);
    assert s[0] != '-' && s[0] != '+' && !IsBlank(s[0]) && s[0] != '\r' && s[0] != '\n';
    assert SkipSpaces(s) == s;
    if |s| > 1 {
      assert IsHex(s[1]) || s[1] == '\r';
      assert Lower(s[1]) != 'x';
    }
    HexIsRead(w, rest, 0, v);
    assert ReadHex(rest, v) == v;
    hide SpellsFrom, ReadHex, IsHex;
  }

  /** A chunk header with the size `v` in hex digits of either case: the size is reported as it
      is written, the last chunk is the one of size zero, and what follows is the chunk. */
  lemma ChunkHeaderParses(w: bytes, v: nat, chunk: bytes)
    requires w != [] && SpellsFrom(w, 0, v) && v < 0x8000_0000
    ensures var buf := w + ("\r\n" + chunk);
      var (t, p) := Run(FRESH, buf, 0);
      && t.cs == 120 && p == |w| + 2 == t.bodyStart && t.chunked && t.contentLen == v && (t.chunksDone <==> v == 0)
      && t.events == [if v == 0 then LastChunk(w) else Chunk(w), Done(chunk)]
  {
    var rest := "\r\n" + chunk;
    var buf := w + rest;
    SpelledIsHex(w, 0, v);
    ChunkMoves(w[0]);
    AtStartOf(buf, w, rest);
    assert w == [w[0]] + w[1..];
    AtSplit(buf, 0, [w[0]], w[1..]);
    MarkStep(FRESH, buf, 0, 2);
    var s := FRESH.(cs := 2, mark := 0);
    SkipHex(s, buf, 1, w[1..]);
    SizeIsRead(w, rest, v);
    assert buf[0..] == buf;
    FitsInt(v);
    hide Strtol, ToInt, SpellsFrom;
    assert NumberAt(s, buf, true) == v;
    hide NumberAt;
    assert Slice(buf, 0, |w|) == w;
    assert buf[|w|] == '\r' && buf[|w| + 1] == '\n' && buf[|w| + 2..] == chunk;
    ChunkLineEnds(s, buf, |w|);
    assert WithChunk(s, buf, |w|).events == [if v == 0 then LastChunk(w) else Chunk(w)];
  }

  lemma ChunkLineEnds(s: Parser, buf: bytes, p: nat)
    requires s.cs == 2 && p + 2 <= |buf| && buf[p] == '\r' && buf[p + 1] == '\n'
    ensures var t := WithChunk(s, buf, p).(cs := 120, bodyStart := p + 2);
      Run(s, buf, p) == (t.(events := t.events + [Done(buf[p + 2..])]), p + 2)
  {
    ChunkMoves('0');
    hide Transition, NumberAt, Slice;
    var t := WithChunk(s, buf, p).(cs := 3);
    assert Advance(s, buf, p) == t;
    assert Advance(t, buf, p + 1) == t.(cs := 120);
    assert Run(t, buf, p + 1) == (WithBody(t.(cs := 120), buf, p + 1), p + 2);
  }

  lemma AtStartOf(buf: bytes, a: bytes, b: bytes)
    requires buf == a + b
    ensures At(buf, 0, a) && At(buf, |a|, b)
  {
  }

  // ---------- strtol ----------

  predicate Spaces(w: bytes) {
    forall i :: 0 <= i < |w| ==> w[i] == ' ' || 9 <= w[i] as int <= 13
  }

  lemma {:induction false} SpacesSkipped(w: bytes, rest: bytes)
    requires Spaces(w) && (rest == [] || !(rest[0] == ' ' || 9 <= rest[0] as int <= 13))
    ensures SkipSpaces(w + rest) == rest
  {
    if w == [] {
      assert w + rest == rest;
    } else {
      assert (w + rest)[1..] == w[1..] + rest;
      SpacesSkipped(w[1..], rest);
    }
  }

  /** strtol in base ten takes blanks, a sign and a numeral, up to the first character that is no
      digit, and keeps to the range of a 64-bit long. */
  lemma StrtolReads(w: bytes, sign: bytes, n: nat, rest: bytes)
    requires Spaces(w) && (sign == "" || sign == "+" || sign == "-") && (rest != [] ==> !IsDigit(rest[0]))
    ensures Strtol(w + (sign + (Decimal(n) + rest)), false) ==
      if sign == "-" then (if n > 0x8000_0000_0000_0000 then -0x8000_0000_0000_0000 else 0 - n)
      else if n > 0x7FFF_FFFF_FFFF_FFFF then 0x7FFF_FFFF_FFFF_FFFF else n
  {
    var digits := Decimal(n) + rest;
    var t := sign + digits;
    assert IsDigit(digits[0]);
    SpacesSkipped(w, t);
    DecimalReadsBack(n, rest);
    assert ReadDigits(rest, n).0 == n;
    hide Decimal, ReadDigits, SkipSpaces, ReadHex;
    if sign == "" {
      assert t == digits;
    } else {
      assert t[1..] == digits && t[0] == sign[0];
    }
  }
}
