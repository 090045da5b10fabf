/** The response printer of http/HttpResponse.cpp, and its round trip through the client
    automaton. */
module HttpResponse {
  import opened Bytes
  import opened HttpText
  import opened HttpClient

  /** A response without a file; `headers` is the header map in its own order. */
  datatype Response = Response(status: nat, reason: bytes, close: bool, headers: seq<Pair>, body: bytes)

  /** What snprintf leaves in a char[32]. */
  function Buf32(s: bytes): bytes {
    if |s| < 32 then s else s[..31]
  }

  function LengthLine(n: nat): bytes {
    "Content-Length: " + (Decimal(n) + CRLF)
  }

  function StatusText(status: nat): bytes {
    Buf32("HTTP/1.1 " + (Decimal(status) + " "))
  }

  /** The header lines the printer adds itself. */
  function OwnHeaders(r: Response): bytes {
    if r.close then HeaderLine(Pair("Connection", "close"))
    else Buf32(LengthLine(|r.body|)) + HeaderLine(Pair("Connection", "Keep-Alive"))
  }

  /** The status line and all header lines, with the empty line that ends them. */
  function HeadText(r: Response): bytes {
    StatusText(r.status) + (r.reason + (CRLF + (OwnHeaders(r) + (HeaderLines(r.headers) + CRLF))))
  }

  // ---------- The code ----------

  class Output {
    var content: bytes

    constructor ()
      ensures content == []
    {
      content := [];
    }

    method Append(s: bytes)
      modifies this
      ensures content == old(content) + s
    {
      content := content + s;
    }

    /** HttpResponse::appendToBuffer for a response without a file. */
    method AppendResponse(r: Response)
      modifies this
      ensures content == old(content) + (HeadText(r) + r.body)
    {
      ghost var before := content;
      var buf := Buf32("HTTP/1.1 " + (Decimal(r.status) + " "));
      assert buf == StatusText(r.status);
      hide Buf32, OwnHeaders, HeaderLines, StatusText, Decimal;
      Append(buf);
      Append(r.reason);
      Append("\r\n");
      AppendOwnHeaders(r);
      AppendHeaders(r.headers);
      Append("\r\n");
      Append(r.body);
      Regroup(before, StatusText(r.status), r.reason, OwnHeaders(r), HeaderLines(r.headers), r.body);
    }

    method AppendOwnHeaders(r: Response)
      modifies this
      ensures content == old(content) + OwnHeaders(r)
    {
      CloseLine();
      KeepAliveLine();
      hide HeaderLine, Decimal, Buf32;
      if r.close {
        Append("Connection: close\r\n");
      } else {
        var buf := Buf32("Content-Length: " + (Decimal(|r.body|) + "\r\n"));
        Append(buf);
        Append("Connection: Keep-Alive\r\n");
      }
    }

    method AppendHeaders(headers: seq<Pair>)
      modifies this
      ensures content == old(content) + HeaderLines(headers)
    {
      var i := 0;
      while i < |headers|
        invariant 0 <= i <= |headers|
        invariant content + HeaderLines(headers[i..]) == old(content) + HeaderLines(headers)
      {
        ghost var was := content;
        Append(headers[i].name);
        Append(": ");
        Append(headers[i].value);
        Append("\r\n");
        Nested(was, headers[i], HeaderLines(headers[i + 1..]));
        assert headers[i..][1..] == headers[i + 1..];
        i := i + 1;
      }
      assert headers[i..] == [];
      assert content + [] == content;
    }
  }

  lemma CloseLine()
    ensures HeaderLine(Pair("Connection", "close")) == "Connection: close\r\n"
  {
  }

  lemma KeepAliveLine()
    ensures HeaderLine(Pair("Connection", "Keep-Alive")) == "Connection: Keep-Alive\r\n"
  {
  }

  lemma Nested(was: bytes, h: Pair, rest: bytes)
    ensures (((was + h.name) + ": ") + h.value) + "\r\n" + rest == was + (HeaderLine(h) + rest)
  {
  }

  lemma Regroup(a: bytes, b: bytes, c: bytes, d: bytes, e: bytes, f: bytes)
    ensures ((((((a + b) + c) + "\r\n") + d) + e) + "\r\n") + f == a + ((b + (c + (CRLF + (d + (e + CRLF))))) + f)
  {
    assert ((((a + b) + c) + "\r\n") + d) == a + (b + (c + (CRLF + d)));
    assert (b + (c + (CRLF + (d + (e + CRLF))))) == (b + (c + (CRLF + d))) + (e + CRLF);
  }

  /** A character that moves the automaton on. */
  lemma One(s: Parser, buf: bytes, p: nat)
    requires p < |buf| && 0 < Advance(s, buf, p).cs < 120
    ensures Run(s, buf, p) == Run(Advance(s, buf, p), buf, p + 1)
  {
  }

  lemma SkipStep(s: Parser, buf: bytes, p: nat, cs: nat)
    requires p < |buf| && Transition(s.cs, buf[p]) == Move(cs, Skip) && 0 < cs < 120
    ensures Run(s, buf, p) == Run(s.(cs := cs), buf, p + 1)
  {
    hide Transition, Run;
    One(s, buf, p);
  }

  lemma MarkStep(s: Parser, buf: bytes, p: nat, cs: nat)
    requires p < |buf| && Transition(s.cs, buf[p]) == Move(cs, MarkValue) && 0 < cs < 120
    ensures Run(s, buf, p) == Run(s.(mark := p, cs := cs), buf, p + 1)
  {
    hide Transition, Run;
    One(s, buf, p);
  }

  /** The arcs from state `cs` on spell `w`, one state after the other. */
  predicate Spells(cs: nat, w: bytes) {
    0 < cs && cs + |w| < 120 && forall i :: 0 <= i < |w| ==> Transition(cs + i, w[i]) == Move(cs + i + 1, Skip)
  }

  lemma {:induction false} SkipWord(s: Parser, buf: bytes, q: nat, w: bytes)
    requires Spells(s.cs, w) && At(buf, q, w)
    ensures Run(s, buf, q) == Run(s.(cs := s.cs + |w|), buf, q + |w|)
    decreases |w|
  {
    hide Run, Transition, At, Spells;
    if w != [] {
      assert w == [w[0]] + w[1..];
      AtSplit(buf, q, [w[0]], w[1..]);
      AtIndex(buf, q, w, 0);
      SpellsOn(s.cs, w);
      SkipStep(s, buf, q, s.cs + 1);
      SkipWord(s.(cs := s.cs + 1), buf, q + 1, w[1..]);
    }
  }

  lemma SpellsOn(cs: nat, w: bytes)
    requires Spells(cs, w) && w != []
    ensures Transition(cs, w[0]) == Move(cs + 1, Skip) && 0 < cs < 119 && Spells(cs + 1, w[1..])
  {
    hide Transition;
    assert Transition(cs + 0, w[0]) == Move(cs + 1, Skip);
    forall i | 0 <= i < |w[1..]| ensures Transition(cs + 1 + i, w[1..][i]) == Move(cs + 1 + i + 1, Skip) {
      assert w[1..][i] == w[i + 1];
      assert Transition(cs + (i + 1), w[i + 1]) == Move(cs + (i + 1) + 1, Skip);
    }
  }

  // ---------- Names ----------

  /** `u` is a prefix of the keyword `w`, ignoring case. */
  predicate Matches(u: bytes, w: bytes) {
    |u| <= |w| && forall i :: 0 <= i < |u| ==> Lower(u[i]) == w[i]
  }

  /** Equal ignoring case. */
  predicate Is(n: bytes, w: bytes) {
    |n| == |w| && Matches(n, w)
  }

  predicate IsSpecial(n: bytes) {
    Is(n, CONNECTION) || Is(n, CONTENT_LENGTH) || Is(n, TRANSFER_ENCODING)
  }

  /** The state the automaton is in after the characters `u` of a name. */
  function NameState(u: bytes): nat {
    if u == [] then 20
    else if Matches(u, CONNECTION) then 24 + |u|
    else if Matches(u, CONTENT_LENGTH) then 97 + |u|
    else if Matches(u, TRANSFER_ENCODING) then 43 + |u|
    else 21
  }

  lemma MatchesOneMore(u: bytes, c: byte, w: bytes)
    ensures Matches(u + [c], w) <==> Matches(u, w) && |u| < |w| && Lower(c) == w[|u|]
  {
    var v := u + [c];
    if Matches(v, w) {
      assert forall i :: 0 <= i < |u| ==> v[i] == u[i];
      assert v[|u|] == c;
    }
  }

  /** "connection" and "content-length" share three letters, and neither starts like
      "transfer-encoding". */
  lemma KeywordsDiverge(u: bytes)
    requires u != []
    ensures Matches(u, CONNECTION) && Matches(u, CONTENT_LENGTH) ==> |u| <= 3
    ensures Matches(u, CONTENT_LENGTH) && |u| <= 3 ==> Matches(u, CONNECTION)
    ensures Matches(u, TRANSFER_ENCODING) ==> !Matches(u, CONNECTION) && !Matches(u, CONTENT_LENGTH)
  {
    assert CONNECTION[..3] == CONTENT_LENGTH[..3] == "con";
    assert CONNECTION[0] == CONTENT_LENGTH[0] && CONNECTION[1] == CONTENT_LENGTH[1] && CONNECTION[2] == CONTENT_LENGTH[2];
    assert CONNECTION[3] == 'n' && CONTENT_LENGTH[3] == 't' && TRANSFER_ENCODING[0] == 't';
  }

  lemma FirstLetter(c: byte)
    requires IsToken(c)
    ensures Transition(20, c) == Move(NameState([c]), MarkName)
    ensures Transition(43, c) == Move(NameState([c]), CloseMarkName)
  {
    MatchesOneMore([], c, CONNECTION);
    MatchesOneMore([], c, CONTENT_LENGTH);
    MatchesOneMore([], c, TRANSFER_ENCODING);
    assert [] + [c] == [c];
    assert CONNECTION[0] == CONTENT_LENGTH[0] == 'c' && TRANSFER_ENCODING[0] == 't';
  }

  lemma KeywordArcs(k: nat, c: byte)
    requires IsToken(c)
    ensures 1 <= k <= 10 ==> Transition(24 + k, c) == Move(
      if k < 10 && Lower(c) == CONNECTION[k] then 25 + k else if k == 3 && Lower(c) == 't' then 101 else 21, Skip)
    ensures 4 <= k <= 14 ==>
      Transition(97 + k, c) == Move(if k < 14 && Lower(c) == CONTENT_LENGTH[k] then 98 + k else 21, Skip)
    ensures 1 <= k <= 17 ==>
      Transition(43 + k, c) == Move(if k < 17 && Lower(c) == TRANSFER_ENCODING[k] then 44 + k else 21, Skip)
    ensures Transition(21, c) == Move(21, Skip)
  {
    hide Lower;
  }

  lemma NextLetter(u: bytes, c: byte)
    requires u != [] && IsToken(c)
    ensures Transition(NameState(u), c) == Move(NameState(u + [c]), Skip)
  {
    hide Transition, Lower, IsToken;
    KeywordArcs(|u|, c);
    MatchesOneMore(u, c, CONNECTION);
    MatchesOneMore(u, c, CONTENT_LENGTH);
    MatchesOneMore(u, c, TRANSFER_ENCODING);
    KeywordsDiverge(u);
    KeywordsDiverge(u + [c]);
    KeywordLengths(u);
    hide Matches;
    if Matches(u, CONNECTION) {
      NextOfConnection(u, c);
    } else if Matches(u, CONTENT_LENGTH) {
      assert !Matches(u + [c], CONNECTION);
    } else if Matches(u, TRANSFER_ENCODING) {
      assert !Matches(u + [c], CONNECTION) && !Matches(u + [c], CONTENT_LENGTH);
    }
  }

  lemma KeywordLengths(u: bytes)
    ensures Matches(u, CONNECTION) ==> |u| <= 10
    ensures Matches(u, CONTENT_LENGTH) ==> |u| <= 14
    ensures Matches(u, TRANSFER_ENCODING) ==> |u| <= 17
  {
  }

  lemma NextOfConnection(u: bytes, c: byte)
    requires u != [] && IsToken(c) && Matches(u, CONNECTION)
    ensures Transition(NameState(u), c) == Move(NameState(u + [c]), Skip)
  {
    hide Transition, Lower, IsToken;
    KeywordArcs(|u|, c);
    MatchesOneMore(u, c, CONNECTION);
    MatchesOneMore(u, c, CONTENT_LENGTH);
    MatchesOneMore(u, c, TRANSFER_ENCODING);
    KeywordsDiverge(u);
    KeywordsDiverge(u + [c]);
    assert CONTENT_LENGTH[3] == 't' && CONNECTION[3] == 'n';
    KeywordLengths(u);
    hide Matches;
  }

  lemma AfterName(n: bytes)
    requires n != []
    ensures !IsSpecial(n) ==> Transition(NameState(n), ':') == Move(22, EndName)
    ensures Is(n, CONNECTION) ==> Transition(NameState(n), ':') == Move(35, EndName)
    ensures Is(n, CONTENT_LENGTH) ==> Transition(NameState(n), ':') == Move(112, EndName)
  {
    KeywordsDiverge(n);
  }

  /** The parser after the name and colon of a header line that starts at `p`. */
  function Named(s: Parser, p: nat, n: bytes, cs: nat): Parser {
    s.(cs := cs, close := s.close || s.cs == 43, fieldStart := p, fieldLen := |n|)
  }

  lemma {:induction false} RestOfName(s: Parser, buf: bytes, p: nat, n: bytes, i: nat)
    requires IsName(n) && 0 < i <= |n| && At(buf, p, n) && s.cs == NameState(n[..i])
    ensures Run(s, buf, p + i) == Run(s.(cs := NameState(n)), buf, p + |n|)
    decreases |n| - i
  {
    hide Run, Transition;
    if i == |n| {
      assert n[..i] == n;
    } else {
      AtIndex(buf, p, n, i);
      NextLetter(n[..i], n[i]);
      assert n[..i] + [n[i]] == n[..i + 1];
      hide NameState;
      assert 0 < NameState(n[..i + 1]) < 120 by { NameStates(n[..i + 1]); }
      One(s, buf, p + i);
      RestOfName(s.(cs := NameState(n[..i + 1])), buf, p, n, i + 1);
    }
  }

  lemma NameStates(u: bytes)
    ensures 0 < NameState(u) < 120
  {
  }

  lemma NameThenColon(s: Parser, buf: bytes, p: nat, n: bytes, cs: nat)
    requires s.cs == 20 || s.cs == 43
    requires IsName(n) && At(buf, p, n + ":")
    requires Transition(NameState(n), ':') == Move(cs, EndName) && 0 < cs < 120
    ensures Run(s, buf, p) == Run(Named(s, p, n, cs), buf, p + |n| + 1)
  {
    hide Run, Transition, NameState;
    AtSplit(buf, p, n, ":");
    AtIndex(buf, p, n, 0);
    AtIndex(buf, p + |n|, ":", 0);
    FirstLetter(n[0]);
    NameStates([n[0]]);
    One(s, buf, p);
    assert n[..1] == [n[0]];
    var t := Advance(s, buf, p);
    RestOfName(t, buf, p, n, 1);
    One(t.(cs := NameState(n)), buf, p + |n|);
  }

  // ---------- Values ----------

  /** A value as the parser reports it: without the blanks it starts with. */
  function Stripped(v: bytes): (r: bytes)
    ensures |r| <= |v|
  {
    if v != [] && IsBlank(v[0]) then Stripped(v[1..]) else v
  }

  lemma {:induction false} StrippedIsSuffix(v: bytes)
    ensures v[|v| - |Stripped(v)|..] == Stripped(v)
  {
    if v != [] && IsBlank(v[0]) {
      StrippedIsSuffix(v[1..]);
    }
  }

  lemma {:induction false} SkipValue(s: Parser, buf: bytes, q: nat, v: bytes)
    requires s.cs == 23 && OneLine(v) && At(buf, q, v)
    ensures Run(s, buf, q) == Run(s, buf, q + |v|)
    decreases |v|
  {
    hide Run;
    if v != [] {
      assert v == [v[0]] + v[1..];
      AtSplit(buf, q, [v[0]], v[1..]);
      AtIndex(buf, q, v, 0);
      One(s, buf, q);
      SkipValue(s, buf, q + 1, v[1..]);
    }
  }

  /** CR and LF after a value. */
  lemma LineEnd(s: Parser, buf: bytes, p: nat)
    requires s.cs == 23 && At(buf, p, CRLF)
    ensures Run(s, buf, p) == Run(WithHeader(s, buf, p).(cs := 20), buf, p + 2)
  {
    hide Run, Slice;
    AtIndex(buf, p, CRLF, 0);
    AtIndex(buf, p, CRLF, 1);
    One(s, buf, p);
    One(WithHeader(s, buf, p).(cs := 24), buf, p + 1);
  }

  /** The arcs of the states before a value. */
  lemma ValueArcs(c: byte)
    ensures IsBlank(c) ==> Transition(22, c) == Move(22, MarkValue)
    ensures !IsBlank(c) && c != '\r' && c != '\n' ==> Transition(22, c) == Move(23, MarkValue)
    ensures Transition(22, '\r') == Move(24, EmptyField)
    ensures Transition(24, '\n') == Move(20, Skip)
    ensures Transition(35, ' ') == Move(35, MarkValue)
    ensures Transition(112, ' ') == Move(112, MarkValue)
  {
  }

  lemma EmptyValue(s: Parser, buf: bytes, q: nat)
    requires s.cs == 22 && At(buf, q, CRLF)
    ensures Run(s, buf, q) == Run(WithHeader(s.(mark := q), buf, q).(cs := 20), buf, q + 2)
  {
    ValueArcs(' ');
    hide Run, Slice, Transition;
    AtIndex(buf, q, CRLF, 0);
    AtIndex(buf, q, CRLF, 1);
    One(s, buf, q);
    One(WithHeader(s.(mark := q), buf, q).(cs := 24), buf, q + 1);
  }

  /** A value that starts with no blank. */
  lemma SolidValue(s: Parser, buf: bytes, q: nat, v: bytes)
    requires s.cs == 22 && v != [] && !IsBlank(v[0]) && OneLine(v) && At(buf, q, v + CRLF)
    ensures Run(s, buf, q) == Run(WithHeader(s.(mark := q), buf, q + |v|).(cs := 20), buf, q + |v| + 2)
  {
    hide Run, Slice, Transition, At, WithHeader;
    assert OneLine(v[1..]) && v[0] != '\r' && v[0] != '\n';
    hide OneLine;
    ValueArcs(v[0]);
    hide IsBlank;
    AtSplit(buf, q, v, CRLF);
    AtIndex(buf, q, v, 0);
    assert [v[0]] + v[1..] == v;
    AtSplit(buf, q, [v[0]], v[1..]);
    MarkStep(s, buf, q, 23);
    SkipValue(s.(mark := q, cs := 23), buf, q + 1, v[1..]);
    LineEnd(s.(mark := q, cs := 23), buf, q + |v|);
    CsIsNotRead(s.(mark := q), buf, q + |v|, 23);
  }

  lemma CsIsNotRead(s: Parser, buf: bytes, p: nat, cs: nat)
    ensures WithHeader(s.(cs := cs), buf, p).(cs := 20) == WithHeader(s, buf, p).(cs := 20)
  {
  }

  lemma {:induction false} ValueAndEnd(s: Parser, buf: bytes, q: nat, v: bytes)
    requires s.cs == 22 && OneLine(v) && At(buf, q, v + CRLF)
    ensures var at := q + |v| - |Stripped(v)|;
      Run(s, buf, q) == Run(WithHeader(s.(mark := at), buf, q + |v|).(cs := 20), buf, q + |v| + 2)
    decreases |v|
  {
    hide Run, Slice, Transition, At;
    if v == [] {
      assert v + CRLF == CRLF;
      EmptyValue(s, buf, q);
    } else if IsBlank(v[0]) {
      ValueArcs(v[0]);
      assert v + CRLF == [v[0]] + (v[1..] + CRLF);
      AtSplit(buf, q, [v[0]], v[1..] + CRLF);
      AtIndex(buf, q, [v[0]], 0);
      hide IsBlank;
      MarkStep(s, buf, q, 22);
      assert OneLine(v[1..]);
      ValueAndEnd(s.(mark := q), buf, q + 1, v[1..]);
    } else {
      SolidValue(s, buf, q, v);
    }
  }

  // ---------- Header lines ----------

  /** The parser after the whole header line `h` that starts at `p`: one call of http_field,
      with the name and the value less its leading blanks. */
  function AfterLine(s: Parser, p: nat, h: Pair, cs: nat): Parser {
    var value := Stripped(h.value);
    Named(s, p, h.name, cs).(mark := p + |h.name| + 2 + |h.value| - |value|,
                             events := s.events + [Header(h.name, value)])
  }

  predicate PlainHeader(h: Pair) {
    IsName(h.name) && !IsSpecial(h.name) && OneLine(h.value)
  }

  /** What http_field is handed: the slices are the name and the rest of the value. */
  lemma HandsOver(s: Parser, buf: bytes, p: nat, h: Pair, cs: nat)
    requires At(buf, p, HeaderLine(h))
    ensures var end := p + |h.name| + 2 + |h.value|;
      WithHeader(Named(s, p, h.name, cs).(mark := end - |Stripped(h.value)|), buf, end) == AfterLine(s, p, h, cs)
  {
    HeaderSlices(buf, p, h);
    hide Slice, At, Stripped;
  }

  lemma HeaderSlices(buf: bytes, p: nat, h: Pair)
    requires At(buf, p, HeaderLine(h))
    ensures var end, n := p + |h.name| + 2 + |h.value|, |Stripped(h.value)|;
      Slice(buf, p, |h.name|) == h.name && Slice(buf, end - n, n) == Stripped(h.value)
  {
    hide HeaderLine, Stripped;
    LineParts(buf, p, h);
    StrippedIsSuffix(h.value);
    Suffix(buf, p + |h.name| + 2, h.value, |h.value| - |Stripped(h.value)|);
  }

  /** From the colon on: the blank the printer puts there, the value and the line end. */
  lemma AfterColon(t: Parser, buf: bytes, q: nat, v: bytes)
    requires t.cs == 22 && OneLine(v) && At(buf, q, " ") && At(buf, q + 1, v + CRLF)
    ensures var end := q + 1 + |v|;
      Run(t, buf, q) == Run(WithHeader(t.(mark := end - |Stripped(v)|), buf, end).(cs := 20), buf, end + 2)
  {
    hide Run, Transition, At, Stripped, OneLine, WithHeader;
    AtIndex(buf, q, " ", 0);
    ValueArcs(' ');
    MarkStep(t, buf, q, 22);
    ValueAndEnd(t.(mark := q), buf, q + 1, v);
  }

  lemma HeaderParses(s: Parser, buf: bytes, p: nat, h: Pair)
    requires (s.cs == 20 || s.cs == 43) && PlainHeader(h) && At(buf, p, HeaderLine(h))
    ensures Run(s, buf, p) == Run(AfterLine(s, p, h, 20), buf, p + |HeaderLine(h)|)
  {
    hide Run, Transition, At, NameState, HeaderLine, Stripped, OneLine, WithHeader, IsSpecial, Slice;
    LineBounds(buf, p, h);
    LineParts(buf, p, h);
    AfterName(h.name);
    NameThenColon(s, buf, p, h.name, 22);
    AfterColon(Named(s, p, h.name, 22), buf, p + |h.name| + 1, h.value);
    HandsOver(s, buf, p, h, 22);
  }

  // ---------- Numbers ----------

  lemma {:induction false} SkipDigits(s: Parser, buf: bytes, q: nat, d: bytes)
    requires (s.cs == 17 || s.cs == 119) && At(buf, q, d) && forall i :: 0 <= i < |d| ==> IsDigit(d[i])
    ensures Run(s, buf, q) == Run(s, buf, q + |d|)
    decreases |d|
  {
    hide Run, Transition;
    if d != [] {
      assert d == [d[0]] + d[1..];
      AtSplit(buf, q, [d[0]], d[1..]);
      AtIndex(buf, q, d, 0);
      DigitArcs(d[0]);
      SkipStep(s, buf, q, s.cs);
      SkipDigits(s, buf, q + 1, d[1..]);
    }
  }

  lemma DigitArcs(c: byte)
    requires IsDigit(c)
    ensures Transition(16, c) == Move(17, MarkValue) && Transition(17, c) == Move(17, Skip)
    ensures Transition(112, c) == Move(119, MarkValue) && Transition(119, c) == Move(119, Skip)
  {
  }

  /** A numeral followed by anything but a digit reads back. */
  lemma NumeralReadsBack(s: Parser, buf: bytes, n: nat, c: byte)
    requires At(buf, s.mark, Decimal(n) + [c]) && !IsDigit(c) && n <= 0x7FFF_FFFF_FFFF_FFFF
    ensures NumberAt(s, buf, false) == ToInt(n)
  {
    var d := Decimal(n);
    AtSplit(buf, s.mark, d, [c]);
    AtIndex(buf, s.mark + |d|, [c], 0);
    var rest := buf[s.mark + |d|..];
    assert buf[s.mark..] == d + rest;
    assert rest[0] == c;
    DecimalReadsBack(n, rest);
    assert ReadDigits(rest, n) == (n, rest);
    assert IsDigit((d + rest)[0]);
    assert SkipSpaces(d + rest) == d + rest;
  }

  /** ToInt is the identity exactly on the values an int has. */
  lemma FitsInt(n: int)
    ensures ToInt(n) == n <==> -0x8000_0000 <= n < 0x8000_0000
  {
    var m := n % 0x1_0000_0000;
    assert n == 0x1_0000_0000 * (n / 0x1_0000_0000) + m;
  }

  // ---------- The status line ----------

  /** The parser after the status line of `r`, whose reason starts at `at`. */
  function AfterStatusLine(r: Response, at: nat): Parser {
    FRESH.(cs := 20, status := ToInt(r.status), mark := at,
           events := [Version("HTTP/1.1"), Status(Decimal(r.status)), Reason(if r.reason == [] then "\r" else r.reason)])
  }

  lemma VersionParses(buf: bytes)
    requires At(buf, 0, "HTTP/1.1 ")
    ensures Run(FRESH, buf, 0) == Run(FRESH.(cs := 16, events := [Version("HTTP/1.1")]), buf, 9)
  {
    hide Run, At, Slice;
    VersionSpelt();
    VersionText(buf);
    AtIndex(buf, 0, "H", 0);
    MarkStep(FRESH, buf, 0, 8);
    SkipWord(FRESH.(cs := 8), buf, 1, "TTP/1.1");
    AtIndex(buf, 8, " ", 0);
    One(FRESH.(cs := 15), buf, 8);
    assert FRESH.events + [Version("HTTP/1.1")] == [Version("HTTP/1.1")];
  }

  lemma VersionSpelt()
    ensures Spells(8, "TTP/1.1")
  {
  }

  lemma VersionText(buf: bytes)
    requires At(buf, 0, "HTTP/1.1 ")
    ensures At(buf, 0, "H") && At(buf, 1, "TTP/1.1") && At(buf, 8, " ") && Slice(buf, 0, 8) == "HTTP/1.1"
  {
    var text: bytes := "HTTP/1.1 ";
    assert text == "H" + ("TTP/1.1" + " ") == "HTTP/1.1" + " ";
    AtSplit(buf, 0, "H", "TTP/1.1" + " ");
    AtSplit(buf, 1, "TTP/1.1", " ");
    AtSplit(buf, 0, "HTTP/1.1", " ");
  }

  lemma StatusParses(s: Parser, buf: bytes, q: nat, n: nat)
    requires s.cs == 16 && At(buf, q, Decimal(n) + " ") && n < 0x8000_0000
    ensures var d := Decimal(n);
      Run(s, buf, q) == Run(s.(cs := 18, mark := q, status := n, events := s.events + [Status(d)]), buf, q + |d| + 1)
  {
    var d := Decimal(n);
    hide Run, Decimal, Transition;
    AtSplit(buf, q, d, " ");
    AtIndex(buf, q, d, 0);
    AtIndex(buf, q + |d|, " ", 0);
    assert [d[0]] + d[1..] == d;
    AtSplit(buf, q, [d[0]], d[1..]);
    assert Slice(buf, q, |d|) == d;
    DigitArcs(d[0]);
    hide At, Slice;
    MarkStep(s, buf, q, 17);
    var t := s.(cs := 17, mark := q);
    SkipDigits(t, buf, q + 1, d[1..]);
    NumeralReadsBack(t, buf, n, ' ');
    FitsInt(n);
    StatusEnd(t, buf, q + |d|);
  }

  lemma StatusEnd(s: Parser, buf: bytes, p: nat)
    requires s.cs == 17 && p < |buf| && buf[p] == ' ' && s.mark <= p
    ensures Run(s, buf, p) ==
            Run(s.(cs := 18, status := NumberAt(s, buf, false),
                   events := s.events + [Status(Slice(buf, s.mark, p - s.mark))]), buf, p + 1)
  {
    hide Run, Slice, NumberAt;
    One(s, buf, p);
  }

  /** The reason phrase comes back; an empty one comes back as the CR of its line end, which
      the automaton takes for its first character. */
  lemma ReasonParses(s: Parser, buf: bytes, q: nat, reason: bytes)
    requires s.cs == 18 && OneLine(reason) && At(buf, q, reason + CRLF)
    ensures Run(s, buf, q) ==
            Run(s.(cs := 20, mark := q, events := s.events + [Reason(if reason == [] then "\r" else reason)]),
                buf, q + |reason| + 2)
  {
    if reason == [] {
      assert reason + CRLF == CRLF;
      NoReasonParses(s, buf, q);
    } else {
      SolidReasonParses(s, buf, q, reason);
    }
  }

  lemma SolidReasonParses(s: Parser, buf: bytes, q: nat, reason: bytes)
    requires s.cs == 18 && reason != [] && OneLine(reason) && At(buf, q, reason + CRLF)
    ensures Run(s, buf, q) ==
            Run(s.(cs := 20, mark := q, events := s.events + [Reason(reason)]), buf, q + |reason| + 2)
  {
    hide Run, At, Slice, Transition, OneLine;
    ReasonParts(buf, q, reason);
    MarkStep(s, buf, q, 19);
    SkipReason(s.(cs := 19, mark := q), buf, q + 1, reason[1..]);
    ReasonEnd(s.(cs := 19, mark := q), buf, q + |reason|);
  }

  lemma ReasonParts(buf: bytes, q: nat, reason: bytes)
    requires reason != [] && OneLine(reason) && At(buf, q, reason + CRLF)
    ensures OneLine(reason[1..]) && At(buf, q + 1, reason[1..]) && Slice(buf, q, |reason|) == reason
    ensures var end := q + |reason|; end + 1 < |buf| && buf[end] == '\r' && buf[end + 1] == '\n'
    ensures Transition(18, buf[q]) == Move(19, MarkValue)
  {
    AtSplit(buf, q, reason, CRLF);
    AtIndex(buf, q + |reason|, CRLF, 0);
    AtIndex(buf, q + |reason|, CRLF, 1);
    AtIndex(buf, q, reason, 0);
    assert [reason[0]] + reason[1..] == reason;
    AtSplit(buf, q, [reason[0]], reason[1..]);
    SliceAt(buf, q, reason);
  }

  lemma NoReasonParses(s: Parser, buf: bytes, q: nat)
    requires s.cs == 18 && At(buf, q, CRLF)
    ensures Run(s, buf, q) == Run(s.(cs := 20, mark := q, events := s.events + [Reason("\r")]), buf, q + 2)
  {
    hide Run;
    AtIndex(buf, q, CRLF, 0);
    AtIndex(buf, q, CRLF, 1);
    assert Slice(buf, q, 1) == "\r";
    hide Slice, At;
    MarkStep(s, buf, q, 19);
    One(s.(cs := 19, mark := q), buf, q + 1);
  }

  lemma {:induction false} SkipReason(s: Parser, buf: bytes, q: nat, v: bytes)
    requires s.cs == 19 && OneLine(v) && At(buf, q, v)
    ensures Run(s, buf, q) == Run(s, buf, q + |v|)
    decreases |v|
  {
    hide Run;
    if v != [] {
      assert v == [v[0]] + v[1..];
      AtSplit(buf, q, [v[0]], v[1..]);
      AtIndex(buf, q, v, 0);
      SkipStep(s, buf, q, 19);
      SkipReason(s, buf, q + 1, v[1..]);
    }
  }

  lemma ReasonEnd(s: Parser, buf: bytes, p: nat)
    requires s.cs == 19 && p + 1 < |buf| && buf[p] == '\r' && buf[p + 1] == '\n' && s.mark <= p
    ensures Run(s, buf, p) ==
            Run(s.(cs := 20, events := s.events + [Reason(Slice(buf, s.mark, p - s.mark))]), buf, p + 2)
  {
    hide Run, Slice;
    One(s, buf, p);
    One(s.(cs := 24, events := s.events + [Reason(Slice(buf, s.mark, p - s.mark))]), buf, p + 1);
  }

  // ---------- The printer's own headers ----------

  lemma CloseParses(s: Parser, buf: bytes, p: nat)
    requires s.cs == 20 && At(buf, p, HeaderLine(CLOSE_HEADER))
    ensures Run(s, buf, p) == Run(AfterLine(s, p, CLOSE_HEADER, 43), buf, p + |HeaderLine(CLOSE_HEADER)|)
  {
    hide Run, Transition, At, NameState, HeaderLine, WithHeader, Slice;
    var h := CLOSE_HEADER;
    LineBounds(buf, p, h);
    LineParts(buf, p, h);
    AfterName(h.name);
    NameThenColon(s, buf, p, h.name, 35);
    assert Stripped("close") == "close";
    CloseValue(Named(s, p, h.name, 35), buf, p + 11);
    HandsOver(s, buf, p, h, 35);
  }

  const CLOSE_HEADER: Pair := Pair("Connection", "close")
  const KEEP_ALIVE: Pair := Pair("Connection", "Keep-Alive")

  lemma CloseValue(t: Parser, buf: bytes, q: nat)
    requires t.cs == 35 && At(buf, q, " ") && At(buf, q + 1, "close") && At(buf, q + 6, CRLF)
    ensures Run(t, buf, q) == Run(WithHeader(t.(mark := q + 1), buf, q + 6).(cs := 43), buf, q + 8)
  {
    hide Run, At, Slice;
    AtIndex(buf, q, " ", 0);
    AtIndex(buf, q + 1, "close", 0);
    assert "c" + "lose" == "close";
    AtSplit(buf, q + 1, "c", "lose");
    MarkStep(t, buf, q, 35);
    MarkStep(t.(mark := q), buf, q + 1, 96);
    CloseSpelt();
    SkipWord(t.(mark := q + 1, cs := 96), buf, q + 2, "lose");
    CloseEnd(t.(mark := q + 1, cs := 100), buf, q + 6);
  }

  lemma CloseSpelt()
    ensures Spells(96, "lose")
  {
  }

  lemma CloseEnd(s: Parser, buf: bytes, p: nat)
    requires s.cs == 100 && At(buf, p, CRLF)
    ensures Run(s, buf, p) == Run(WithHeader(s, buf, p).(cs := 43), buf, p + 2)
  {
    hide Run, Slice;
    AtIndex(buf, p, CRLF, 0);
    AtIndex(buf, p, CRLF, 1);
    One(s, buf, p);
    One(WithHeader(s, buf, p).(cs := 88), buf, p + 1);
  }

  lemma KeepAliveParses(s: Parser, buf: bytes, p: nat)
    requires s.cs == 20 && At(buf, p, HeaderLine(KEEP_ALIVE))
    ensures Run(s, buf, p) == Run(AfterLine(s, p, KEEP_ALIVE, 20), buf, p + |HeaderLine(KEEP_ALIVE)|)
  {
    hide Run, Transition, At, NameState, HeaderLine, WithHeader, Slice;
    var h := KEEP_ALIVE;
    LineBounds(buf, p, h);
    LineParts(buf, p, h);
    AfterName(h.name);
    NameThenColon(s, buf, p, h.name, 35);
    assert Stripped("Keep-Alive") == "Keep-Alive";
    KeepAliveValue(Named(s, p, h.name, 35), buf, p + 11);
    HandsOver(s, buf, p, h, 35);
  }

  lemma KeepAliveValue(t: Parser, buf: bytes, q: nat)
    requires t.cs == 35 && At(buf, q, " ") && At(buf, q + 1, "Keep-Alive") && At(buf, q + 11, CRLF)
    ensures Run(t, buf, q) == Run(WithHeader(t.(mark := q + 1), buf, q + 11).(cs := 20), buf, q + 13)
  {
    hide Run, At, Slice;
    AtIndex(buf, q, " ", 0);
    AtIndex(buf, q + 1, "Keep-Alive", 0);
    assert "K" + "eep-Alive" == "Keep-Alive";
    AtSplit(buf, q + 1, "K", "eep-Alive");
    MarkStep(t, buf, q, 35);
    MarkStep(t.(mark := q), buf, q + 1, 23);
    SkipValue(t.(mark := q + 1, cs := 23), buf, q + 2, "eep-Alive");
    LineEnd(t.(mark := q + 1, cs := 23), buf, q + 11);
    CsIsNotRead(t.(mark := q + 1), buf, q + 11, 23);
  }

  /** A Content-Length line sets content_len and is reported. */
  lemma LengthParses(s: Parser, buf: bytes, p: nat, n: nat)
    requires s.cs == 20 && At(buf, p, LengthLine(n)) && n <= 0x7FFF_FFFF_FFFF_FFFF
    ensures var h := Pair("Content-Length", Decimal(n));
      Run(s, buf, p) == Run(AfterLine(s, p, h, 20).(contentLen := ToInt(n)), buf, p + |LengthLine(n)|)
  {
    hide Run, Transition, At, NameState, HeaderLine, WithHeader, Slice, Decimal, NumberAt, Named, AfterLine;
    var h := Pair("Content-Length", Decimal(n));
    LengthIsHeader(n);
    LineBounds(buf, p, h);
    LineParts(buf, p, h);
    LengthNamed(s, buf, p, n);
    var t := Named(s, p, h.name, 112);
    LengthValue(t, buf, p + 15, n);
    NumeralIsSolid(n);
    LengthKept(s, buf, p, h, ToInt(n));
  }

  lemma NumeralIsSolid(n: nat)
    ensures Stripped(Decimal(n)) == Decimal(n)
  {
    assert IsDigit(Decimal(n)[0]);
    hide Decimal;
  }

  lemma LengthNamed(s: Parser, buf: bytes, p: nat, n: nat)
    requires s.cs == 20 && At(buf, p, "Content-Length" + ":")
    ensures var t := Named(s, p, "Content-Length", 112);
      p + 15 <= |buf| && t.cs == 112 && Run(s, buf, p) == Run(t, buf, p + 15)
  {
    assert p + 15 <= |buf|;
    hide Run, Transition, At, NameState;
    AfterName("Content-Length");
    NameThenColon(s, buf, p, "Content-Length", 112);
  }

  /** What the value's end hands over is the line, with the length set. */
  lemma LengthKept(s: Parser, buf: bytes, p: nat, h: Pair, n: int)
    requires At(buf, p, HeaderLine(h)) && Stripped(h.value) == h.value && h.name == "Content-Length"
    ensures var end := p + 16 + |h.value|;
      WithHeader(Named(s, p, h.name, 112).(mark := p + 16, contentLen := n), buf, end).(cs := 20)
      == AfterLine(s, p, h, 20).(contentLen := n)
  {
    hide At, HeaderLine, WithHeader, Stripped;
    HandsOver(s.(contentLen := n), buf, p, h, 112);
  }

  lemma LengthIsHeader(n: nat)
    ensures LengthLine(n) == HeaderLine(Pair("Content-Length", Decimal(n)))
  {
    hide Decimal;
  }

  lemma LengthValue(t: Parser, buf: bytes, q: nat, n: nat)
    requires t.cs == 112 && At(buf, q, " ") && At(buf, q + 1, Decimal(n) + CRLF) && n <= 0x7FFF_FFFF_FFFF_FFFF
    ensures var end := q + 1 + |Decimal(n)|;
      Run(t, buf, q) ==
      Run(WithHeader(t.(mark := q + 1, contentLen := ToInt(n)), buf, end).(cs := 20), buf, end + 2)
  {
    hide Run, Transition, At, Slice, Decimal, NumberAt;
    var d := Decimal(n);
    AtIndex(buf, q, " ", 0);
    AtSplit(buf, q + 1, d, CRLF);
    AtIndex(buf, q + 1, d, 0);
    assert [d[0]] + d[1..] == d;
    AtSplit(buf, q + 1, [d[0]], d[1..]);
    ValueArcs(' ');
    DigitArcs(d[0]);
    MarkStep(t, buf, q, 112);
    MarkStep(t.(mark := q), buf, q + 1, 119);
    var u := t.(mark := q + 1, cs := 119);
    SkipDigits(u, buf, q + 2, d[1..]);
    assert d + CRLF == (d + "\r") + "\n";
    AtSplit(buf, q + 1, d + "\r", "\n");
    NumeralReadsBack(u, buf, n, '\r');
    LengthEnd(u, buf, q + 1 + |d|);
    CsIsNotRead(t.(mark := q + 1, contentLen := ToInt(n)), buf, q + 1 + |d|, 119);
  }

  lemma LengthEnd(s: Parser, buf: bytes, p: nat)
    requires s.cs == 119 && At(buf, p, CRLF)
    ensures Run(s, buf, p) ==
            Run(WithHeader(s.(contentLen := NumberAt(s, buf, false)), buf, p).(cs := 20), buf, p + 2)
  {
    hide Run, Slice, NumberAt;
    AtIndex(buf, p, CRLF, 0);
    AtIndex(buf, p, CRLF, 1);
    One(s, buf, p);
    One(WithHeader(s.(contentLen := NumberAt(s, buf, false)), buf, p).(cs := 24), buf, p + 1);
  }

  // ---------- The whole response ----------

  /** The header of a pair as http_field reports it. */
  function Seen(hs: seq<Pair>): seq<Event> {
    if hs == [] then [] else [Header(hs[0].name, Stripped(hs[0].value))] + Seen(hs[1..])
  }

  predicate PlainHeaders(hs: seq<Pair>) {
    forall i :: 0 <= i < |hs| ==> PlainHeader(hs[i])
  }

  /** What two parsers have in common when only their marks differ. */
  predicate SameButMarks(s: Parser, t: Parser) {
    t == s.(mark := t.mark, fieldStart := t.fieldStart, fieldLen := t.fieldLen)
  }

  /** The caller's headers, the empty line and what follows it. */
  lemma {:induction false} HeadersParse(s: Parser, buf: bytes, p: nat, hs: seq<Pair>) returns (t: Parser)
    requires (s.cs == 20 || s.cs == 43) && PlainHeaders(hs) && At(buf, p, HeaderLines(hs) + CRLF)
    ensures var end := p + |HeaderLines(hs)| + 2;
      SameButMarks(s.(cs := 120, close := s.close || s.cs == 43, bodyStart := end,
                      events := s.events + Seen(hs) + [Done(buf[end..])]), t)
      && Run(s, buf, p) == (t, end)
    decreases |hs|
  {
    hide Run, At, HeaderLine, Stripped, PlainHeader;
    if hs == [] {
      assert HeaderLines(hs) + CRLF == CRLF;
      AtIndex(buf, p, CRLF, 0);
      AtIndex(buf, p, CRLF, 1);
      t := EmptyLine(s, buf, p);
      assert s.events + Seen(hs) == s.events;
    } else {
      var u := AfterLine(s, p, hs[0], 20);
      var q := p + |HeaderLine(hs[0])|;
      assert HeaderLines(hs) + CRLF == HeaderLine(hs[0]) + (HeaderLines(hs[1..]) + CRLF);
      AtSplit(buf, p, HeaderLine(hs[0]), HeaderLines(hs[1..]) + CRLF);
      HeaderParses(s, buf, p, hs[0]);
      t := HeadersParse(u, buf, q, hs[1..]);
      assert q + |HeaderLines(hs[1..])| == p + |HeaderLines(hs)|;
      hide HeaderLines, PlainHeaders;
      SeenOneMore(s, p, hs);
    }
  }

  lemma SeenOneMore(s: Parser, p: nat, hs: seq<Pair>)
    requires hs != []
    ensures AfterLine(s, p, hs[0], 20).events + Seen(hs[1..]) == s.events + Seen(hs)
  {
    hide Stripped;
    var e := Header(hs[0].name, Stripped(hs[0].value));
    assert AfterLine(s, p, hs[0], 20).events == s.events + [e];
    assert Seen(hs) == [e] + Seen(hs[1..]);
    hide AfterLine, Seen;
    Shift(s.events, e, Seen(hs[1..]));
  }

  lemma Shift(a: seq<Event>, e: Event, b: seq<Event>)
    ensures (a + [e]) + b == a + ([e] + b)
  {
  }

  lemma EmptyLine(s: Parser, buf: bytes, p: nat) returns (t: Parser)
    requires (s.cs == 20 || s.cs == 43) && p + 1 < |buf| && buf[p] == '\r' && buf[p + 1] == '\n'
    ensures SameButMarks(s.(cs := 120, close := s.close || s.cs == 43, bodyStart := p + 2,
                            events := s.events + [Done(buf[p + 2..])]), t)
    ensures Run(s, buf, p) == (t, p + 2)
  {
    One(s, buf, p);
    t := Run(s, buf, p).0;
  }

  /** The header events of the printer's own lines. */
  function OwnSeen(r: Response): seq<Event> {
    if r.close then [Header("Connection", "close")]
    else [Header("Content-Length", Decimal(|r.body|)), Header("Connection", "Keep-Alive")]
  }

  /** Responses the printer's 32-byte scratch buffers hold whole and whose lines the parser can
      tell apart: an int status and a length of at most 13 digits, a reason and values without
      CR and LF, and header names that are tokens other than the three special ones. */
  predicate Printable(r: Response) {
    r.status < 0x8000_0000 && |r.body| < 10_0000_0000_0000 && OneLine(r.reason) && PlainHeaders(r.headers)
  }

  lemma StatusTextFits(n: nat)
    requires n < 0x8000_0000
    ensures StatusText(n) == "HTTP/1.1 " + (Decimal(n) + " ")
  {
    assert n < Pow10(10);
    DecimalLength(n, 10);
    hide Decimal;
  }

  /** The scratch buffer holds the length line exactly up to thirteen digits; a longer line
      loses at least its LF. */
  lemma LengthLineFitsIff(n: nat)
    ensures Buf32(LengthLine(n)) == LengthLine(n) <==> n < 10_0000_0000_0000
    ensures n >= 10_0000_0000_0000 ==> forall i :: 0 <= i < |Buf32(LengthLine(n))| ==> Buf32(LengthLine(n))[i] != '\n'
  {
    assert Pow10(6) == 100_0000;
    assert Pow10(13) == 10_0000_0000_0000;
    if n < Pow10(13) {
      DecimalLength(n, 13);
    } else {
      DecimalIsLong(n, 13);
    }
    hide Decimal;
  }

  lemma StatusLineParses(r: Response, buf: bytes)
    requires Printable(r) && At(buf, 0, StatusText(r.status) + (r.reason + CRLF))
    ensures var at := |StatusText(r.status)|;
      Run(FRESH, buf, 0) == Run(AfterStatusLine(r, at), buf, at + |r.reason| + 2)
  {
    hide Run, At, PlainHeaders, Decimal, StatusText;
    var d := Decimal(r.status) + " ";
    StatusTextFits(r.status);
    AtSplit(buf, 0, StatusText(r.status), r.reason + CRLF);
    AtSplit(buf, 0, "HTTP/1.1 ", d);
    VersionParses(buf);
    var t := FRESH.(cs := 16, events := [Version("HTTP/1.1")]);
    StatusParses(t, buf, 9, r.status);
    FitsInt(r.status);
    var u := t.(cs := 18, mark := 9, status := r.status, events := t.events + [Status(Decimal(r.status))]);
    ReasonParses(u, buf, 9 + |d|, r.reason);
    var e := Reason(if r.reason == [] then "\r" else r.reason);
    assert u.events + [e] == AfterStatusLine(r, 9 + |d|).events;
    assert u.(cs := 20, mark := 9 + |d|, events := u.events + [e]) == AfterStatusLine(r, 9 + |d|);
  }

  /** The parser after the printer's own headers, which leaves it in 43 when the connection is
      to close. */
  lemma OwnHeadersParse(r: Response, s: Parser, buf: bytes, p: nat) returns (t: Parser)
    requires Printable(r) && s.cs == 20 && At(buf, p, OwnHeaders(r))
    ensures SameButMarks(s.(cs := if r.close then 43 else 20,
                            contentLen := if r.close then s.contentLen else ToInt(|r.body|),
                            events := s.events + OwnSeen(r)), t)
    ensures Run(s, buf, p) == Run(t, buf, p + |OwnHeaders(r)|)
  {
    hide Run, At, HeaderLine, LengthLine, Decimal, PlainHeaders;
    if r.close {
      CloseParses(s, buf, p);
      assert Stripped("close") == "close";
      t := AfterLine(s, p, CLOSE_HEADER, 43);
    } else {
      t := KeptAliveParses(r, s, buf, p);
    }
  }

  lemma KeptAliveParses(r: Response, s: Parser, buf: bytes, p: nat) returns (t: Parser)
    requires Printable(r) && !r.close && s.cs == 20 && At(buf, p, OwnHeaders(r))
    ensures SameButMarks(s.(contentLen := ToInt(|r.body|), events := s.events + OwnSeen(r)), t)
    ensures Run(s, buf, p) == Run(t, buf, p + |OwnHeaders(r)|)
  {
    hide Run, At, HeaderLine, LengthLine, Decimal, PlainHeaders, Buf32;
    var n := |r.body|;
    LengthLineFitsIff(n);
    AtSplit(buf, p, LengthLine(n), HeaderLine(KEEP_ALIVE));
    LengthParses(s, buf, p, n);
    var h := Pair("Content-Length", Decimal(n));
    var u := AfterLine(s, p, h, 20).(contentLen := ToInt(n));
    assert Stripped(h.value) == h.value;
    assert Stripped("Keep-Alive") == "Keep-Alive";
    hide Stripped;
    KeepAliveParses(u, buf, p + |LengthLine(n)|);
    t := AfterLine(u, p + |LengthLine(n)|, KEEP_ALIVE, 20);
    Pairing(s.events, Header(h.name, h.value), Header("Connection", "Keep-Alive"));
  }

  lemma Pairing(a: seq<Event>, e: Event, f: Event)
    ensures (a + [e]) + [f] == a + [e, f]
  {
  }

  lemma TextParts(r: Response)
    ensures HeadText(r) + r.body ==
      (StatusText(r.status) + (r.reason + CRLF)) + (OwnHeaders(r) + ((HeaderLines(r.headers) + CRLF) + r.body))
  {
    hide StatusText, OwnHeaders, HeaderLines;
    var a, b, c, d := StatusText(r.status), r.reason, OwnHeaders(r), HeaderLines(r.headers) + CRLF;
    assert b + (CRLF + (c + d)) == (b + CRLF) + (c + d);
    assert (a + ((b + CRLF) + (c + d))) + r.body == (a + (b + CRLF)) + (c + (d + r.body));
  }

  /** What the parser reads out of a printed response. */
  predicate ReadsBack(r: Response, s: Parser) {
    && s.status == r.status
    && s.close == r.close
    && !s.chunked
    && s.contentLen == (if r.close then -1 else ToInt(|r.body|))
    && s.bodyStart == |HeadText(r)|
    && s.events == [Version("HTTP/1.1"), Status(Decimal(r.status)), Reason(if r.reason == [] then "\r" else r.reason)]
                   + OwnSeen(r) + Seen(r.headers) + [Done(r.body)]
  }

  /** Round trip: the client automaton, run over what the printer wrote, finishes at the body
      having reported the status, the reason, every header once and in order, the length and
      the close flag. */
  lemma PrintedResponseParses(r: Response)
    requires Printable(r)
    ensures var (s, p) := Run(FRESH, HeadText(r) + r.body, 0);
      s.cs == 120 && p == |HeadText(r)| && ReadsBack(r, s)
  {
    hide Run, At, PlainHeaders, OwnHeaders, HeaderLines, StatusText, Decimal, Seen, OwnSeen;
    var buf := HeadText(r) + r.body;
    TextParts(r);
    var line, rest := StatusText(r.status) + (r.reason + CRLF), (HeaderLines(r.headers) + CRLF) + r.body;
    WholeBuffer(buf);
    AtSplit(buf, 0, line, OwnHeaders(r) + rest);
    AtSplit(buf, |line|, OwnHeaders(r), rest);
    AtSplit(buf, |line| + |OwnHeaders(r)|, HeaderLines(r.headers) + CRLF, r.body);
    StatusLineParses(r, buf);
    var s1 := AfterStatusLine(r, |StatusText(r.status)|);
    var s2 := OwnHeadersParse(r, s1, buf, |line|);
    var s3 := HeadersParse(s2, buf, |line| + |OwnHeaders(r)|, r.headers);
    var end := |line| + |OwnHeaders(r)| + |HeaderLines(r.headers)| + 2;
    assert end == |HeadText(r)|;
    assert buf[end..] == r.body;
    FitsInt(r.status);
  }

  lemma WholeBuffer(buf: bytes)
    ensures At(buf, 0, buf)
  {
  }

  /** The length comes back as it is exactly for bodies an int can count. */
  lemma LengthReadsBackIff(r: Response)
    requires Printable(r) && !r.close
    ensures Run(FRESH, HeadText(r) + r.body, 0).0.contentLen == |r.body| <==> |r.body| < 0x8000_0000
  {
    PrintedResponseParses(r);
    FitsInt(|r.body|);
  }

  /** A header comes back as it is exactly when its value is empty or does not start with a
      blank; the parser drops the blanks. */
  lemma HeaderReadsBackIff(s: Parser, h: Pair)
    requires s.cs == 20 && PlainHeader(h)
    ensures Run(s, HeaderLine(h), 0).0.events == s.events + [Header(h.name, h.value)]
            <==> h.value == [] || !IsBlank(h.value[0])
  {
    var buf := HeaderLine(h);
    WholeBuffer(buf);
    HeaderParses(s, buf, 0, h);
    assert Run(s, buf, 0).0 == AfterLine(s, 0, h, 20);
    hide Run, HeaderLine;
    var value := Stripped(h.value);
    assert (s.events + [Header(h.name, value)])[|s.events|] == Header(h.name, value);
    assert (s.events + [Header(h.name, h.value)])[|s.events|] == Header(h.name, h.value);
  }
}
