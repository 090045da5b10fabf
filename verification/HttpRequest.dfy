/** The header states of the request automaton in http/http11_parser.cpp, one call of
    http_parser_execute, the wrapper in http/HttpParser.cpp and the delivery of requests in
    http/HttpServer.cpp. All other states of the automaton are a parameter: any total function
    from a state and a character to the next state, with any judgement of methods and versions. */
module HttpRequest {
  import opened Bytes
  import opened HttpText

  // ---------- The automaton ----------

  /** The states that are not header states: where each goes on a character, and whether the
      callbacks it makes at a place of a buffer find a method or version they refuse. */
  datatype UriArcs = UriArcs(next: (nat, byte) -> nat, refuses: (nat, bytes, nat) -> bool)

  const FIRST_FINAL: nat := 348

  datatype Act = Pass | StartName | StopName | StartValue | CallField | CallEmptyField

  datatype Arc = Arc(target: nat, act: Act)

  const REJECT: Arc := Arc(0, Pass)

  predicate InHeaders(cs: nat) {
    13 <= cs <= 18 || cs == FIRST_FINAL
  }

  /** The header name characters: tokens and, as the generated tables have it, most control
      characters. */
  predicate IsNameChar(c: byte) {
    IsToken(c) || 1 <= c as int <= 8 || 11 <= c as int <= 31
  }

  predicate IsSpace(c: byte) {
    c == ' ' || c == '\t'
  }

  /** NUL and DEL, which no value may hold. */
  predicate IsBad(c: byte) {
    c as int == 0 || c as int == 127
  }

  /** Case 13 to case 18 and case 348. */
  function HeaderArc(cs: nat, c: byte): Arc {
    if cs == 13 then
      if c == '\n' then Arc(FIRST_FINAL, StartName)
      else if c == '\r' then Arc(18, StartName)
      else if IsNameChar(c) then Arc(14, StartName) else REJECT
    else if cs == 14 then
      if c == ':' then Arc(15, StopName)
      else if IsNameChar(c) || c == '\n' then Arc(14, Pass) else REJECT
    else if cs == 15 then
      if c == '\n' then Arc(13, CallEmptyField)
      else if c == '\r' then Arc(17, CallEmptyField)
      else if IsSpace(c) then Arc(15, StartValue)
      else if IsBad(c) then REJECT else Arc(16, StartValue)
    else if cs == 16 then
      if c == '\n' then Arc(13, CallField)
      else if c == '\r' then Arc(17, CallField)
      else if IsBad(c) then REJECT else Arc(16, Pass)
    else if cs == 17 then
      if c == '\n' then Arc(13, Pass) else REJECT
    else if cs == 18 then
      if c == '\n' then Arc(FIRST_FINAL, Pass)
      else if c == ':' then Arc(15, StopName)
      else if IsNameChar(c) then Arc(14, Pass) else REJECT
    else if cs == FIRST_FINAL then
      if c == ':' then Arc(15, StopName)
      else if IsNameChar(c) || c == '\n' then Arc(14, Pass) else REJECT
    else REJECT
  }

  function ArcOf(uri: UriArcs, cs: nat, c: byte): Arc {
    if InHeaders(cs) then HeaderArc(cs, c) else Arc(uri.next(cs, c), Pass)
  }

  // ---------- One call of http_parser_execute ----------

  /** The fields of struct http_parser a header state reads or writes, the http_field callbacks
      made so far, and error_. */
  datatype Parser = Parser(cs: nat, bodyStart: nat, mark: nat, fieldStart: nat, fieldLen: int, fields: seq<Pair>, error: bool)

  /** http_parser_init, with no header seen. */
  const START: Parser := Parser(1, 0, 0, 0, 0, [], false)

  /** HttpRequestParser::reset, which leaves error_ alone. */
  function Restarted(s: Parser): Parser {
    START.(error := s.error)
  }

  function Called(s: Parser, buf: bytes, p: nat): Parser {
    s.(fields := s.fields + [Pair(Slice(buf, s.fieldStart, s.fieldLen), Slice(buf, s.mark, p - s.mark))])
  }

  function Perform(s: Parser, act: Act, buf: bytes, p: nat): Parser {
    match act
    case Pass => s
    case StartName => s.(fieldStart := p)
    case StopName => s.(fieldLen := p - s.fieldStart)
    case StartValue => s.(mark := p)
    case CallField => Called(s, buf, p)
    case CallEmptyField => Called(s.(mark := p), buf, p)
  }

  function Forward(uri: UriArcs, s: Parser, buf: bytes, p: nat): Parser
    requires p < |buf|
  {
    var arc := ArcOf(uri, s.cs, buf[p]);
    Perform(s, arc.act, buf, p).(cs := arc.target, error := s.error || Refuses(uri, s.cs, buf, p))
  }

  /** setError, called back from a state that is no header state. */
  predicate Refuses(uri: UriArcs, cs: nat, buf: bytes, p: nat) {
    !InHeaders(cs) && uri.refuses(cs, buf, p)
  }

  /** The automaton from `p` on; it stops at the end of the buffer, on the character it
      rejects, or past the one that ends the request's head. */
  function Scan(uri: UriArcs, s: Parser, buf: bytes, p: nat): (r: (Parser, nat))
    requires p <= |buf|
    ensures p <= r.1 <= |buf|
    decreases |buf| - p
  {
    if p == |buf| then (s, p)
    else
      var t := Forward(uri, s, buf, p);
      if t.cs == 0 then (s.(cs := 0), p)
      else if t.cs >= FIRST_FINAL then (t.(bodyStart := p + 1), p + 1)
      else Scan(uri, t, buf, p + 1)
  }

  function Cleared(s: Parser): Parser {
    s.(mark := 0, fieldStart := 0, fieldLen := 0)
  }

  /** http_parser_finish: -1 on error, 1 when the head is complete. */
  function Finish(cs: nat): int {
    if cs == 0 then -1 else if cs >= FIRST_FINAL then 1 else 0
  }

  // ---------- The connection ----------

  datatype Request = Request(fields: seq<Pair>, body: bytes)

  /** What this model does not look into: the other states of the automaton, the lexical_cast
      of a header value to an unsigned length (0 when it throws), and whether the response the
      user's callback leaves asks for the connection to be closed. */
  datatype Server = Server(uri: UriArcs, cast: bytes -> nat, closes: Request -> bool)

  /** A connection: its parser, the body of the request being received, the input buffer, the
      requests handed to the callback, and the number of 400 answers. */
  datatype Session = Session(parser: Parser, body: bytes, pending: bytes, served: seq<Request>, rejected: nat)

  /** HttpRequest::getHeader on the map the callbacks fill: the first header of that name. */
  function Lookup(fields: seq<Pair>, name: bytes): Option<bytes> {
    if fields == [] then None
    else if fields[0].name == name && name != [] then Some(fields[0].value)
    else Lookup(fields[1..], name)
  }

  function ContentLength(server: Server, fields: seq<Pair>): nat {
    var value := Lookup(fields, "Content-Length");
    if value.None? then 0 else server.cast(value.value)
  }

  /** http_parser_execute on a whole buffer. */
  function Fed(uri: UriArcs, s: Parser, buf: bytes): (r: (Parser, nat))
    ensures r.1 <= |buf|
  {
    if buf == [] then (s, 0) else Scan(uri, Cleared(s), buf, 0)
  }

  /** HttpRequestParser::execute: the parser, and what is left in the input buffer. */
  function Taken(uri: UriArcs, s: Parser, buf: bytes): (Parser, bytes) {
    if Finish(s.cs) != 0 then (s, buf)
    else
      var (t, n) := Fed(uri, s, buf);
      (t, buf[n..])
  }

  function Executed(server: Server, s: Session): Session {
    var (t, rest) := Taken(server.uri, s.parser, s.pending);
    s.(parser := t, pending := rest)
  }

  /** HttpServer::onRequest. */
  function Requested(server: Server, s: Session): Session {
    var request := Request(s.parser.fields, s.body);
    var t := s.(served := s.served + [request]);
    if server.closes(request) then t else t.(parser := Restarted(s.parser), body := [])
  }

  /** The 400 answers to `k` segments that arrive after a method or version was refused. */
  function Refused(s: Session, k: nat): Session {
    s.(rejected := if s.parser.error then s.rejected + k else s.rejected)
  }

  /** What onMessage does once the head is complete. */
  function WithBody(server: Server, s: Session): Session {
    var length := ContentLength(server, s.parser.fields);
    if length == 0 then Requested(server, s)
    else
      var len := (length - |s.body|) % 0x1_0000_0000_0000_0000;
      var take := if |s.pending| < len then |s.pending| else len;
      var t := s.(body := s.body + s.pending[..take]);
      var u := if |t.body| == length then Requested(server, t) else t;
      u.(pending := s.pending[take..])
  }

  /** HttpServer::onMessage. */
  function Messaged(server: Server, s: Session): Session {
    var t := Executed(server, s);
    var u := if t.parser.cs == 0 then t.(rejected := t.rejected + 1) else Refused(t, 1);
    if Finish(u.parser.cs) == 1 then WithBody(server, u) else u
  }

  /** A segment arrives: it is appended to the input buffer and onMessage is called. */
  function Delivered(server: Server, s: Session, segment: bytes): Session {
    Messaged(server, s.(pending := s.pending + segment))
  }

  // ---------- The code ----------

  class HttpConnection {
    const server: Server
    var cs: nat
    var bodyStart: nat
    var mark: nat
    var fieldStart: nat
    var fieldLen: int
    var fields: seq<Pair>
    var error: bool
    var body: bytes
    var pending: bytes
    var served: seq<Request>
    var rejected: nat

    function ParserView(): Parser
      reads this
    {
      Parser(cs, bodyStart, mark, fieldStart, fieldLen, fields, error)
    }

    function View(): Session
      reads this
    {
      Session(ParserView(), body, pending, served, rejected)
    }

    constructor (server: Server)
      ensures View() == Session(START, [], [], [], 0) && this.server == server
    {
      this.server := server;
      cs, bodyStart, mark, fieldStart, fieldLen, fields, error := 1, 0, 0, 0, 0, [], false;
      body, pending, served, rejected := [], [], [], 0;
    }

    /** onRequestHttpField, handed the slices the marks delimit. */
    method CallHttpField(buffer: bytes, p: nat)
      modifies `fields
      ensures ParserView() == Called(old(ParserView()), buffer, p)
    {
      fields := fields + [Pair(Slice(buffer, fieldStart, fieldLen), Slice(buffer, mark, p - mark))];
    }

    method Act(act: Act, buffer: bytes, p: nat)
      modifies `mark, `fieldStart, `fieldLen, `fields
      ensures ParserView() == Perform(old(ParserView()), act, buffer, p)
    {
      match act {
        case Pass =>
        case StartName => fieldStart := p;
        case StopName => fieldLen := p - fieldStart;
        case StartValue => mark := p;
        case CallField => CallHttpField(buffer, p);
        case CallEmptyField => mark := p; CallHttpField(buffer, p);
      }
    }

    /** http_parser_execute. */
    method ParserExecute(buffer: bytes, off: nat) returns (nread: nat)
      requires off <= |buffer| && cs != 0
      modifies `cs, `bodyStart, `mark, `fieldStart, `fieldLen, `fields, `error
      ensures buffer == [] ==> nread == 0 && ParserView() == old(ParserView())
      ensures buffer != [] ==> (ParserView(), off + nread) == Scan(server.uri, Cleared(old(ParserView())), buffer, off)
    {
      if |buffer| == 0 {
        return 0;
      }
      mark, fieldLen, fieldStart := 0, 0, 0;
      ghost var start := ParserView();
      hide ArcOf, Perform, Refuses;
      var p, out := off, false;
      var state: nat := cs;
      while p < |buffer| && !out
        invariant off <= p <= |buffer|
        invariant !out ==> state != 0 && Scan(server.uri, start, buffer, off) == Scan(server.uri, ParserView().(cs := state), buffer, p)
        invariant out ==> Scan(server.uri, start, buffer, off) == (ParserView().(cs := state), p)
        invariant cs == old(cs)
        decreases |buffer| - p, !out
      {
        var arc := ArcOf(server.uri, state, buffer[p]);
        if arc.target == 0 {
          state, out := 0, true;
        } else {
          ghost var before := ParserView();
          CsIsNotRead(before, state, arc.act, buffer, p);
          Act(arc.act, buffer, p);
          if Refuses(server.uri, state, buffer, p) {
            error := true;
          }
          state := arc.target;
          if state >= FIRST_FINAL {
            bodyStart, out := p + 1, true;
          }
          p := p + 1;
        }
      }
      if cs != 0 {
        cs := state;
      }
      nread := p - off;
    }

    method IsFinished() returns (r: int)
      ensures r == Finish(cs)
    {
      if cs == 0 {
        r := -1;
      } else if cs >= FIRST_FINAL {
        r := 1;
      } else {
        r := 0;
      }
    }

    /** HttpRequestParser::execute on the connection's input buffer. */
    method Execute() returns (offset: nat)
      modifies this
      ensures View() == Executed(server, old(View()))
      ensures offset == |old(pending)| - |pending|
    {
      var finished := IsFinished();
      if finished == 0 {
        offset := ParserExecute(pending, 0);
        pending := pending[offset..];
      } else {
        offset := 0;
      }
    }

    /** HttpRequestParser::reset. */
    method Reset()
      modifies `cs, `bodyStart, `mark, `fieldStart, `fieldLen, `fields, `body
      ensures ParserView() == Restarted(old(ParserView())) && body == []
    {
      cs, bodyStart, mark, fieldStart, fieldLen := 1, 0, 0, 0, 0;
      fields, body := [], [];
    }

    /** HttpServer::onRequest. */
    method OnRequest()
      modifies this
      ensures View() == Requested(server, old(View()))
    {
      var request := Request(fields, body);
      served := served + [request];
      if !server.closes(request) {
        Reset();
      }
    }

    /** HttpServer::onMessage, after `segment` has been read into the input buffer. */
    method OnMessage(segment: bytes)
      modifies this
      ensures View() == Delivered(server, old(View()), segment)
    {
      hide Executed, WithBody;
      pending := pending + segment;
      var _ := Execute();
      if error || cs == 0 {
        rejected := rejected + 1;
      }
      var finished := IsFinished();
      if finished == 1 {
        DeliverBody();
      }
    }

    /** The second half of onMessage, once the head is complete. */
    method DeliverBody()
      modifies this
      ensures View() == WithBody(server, old(View()))
    {
      hide ContentLength, Requested;
      var length := ContentLength(server, fields);
      if length > 0 {
        var len := (length - |body|) % 0x1_0000_0000_0000_0000;
        var end := if |pending| < len then |pending| else len;
        var left := pending[end..];
        body := body + pending[..end];
        if |body| == length {
          OnRequest();
        }
        pending := left;
      } else {
        OnRequest();
      }
    }
  }

  lemma CsIsNotRead(s: Parser, cs: nat, act: Act, buf: bytes, p: nat)
    ensures Perform(s.(cs := cs), act, buf, p) == Perform(s, act, buf, p).(cs := cs)
    ensures Perform(s, act, buf, p).cs == s.cs && Perform(s, act, buf, p).error == s.error
  {
  }

  // ---------- Header lines ----------

  lemma One(uri: UriArcs, s: Parser, buf: bytes, p: nat)
    requires p < |buf| && 0 < Forward(uri, s, buf, p).cs < FIRST_FINAL
    ensures Scan(uri, s, buf, p) == Scan(uri, Forward(uri, s, buf, p), buf, p + 1)
  {
  }

  /** A step of a header state that makes no callback. */
  lemma Quiet(uri: UriArcs, s: Parser, buf: bytes, p: nat, t: Parser)
    requires p < |buf| && InHeaders(s.cs) && 0 < t.cs < FIRST_FINAL
    requires var arc := HeaderArc(s.cs, buf[p]); t == Perform(s, arc.act, buf, p).(cs := arc.target)
    ensures Scan(uri, s, buf, p) == Scan(uri, t, buf, p + 1)
  {
    CsIsNotRead(s, s.cs, HeaderArc(s.cs, buf[p]).act, buf, p);
    hide HeaderArc, Perform, Scan;
    assert Forward(uri, s, buf, p) == t;
    One(uri, s, buf, p);
  }

  lemma TokensAreNameChars(c: byte)
    requires IsToken(c)
    ensures HeaderArc(13, c) == Arc(14, StartName) && HeaderArc(14, c) == Arc(14, Pass)
  {
  }

  lemma {:induction false} RestOfName(uri: UriArcs, s: Parser, buf: bytes, p: nat, n: bytes)
    requires s.cs == 14 && At(buf, p, n) && forall i :: 0 <= i < |n| ==> IsToken(n[i])
    ensures Scan(uri, s, buf, p) == Scan(uri, s, buf, p + |n|)
    decreases |n|
  {
    hide Scan, HeaderArc, IsToken;
    if n != [] {
      assert n == [n[0]] + n[1..];
      AtSplit(buf, p, [n[0]], n[1..]);
      AtIndex(buf, p, n, 0);
      TokensAreNameChars(n[0]);
      Quiet(uri, s, buf, p, s);
      RestOfName(uri, s, buf, p + 1, n[1..]);
    }
  }

  /** The rest of a name, from state 14, and its colon. */
  lemma Colon(uri: UriArcs, s: Parser, buf: bytes, p: nat, n: bytes)
    requires s.cs == 14 && At(buf, p, n + ":") && forall i :: 0 <= i < |n| ==> IsToken(n[i])
    ensures Scan(uri, s, buf, p) == Scan(uri, s.(cs := 15, fieldLen := p + |n| - s.fieldStart), buf, p + |n| + 1)
  {
    hide Scan, At, IsToken;
    AtSplit(buf, p, n, ":");
    AtIndex(buf, p + |n|, ":", 0);
    RestOfName(uri, s, buf, p, n);
    Quiet(uri, s, buf, p + |n|, s.(cs := 15, fieldLen := p + |n| - s.fieldStart));
  }

  lemma NameParses(uri: UriArcs, s: Parser, buf: bytes, p: nat, n: bytes)
    requires s.cs == 13 && IsName(n) && At(buf, p, n + ":")
    ensures Scan(uri, s, buf, p) == Scan(uri, s.(cs := 15, fieldStart := p, fieldLen := |n|), buf, p + |n| + 1)
  {
    hide Scan, HeaderArc;
    assert n + ":" == [n[0]] + (n[1..] + ":");
    AtSplit(buf, p, [n[0]], n[1..] + ":");
    AtIndex(buf, p, [n[0]], 0);
    TokensAreNameChars(n[0]);
    hide At, IsToken;
    var t := s.(cs := 14, fieldStart := p);
    Quiet(uri, s, buf, p, t);
    Colon(uri, t, buf, p + 1, n[1..]);
  }

  /** A value as the parser reports it: without the blanks and tabs it starts with. */
  function Trimmed(v: bytes): (r: bytes)
    ensures |r| <= |v|
  {
    if v != [] && IsSpace(v[0]) then Trimmed(v[1..]) else v
  }

  predicate Clean(v: bytes) {
    forall i :: 0 <= i < |v| ==> !IsBad(v[i])
  }

  lemma {:induction false} TrimmedIsSuffix(v: bytes)
    ensures v[|v| - |Trimmed(v)|..] == Trimmed(v)
  {
    if v != [] && IsSpace(v[0]) {
      TrimmedIsSuffix(v[1..]);
    }
  }

  /** The arcs of the value states on a character that is no CR or LF. */
  lemma ValueArcs(c: byte)
    requires c != '\r' && c != '\n' && !IsBad(c)
    ensures HeaderArc(15, c) == if IsSpace(c) then Arc(15, StartValue) else Arc(16, StartValue)
    ensures HeaderArc(16, c) == Arc(16, Pass)
  {
  }

  /** The arcs out of a value, and on what it may not hold. */
  lemma EndArcs(c: byte)
    ensures HeaderArc(15, '\r') == Arc(17, CallEmptyField) && HeaderArc(16, '\r') == Arc(17, CallField)
    ensures HeaderArc(17, '\n') == Arc(13, Pass)
    ensures IsBad(c) ==> HeaderArc(15, c) == REJECT && HeaderArc(16, c) == REJECT
  {
  }

  /** The rest of a value, from state 16. */
  lemma {:induction false} RestOfValue(uri: UriArcs, s: Parser, buf: bytes, q: nat, v: bytes)
    requires s.cs == 16 && OneLine(v) && Clean(v) && At(buf, q, v)
    ensures Scan(uri, s, buf, q) == Scan(uri, s, buf, q + |v|)
    decreases |v|
  {
    hide Scan, HeaderArc;
    if v != [] {
      assert v == [v[0]] + v[1..];
      AtSplit(buf, q, [v[0]], v[1..]);
      AtIndex(buf, q, v, 0);
      ValueArcs(v[0]);
      Quiet(uri, s, buf, q, s);
      RestOfValue(uri, s, buf, q + 1, v[1..]);
    }
  }

  /** CR after a value: the callback. */
  lemma ValueEnds(uri: UriArcs, s: Parser, buf: bytes, p: nat)
    requires (s.cs == 15 || s.cs == 16) && p < |buf| && buf[p] == '\r'
    ensures var t := if s.cs == 15 then s.(mark := p) else s;
      Scan(uri, s, buf, p) == Scan(uri, Called(t, buf, p).(cs := 17), buf, p + 1)
  {
    hide Scan, HeaderArc, Called;
    EndArcs('\r');
    Quiet(uri, s, buf, p, Called(if s.cs == 15 then s.(mark := p) else s, buf, p).(cs := 17));
  }

  lemma LineFeed(uri: UriArcs, s: Parser, buf: bytes, p: nat)
    requires s.cs == 17 && p < |buf| && buf[p] == '\n'
    ensures Scan(uri, s, buf, p) == Scan(uri, s.(cs := 13), buf, p + 1)
  {
    hide Scan, HeaderArc;
    EndArcs('\n');
    Quiet(uri, s, buf, p, s.(cs := 13));
  }

  lemma FieldOf(s: Parser, buf: bytes, p: nat, cs: nat)
    ensures Called(s.(cs := cs), buf, p).(cs := 17) == Called(s, buf, p).(cs := 17)
    ensures Called(s, buf, p).(cs := 17).(cs := 13) == Called(s, buf, p).(cs := 13)
  {
  }

  /** A value up to its CR. */
  lemma {:induction false} ValueParses(uri: UriArcs, s: Parser, buf: bytes, q: nat, v: bytes)
    requires s.cs == 15 && OneLine(v) && Clean(v) && At(buf, q, v + "\r")
    ensures var t := s.(mark := q + |v| - |Trimmed(v)|);
      Scan(uri, s, buf, q) == Scan(uri, Called(t, buf, q + |v|).(cs := 17), buf, q + |v| + 1)
    decreases |v|
  {
    hide Scan, HeaderArc, At, Called;
    if v == [] {
      assert v + "\r" == "\r";
      AtIndex(buf, q, "\r", 0);
      ValueEnds(uri, s, buf, q);
    } else {
      assert v + "\r" == [v[0]] + (v[1..] + "\r");
      AtSplit(buf, q, [v[0]], v[1..] + "\r");
      AtIndex(buf, q, [v[0]], 0);
      ValueArcs(v[0]);
      if IsSpace(v[0]) {
        Quiet(uri, s, buf, q, s.(mark := q));
        ValueParses(uri, s.(mark := q), buf, q + 1, v[1..]);
      } else {
        SolidValue(uri, s, buf, q, v);
      }
    }
  }

  lemma SolidValue(uri: UriArcs, s: Parser, buf: bytes, q: nat, v: bytes)
    requires s.cs == 15 && OneLine(v) && Clean(v) && v != [] && !IsSpace(v[0]) && At(buf, q, v + "\r")
    ensures Scan(uri, s, buf, q) == Scan(uri, Called(s.(mark := q), buf, q + |v|).(cs := 17), buf, q + |v| + 1)
  {
    hide Scan, HeaderArc, At, Called;
    AtSplit(buf, q, v, "\r");
    AtIndex(buf, q, v, 0);
    AtIndex(buf, q + |v|, "\r", 0);
    assert [v[0]] + v[1..] == v;
    AtSplit(buf, q, [v[0]], v[1..]);
    ValueArcs(v[0]);
    var t := s.(cs := 16, mark := q);
    Quiet(uri, s, buf, q, t);
    RestOfValue(uri, t, buf, q + 1, v[1..]);
    hide OneLine, Clean, IsSpace;
    ValueEnds(uri, t, buf, q + |v|);
    FieldOf(s.(mark := q), buf, q + |v|, 16);
  }

  predicate Sendable(h: Pair) {
    IsName(h.name) && OneLine(h.value) && Clean(h.value)
  }

  /** The parser after the line `h` at `p`, up to its CR or LF. */
  function AfterLine(s: Parser, p: nat, h: Pair, cs: nat): Parser {
    var value := Trimmed(h.value);
    Parser(cs, s.bodyStart, p + |h.name| + 2 + |h.value| - |value|, p, |h.name|, s.fields + [Pair(h.name, value)], s.error)
  }

  lemma HeaderSlices(buf: bytes, p: nat, h: Pair)
    requires At(buf, p, h.name) && At(buf, p + |h.name| + 2, h.value)
    ensures var end, n := p + |h.name| + 2 + |h.value|, |Trimmed(h.value)|;
      Slice(buf, p, |h.name|) == h.name && Slice(buf, end - n, n) == Trimmed(h.value)
  {
    hide Trimmed;
    TrimmedIsSuffix(h.value);
    Suffix(buf, p + |h.name| + 2, h.value, |h.value| - |Trimmed(h.value)|);
  }

  /** A header line up to its CR. */
  function LineBody(h: Pair): bytes {
    h.name + (": " + (h.value + "\r"))
  }

  lemma BodyParts(buf: bytes, p: nat, h: Pair)
    requires At(buf, p, LineBody(h))
    ensures At(buf, p, h.name + ":") && At(buf, p, h.name) && At(buf, p + |h.name| + 1, " ")
    ensures At(buf, p + |h.name| + 2, h.value + "\r") && At(buf, p + |h.name| + 2, h.value)
  {
    assert LineBody(h) == (h.name + ":") + (" " + (h.value + "\r"));
    hide At, LineBody;
    AtSplit(buf, p, h.name + ":", " " + (h.value + "\r"));
    AtSplit(buf, p, h.name, ":");
    AtSplit(buf, p + |h.name| + 1, " ", h.value + "\r");
    AtSplit(buf, p + |h.name| + 2, h.value, "\r");
  }

  /** The blank after the colon, and the value. */
  lemma AfterColon(uri: UriArcs, s: Parser, buf: bytes, q: nat, v: bytes)
    requires s.cs == 15 && OneLine(v) && Clean(v) && At(buf, q, " ") && At(buf, q + 1, v + "\r")
    ensures var end := q + 1 + |v|;
      Scan(uri, s, buf, q) == Scan(uri, Called(s.(mark := end - |Trimmed(v)|), buf, end).(cs := 17), buf, end + 1)
  {
    hide Scan, HeaderArc, At, Called, OneLine, Clean, Trimmed;
    AtIndex(buf, q, " ", 0);
    ValueArcs(' ');
    Quiet(uri, s, buf, q, s.(mark := q));
    ValueParses(uri, s.(mark := q), buf, q + 1, v);
  }

  lemma LineParses(uri: UriArcs, s: Parser, buf: bytes, p: nat, h: Pair)
    requires s.cs == 13 && Sendable(h) && At(buf, p, LineBody(h))
    ensures Scan(uri, s, buf, p) == Scan(uri, AfterLine(s, p, h, 17), buf, p + |LineBody(h)|)
  {
    hide Scan, At, Clean, OneLine, IsName, Trimmed, Slice;
    assert |LineBody(h)| == |h.name| + |h.value| + 3;
    BodyParts(buf, p, h);
    hide LineBody;
    NameParses(uri, s, buf, p, h.name);
    var t := s.(cs := 15, fieldStart := p, fieldLen := |h.name|);
    AfterColon(uri, t, buf, p + |h.name| + 1, h.value);
    HeaderSlices(buf, p, h);
  }

  /** The fields of a header list as http_field is called with them. */
  function Reported(hs: seq<Pair>): seq<Pair> {
    if hs == [] then [] else [Pair(hs[0].name, Trimmed(hs[0].value))] + Reported(hs[1..])
  }

  predicate AllSendable(hs: seq<Pair>) {
    forall i :: 0 <= i < |hs| ==> Sendable(hs[i])
  }

  lemma LineWithFeed(buf: bytes, p: nat, h: Pair, rest: bytes)
    requires At(buf, p, HeaderLine(h) + rest)
    ensures |HeaderLine(h)| == |LineBody(h)| + 1
    ensures At(buf, p, LineBody(h)) && At(buf, p + |LineBody(h)|, "\n") && At(buf, p + |HeaderLine(h)|, rest)
  {
    assert HeaderLine(h) == LineBody(h) + "\n";
    AtSplit(buf, p, HeaderLine(h), rest);
    AtSplit(buf, p, LineBody(h), "\n");
  }

  /** The printed header block: http_field is called once for each pair, in order, with the
      name and the value less its leading blanks, and the automaton ends in its final state
      just past the empty line. */
  lemma {:induction false} HeadersParse(uri: UriArcs, s: Parser, buf: bytes, p: nat, hs: seq<Pair>)
    requires s.cs == 13 && AllSendable(hs) && At(buf, p, HeaderLines(hs) + CRLF)
    ensures var (t, q) := Scan(uri, s, buf, p);
      q == p + |HeaderLines(hs)| + 2 && t.cs == FIRST_FINAL && t.bodyStart == q && t.fields == s.fields + Reported(hs)
    decreases |hs|
  {
    hide At, HeaderLine, Scan, LineBody;
    if hs == [] {
      assert HeaderLines(hs) + CRLF == CRLF;
      AtIndex(buf, p, CRLF, 0);
      AtIndex(buf, p, CRLF, 1);
      EmptyLineParses(uri, s, buf, p);
      assert s.fields + Reported(hs) == s.fields;
    } else {
      var h, rest := hs[0], HeaderLines(hs[1..]) + CRLF;
      assert HeaderLines(hs) + CRLF == HeaderLine(h) + rest;
      LineWithFeed(buf, p, h, rest);
      AtIndex(buf, p + |LineBody(h)|, "\n", 0);
      assert Sendable(h);
      hide Sendable;
      LineParses(uri, s, buf, p, h);
      LineFeed(uri, AfterLine(s, p, h, 17), buf, p + |LineBody(h)|);
      var t := AfterLine(s, p, h, 13);
      assert AfterLine(s, p, h, 17).(cs := 13) == t;
      HeadersParse(uri, t, buf, p + |HeaderLine(h)|, hs[1..]);
      assert t.fields + Reported(hs[1..]) == s.fields + Reported(hs) by {
        Shift(s.fields, Pair(h.name, Trimmed(h.value)), Reported(hs[1..]));
      }
    }
  }

  lemma Shift(a: seq<Pair>, h: Pair, b: seq<Pair>)
    ensures (a + [h]) + b == a + ([h] + b)
  {
  }

  lemma EmptyLineParses(uri: UriArcs, s: Parser, buf: bytes, p: nat)
    requires s.cs == 13 && p + 1 < |buf| && buf[p] == '\r' && buf[p + 1] == '\n'
    ensures Scan(uri, s, buf, p) == (s.(cs := FIRST_FINAL, fieldStart := p, bodyStart := p + 2), p + 2)
  {
    Quiet(uri, s, buf, p, s.(cs := 18, fieldStart := p));
  }

  // ---------- Values the automaton refuses ----------

  function FirstBad(v: bytes): nat {
    if v == [] || IsBad(v[0]) then 0 else 1 + FirstBad(v[1..])
  }

  /** A value is taken exactly when it holds no NUL and no DEL; otherwise the automaton stops in
      its error state on the first of them, without a callback. */
  lemma {:induction false} BadValueStops(uri: UriArcs, s: Parser, buf: bytes, q: nat, v: bytes)
    requires (s.cs == 15 || s.cs == 16) && OneLine(v) && !Clean(v) && At(buf, q, v)
    ensures var (t, p) := Scan(uri, s, buf, q);
      t.cs == 0 && t.fields == s.fields && p == q + FirstBad(v)
    decreases |v|
  {
    hide HeaderArc, At;
    AtIndex(buf, q, v, 0);
    EndArcs(v[0]);
    if !IsBad(v[0]) {
      assert v == [v[0]] + v[1..];
      AtSplit(buf, q, [v[0]], v[1..]);
      ValueArcs(v[0]);
      hide Scan;
      if s.cs == 15 {
        var t := s.(cs := if IsSpace(v[0]) then 15 else 16, mark := q);
        Quiet(uri, s, buf, q, t);
        BadValueStops(uri, t, buf, q + 1, v[1..]);
      } else {
        Quiet(uri, s, buf, q, s);
        BadValueStops(uri, s, buf, q + 1, v[1..]);
      }
    }
  }

  // ---------- A header line split over two deliveries ----------

  /** The callbacks after `line` arrives in two segments, the first of `k` bytes. */
  function SplitFields(uri: UriArcs, s: Parser, line: bytes, k: nat): seq<Pair>
    requires k <= |line|
  {
    Fed(uri, Fed(uri, s, line[..k]).0, line[k..]).0.fields
  }

  lemma AtStart(buf: bytes, a: bytes, b: bytes)
    requires buf == a + b
    ensures At(buf, 0, a) && At(buf, |a|, b)
  {
  }

  /** A line whose CR is in the first segment is reported there. */
  lemma WholeLineFirst(uri: UriArcs, s: Parser, h: Pair, k: nat)
    requires s.cs == 13 && Sendable(h) && |LineBody(h)| <= k <= |HeaderLine(h)|
    ensures SplitFields(uri, s, HeaderLine(h), k) == s.fields + [Pair(h.name, Trimmed(h.value))]
  {
    var line := HeaderLine(h);
    assert line == LineBody(h) + "\n";
    var first, rest := line[..k], line[k..];
    assert first == LineBody(h) + first[|LineBody(h)|..];
    AtStart(first, LineBody(h), first[|LineBody(h)|..]);
    LineParses(uri, Cleared(s), first, 0, h);
    var t := AfterLine(Cleared(s), 0, h, 17);
    if k == |LineBody(h)| {
      assert rest == "\n";
      LineFeed(uri, Cleared(t), rest, 0);
    } else {
      assert rest == [];
      LineFeed(uri, t, first, |LineBody(h)|);
    }
  }

  /** A line split inside its name is reported with what the second segment holds of the name. */
  lemma SplitInName(uri: UriArcs, s: Parser, h: Pair, k: nat)
    requires s.cs == 13 && Sendable(h) && 0 < k <= |h.name|
    ensures SplitFields(uri, s, HeaderLine(h), k) == s.fields + [Pair(h.name[k..], Trimmed(h.value))]
  {
    var line := HeaderLine(h);
    assert line[..k] == h.name[..k];
    FirstOfName(uri, Cleared(s), h.name[..k]);
    var t := Cleared(s).(cs := 14);
    var rest := h.name[k..] + (": " + (h.value + CRLF));
    assert line[k..] == rest;
    assert forall i :: 0 <= i < |h.name[k..]| ==> h.name[k..][i] == h.name[k + i];
    SecondOfName(uri, t, rest, h.name[k..], h.value);
  }

  lemma FirstOfName(uri: UriArcs, s: Parser, n: bytes)
    requires s.cs == 13 && s.fieldStart == 0 && IsName(n)
    ensures Scan(uri, s, n, 0) == (s.(cs := 14), |n|)
  {
    hide HeaderArc;
    TokensAreNameChars(n[0]);
    var t := s.(cs := 14);
    assert n == [n[0]] + n[1..];
    AtStart(n, [n[0]], n[1..]);
    assert Scan(uri, t, n, |n|) == (t, |n|);
    hide Scan, At, IsToken;
    Quiet(uri, s, n, 0, t);
    RestOfName(uri, t, n, 1, n[1..]);
  }

  lemma SecondOfName(uri: UriArcs, s: Parser, buf: bytes, n: bytes, v: bytes)
    requires s.cs == 14 && s.fieldStart == 0 && (forall i :: 0 <= i < |n| ==> IsToken(n[i]))
    requires OneLine(v) && Clean(v) && buf == n + (": " + (v + CRLF))
    ensures Scan(uri, s, buf, 0).0.fields == s.fields + [Pair(n, Trimmed(v))]
  {
    hide At, Scan, Clean, OneLine, Trimmed, Slice, IsToken, HeaderArc, Called;
    SecondParts(buf, n, v);
    Colon(uri, s, buf, 0, n);
    var t := s.(cs := 15, fieldLen := |n|);
    AfterColon(uri, t, buf, |n| + 1, v);
    var end := |n| + 2 + |v|;
    var u := t.(mark := end - |Trimmed(v)|);
    FieldsOf(u, buf, Pair(n, v));
    LineFeed(uri, Called(u, buf, end).(cs := 17), buf, end + 1);
    AtTheEnd(uri, Called(u, buf, end).(cs := 13), buf);
  }

  lemma SecondParts(buf: bytes, n: bytes, v: bytes)
    requires buf == n + (": " + (v + CRLF))
    ensures |buf| == |n| + |v| + 4 && buf[|n| + |v| + 3] == '\n'
    ensures At(buf, 0, n + ":") && At(buf, 0, n) && At(buf, |n| + 1, " ")
    ensures At(buf, |n| + 2, v + "\r") && At(buf, |n| + 2, v)
  {
    var h := Pair(n, v);
    assert buf == HeaderLine(h) + [];
    AtStart(buf, HeaderLine(h), []);
    LineWithFeed(buf, 0, h, []);
    BodyParts(buf, 0, h);
  }

  lemma FieldsOf(t: Parser, buf: bytes, h: Pair)
    requires At(buf, 0, h.name) && At(buf, |h.name| + 2, h.value)
    requires t.fieldStart == 0 && t.fieldLen == |h.name|
    requires t.mark == |h.name| + 2 + |h.value| - |Trimmed(h.value)|
    ensures Called(t, buf, |h.name| + 2 + |h.value|).fields == t.fields + [Pair(h.name, Trimmed(h.value))]
  {
    HeaderSlices(buf, 0, h);
    hide Slice, At, Trimmed;
  }

  lemma AtTheEnd(uri: UriArcs, s: Parser, buf: bytes)
    ensures Scan(uri, s, buf, |buf|) == (s, |buf|)
  {
  }

  /** A prefix of what follows the colon: the automaton is in a value state, and nothing has
      been reported. */
  lemma {:induction false} ValuePrefix(uri: UriArcs, s: Parser, buf: bytes, q: nat, w: bytes) returns (t: Parser)
    requires (s.cs == 15 || s.cs == 16) && OneLine(w) && Clean(w) && At(buf, q, w) && q + |w| == |buf|
    ensures Scan(uri, s, buf, q) == (t, |buf|) && (t.cs == 15 || t.cs == 16) && t.fields == s.fields
    decreases |w|
  {
    hide HeaderArc, At;
    if w == [] {
      t := s;
    } else {
      assert w == [w[0]] + w[1..];
      AtSplit(buf, q, [w[0]], w[1..]);
      AtIndex(buf, q, w, 0);
      ValueArcs(w[0]);
      hide Scan;
      var u := if s.cs == 16 then s else s.(cs := if IsSpace(w[0]) then 15 else 16, mark := q);
      Quiet(uri, s, buf, q, u);
      t := ValuePrefix(uri, u, buf, q + 1, w[1..]);
    }
  }

  /** The rest of a line in a segment of its own: its name is reported as empty. */
  lemma ValueAlone(uri: UriArcs, s: Parser, v: bytes)
    requires (s.cs == 15 || s.cs == 16) && s.fieldStart == 0 && s.fieldLen == 0 && OneLine(v) && Clean(v)
    ensures var fields := Scan(uri, s, v + CRLF, 0).0.fields;
      |fields| == |s.fields| + 1 && fields[|s.fields|].name == []
  {
    var buf := v + CRLF;
    ValueAtStart(v);
    hide At, Scan, Clean, OneLine, Trimmed, HeaderArc, Called;
    if s.cs == 15 {
      ValueParses(uri, s, buf, 0, v);
      NamelessEnd(uri, s.(mark := |v| - |Trimmed(v)|), buf, |v|);
    } else {
      RestOfValue(uri, s, buf, 0, v);
      ValueEnds(uri, s, buf, |v|);
      NamelessEnd(uri, s, buf, |v|);
    }
  }

  lemma ValueAtStart(v: bytes)
    ensures var buf := v + CRLF;
      At(buf, 0, v + "\r") && At(buf, 0, v) && buf[|v|] == '\r' && buf[|v| + 1] == '\n'
  {
    var buf := v + CRLF;
    assert buf == (v + "\r") + "\n";
    AtStart(buf, v + "\r", "\n");
    AtStart(buf, v, CRLF);
  }

  lemma NamelessEnd(uri: UriArcs, s: Parser, buf: bytes, p: nat)
    requires s.fieldStart == 0 && s.fieldLen == 0 && p + 2 == |buf| && buf[p + 1] == '\n'
    ensures var fields := Scan(uri, Called(s, buf, p).(cs := 17), buf, p + 1).0.fields;
      |fields| == |s.fields| + 1 && fields[|s.fields|].name == []
  {
    hide Scan;
    var u := Called(s, buf, p).(cs := 17);
    LineFeed(uri, u, buf, p + 1);
    AtTheEnd(uri, u.(cs := 13), buf);
  }

  /** The segment that ends inside a value reports nothing. */
  lemma FirstOfValue(uri: UriArcs, s: Parser, first: bytes, n: bytes, w: bytes) returns (t: Parser)
    requires s.cs == 13 && IsName(n) && OneLine(w) && Clean(w)
    requires At(first, 0, n + ":") && At(first, |n| + 1, w) && |n| + 1 + |w| == |first|
    ensures Fed(uri, s, first) == (t, |first|) && (t.cs == 15 || t.cs == 16) && t.fields == s.fields
  {
    hide At, Scan, OneLine, Clean, IsName;
    NameParses(uri, Cleared(s), first, 0, n);
    t := ValuePrefix(uri, Cleared(s).(cs := 15, fieldLen := |n|), first, |n| + 1, w);
  }

  /** A line split after its colon and before its CR loses its name. */
  lemma SplitInValue(uri: UriArcs, s: Parser, h: Pair, k: nat)
    requires s.cs == 13 && Sendable(h) && |h.name| < k < |LineBody(h)|
    ensures k <= |HeaderLine(h)|
    ensures var fields := SplitFields(uri, s, HeaderLine(h), k);
      |fields| == |s.fields| + 1 && fields[|s.fields|].name == []
  {
    assert IsName(h.name);
    hide At, Scan, OneLine, Clean, HeaderLine, LineBody, Sendable, IsName, Fed;
    LineLengths(h);
    CutInValue(h, k);
    var text, j := " " + h.value, k - |h.name| - 1;
    var t := FirstOfValue(uri, s, HeaderLine(h)[..k], h.name, text[..j]);
    SecondOfValue(uri, t, text[j..]);
  }

  lemma SecondOfValue(uri: UriArcs, s: Parser, v: bytes)
    requires (s.cs == 15 || s.cs == 16) && OneLine(v) && Clean(v)
    ensures var fields := Fed(uri, s, v + CRLF).0.fields;
      |fields| == |s.fields| + 1 && fields[|s.fields|].name == []
  {
    hide OneLine, Clean, Scan;
    ValueAlone(uri, Cleared(s), v);
  }

  /** The two segments of a line cut after its colon. */
  lemma CutLine(line: bytes, front: bytes, text: bytes, j: nat)
    requires line == front + (text + CRLF) && j <= |text|
    ensures line[..|front| + j] == front + text[..j] && line[|front| + j..] == text[j..] + CRLF
  {
  }

  lemma LineFromColon(h: Pair)
    ensures HeaderLine(h) == (h.name + ":") + ((" " + h.value) + CRLF)
  {
    assert ": " + (h.value + CRLF) == ":" + ((" " + h.value) + CRLF);
  }

  lemma LineLengths(h: Pair)
    ensures |LineBody(h)| == |h.name| + |h.value| + 3 && |HeaderLine(h)| == |h.name| + |h.value| + 4
  {
  }

  lemma PartsAreClean(v: bytes, j: nat)
    requires OneLine(v) && Clean(v) && j <= |v| + 1
    ensures var text := " " + v;
      OneLine(text[..j]) && Clean(text[..j]) && OneLine(text[j..]) && Clean(text[j..])
  {
    var text := " " + v;
    assert forall i :: 0 <= i < |text| ==> text[i] == if i == 0 then ' ' else v[i - 1];
  }

  lemma CutInValue(h: Pair, k: nat)
    requires Sendable(h) && |h.name| < k < |LineBody(h)|
    ensures var first, text, j := HeaderLine(h)[..k], " " + h.value, k - |h.name| - 1;
      && At(first, 0, h.name + ":") && At(first, |h.name| + 1, text[..j]) && |first| == k
      && HeaderLine(h)[k..] == text[j..] + CRLF
      && OneLine(text[..j]) && Clean(text[..j]) && OneLine(text[j..]) && Clean(text[j..])
  {
    LineFromColon(h);
    LineLengths(h);
    assert OneLine(h.value) && Clean(h.value);
    hide Sendable, OneLine, Clean, HeaderLine, LineBody, At;
    var front, text, j := h.name + ":", " " + h.value, k - |h.name| - 1;
    PartsAreClean(h.value, j);
    CutLine(HeaderLine(h), front, text, j);
    AtStart(HeaderLine(h)[..k], front, text[..j]);
  }

  /** Each call of http_parser_execute clears the marks, so a header line that arrives in two
      segments is reported as it is exactly when the split leaves the line, up to its CR, in
      one piece. */
  lemma SplitLineReadsBackIff(uri: UriArcs, s: Parser, h: Pair, k: nat)
    requires s.cs == 13 && Sendable(h) && k <= |HeaderLine(h)|
    ensures SplitFields(uri, s, HeaderLine(h), k) == s.fields + [Pair(h.name, Trimmed(h.value))]
            <==> k == 0 || k >= |LineBody(h)|
  {
    hide SplitFields, Trimmed, Sendable;
    if k == 0 {
      hide HeaderLine, LineBody;
      SplitAtStart(uri, s, h);
    } else if k >= |LineBody(h)| {
      WholeLineFirst(uri, s, h, k);
    } else if k <= |h.name| {
      SplitInName(uri, s, h, k);
      assert |h.name[k..]| < |h.name|;
      assert (s.fields + [Pair(h.name[k..], Trimmed(h.value))])[|s.fields|].name != h.name;
    } else {
      SplitInValue(uri, s, h, k);
      assert (s.fields + [Pair(h.name, Trimmed(h.value))])[|s.fields|].name == h.name;
      assert h.name != [] by { NameIsNotEmpty(h); }
    }
  }

  /** "Host: a" cut after its first two letters is reported as "st: a". */
  lemma SplitGoesWrong(uri: UriArcs)
    ensures SplitFields(uri, START.(cs := 13), "Host: a\r\n", 2) == [Pair("st", "a")]
  {
    var h := Pair("Host", "a");
    assert HeaderLine(h) == "Host: a\r\n";
    assert h.name[2..] == "st" && Trimmed(h.value) == "a";
    assert Sendable(h);
    hide SplitFields, HeaderLine, Sendable, Trimmed;
    SplitInName(uri, START.(cs := 13), h, 2);
    assert [] + [Pair("st", "a")] == [Pair("st", "a")];
  }

  lemma NameIsNotEmpty(h: Pair)
    requires Sendable(h)
    ensures h.name != []
  {
  }

  lemma SplitAtStart(uri: UriArcs, s: Parser, h: Pair)
    requires s.cs == 13 && Sendable(h)
    ensures SplitFields(uri, s, HeaderLine(h), 0) == s.fields + [Pair(h.name, Trimmed(h.value))]
  {
    var line := HeaderLine(h);
    assert line[..0] == [] && line[0..] == line == LineBody(h) + "\n";
    AtStart(line, LineBody(h), "\n");
    LineParses(uri, Cleared(s), line, 0, h);
    LineFeed(uri, AfterLine(Cleared(s), 0, h, 17), line, |LineBody(h)|);
  }

  // ---------- Segmentation ----------

  /** The parser and the input buffer after a segment arrives. */
  function Step(uri: UriArcs, s: Parser, pending: bytes, segment: bytes): (Parser, bytes) {
    Taken(uri, s, pending + segment)
  }

  function Steps(uri: UriArcs, s: Parser, pending: bytes, segments: seq<bytes>): (Parser, bytes)
    decreases |segments|
  {
    if segments == [] then (s, pending)
    else
      var (t, rest) := Step(uri, s, pending, segments[0]);
      Steps(uri, t, rest, segments[1..])
  }

  function Joined(segments: seq<bytes>): bytes {
    if segments == [] then [] else segments[0] + Joined(segments[1..])
  }

  /** The state the automaton is in after `text`, and how much of it is consumed: what a run
      depends on. */
  function Track(uri: UriArcs, cs: nat, text: bytes): (r: (nat, nat))
    ensures r.1 <= |text|
    decreases |text|
  {
    if text == [] then (cs, 0)
    else
      var target := ArcOf(uri, cs, text[0]).target;
      if target == 0 then (0, 0)
      else if target >= FIRST_FINAL then (target, 1)
      else var (end, n) := Track(uri, target, text[1..]); (end, n + 1)
  }

  lemma {:induction false} ScanTracks(uri: UriArcs, s: Parser, buf: bytes, p: nat)
    requires p <= |buf|
    ensures var (t, q) := Scan(uri, s, buf, p);
      (t.cs, q) == (Track(uri, s.cs, buf[p..]).0, p + Track(uri, s.cs, buf[p..]).1)
    decreases |buf| - p
  {
    hide ArcOf, Perform;
    if p < |buf| {
      assert buf[p..][0] == buf[p] && buf[p..][1..] == buf[p + 1..];
      var t := Forward(uri, s, buf, p);
      if 0 < t.cs < FIRST_FINAL {
        ScanTracks(uri, t, buf, p + 1);
      }
    }
  }

  /** Tracking a text in two parts: the second part is looked at only if the first did not stop
      the automaton, which then has consumed all of it. */
  lemma {:induction false} TrackSplits(uri: UriArcs, cs: nat, a: bytes, b: bytes)
    requires Finish(cs) == 0
    ensures var (c, n) := Track(uri, cs, a);
      if Finish(c) != 0 then Track(uri, cs, a + b) == (c, n)
      else n == |a| && Track(uri, cs, a + b) == (Track(uri, c, b).0, |a| + Track(uri, c, b).1)
    decreases |a|
  {
    hide ArcOf;
    if a == [] {
      assert a + b == b;
    } else {
      assert (a + b)[0] == a[0] && (a + b)[1..] == a[1..] + b;
      var target := ArcOf(uri, cs, a[0]).target;
      if 0 < target < FIRST_FINAL {
        TrackSplits(uri, target, a[1..], b);
      }
    }
  }

  lemma StepTracks(uri: UriArcs, s: Parser, pending: bytes, segment: bytes)
    requires Finish(s.cs) == 0
    ensures var (t, rest) := Step(uri, s, pending, segment);
      var (c, n) := Track(uri, s.cs, pending + segment);
      t.cs == c && rest == (pending + segment)[n..]
  {
    hide ArcOf, Scan;
    var buf := pending + segment;
    if buf != [] {
      ScanTracks(uri, Cleared(s), buf, 0);
      assert buf[0..] == buf;
    }
  }

  /** Feeding any split of a byte stream to a parser that has not stopped leaves it in the same
      state, with the same bytes unconsumed, as feeding the stream whole. */
  lemma {:induction false} SegmentationIndependent(uri: UriArcs, s: Parser, segments: seq<bytes>)
    requires Finish(s.cs) == 0
    ensures var whole := Step(uri, s, [], Joined(segments));
      var split := Steps(uri, s, [], segments);
      split.0.cs == whole.0.cs && split.1 == whole.1
    decreases |segments|
  {
    hide ArcOf, Scan, Track, Step;
    if segments == [] {
      EmptyStep(uri, s);
    } else {
      var a, b := segments[0], Joined(segments[1..]);
      var (t, rest) := Step(uri, s, [], a);
      if Finish(t.cs) != 0 {
        StoppedFirst(uri, s, a, b);
        StoppedKeeps(uri, t, rest, segments[1..]);
      } else {
        RunsOn(uri, s, a, b);
        SegmentationIndependent(uri, t, segments[1..]);
      }
    }
  }

  /** A segment that stops the parser: what follows it is not looked at. */
  lemma StoppedFirst(uri: UriArcs, s: Parser, a: bytes, b: bytes)
    requires Finish(s.cs) == 0 && Finish(Step(uri, s, [], a).0.cs) != 0
    ensures var (t, rest) := Step(uri, s, [], a);
      Step(uri, s, [], a + b).0.cs == t.cs && Step(uri, s, [], a + b).1 == rest + b
  {
    hide Track, Step;
    assert [] + a == a && [] + (a + b) == a + b;
    StepTracks(uri, s, [], a);
    StepTracks(uri, s, [], a + b);
    TrackSplits(uri, s.cs, a, b);
    var n := Track(uri, s.cs, a).1;
    assert (a + b)[n..] == a[n..] + b;
  }

  /** A segment that does not: it is all consumed, and the parser goes on with the next. */
  lemma RunsOn(uri: UriArcs, s: Parser, a: bytes, b: bytes)
    requires Finish(s.cs) == 0 && Finish(Step(uri, s, [], a).0.cs) == 0
    ensures var (t, rest) := Step(uri, s, [], a);
      rest == [] && Step(uri, s, [], a + b).0.cs == Step(uri, t, [], b).0.cs && Step(uri, s, [], a + b).1 == Step(uri, t, [], b).1
  {
    hide Track, Step;
    assert [] + a == a && [] + (a + b) == a + b && [] + b == b;
    StepTracks(uri, s, [], a);
    StepTracks(uri, s, [], a + b);
    TrackSplits(uri, s.cs, a, b);
    var t := Step(uri, s, [], a).0;
    StepTracks(uri, t, [], b);
    var m := Track(uri, t.cs, b).1;
    assert a[|a|..] == [] && (a + b)[|a| + m..] == b[m..];
  }

  lemma EmptyStep(uri: UriArcs, s: Parser)
    ensures Step(uri, s, [], []) == (s, [])
  {
    var empty: bytes := [];
    assert empty + empty == empty && empty[0..] == empty;
  }

  /** A parser that has stopped lets the input pile up. */
  lemma {:induction false} StoppedKeeps(uri: UriArcs, s: Parser, pending: bytes, segments: seq<bytes>)
    requires Finish(s.cs) != 0
    ensures Steps(uri, s, pending, segments) == (s, pending + Joined(segments))
    decreases |segments|
  {
    if segments == [] {
      assert pending + [] == pending;
    } else {
      StoppedKeeps(uri, s, pending + segments[0], segments[1..]);
      assert (pending + segments[0]) + Joined(segments[1..]) == pending + (segments[0] + Joined(segments[1..]));
    }
  }

  // ---------- Delivery of the body ----------

  function Sessions(server: Server, s: Session, segments: seq<bytes>): Session
    decreases |segments|
  {
    if segments == [] then s else Sessions(server, Delivered(server, s, segments[0]), segments[1..])
  }

  /** The head is complete and announces a body. */
  predicate HasBody(server: Server, s: Session) {
    Finish(s.parser.cs) == 1 && 0 < ContentLength(server, s.parser.fields) < 0x1_0000_0000_0000_0000
  }

  /** ... which has not all arrived. */
  predicate Awaiting(server: Server, s: Session) {
    HasBody(server, s) && |s.body| < ContentLength(server, s.parser.fields) && s.pending == []
  }

  /** The session once the body `all[..length]` is complete and `all[length..]` is left: the
      callback is called with it. */
  function Completed(server: Server, s: Session, all: bytes, length: nat): Session
    requires length <= |all|
  {
    Requested(server, s.(body := all[..length], pending := all[length..]))
  }

  /** One pass over a complete head takes what it needs of the input and leaves the rest. */
  lemma BodyFills(server: Server, s: Session)
    requires HasBody(server, s) && |s.body| < ContentLength(server, s.parser.fields)
    ensures var length, all := ContentLength(server, s.parser.fields), s.body + s.pending;
      WithBody(server, s) ==
      if |all| < length then s.(body := all, pending := []) else Completed(server, s, all, length)
  {
    hide ContentLength;
    var length, all := ContentLength(server, s.parser.fields), s.body + s.pending;
    var len := length - |s.body|;
    if |all| < length {
      assert s.pending[..|s.pending|] == s.pending;
    } else {
      assert s.body + s.pending[..len] == all[..length];
      assert s.pending[len..] == all[length..];
    }
  }

  lemma DeliveredToBody(server: Server, s: Session, segment: bytes)
    requires Awaiting(server, s)
    ensures var length, all, r := ContentLength(server, s.parser.fields), s.body + segment, Refused(s, 1);
      Delivered(server, s, segment) ==
      if |all| < length then r.(body := all) else Completed(server, r, all, length)
  {
    hide ContentLength, WithBody;
    assert s.pending + segment == segment;
    BodyFills(server, Refused(s.(pending := segment), 1));
  }

  /** While the body is incomplete, no request is delivered and every byte is kept. */
  lemma {:induction false} BodyGathers(server: Server, s: Session, segments: seq<bytes>)
    requires Awaiting(server, s) && |s.body + Joined(segments)| < ContentLength(server, s.parser.fields)
    ensures Sessions(server, s, segments) == Refused(s, |segments|).(body := s.body + Joined(segments))
    decreases |segments|
  {
    hide ContentLength, Delivered;
    if segments == [] {
      assert s.body + [] == s.body;
    } else {
      var a, b := segments[0], Joined(segments[1..]);
      assert s.body + (a + b) == (s.body + a) + b;
      DeliveredToBody(server, s, a);
      BodyGathers(server, Refused(s, 1).(body := s.body + a), segments[1..]);
    }
  }

  lemma {:induction false} SessionsAppend(server: Server, s: Session, front: seq<bytes>, last: bytes)
    ensures Sessions(server, s, front + [last]) == Delivered(server, Sessions(server, s, front), last)
    decreases |front|
  {
    hide Delivered;
    if front == [] {
      assert [] + [last] == [last] && [last][1..] == [];
    } else {
      assert (front + [last])[1..] == front[1..] + [last];
      SessionsAppend(server, Delivered(server, s, front[0]), front[1..], last);
    }
  }

  /** Body reassembly: however the rest of a request arrives after its head, the segment that
      completes the body causes the one call of the callback, with exactly the first
      Content-Length bytes, and the bytes after them stay in the input buffer. */
  lemma BodyReassembles(server: Server, s: Session, front: seq<bytes>, last: bytes)
    requires Awaiting(server, s)
    requires var length := ContentLength(server, s.parser.fields);
      |s.body + Joined(front)| < length <= |s.body + Joined(front) + last|
    ensures Sessions(server, s, front + [last]) ==
            Completed(server, Refused(s, |front| + 1), s.body + Joined(front) + last, ContentLength(server, s.parser.fields))
  {
    var length := ContentLength(server, s.parser.fields);
    hide ContentLength, Sessions, Delivered, Completed, Joined;
    BodyGathers(server, s, front);
    SessionsAppend(server, s, front, last);
    LastSegment(server, Refused(s, |front|).(body := s.body + Joined(front)), last);
    var all := s.body + Joined(front) + last;
    SameCompletion(server, Refused(s, |front| + 1), s.body + Joined(front), all, length);
  }

  lemma LastSegment(server: Server, s: Session, segment: bytes)
    requires Awaiting(server, s) && ContentLength(server, s.parser.fields) <= |s.body + segment|
    ensures Delivered(server, s, segment) == Completed(server, Refused(s, 1), s.body + segment, ContentLength(server, s.parser.fields))
  {
    hide Delivered, Completed;
    DeliveredToBody(server, s, segment);
  }

  /** Completion replaces the body there was. */
  lemma SameCompletion(server: Server, s: Session, body: bytes, all: bytes, length: nat)
    requires length <= |all|
    ensures Completed(server, s.(body := body), all, length) == Completed(server, s, all, length)
  {
  }

  // ---------- A head, with or without a body ----------

  /** The session after the input buffer and a further segment have been parsed. */
  function Parsed(server: Server, s: Session, segment: bytes): Session {
    var (t, n) := Fed(server.uri, s.parser, s.pending + segment);
    Refused(s.(parser := t, pending := (s.pending + segment)[n..]), 1)
  }

  /** A head that is complete is acted on at once. */
  lemma HeadCompletes(server: Server, s: Session, segment: bytes)
    requires Finish(s.parser.cs) == 0 && Finish(Parsed(server, s, segment).parser.cs) == 1
    ensures Delivered(server, s, segment) == WithBody(server, Parsed(server, s, segment))
  {
    hide WithBody, Fed;
  }

  /** The segment that completes a head, from a parser between requests: what follows the head
      is the start of the body. */
  lemma HeadArrives(server: Server, s: Session, segment: bytes)
    requires Finish(s.parser.cs) == 0 && s.body == [] && HasBody(server, Parsed(server, s, segment))
    ensures var t := Parsed(server, s, segment);
      var length := ContentLength(server, t.parser.fields);
      Delivered(server, s, segment) ==
      if |t.pending| < length then t.(body := t.pending, pending := []) else Completed(server, t, t.pending, length)
  {
    HeadCompletes(server, s, segment);
    var t := Parsed(server, s, segment);
    hide ContentLength, WithBody, Parsed, Delivered;
    BodyFills(server, t);
    assert [] + t.pending == t.pending;
  }

  /** A head that announces no body is a request: the callback is called at once, and what
      follows the head stays in the input buffer. */
  lemma BodylessRequestDelivered(server: Server, s: Session, segment: bytes)
    requires Finish(s.parser.cs) == 0 && s.body == []
    requires var t := Parsed(server, s, segment); Finish(t.parser.cs) == 1 && ContentLength(server, t.parser.fields) == 0
    ensures Delivered(server, s, segment) == Requested(server, Parsed(server, s, segment))
  {
    HeadCompletes(server, s, segment);
    hide ContentLength, Parsed, Delivered, Requested;
  }

  /** A whole request: the head in one segment and the body in any number of further ones. */
  lemma RequestDelivered(server: Server, s: Session, head: bytes, front: seq<bytes>, last: bytes)
    requires Finish(s.parser.cs) == 0 && s.body == [] && HasBody(server, Parsed(server, s, head))
    requires var t := Parsed(server, s, head);
      |t.pending + Joined(front)| < ContentLength(server, t.parser.fields) <= |t.pending + Joined(front) + last|
    ensures var t := Parsed(server, s, head);
      Sessions(server, s, [head] + (front + [last])) ==
      Completed(server, Refused(t, |front| + 1), t.pending + Joined(front) + last, ContentLength(server, t.parser.fields))
  {
    var t := Parsed(server, s, head);
    HeadArrives(server, s, head);
    hide ContentLength, Parsed, Delivered, Completed;
    var u := t.(body := t.pending, pending := []);
    assert ([head] + (front + [last]))[1..] == front + [last];
    BodyReassembles(server, u, front, last);
    ReadyForBody(server, t, front, last);
  }

  lemma ReadyForBody(server: Server, t: Session, front: seq<bytes>, last: bytes)
    requires ContentLength(server, t.parser.fields) <= |t.pending + Joined(front) + last|
    ensures var all, length := t.pending + Joined(front) + last, ContentLength(server, t.parser.fields);
      Completed(server, Refused(t.(body := t.pending, pending := []), |front| + 1), all, length)
      == Completed(server, Refused(t, |front| + 1), all, length)
  {
    hide ContentLength, Joined;
  }

  // ---------- How often the callback is called for a request ----------

  /** The request is all there: its head, and as much body as the head announces. */
  predicate Complete(server: Server, s: Session) {
    Finish(s.parser.cs) == 1 && |s.body| == ContentLength(server, s.parser.fields) < 0x1_0000_0000_0000_0000
  }

  /** What completes a request leaves one that is complete, and then calls the callback. */
  lemma CompletedIsComplete(server: Server, s: Session, all: bytes)
    requires HasBody(server, s) && ContentLength(server, s.parser.fields) <= |all|
    ensures var length := ContentLength(server, s.parser.fields);
      var t := s.(body := all[..length], pending := all[length..]);
      Complete(server, t) && Completed(server, s, all, length) == Requested(server, t)
  {
    hide ContentLength;
  }

  /** A response that closes the connection leaves the parser where it is, so every further
      segment calls the callback again with the same request, with a body or without. */
  lemma ClosedRequestRepeats(server: Server, s: Session, segment: bytes)
    requires Complete(server, s) && server.closes(Request(s.parser.fields, s.body))
    ensures Delivered(server, s, segment) ==
            Refused(s, 1).(pending := s.pending + segment, served := s.served + [Request(s.parser.fields, s.body)])
  {
    hide ContentLength;
    var all := s.pending + segment;
    assert s.body + all[..0] == s.body && all[0..] == all;
  }

  function Copies(r: Request, k: nat): (q: seq<Request>)
    ensures |q| == k
  {
    if k == 0 then [] else [r] + Copies(r, k - 1)
  }

  lemma {:induction false} ClosedRequestRepeatsAlways(server: Server, s: Session, segments: seq<bytes>)
    requires Complete(server, s) && server.closes(Request(s.parser.fields, s.body))
    ensures Sessions(server, s, segments).served == s.served + Copies(Request(s.parser.fields, s.body), |segments|)
    decreases |segments|
  {
    hide Delivered;
    if segments == [] {
      assert s.served + [] == s.served;
    } else {
      ClosedRequestRepeats(server, s, segments[0]);
      hide ContentLength;
      ClosedRequestRepeatsAlways(server, Delivered(server, s, segments[0]), segments[1..]);
      var r := Request(s.parser.fields, s.body);
      assert (s.served + [r]) + Copies(r, |segments| - 1) == s.served + ([r] + Copies(r, |segments| - 1));
    }
  }

  /** As long as no head is complete, the callback is not called. */
  lemma {:induction false} QuietUntilHead(server: Server, s: Session, segments: seq<bytes>)
    requires Finish(s.parser.cs) != 1 && Finish(Steps(server.uri, s.parser, s.pending, segments).0.cs) != 1
    ensures Sessions(server, s, segments).served == s.served
    decreases |segments|
  {
    hide Fed, WithBody;
    if segments != [] {
      var (t, rest) := Step(server.uri, s.parser, s.pending, segments[0]);
      if Finish(t.cs) == 1 {
        StoppedKeeps(server.uri, t, rest, segments[1..]);
      }
      QuietUntilHead(server, Delivered(server, s, segments[0]), segments[1..]);
    }
  }

  /** How often the callback is called for a request that is complete: once more for each
      further segment if the response closes the connection, and not again otherwise, until
      the next head is complete. */
  lemma CallsForRequest(server: Server, s: Session, segments: seq<bytes>)
    requires Complete(server, s)
    requires Finish(Steps(server.uri, Restarted(s.parser), s.pending, segments).0.cs) != 1
    ensures var request, t := Request(s.parser.fields, s.body), Requested(server, s);
      && t.served == s.served + [request]
      && Sessions(server, t, segments).served ==
         t.served + (if server.closes(request) then Copies(request, |segments|) else [])
  {
    var t := Requested(server, s);
    hide Sessions, Steps, ContentLength;
    if server.closes(Request(s.parser.fields, s.body)) {
      assert Complete(server, t);
      hide Complete, Requested;
      ClosedRequestRepeatsAlways(server, t, segments);
    } else {
      QuietUntilHead(server, t, segments);
      assert t.served + [] == t.served;
    }
  }

  /** One call for each request, exactly when its response keeps the connection. */
  lemma CalledOnceIff(server: Server, s: Session, segments: seq<bytes>)
    requires Complete(server, s) && segments != []
    requires Finish(Steps(server.uri, Restarted(s.parser), s.pending, segments).0.cs) != 1
    ensures Sessions(server, Requested(server, s), segments).served == s.served + [Request(s.parser.fields, s.body)]
            <==> !server.closes(Request(s.parser.fields, s.body))
  {
    CallsForRequest(server, s, segments);
    hide Sessions, Requested, Steps, Complete, Copies;
    assert |Sessions(server, Requested(server, s), segments).served| > |s.served| + 1
      <==> server.closes(Request(s.parser.fields, s.body));
  }

  /** A request that is already in the input buffer when the one before it is answered waits
      there: it is looked at with the next segment, as if all of it had arrived then. */
  lemma PipelinedRequestWaits(server: Server, s: Session, segment: bytes)
    requires !server.closes(Request(s.parser.fields, s.body))
    ensures var t := Requested(server, s);
      && t.served == s.served + [Request(s.parser.fields, s.body)] && t.pending == s.pending
      && t.parser == Restarted(s.parser) && t.body == []
      && Delivered(server, t, segment) == Delivered(server, t.(pending := []), s.pending + segment)
  {
    hide Messaged;
    assert [] + (s.pending + segment) == s.pending + segment;
  }

  // ---------- A request that is delivered twice ----------

  /** A server whose request lines are any text up to LF and whose responses close. */
  const CLOSING: Server := Server(UriArcs((cs, c) => if c == '\n' then 13 else 2, (cs, buf, p) => false), v => 0, r => true)

  const FRESH: Session := Session(START, [], [], [], 0)

  predicate NoLineFeed(line: bytes) {
    forall i :: 0 <= i < |line| ==> line[i] != '\n'
  }

  lemma {:induction false} RequestLineParses(s: Parser, buf: bytes, p: nat, line: bytes)
    requires s.cs == 1 || s.cs == 2
    requires line != [] && NoLineFeed(line) && At(buf, p, line)
    ensures Scan(CLOSING.uri, s, buf, p) == Scan(CLOSING.uri, s.(cs := 2), buf, p + |line|)
    decreases |line|
  {
    hide Scan;
    assert line == [line[0]] + line[1..];
    AtSplit(buf, p, [line[0]], line[1..]);
    AtIndex(buf, p, line, 0);
    One(CLOSING.uri, s, buf, p);
    if |line| > 1 {
      RequestLineParses(s.(cs := 2), buf, p + 1, line[1..]);
    }
  }

  lemma LineFeedEndsRequestLine(s: Parser, buf: bytes, p: nat)
    requires s.cs == 2 && p < |buf| && buf[p] == '\n'
    ensures Scan(CLOSING.uri, s, buf, p) == Scan(CLOSING.uri, s.(cs := 13), buf, p + 1)
  {
    hide Scan;
    One(CLOSING.uri, s, buf, p);
  }

  lemma RequestWithoutHeaders(line: bytes)
    requires line != [] && NoLineFeed(line)
    ensures var (t, n) := Fed(CLOSING.uri, START, line + "\n\r\n");
      t.cs == FIRST_FINAL && t.fields == [] && !t.error && n == |line| + 3
  {
    var buf := line + "\n\r\n";
    AtStart(buf, line, "\n\r\n");
    assert Cleared(START) == START;
    AtIndex(buf, |line|, "\n\r\n", 0);
    AtIndex(buf, |line|, "\n\r\n", 1);
    AtIndex(buf, |line|, "\n\r\n", 2);
    hide Scan, At;
    RequestLineParses(START, buf, 0, line);
    LineFeedEndsRequestLine(START.(cs := 2), buf, |line|);
    EmptyLineParses(CLOSING.uri, START.(cs := 13), buf, |line| + 1);
  }

  lemma TwoSegments(server: Server, s: Session, a: bytes, b: bytes)
    ensures Sessions(server, s, [a, b]) == Delivered(server, Delivered(server, s, a), b)
  {
    hide Delivered;
    assert [a, b][1..] == [b] && [b][1..] == [];
    var t := Delivered(server, s, a);
    assert Sessions(server, t, [b]) == Sessions(server, Delivered(server, t, b), []);
  }

  lemma GetAnswered(get: bytes)
    requires get == "GET / HTTP/1.0\r" + "\n\r\n"
    ensures var t := Delivered(CLOSING, FRESH, get);
      Complete(CLOSING, t) && t.parser.fields == [] && t.body == [] && t.served == [Request([], [])]
  {
    RequestWithoutHeaders("GET / HTTP/1.0\r");
    assert FRESH.pending + get == get;
    hide Fed;
    BodylessRequestDelivered(CLOSING, FRESH, get);
    hide Delivered;
  }

  /** Its callback is called with a GET, and again with the same one when any byte follows. */
  lemma GetDeliveredTwice(get: bytes, more: bytes)
    requires get == "GET / HTTP/1.0\r\n\r\n" && more == "x"
    ensures Sessions(CLOSING, FRESH, [get, more]).served == [Request([], []), Request([], [])]
  {
    assert get == "GET / HTTP/1.0\r" + "\n\r\n";
    GetAnswered(get);
    var t := Delivered(CLOSING, FRESH, get);
    TwoSegments(CLOSING, FRESH, get, more);
    hide Delivered, Sessions;
    ClosedRequestRepeats(CLOSING, t, more);
    var r := Request([], []);
    assert [r] + [r] == [r, r];
  }
}
