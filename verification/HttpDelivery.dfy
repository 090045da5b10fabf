/** From bytes to callbacks: what http/HttpServer.cpp hands over for a request whose head is
    printed header lines, how long its body is, and when it answers 400. */
module HttpDelivery {
  import opened Bytes
  import opened HttpText
  import opened HttpRequest

  // ---------- The announced length ----------

  /** The header at `k` is the first of its name. */
  predicate FirstNamed(hs: seq<Pair>, name: bytes, k: nat) {
    k < |hs| && hs[k].name == name && forall j :: 0 <= j < k ==> hs[j].name != name
  }

  predicate NoneNamed(hs: seq<Pair>, name: bytes) {
    forall j :: 0 <= j < |hs| ==> hs[j].name != name
  }

  /** The header `given` as the callback sees it: the same name, and the value from its first
      character that is no blank. */
  predicate SeenAs(given: Pair, seen: Pair) {
    && seen.name == given.name && |seen.value| <= |given.value|
    && var blanks := |given.value| - |seen.value|;
       && given.value[blanks..] == seen.value
       && (forall i :: 0 <= i < blanks ==> given.value[i] == ' ' || given.value[i] == '\t')
       && (seen.value != [] ==> seen.value[0] != ' ' && seen.value[0] != '\t')
  }

  predicate AllSeen(given: seq<Pair>, seen: seq<Pair>) {
    |seen| == |given| && forall i :: 0 <= i < |given| ==> SeenAs(given[i], seen[i])
  }

  lemma {:induction false} TrimmedIsSeen(name: bytes, v: bytes)
    ensures SeenAs(Pair(name, v), Pair(name, Trimmed(v)))
  {
    if v != [] && IsSpace(v[0]) {
      TrimmedIsSeen(name, v[1..]);
      var n := |v| - |Trimmed(v)|;
      assert forall i :: 0 < i < n ==> v[i] == v[1..][i - 1];
    }
  }

  lemma {:induction false} ReportedIsSeen(hs: seq<Pair>)
    ensures AllSeen(hs, Reported(hs))
  {
    if hs != [] {
      ReportedIsSeen(hs[1..]);
      TrimmedIsSeen(hs[0].name, hs[0].value);
      forall i | 0 <= i < |hs| ensures SeenAs(hs[i], Reported(hs)[i]) {
        if i > 0 {
          assert hs[i] == hs[1..][i - 1];
        }
      }
    }
  }

  lemma {:induction false} LengthIs(server: Server, fields: seq<Pair>, k: nat)
    requires FirstNamed(fields, "Content-Length", k)
    ensures ContentLength(server, fields) == server.cast(fields[k].value)
  {
    if k > 0 {
      assert FirstNamed(fields[1..], "Content-Length", k - 1);
      LengthIs(server, fields[1..], k - 1);
    }
  }

  lemma {:induction false} NoLength(server: Server, fields: seq<Pair>)
    requires NoneNamed(fields, "Content-Length")
    ensures ContentLength(server, fields) == 0
  {
    if fields != [] {
      NoLength(server, fields[1..]);
    }
  }

  lemma NamesAreSeen(hs: seq<Pair>, k: nat)
    ensures FirstNamed(hs, "Content-Length", k) ==> FirstNamed(Reported(hs), "Content-Length", k)
    ensures NoneNamed(hs, "Content-Length") ==> NoneNamed(Reported(hs), "Content-Length")
  {
    ReportedIsSeen(hs);
    assert forall i :: 0 <= i < |hs| ==> SeenAs(hs[i], Reported(hs)[i]);
  }

  // ---------- The head ----------

  /** A head: a request line, the headers, the empty line, and what came with them. */
  function HeadText(line: bytes, hs: seq<Pair>, start: bytes): bytes {
    line + ((HeaderLines(hs) + CRLF) + start)
  }

  /** The automaton reads `line` from where the session's parser is and is at the headers, with
      none seen. How it reads request lines is not part of this model. */
  predicate ReadsLine(server: Server, s: Session, buf: bytes, line: bytes, t: Parser) {
    && |line| <= |buf| && t.cs == 13 && t.fields == []
    && Scan(server.uri, Cleared(s.parser), buf, 0) == Scan(server.uri, t, buf, |line|)
  }

  /** A session that is about to read a head, and whose input will be exactly `buf`. */
  predicate Reading(s: Session, segment: bytes, buf: bytes) {
    Finish(s.parser.cs) == 0 && s.body == [] && s.pending + segment == buf
  }

  lemma HeadIsRead(server: Server, s: Session, segment: bytes, line: bytes, hs: seq<Pair>, start: bytes, t: Parser)
    requires var buf := HeadText(line, hs, start); Reading(s, segment, buf) && ReadsLine(server, s, buf, line, t)
    requires AllSendable(hs)
    ensures var u := Parsed(server, s, segment);
      && Finish(u.parser.cs) == 1 && u.parser.fields == Reported(hs) && u.pending == start
      && u.body == [] && u.served == s.served
  {
    var buf := HeadText(line, hs, start);
    var lines := HeaderLines(hs) + CRLF;
    AtStart(buf, line, lines + start);
    AtSplit(buf, |line|, lines, start);
    HeadersParse(server.uri, t, buf, |line|, hs);
    assert [] + Reported(hs) == Reported(hs);
    hide Scan, At, HeaderLines, AllSendable, Reported;
    assert |buf| == |line| + |lines| + |start| && buf != [];
    assert buf[|line| + |lines|..] == start;
  }

  // ---------- Bodies ----------

  /** A request of which the last byte is there: the callback has been called with it, and what
      follows it is in the input buffer. */
  predicate Served(s: Session, f: Session, hs: seq<Pair>, body: bytes, rest: bytes) {
    && f.pending == rest && |f.served| == |s.served| + 1 && f.served[..|s.served|] == s.served
    && var request := f.served[|s.served|];
       request.body == body && AllSeen(hs, request.fields)
  }

  /** A head that announces no length is a request with an empty body, served by the segment
      that completes it. */
  lemma GetIsServed(server: Server, s: Session, segment: bytes, line: bytes, hs: seq<Pair>, start: bytes, t: Parser)
    requires var buf := HeadText(line, hs, start); Reading(s, segment, buf) && ReadsLine(server, s, buf, line, t)
    requires AllSendable(hs) && NoneNamed(hs, "Content-Length")
    ensures Served(s, Delivered(server, s, segment), hs, [], start)
  {
    HeadIsRead(server, s, segment, line, hs, start, t);
    ReportedIsSeen(hs);
    NamesAreSeen(hs, 0);
    NoLength(server, Reported(hs));
    hide Parsed, ReadsLine, AllSeen, Reported, ContentLength, Delivered, AllSendable;
    BodylessRequestDelivered(server, s, segment);
  }

  /** A head whose first Content-Length header is read as `n` is served with exactly the `n`
      bytes after it, at once if they came with it. */
  lemma PostIsServedAtOnce(server: Server, s: Session, segment: bytes, line: bytes, hs: seq<Pair>, k: nat, start: bytes, t: Parser)
    requires var buf := HeadText(line, hs, start); Reading(s, segment, buf) && ReadsLine(server, s, buf, line, t)
    requires AllSendable(hs) && FirstNamed(hs, "Content-Length", k)
    requires 0 < server.cast(Trimmed(hs[k].value)) < 0x1_0000_0000_0000_0000
    requires server.cast(Trimmed(hs[k].value)) <= |start|
    ensures var n := server.cast(Trimmed(hs[k].value));
      Served(s, Delivered(server, s, segment), hs, start[..n], start[n..])
  {
    var n := server.cast(Trimmed(hs[k].value));
    HeadIsRead(server, s, segment, line, hs, start, t);
    HeadAnnounces(server, hs, k);
    hide Parsed, ReadsLine, AllSeen, Reported, ContentLength, Delivered, AllSendable, FirstNamed, Trimmed, Completed, Served, HeadText;
    HeadArrives(server, s, segment);
    CompletedIsServed(server, s, Parsed(server, s, segment), start, n, hs);
  }

  lemma CompletedIsServed(server: Server, s: Session, t: Session, all: bytes, n: nat, hs: seq<Pair>)
    requires n <= |all| && t.served == s.served && t.parser.fields == Reported(hs)
    ensures Served(s, Completed(server, t, all, n), hs, all[..n], all[n..])
  {
    ReportedIsSeen(hs);
    hide AllSeen, Reported;
  }

  lemma HeadAnnounces(server: Server, hs: seq<Pair>, k: nat)
    requires FirstNamed(hs, "Content-Length", k)
    ensures ContentLength(server, Reported(hs)) == server.cast(Trimmed(hs[k].value))
  {
    NamesAreSeen(hs, k);
    LengthIs(server, Reported(hs), k);
    ReportedAt(hs, k);
  }

  lemma {:induction false} ReportedAt(hs: seq<Pair>, k: nat)
    requires k < |hs|
    ensures |Reported(hs)| == |hs| && Reported(hs)[k] == Pair(hs[k].name, Trimmed(hs[k].value))
  {
    hide Trimmed;
    ReportedLength(hs);
    if k > 0 {
      ReportedAt(hs[1..], k - 1);
    }
  }

  lemma {:induction false} ReportedLength(hs: seq<Pair>)
    ensures |Reported(hs)| == |hs|
  {
    hide Trimmed;
    if hs != [] {
      ReportedLength(hs[1..]);
    }
  }

  /** And if they did not: in whatever segments they come, nothing is served before the last of
      them, whose segment serves the request with them. */
  lemma PostIsServed(server: Server, s: Session, segment: bytes, line: bytes, hs: seq<Pair>, k: nat, start: bytes, t: Parser,
                     front: seq<bytes>, last: bytes)
    requires var buf := HeadText(line, hs, start); Reading(s, segment, buf) && ReadsLine(server, s, buf, line, t)
    requires AllSendable(hs) && FirstNamed(hs, "Content-Length", k)
    requires 0 < server.cast(Trimmed(hs[k].value)) < 0x1_0000_0000_0000_0000
    requires |start + Joined(front)| < server.cast(Trimmed(hs[k].value)) <= |start + Joined(front) + last|
    ensures Sessions(server, s, [segment] + front).served == s.served
    ensures var n, all := server.cast(Trimmed(hs[k].value)), start + Joined(front) + last;
      Served(s, Sessions(server, s, [segment] + (front + [last])), hs, all[..n], all[n..])
  {
    HeadIsRead(server, s, segment, line, hs, start, t);
    HeadAnnounces(server, hs, k);
    var u := Parsed(server, s, segment);
    assert |start| < server.cast(Trimmed(hs[k].value));
    hide Parsed, ReadsLine, AllSeen, Reported, ContentLength, Delivered, AllSendable, FirstNamed, Trimmed, HeadText, Joined, Completed, Served;
    RequestDelivered(server, s, segment, front, last);
    CompletedIsServed(server, s, Refused(u, |front| + 1), start + Joined(front) + last, ContentLength(server, u.parser.fields), hs);
    NothingServedYet(server, s, segment, front);
  }

  /** While the body is not all there, nothing is served. */
  lemma NothingServedYet(server: Server, s: Session, segment: bytes, front: seq<bytes>)
    requires Finish(s.parser.cs) == 0 && s.body == [] && HasBody(server, Parsed(server, s, segment))
    requires var u := Parsed(server, s, segment);
      |u.pending + Joined(front)| < ContentLength(server, u.parser.fields) && u.served == s.served
    ensures Sessions(server, s, [segment] + front).served == s.served
  {
    hide ContentLength, Delivered, Joined, Parsed;
    HeadArrives(server, s, segment);
    var u := Parsed(server, s, segment);
    BodyGathers(server, u.(body := u.pending, pending := []), front);
    assert ([segment] + front)[1..] == front;
  }

  // ---------- Answers of 400 ----------

  lemma ErrorStays(uri: UriArcs, s: Parser, buf: bytes, p: nat)
    requires p <= |buf| && s.error
    ensures Scan(uri, s, buf, p).0.error
    decreases |buf| - p
  {
    if p < |buf| {
      CsIsNotRead(s, s.cs, ArcOf(uri, s.cs, buf[p]).act, buf, p);
      hide ArcOf, Perform, Refuses;
      var t := Forward(uri, s, buf, p);
      if 0 < t.cs < FIRST_FINAL {
        ErrorStays(uri, t, buf, p + 1);
      }
    }
  }

  /** A method or version that is refused anywhere in a segment is remembered. */
  lemma RefusalIsRemembered(uri: UriArcs, s: Parser, buf: bytes, p: nat)
    requires p < |buf| && s.cs != 0 && !InHeaders(s.cs) && uri.refuses(s.cs, buf, p) && uri.next(s.cs, buf[p]) != 0
    ensures Scan(uri, s, buf, p).0.error
  {
    var t := Forward(uri, s, buf, p);
    assert t.error && t.cs != 0;
    hide ArcOf, Perform, Refuses;
    if t.cs < FIRST_FINAL {
      ErrorStays(uri, t, buf, p + 1);
    }
  }

  /** Each segment is answered 400 exactly when the automaton is stopped in its error state, or
      a refusal is remembered, once the segment has been parsed. */
  lemma AnsweredIff(server: Server, s: Session, segment: bytes)
    ensures var t := Taken(server.uri, s.parser, s.pending + segment).0;
      Delivered(server, s, segment).rejected == s.rejected + if t.cs == 0 || t.error then 1 else 0
  {
    hide Taken, ContentLength;
  }

  /** After a refusal every segment is answered 400, for the rest of the connection. */
  lemma {:induction false} RefusedForever(server: Server, s: Session, segments: seq<bytes>)
    requires s.parser.error
    ensures Sessions(server, s, segments).rejected == s.rejected + |segments|
    decreases |segments|
  {
    hide Delivered, Taken;
    if segments != [] {
      AnsweredIff(server, s, segments[0]);
      RefusedStays(server, s, segments[0]);
      RefusedForever(server, Delivered(server, s, segments[0]), segments[1..]);
    }
  }

  lemma RefusedStays(server: Server, s: Session, segment: bytes)
    requires s.parser.error
    ensures Taken(server.uri, s.parser, s.pending + segment).0.error
    ensures Delivered(server, s, segment).parser.error
  {
    ErrorStays(server.uri, Cleared(s.parser), s.pending + segment, 0);
    hide Scan, ContentLength;
  }

  /** A connection whose parser has stopped on an error serves nothing more, and answers every
      segment with 400. */
  lemma {:induction false} StoppedForever(server: Server, s: Session, segments: seq<bytes>)
    requires s.parser.cs == 0
    ensures var f := Sessions(server, s, segments);
      f.served == s.served && f.rejected == s.rejected + |segments| && f.parser.cs == 0
    decreases |segments|
  {
    if segments != [] {
      StoppedForever(server, Delivered(server, s, segments[0]), segments[1..]);
    }
  }

  /** A head with NUL or DEL in a value is answered 400 and stops the connection's parser. */
  lemma BadHeadIsAnswered(server: Server, s: Session, segment: bytes, line: bytes, hs: seq<Pair>, name: bytes, value: bytes, t: Parser)
    requires IsName(name) && OneLine(value) && !Clean(value) && AllSendable(hs)
    requires var buf := line + (HeaderLines(hs) + (name + (": " + value)));
      Reading(s, segment, buf) && ReadsLine(server, s, buf, line, t)
    ensures var f := Delivered(server, s, segment);
      f.parser.cs == 0 && f.served == s.served && f.rejected == s.rejected + 1
  {
    var last := name + (": " + value);
    var lines := HeaderLines(hs);
    var buf := line + (lines + last);
    assert buf != [];
    hide Scan, At, HeaderLines, AllSendable, Clean, OneLine, IsName, ContentLength, ReadsLine, Reading, Delivered;
    ThreeParts(buf, line, lines, last);
    ReadsLineAt(server, s, buf, line, t);
    var u := LinesParse(server.uri, t, buf, |line|, hs);
    BadLineStops(server.uri, u, buf, |line| + |lines|, name, value);
    StopsOn(server, s, segment, buf);
  }

  lemma ThreeParts(buf: bytes, a: bytes, b: bytes, c: bytes)
    requires buf == a + (b + c)
    ensures At(buf, |a|, b) && At(buf, |a| + |b|, c)
  {
    AtStart(buf, a, b + c);
    AtSplit(buf, |a|, b, c);
  }

  lemma ReadsLineAt(server: Server, s: Session, buf: bytes, line: bytes, t: Parser)
    requires ReadsLine(server, s, buf, line, t)
    ensures |line| <= |buf| && t.cs == 13 && Scan(server.uri, Cleared(s.parser), buf, 0) == Scan(server.uri, t, buf, |line|)
  {
  }

  /** A segment on which the automaton stops in its error state. */
  lemma StopsOn(server: Server, s: Session, segment: bytes, buf: bytes)
    requires Reading(s, segment, buf) && buf != [] && Scan(server.uri, Cleared(s.parser), buf, 0).0.cs == 0
    ensures var f := Delivered(server, s, segment);
      f.parser.cs == 0 && f.served == s.served && f.rejected == s.rejected + 1
  {
    hide Scan, ContentLength;
  }

  /** Header lines without the empty line. */
  lemma {:induction false} LinesParse(uri: UriArcs, s: Parser, buf: bytes, p: nat, hs: seq<Pair>) returns (t: Parser)
    requires s.cs == 13 && AllSendable(hs) && At(buf, p, HeaderLines(hs))
    ensures t.cs == 13 && Scan(uri, s, buf, p) == Scan(uri, t, buf, p + |HeaderLines(hs)|)
    decreases |hs|
  {
    hide At, HeaderLine, Scan, LineBody;
    if hs == [] {
      t := s;
    } else {
      var h, rest := hs[0], HeaderLines(hs[1..]);
      LineWithFeed(buf, p, h, rest);
      AtIndex(buf, p + |LineBody(h)|, "\n", 0);
      assert Sendable(h);
      hide Sendable;
      LineParses(uri, s, buf, p, h);
      LineFeed(uri, AfterLine(s, p, h, 17), buf, p + |LineBody(h)|);
      t := LinesParse(uri, AfterLine(s, p, h, 13), buf, p + |HeaderLine(h)|, hs[1..]);
    }
  }

  lemma BadLineStops(uri: UriArcs, s: Parser, buf: bytes, p: nat, name: bytes, value: bytes)
    requires s.cs == 13 && IsName(name) && OneLine(value) && !Clean(value) && At(buf, p, name + (": " + value))
    ensures Scan(uri, s, buf, p).0.cs == 0
  {
    var q := p + |name| + 1;
    ColonParts(buf, p, name, value);
    hide Scan, At, HeaderArc, Clean, OneLine, IsName;
    NameParses(uri, s, buf, p, name);
    var t := s.(cs := 15, fieldStart := p, fieldLen := |name|);
    ValueArcs(' ');
    Quiet(uri, t, buf, q, t.(mark := q));
    BadValueStops(uri, t.(mark := q), buf, q + 1, value);
  }

  lemma ColonParts(buf: bytes, p: nat, name: bytes, value: bytes)
    requires At(buf, p, name + (": " + value))
    ensures var q := p + |name| + 1;
      At(buf, p, name + ":") && q < |buf| && buf[q] == ' ' && At(buf, q + 1, value)
  {
    assert name + (": " + value) == (name + ":") + (" " + value);
    hide At;
    var q := p + |name| + 1;
    AtSplit(buf, p, name + ":", " " + value);
    AtSplit(buf, q, " ", value);
    AtIndex(buf, q, " ", 0);
  }
}
