/** The header part of the grammar in http/http11_parser.rl, and that the generated header states
    of http/http11_parser.cpp are its alternatives side by side. */
module RequestGrammar {
  import opened Bytes
  import opened HttpText
  import opened HttpRequest

  // ---------- The grammar ----------

  /** The grammar's token: its HTTP_CTL is NUL and DEL, so all other control characters but the
      tab are in it, line ends included. */
  predicate Token(c: byte) {
    1 <= c as int <= 126 && c !in "()<>@,;:\\\"/[]?={} \t"
  }

  /** Where a reading is that is not within a name. */
  datatype Place =
    | Nowhere
    | Line           // a header or the empty line
    | LastFeed       // after the CR of the empty line
    | Final
    | BeforeValue    // lws*, where content* may have begun
    | Value
    | Feed           // after the CR of a header

  /** The alternatives side by side: `name` is that of reading a field name. */
  datatype Reading = Reading(place: Place, name: bool)

  predicate LineEnd(c: byte) {
    c == '\r' || c == '\n'
  }

  /** What is no content: NUL and DEL. */
  predicate Control(c: byte) {
    c as int == 0 || c as int == 127
  }

  function GrammarStep(r: Reading, c: byte): Reading {
    Reading(if r.name && c == ':' then BeforeValue else PlaceStep(r.place, c), (r.place == Line || r.name) && Token(c))
  }

  function PlaceStep(at: Place, c: byte): Place {
    match at
    case Line => if c == '\n' then Final else if c == '\r' then LastFeed else Nowhere
    case LastFeed => if c == '\n' then Final else Nowhere
    case BeforeValue => if c == ' ' || c == '\t' then BeforeValue else ValueStep(c)
    case Value => ValueStep(c)
    case Feed => if c == '\n' then Line else Nowhere
    case Nowhere => Nowhere
    case Final => Nowhere
  }

  /** The line end has priority over content. */
  function ValueStep(c: byte): Place {
    if c == '\n' then Line else if c == '\r' then Feed else if Control(c) then Nowhere else Value
  }

  /** The action blocks start_field, write_field, start_value (Mark) and write_value. */
  datatype Block = StartField | WriteField | Mark | WriteValue

  predicate Asked(r: Reading, c: byte, b: Block) {
    match b
    case StartField => r.place == Line && Token(c)
    case WriteField => r.name && c == ':'
    case Mark => r.place == BeforeValue
    case WriteValue => (r.place == BeforeValue || r.place == Value) && LineEnd(c)
  }

  // ---------- The states ----------

  function Of(cs: nat): Reading {
    if cs == 13 then Reading(Line, false)
    else if cs == 14 then Reading(Nowhere, true)
    else if cs == 15 then Reading(BeforeValue, false)
    else if cs == 16 then Reading(Value, false)
    else if cs == 17 then Reading(Feed, false)
    else if cs == 18 then Reading(LastFeed, true)
    else if cs == FIRST_FINAL then Reading(Final, true)
    else Reading(Nowhere, false)
  }

  predicate Has(a: Act, b: Block) {
    match b
    case StartField => a == StartName
    case WriteField => a == StopName
    case Mark => a == Act.StartValue || a == CallEmptyField
    case WriteValue => a == CallField || a == CallEmptyField
  }

  lemma TokensAre(c: byte)
    ensures Token(c) <==> IsNameChar(c) || c == '\n'
  {
  }

  /** An arc of a header state leads where a step of the grammar does, and to the error state
      exactly when no alternative is left ... */
  lemma HeaderArcIsStep(cs: nat, c: byte)
    requires InHeaders(cs)
    ensures var arc, next := HeaderArc(cs, c), GrammarStep(Of(cs), c);
      && (arc.target == 0 <==> next == Reading(Nowhere, false))
      && (arc.target != 0 ==> InHeaders(arc.target) && Of(arc.target) == next)
  {
    TokensAre(c);
    assert Token(c) ==> c != ':';
    hide Token, IsNameChar;
  }

  /** ... and runs the blocks that step asks for. */
  lemma HeaderArcRuns(cs: nat, c: byte)
    requires InHeaders(cs)
    ensures HeaderArc(cs, c).target != 0 ==> forall b :: Has(HeaderArc(cs, c).act, b) <==> Asked(Of(cs), c, b)
  {
    TokensAre(c);
    assert Token(c) ==> c != ':';
    hide Token, IsNameChar;
    if cs == 13 || cs == 14 {
      NameArcsRun(cs, c);
    } else if cs == 15 || cs == 16 {
      ValueArcsRun(cs, c);
    }
  }

  lemma NameArcsRun(cs: nat, c: byte)
    requires cs == 13 || cs == 14
    ensures HeaderArc(cs, c).target != 0 ==> forall b :: Has(HeaderArc(cs, c).act, b) <==> Asked(Of(cs), c, b)
  {
    TokensAre(c);
    assert Token(c) ==> c != ':';
    hide Token, IsNameChar;
  }

  lemma ValueArcsRun(cs: nat, c: byte)
    requires cs == 15 || cs == 16
    ensures HeaderArc(cs, c).target != 0 ==> forall b :: Has(HeaderArc(cs, c).act, b) <==> Asked(Of(cs), c, b)
  {
    hide Token, IsNameChar;
  }

  // ---------- Runs ----------

  /** The blocks a character runs, on what the automaton remembers. */
  function Ran(s: Parser, r: Reading, buf: bytes, p: nat): Parser {
    var c := if p < |buf| then buf[p] else '\0';
    var s1 := if Asked(r, c, StartField) then s.(fieldStart := p) else s;
    var s2 := if Asked(r, c, WriteField) then s1.(fieldLen := p - s1.fieldStart) else s1;
    var s3 := if Asked(r, c, Mark) then s2.(mark := p) else s2;
    if Asked(r, c, WriteValue) then Called(s3, buf, p) else s3
  }

  /** The headers read from `p` on: what is remembered, what is being read, and where the reading
      stopped: at the end of the buffer, on a character with no alternative, or past the end of
      the head. */
  function GrammarRun(s: Parser, r: Reading, buf: bytes, p: nat): (Parser, Reading, nat)
    requires p <= |buf|
    decreases |buf| - p
  {
    if p == |buf| then (s, r, p)
    else
      var next := GrammarStep(r, buf[p]);
      if next == Reading(Nowhere, false) then (s, next, p)
      else if next.place == Final then (Ran(s, r, buf, p).(bodyStart := p + 1), next, p + 1)
      else GrammarRun(Ran(s, r, buf, p), next, buf, p + 1)
  }

  lemma ActIsBlocks(s: Parser, r: Reading, a: Act, buf: bytes, p: nat)
    requires p < |buf| && forall b :: Has(a, b) <==> Asked(r, buf[p], b)
    ensures Perform(s, a, buf, p) == Ran(s, r, buf, p)
  {
    assert Has(a, StartField) <==> Asked(r, buf[p], StartField);
    assert Has(a, WriteField) <==> Asked(r, buf[p], WriteField);
    assert Has(a, Mark) <==> Asked(r, buf[p], Mark);
    assert Has(a, WriteValue) <==> Asked(r, buf[p], WriteValue);
    hide Asked, Called;
  }

  lemma {:induction false} GrammarIgnoresState(s: Parser, cs: nat, r: Reading, buf: bytes, p: nat)
    requires p <= |buf|
    ensures var g := GrammarRun(s, r, buf, p); GrammarRun(s.(cs := cs), r, buf, p) == (g.0.(cs := cs), g.1, g.2)
    decreases |buf| - p
  {
    hide GrammarStep, Asked, Slice;
    if p < |buf| {
      GrammarIgnoresState(Ran(s, r, buf, p), cs, GrammarStep(r, buf[p]), buf, p + 1);
    }
  }

  /** Refinement: from any header state, over any bytes, the generated automaton is the grammar:
      the same callbacks and marks, the same place where it stops, an error exactly where the
      grammar has no alternative, and the final state exactly at the end of the head. */
  lemma {:induction false} RunIsGrammarRun(uri: UriArcs, s: Parser, buf: bytes, p: nat)
    requires p <= |buf| && InHeaders(s.cs) && s.cs != FIRST_FINAL
    ensures var run, g := Scan(uri, s, buf, p), GrammarRun(s, Of(s.cs), buf, p);
      && run.0 == g.0.(cs := run.0.cs) && run.1 == g.2
      && if run.0.cs == 0 then g.1 == Reading(Nowhere, false) else InHeaders(run.0.cs) && Of(run.0.cs) == g.1
    decreases |buf| - p
  {
    hide HeaderArc, Of, GrammarStep, Perform, Ran, Asked, Has;
    if p < |buf| {
      var arc := HeaderArc(s.cs, buf[p]);
      HeaderArcIsStep(s.cs, buf[p]);
      HeaderArcRuns(s.cs, buf[p]);
      CsIsNotRead(s, s.cs, arc.act, buf, p);
      if arc.target != 0 {
        ActIsBlocks(s, Of(s.cs), arc.act, buf, p);
        FinalIsLast(arc.target);
        var t := Ran(s, Of(s.cs), buf, p);
        assert Forward(uri, s, buf, p) == t.(cs := arc.target);
        if arc.target != FIRST_FINAL {
          RunIsGrammarRun(uri, t.(cs := arc.target), buf, p + 1);
          GrammarIgnoresState(t, arc.target, Of(arc.target), buf, p + 1);
        }
      }
    }
  }

  lemma FinalIsLast(cs: nat)
    requires InHeaders(cs)
    ensures (Of(cs).place == Final <==> cs == FIRST_FINAL) && (cs >= FIRST_FINAL <==> cs == FIRST_FINAL)
  {
  }
}
