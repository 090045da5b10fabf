/** The response automaton of http/httpclient_parser.cpp: its transition table by the source's
    own state numbers, the actions on its arcs, and one call of httpclient_parser_execute. */
module HttpClient {
  import opened Bytes
  import opened HttpText

  // ---------- Characters and keywords ----------

  /** Blanks a value may start with: everything isspace() takes but CR and LF. */
  predicate IsBlank(c: byte) {
    c == ' ' || c == '\t' || c as int == 11 || c as int == 12
  }

  const CONNECTION: bytes := "connection"
  const CONTENT_LENGTH: bytes := "content-length"
  const TRANSFER_ENCODING: bytes := "transfer-encoding"
  const CLOSE: bytes := "close"
  const CHUNKED: bytes := "chunked"

  // ---------- The table ----------

  /** What an arc does before control passes to its target. */
  datatype Action =
    | Skip
    | MarkValue                // mark = p
    | MarkName                 // field_start = p
    | MarkBoth
    | EndName                  // field_len = p - field_start
    | EndNameMark              // ... and mark = p
    | Field                    // http_field
    | EmptyField               // mark = p, http_field
    | NameOnlyField            // field_len, mark = p, http_field
    | LengthField              // content_len = strtol(mark), http_field
    | ChunkedField             // http_field, chunked = 1
    | Chunked
    | ChunkSize
    | HttpVersion
    | StatusCode
    | ReasonPhrase
    | Close                    // close = 1
    | CloseMarkName            // close = 1, field_start = p

  datatype Move = Move(target: nat, action: Action)

  const ERROR: Move := Move(0, Skip)

  /** Case 1 to case 7: a chunk header. */
  function ChunkLine(cs: nat, c: byte): Move {
    if cs == 1 then
      if c == 'H' then Move(8, MarkValue) else if IsHex(c) then Move(2, MarkValue) else ERROR
    else if cs == 2 then
      if c == '\n' then Move(120, ChunkSize)
      else if c == '\r' then Move(3, ChunkSize)
      else if c == ';' then Move(4, ChunkSize)
      else if IsHex(c) then Move(2, Skip) else ERROR
    else if cs == 3 then
      if c == '\n' then Move(120, Skip) else ERROR
    else if cs == 4 then
      if IsToken(c) then Move(5, MarkName) else ERROR
    else if cs == 5 then
      if c == '\n' then Move(120, NameOnlyField)
      else if c == '\r' then Move(3, NameOnlyField)
      else if c == ';' then Move(4, NameOnlyField)
      else if c == '=' then Move(6, EndNameMark)
      else if IsToken(c) then Move(5, Skip) else ERROR
    else if cs == 6 then
      if IsToken(c) then Move(7, MarkValue) else ERROR
    else if cs == 7 then
      if c == '\n' then Move(120, Field)
      else if c == '\r' then Move(3, Field)
      else if c == ';' then Move(4, Field)
      else if IsToken(c) then Move(7, Skip) else ERROR
    else ERROR
  }

  /** Case 8 to case 19: the rest of the status line. */
  function StatusLine(cs: nat, c: byte): Move {
    if cs == 8 then
      if c == 'T' then Move(9, Skip) else ERROR
    else if cs == 9 then
      if c == 'T' then Move(10, Skip) else ERROR
    else if cs == 10 then
      if c == 'P' then Move(11, Skip) else ERROR
    else if cs == 11 then
      if c == '/' then Move(12, Skip) else ERROR
    else if cs == 12 then
      if IsDigit(c) then Move(13, Skip) else ERROR
    else if cs == 13 then
      if c == '.' then Move(14, Skip) else if IsDigit(c) then Move(13, Skip) else ERROR
    else if cs == 14 then
      if IsDigit(c) then Move(15, Skip) else ERROR
    else if cs == 15 then
      if c == ' ' then Move(16, HttpVersion) else if IsDigit(c) then Move(15, Skip) else ERROR
    else if cs == 16 then
      if IsDigit(c) then Move(17, MarkValue) else ERROR
    else if cs == 17 then
      if c == ' ' then Move(18, StatusCode) else if IsDigit(c) then Move(17, Skip) else ERROR
    else if cs == 18 then
      if c == '\n' then ERROR else Move(19, MarkValue)
    else if cs == 19 then
      if c == '\n' then Move(20, ReasonPhrase)
      else if c == '\r' then Move(24, ReasonPhrase)
      else Move(19, Skip)
    else ERROR
  }

  /** The start of a header line: a name, or the empty line. `c0` is the state after a 'c',
      `fin` and `cr` those after LF and CR. */
  function LineStart(c: byte, fin: nat, cr: nat, c0: nat): Move {
    if c == '\n' then Move(fin, Skip)
    else if c == '\r' then Move(cr, Skip)
    else if Lower(c) == 'c' then Move(c0, MarkName)
    else if Lower(c) == 't' then Move(44, MarkName)
    else if IsToken(c) then Move(21, MarkName)
    else ERROR
  }

  /** Within a name that is no longer, or not yet, a keyword. */
  function InName(c: byte, colon: nat): Move {
    if c == ':' then Move(colon, EndName) else if IsToken(c) then Move(21, Skip) else ERROR
  }

  /** The states that have matched a prefix of one of the three special names: 24+k after k
      letters of CONNECTION, 43+k of TRANSFER_ENCODING, and 97+k of CONTENT_LENGTH from its
      fourth on. */
  function Keyword(cs: nat, c: byte): Move {
    if 25 <= cs <= 34 then
      if cs < 34 && Lower(c) == CONNECTION[cs - 24] then Move(cs + 1, Skip)
      else if cs == 27 && Lower(c) == 't' then Move(101, Skip)
      else InName(c, if cs == 34 then 35 else 22)
    else if 44 <= cs <= 60 then
      if cs < 60 && Lower(c) == TRANSFER_ENCODING[cs - 43] then Move(cs + 1, Skip)
      else InName(c, if cs == 60 then 61 else 22)
    else if 101 <= cs <= 111 then
      if cs < 111 && Lower(c) == CONTENT_LENGTH[cs - 97] then Move(cs + 1, Skip)
      else InName(c, if cs == 111 then 112 else 22)
    else ERROR
  }

  /** Before a value: `cr` and `lf` are the states after CR and LF, `self` this state. */
  function ValueStart(c: byte, self: nat, lf: nat, cr: nat): Move {
    if c == '\n' then Move(lf, EmptyField)
    else if c == '\r' then Move(cr, EmptyField)
    else if IsBlank(c) then Move(self, MarkValue)
    else Move(23, MarkValue)
  }

  /** Inside a value that is no keyword. */
  function InValue(c: byte): Move {
    if c == '\n' then Move(20, Field) else if c == '\r' then Move(24, Field) else Move(23, Skip)
  }

  /** Values, and the values the special names look for. */
  function Value(cs: nat, c: byte): Move {
    if cs == 22 then ValueStart(c, 22, 20, 24)
    else if cs == 23 then InValue(c)
    else if cs == 35 then
      if Lower(c) == 'c' then Move(96, MarkValue) else ValueStart(c, 35, 36, 95)
    else if cs == 61 then
      if Lower(c) == 'c' then Move(81, MarkValue) else ValueStart(c, 61, 62, 80)
    else if cs == 112 then
      if IsDigit(c) then Move(119, MarkValue) else ValueStart(c, 112, 113, 118)
    else if 81 <= cs <= 87 then
      if cs < 87 && Lower(c) == CHUNKED[cs - 80] then Move(cs + 1, Skip)
      else if cs == 87 && c == '\n' then Move(20, ChunkedField)
      else if cs == 87 && c == '\r' then Move(71, Field)
      else InValue(c)
    else if 96 <= cs <= 100 then
      if cs < 100 && Lower(c) == CLOSE[cs - 95] then Move(cs + 1, Skip)
      else if cs == 100 && c == '\n' then Move(43, Field)
      else if cs == 100 && c == '\r' then Move(88, Field)
      else InValue(c)
    else if cs == 119 then
      if c == '\n' then Move(20, LengthField)
      else if c == '\r' then Move(24, LengthField)
      else if IsDigit(c) then Move(119, Skip)
      else Move(23, Skip)
    else ERROR
  }

  /** A folded value of a special name: blanks, then the keyword. `lf` is where LF goes, and
      zero where it may only be skipped as a blank. */
  function Fold(c: byte, skip: nat, lf: nat, word: Move, first: bool): Move {
    if lf != 0 && c == '\n' then Move(lf, Skip)
    else if first then word
    else if IsBlank(c) || c == '\r' || c == '\n' then Move(skip, Skip)
    else ERROR
  }

  /** After the LF that follows an empty value of a special name: the next line may be a name,
      the end of the headers or the folded value. */
  function AfterEmptySpecial(cs: nat, c: byte): Move {
    if cs == 36 then
      if IsBlank(c) then Move(37, Skip) else LineStart(c, 122, 89, 90)
    else if cs == 62 then
      if IsBlank(c) then Move(63, Skip)
      else if Lower(c) == 'c' then Move(73, MarkBoth)
      else LineStart(c, 121, 72, 73)
    else if cs == 113 then
      if IsBlank(c) then Move(114, Skip)
      else if IsDigit(c) then Move(117, MarkBoth)
      else LineStart(c, 123, 116, 25)
    else if cs in {37, 122} then Fold(c, 37, 0, Move(38, Skip), Lower(c) == 'c')
    else if cs == 89 then Fold(c, 37, 122, Move(38, Skip), Lower(c) == 'c')
    else if cs == 95 then Fold(c, 37, 36, Move(38, Skip), Lower(c) == 'c')
    else if cs in {63, 121} then Fold(c, 63, 0, Move(64, MarkValue), Lower(c) == 'c')
    else if cs == 72 then Fold(c, 63, 121, Move(64, MarkValue), Lower(c) == 'c')
    else if cs == 80 then Fold(c, 63, 62, Move(64, MarkValue), Lower(c) == 'c')
    else if cs in {114, 123} then Fold(c, 114, 0, Move(115, MarkValue), IsDigit(c))
    else if cs == 116 then Fold(c, 114, 123, Move(115, MarkValue), IsDigit(c))
    else if cs == 118 then Fold(c, 114, 113, Move(115, MarkValue), IsDigit(c))
    else ERROR
  }

  /** Keywords of a folded value, strictly (38-42, 64-71, 115) or while it may still turn out
      to be a header name (73-79, 90-94, 117). */
  function FoldedKeyword(cs: nat, c: byte): Move {
    if 38 <= cs <= 42 then
      if cs < 42 && Lower(c) == CLOSE[cs - 37] then Move(cs + 1, Skip)
      else if cs == 42 && c == '\n' then Move(43, Skip)
      else if cs == 42 && c == '\r' then Move(88, Skip)
      else ERROR
    else if 64 <= cs <= 70 then
      if cs < 70 && Lower(c) == CHUNKED[cs - 63] then Move(cs + 1, Skip)
      else if cs == 70 && c == '\n' then Move(20, ChunkedField)
      else if cs == 70 && c == '\r' then Move(71, Field)
      else ERROR
    else if cs == 71 then
      if c == '\n' then Move(20, Chunked) else ERROR
    else if 73 <= cs <= 79 then
      if cs < 79 && Lower(c) == CHUNKED[cs - 72] then Move(cs + 1, Skip)
      else if cs == 73 && Lower(c) == 'o' then Move(26, Skip)
      else if cs == 79 && c == '\n' then Move(20, ChunkedField)
      else if cs == 79 && c == '\r' then Move(71, Field)
      else InName(c, 22)
    else if 90 <= cs <= 94 then
      if cs < 94 && Lower(c) == CLOSE[cs - 89] then Move(cs + 1, Skip)
      else if cs == 90 && Lower(c) == 'o' then Move(26, Skip)
      else if cs == 94 && c == '\n' then Move(43, Skip)
      else if cs == 94 && c == '\r' then Move(88, Skip)
      else InName(c, 22)
    else if cs == 115 || cs == 117 then
      if c == '\n' then Move(20, LengthField)
      else if c == '\r' then Move(24, LengthField)
      else if IsDigit(c) then Move(cs, Skip)
      else if cs == 117 then InName(c, 22)
      else ERROR
    else ERROR
  }

  /** The state entered after "Connection: close" and its line end: the next character, whatever
      line it starts, sets the close flag. */
  function AfterClose(c: byte): Move {
    var m := LineStart(c, 120, 3, 25);
    if m.target == 0 then ERROR
    else if m.action == MarkName then Move(m.target, CloseMarkName)
    else Move(m.target, Close)
  }

  function Transition(cs: nat, c: byte): Move {
    if cs <= 7 then ChunkLine(cs, c)
    else if cs <= 19 then StatusLine(cs, c)
    else if cs == 20 then LineStart(c, 120, 3, 25)
    else if cs == 21 then InName(c, 22)
    else if cs == 24 then (if c == '\n' then Move(20, Skip) else ERROR)
    else if 25 <= cs <= 34 || 44 <= cs <= 60 || 101 <= cs <= 111 then Keyword(cs, c)
    else if cs in {22, 23, 35, 61, 112, 119} || 81 <= cs <= 87 || 96 <= cs <= 100 then Value(cs, c)
    else if cs == 43 then AfterClose(c)
    else if cs == 88 then (if c == '\n' then Move(43, Skip) else ERROR)
    else if 38 <= cs <= 42 || 64 <= cs <= 71 || 73 <= cs <= 79 || 90 <= cs <= 94 || cs == 115 || cs == 117 then
      FoldedKeyword(cs, c)
    else AfterEmptySpecial(cs, c)
  }

  // ---------- The parser ----------

  /** What a callback is handed. */
  datatype Event =
    | Header(name: bytes, value: bytes)   // http_field
    | Version(text: bytes)                // http_version
    | Status(text: bytes)                 // status_code
    | Reason(text: bytes)                 // reason_phrase
    | Chunk(text: bytes)                  // chunk_size
    | LastChunk(text: bytes)              // last_chunk
    | Done(body: bytes)                   // header_done

  /** The fields of struct httpclient_parser, and the callbacks made so far. */
  datatype Parser = Parser(
    cs: nat,
    bodyStart: nat,
    contentLen: int,
    status: int,
    chunked: bool,
    chunksDone: bool,
    close: bool,
    mark: nat,
    fieldStart: nat,
    fieldLen: int,
    events: seq<Event>)

  /** httpclient_parser_init. `status` is not set by it: the struct starts zeroed. */
  const FRESH: Parser := Parser(1, 0, -1, 0, false, false, false, 0, 0, 0, [])

  function SkipSpaces(s: bytes): bytes {
    if s != [] && (IsBlank(s[0]) || s[0] == '\r' || s[0] == '\n') then SkipSpaces(s[1..]) else s
  }

  function ReadHex(s: bytes, acc: nat): nat {
    if s == [] || !IsHex(s[0]) then acc else ReadHex(s[1..], acc * 16 + HexValue(s[0]))
  }

  /** strtol on a 64-bit long: blanks, a sign, digits of the base, saturating. */
  function Strtol(s: bytes, hex: bool): int {
    var t := SkipSpaces(s);
    var negative := t != [] && t[0] == '-';
    var u := if negative || (t != [] && t[0] == '+') then t[1..] else t;
    var prefixed := hex && |u| > 2 && u[0] == '0' && Lower(u[1]) == 'x' && IsHex(u[2]);
    var n: int := if !hex then ReadDigits(u, 0).0 else ReadHex(if prefixed then u[2..] else u, 0);
    if negative then (if n > 0x8000_0000_0000_0000 then -0x8000_0000_0000_0000 else -n)
    else if n > 0x7FFF_FFFF_FFFF_FFFF then 0x7FFF_FFFF_FFFF_FFFF else n
  }

  /** The conversion of a long to an int. */
  function ToInt(n: int): int {
    var m := n % 0x1_0000_0000;
    if m < 0x8000_0000 then m else m - 0x1_0000_0000
  }

  function NumberAt(s: Parser, buf: bytes, hex: bool): int {
    ToInt(Strtol(if s.mark <= |buf| then buf[s.mark..] else [], hex))
  }

  function WithHeader(s: Parser, buf: bytes, p: nat): Parser {
    s.(events := s.events + [Header(Slice(buf, s.fieldStart, s.fieldLen), Slice(buf, s.mark, p - s.mark))])
  }

  function WithChunk(s: Parser, buf: bytes, p: nat): Parser {
    var n := NumberAt(s, buf, true);
    var text := Slice(buf, s.mark, p - s.mark);
    s.(chunked := true, contentLen := n, chunksDone := n <= 0,
       events := s.events + [if n <= 0 then LastChunk(text) else Chunk(text)])
  }

  function Do(s: Parser, action: Action, buf: bytes, p: nat): Parser {
    match action
    case Skip => s
    case MarkValue => s.(mark := p)
    case MarkName => s.(fieldStart := p)
    case MarkBoth => s.(mark := p, fieldStart := p)
    case EndName => s.(fieldLen := p - s.fieldStart)
    case EndNameMark => s.(fieldLen := p - s.fieldStart, mark := p)
    case Field => WithHeader(s, buf, p)
    case EmptyField => WithHeader(s.(mark := p), buf, p)
    case NameOnlyField => WithHeader(s.(fieldLen := p - s.fieldStart, mark := p), buf, p)
    case LengthField => WithHeader(s.(contentLen := NumberAt(s, buf, false)), buf, p)
    case ChunkedField => WithHeader(s, buf, p).(chunked := true)
    case Chunked => s.(chunked := true)
    case ChunkSize => WithChunk(s, buf, p)
    case HttpVersion => s.(events := s.events + [Version(Slice(buf, s.mark, p - s.mark))])
    case StatusCode =>
      s.(status := NumberAt(s, buf, false), events := s.events + [Status(Slice(buf, s.mark, p - s.mark))])
    case ReasonPhrase => s.(events := s.events + [Reason(Slice(buf, s.mark, p - s.mark))])
    case Close => s.(close := true)
    case CloseMarkName => s.(close := true, fieldStart := p)
  }

  /** One arc that does not end the headers. */
  function Advance(s: Parser, buf: bytes, p: nat): Parser
    requires p < |buf|
  {
    var m := Transition(s.cs, buf[p]);
    Do(s, m.action, buf, p).(cs := m.target)
  }

  /** The header_done action, on the arcs into a final state. */
  function WithBody(s: Parser, buf: bytes, p: nat): Parser
    requires p < |buf|
  {
    s.(bodyStart := p + 1, events := s.events + [Done(buf[p + 1..])])
  }

  /** The automaton from `p` on: the parser it leaves and how far it got. It stops at the end
      of the buffer, on the character it rejects, or past the one that ends the headers. */
  function Run(s: Parser, buf: bytes, p: nat): (r: (Parser, nat))
    requires p <= |buf|
    decreases |buf| - p
  {
    if p == |buf| then (s, p)
    else
      var t := Advance(s, buf, p);
      if t.cs == 0 then (s.(cs := 0), p)
      else if t.cs >= 120 then (WithBody(t, buf, p), p + 1)
      else Run(t, buf, p + 1)
  }

  /** What httpclient_parser_execute resets on entry. */
  function Reset(s: Parser): Parser {
    s.(mark := 0, fieldStart := 0, fieldLen := 0)
  }

  // ---------- The code ----------

  class ClientParser {
    var cs: nat
    var bodyStart: nat
    var contentLen: int
    var status: int
    var chunked: bool
    var chunksDone: bool
    var close: bool
    var nread: nat
    var mark: nat
    var fieldStart: nat
    var fieldLen: int
    var events: seq<Event>

    function View(): Parser
      reads this
    {
      Parser(cs, bodyStart, contentLen, status, chunked, chunksDone, close, mark, fieldStart, fieldLen, events)
    }

    /** httpclient_parser_init. */
    constructor ()
      ensures View() == FRESH
    {
      cs, bodyStart, contentLen, status := 1, 0, -1, 0;
      chunked, chunksDone, close, nread := false, false, false, 0;
      mark, fieldStart, fieldLen, events := 0, 0, 0, [];
    }

    method CallHttpField(buffer: bytes, p: nat)
      modifies this`events
      ensures View() == WithHeader(old(View()), buffer, p)
    {
      events := events + [Header(Slice(buffer, fieldStart, fieldLen), Slice(buffer, mark, p - mark))];
    }

    /** The action blocks of the generated code. */
    method Perform(action: Action, buffer: bytes, p: nat)
      modifies this
      ensures View() == Do(old(View()), action, buffer, p)
      ensures nread == old(nread)
    {
      hide NumberAt, Slice, WithHeader;
      match action {
        case Skip =>
        case MarkValue => mark := p;
        case MarkName => fieldStart := p;
        case MarkBoth => mark := p; fieldStart := p;
        case EndName => fieldLen := p - fieldStart;
        case EndNameMark => fieldLen := p - fieldStart; mark := p;
        case Field => CallHttpField(buffer, p);
        case EmptyField => mark := p; CallHttpField(buffer, p);
        case NameOnlyField => fieldLen := p - fieldStart; mark := p; CallHttpField(buffer, p);
        case LengthField => contentLen := NumberAt(View(), buffer, false); CallHttpField(buffer, p);
        case ChunkedField => CallHttpField(buffer, p); chunked := true;
        case Chunked => chunked := true;
        case ChunkSize =>
          contentLen := NumberAt(View(), buffer, true);
          chunked, chunksDone := true, contentLen <= 0;
          var text := Slice(buffer, mark, p - mark);
          events := events + [if chunksDone then LastChunk(text) else Chunk(text)];
        case HttpVersion => events := events + [Version(Slice(buffer, mark, p - mark))];
        case StatusCode =>
          status := NumberAt(View(), buffer, false);
          events := events + [Status(Slice(buffer, mark, p - mark))];
        case ReasonPhrase => events := events + [Reason(Slice(buffer, mark, p - mark))];
        case Close => close := true;
        case CloseMarkName => close := true; fieldStart := p;
      }
    }

    /** One round of the automaton: the arc on the character at `p`, and whether it is the last. */
    method TakeArc(buffer: bytes, p: nat) returns (out: bool, next: nat)
      requires p < |buffer|
      modifies this
      ensures p <= next <= |buffer| && (!out ==> next == p + 1) && nread == old(nread)
      ensures Run(old(View()), buffer, p) == if out then (View(), next) else Run(View(), buffer, p + 1)
    {
      hide Transition, Do, Slice;
      var m := Transition(cs, buffer[p]);
      if m.target == 0 {
        cs := 0;
        return true, p;
      }
      Perform(m.action, buffer, p);
      cs := m.target;
      out, next := cs >= 120, p + 1;
      if out {
        bodyStart := p + 1;
        events := events + [Done(buffer[p + 1..])];
      }
    }

    /** httpclient_parser_execute, from `off` on. */
    method Execute(buffer: bytes, off: nat) returns (r: int)
      requires off <= |buffer|
      modifies this
      ensures var run := Run(Reset(old(View())), buffer, off);
        View() == run.0 && nread == run.1 - off && r == if buffer == [] then -1 else nread
    {
      hide Advance, Slice;
      nread, mark, fieldLen, fieldStart := 0, 0, 0, 0;
      ghost var start := View();
      var p: nat := off;
      var out := false;
      while p < |buffer| && !out
        invariant off <= p <= |buffer|
        invariant !out ==> Run(start, buffer, off) == Run(View(), buffer, p)
        invariant out ==> Run(start, buffer, off) == (View(), p)
        decreases |buffer| - p, !out
      {
        out, p := TakeArc(buffer, p);
      }
      nread := p - off;
      MarksAreInside(start, buffer, off);
      if mark < |buffer| && fieldLen <= |buffer| && fieldStart < |buffer| {
        r := nread;
      } else {
        r := -1;
      }
    }
  }

  /** The marks never pass the last character read, so the checks that end
      httpclient_parser_execute reject only an empty buffer. */
  lemma {:induction false} MarksAreInside(s: Parser, buf: bytes, p: nat)
    requires p <= |buf| && s.mark <= p && s.fieldStart <= p && s.fieldLen <= p
    requires buf != [] ==> s.mark < |buf| && s.fieldStart < |buf|
    ensures var (t, q) := Run(s, buf, p);
      t.mark <= q && t.fieldStart <= q && t.fieldLen <= q <= |buf| && p <= q
      && (buf != [] ==> t.mark < |buf| && t.fieldStart < |buf|)
    decreases |buf| - p
  {
    hide Transition, Do, Slice;
    if p < |buf| {
      var t := Advance(s, buf, p);
      DoKeepsMarks(s, Transition(s.cs, buf[p]).action, buf, p);
      if 0 < t.cs < 120 {
        MarksAreInside(t, buf, p + 1);
      }
    }
  }

  lemma DoKeepsMarks(s: Parser, action: Action, buf: bytes, p: nat)
    requires s.mark <= p && s.fieldStart <= p && s.fieldLen <= p
    ensures var t := Do(s, action, buf, p); t.mark <= p && t.fieldStart <= p && t.fieldLen <= p
  {
    hide NumberAt, Slice;
  }
}
