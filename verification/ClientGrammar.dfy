/** The grammar in http/httpclient_parser.rl, and that the generated automaton of
    http/httpclient_parser.cpp is a run of it: every arc of the 123 states is a step of the
    grammar's alternatives side by side, with the actions they ask for. */
module ClientGrammar {
  import opened Bytes
  import opened HttpText
  import opened HttpClient

  // ---------- The grammar ----------

  /** Where the reading of a message is, of its status line or chunk header, or of a header
      taken as any field. */
  datatype Place =
    | Nowhere
    | Start
    | Http(k: nat)       // k characters of "HTTP/"
    | Major | Dot | Minor
    | StatusGap | StatusDigits
    | ReasonGap | ReasonText
    | SizeDigits         // chunk_size
    | ExtStart | ExtName | ExtEquals | ExtValue
    | LastFeed           // after the CR of the line that ends the head
    | Line               // a header or the empty line
    | ClosingLine        // the same, with the action that leaves conn_close pending
    | Name
    | BeforeValue        // space*, where any* may have begun
    | ValueText
    | ValueFeed          // after the CR of a header
    | Final

  /** Where a header taken as one of the three special ones is, past its name and colon. */
  datatype Word =
    | NoWord
    | CloseBlank | InClose(k: nat) | CloseFeed           // conn_close
    | ChunkedBlank | InChunked(k: nat) | ChunkedFeed     // transfer_encoding_chunked
    | LengthBlank | LengthDigits                       // content_length

  /** The alternatives side by side: `connection`, `length` and `encoding` count the letters of
      the special names that the current name has matched. */
  datatype Reading = Reading(place: Place, connection: nat, length: nat, encoding: nat, word: Word)

  /** The class `space` of Ragel. */
  predicate Space(c: byte) {
    c == ' ' || 9 <= c as int <= 13
  }

  /** The class `token`: ASCII without the control characters and `tspecials`. */
  lemma TokensAre(c: byte)
    ensures IsToken(c) <==> 32 <= c as int < 127 && c !in "()<>@,;:\\\"/[]?={} \t"
  {
    var specials := "()<>@,;:\\\"/[]?={} \t";
    assert forall i :: 0 <= i < |specials| ==> !IsToken(specials[i]);
    if !IsToken(c) && 32 <= c as int < 127 {
      assert c in [specials[17], specials[9], specials[0], specials[1], specials[5], specials[10], specials[7], specials[6],
                   specials[2], specials[14], specials[3], specials[13], specials[4], specials[11], specials[8], specials[12],
                   specials[15], specials[16]];
    }
  }

  predicate LineEnd(c: byte) {
    c == '\r' || c == '\n'
  }

  function PlaceStep(at: Place, c: byte): Place {
    match at
    case Start => if c == 'H' then Http(1) else if IsHex(c) then SizeDigits else Nowhere
    case Http(k) => if k < 5 then (if c == "HTTP/"[k] then Http(k + 1) else Nowhere) else if IsDigit(c) then Major else Nowhere
    case Major => if c == '.' then Dot else if IsDigit(c) then Major else Nowhere
    case Dot => if IsDigit(c) then Minor else Nowhere
    case Minor => if c == ' ' then StatusGap else if IsDigit(c) then Minor else Nowhere
    case StatusGap => if IsDigit(c) then StatusDigits else Nowhere
    case StatusDigits => if c == ' ' then ReasonGap else if IsDigit(c) then StatusDigits else Nowhere
    case ReasonGap => if c == '\n' then Nowhere else ReasonText
    case ReasonText => if c == '\n' then Line else if c == '\r' then ValueFeed else ReasonText
    case SizeDigits => if IsHex(c) then SizeDigits else AfterChunk(c)
    case ExtStart => if IsToken(c) then ExtName else Nowhere
    case ExtName => if c == '=' then ExtEquals else if IsToken(c) then ExtName else AfterChunk(c)
    case ExtEquals => if IsToken(c) then ExtValue else Nowhere
    case ExtValue => if IsToken(c) then ExtValue else AfterChunk(c)
    case LastFeed => if c == '\n' then Final else Nowhere
    case Line => LineStep(c)
    case ClosingLine => LineStep(c)
    case Name => if c == ':' then BeforeValue else if IsToken(c) then Name else Nowhere
    case BeforeValue => if LineEnd(c) then ValueEnd(c) else if Space(c) then BeforeValue else ValueText
    case ValueText => if LineEnd(c) then ValueEnd(c) else ValueText
    case ValueFeed => if c == '\n' then Line else Nowhere
    case Nowhere => Nowhere
    case Final => Nowhere
  }

  function AfterChunk(c: byte): Place {
    if c == ';' then ExtStart else if c == '\r' then LastFeed else if c == '\n' then Final else Nowhere
  }

  function LineStep(c: byte): Place {
    if c == '\n' then Final else if c == '\r' then LastFeed else if IsToken(c) then Name else Nowhere
  }

  function ValueEnd(c: byte): Place {
    if c == '\n' then Line else ValueFeed
  }

  predicate AtLine(at: Place) {
    at == Line || at == ClosingLine
  }

  /** One more letter of a special name, in either case; none after the last. */
  function LetterStep(r: Reading, matched: nat, w: bytes, c: byte): nat {
    if AtLine(r.place) then (if w != [] && Lower(c) == w[0] then 1 else 0)
    else if 0 < matched < |w| && Lower(c) == w[matched] then matched + 1 else 0
  }

  function WordStep(r: Reading, c: byte): Word {
    if c == ':' && r.connection == |"connection"| then CloseBlank
    else if c == ':' && r.encoding == |"transfer-encoding"| then ChunkedBlank
    else if c == ':' && r.length == |"content-length"| then LengthBlank
    else
      match r.word
      case NoWord => NoWord
      case CloseBlank => if Space(c) then CloseBlank else if Lower(c) == 'c' then InClose(1) else NoWord
      case InClose(k) =>
        if k < 5 then (if Lower(c) == "close"[k] then InClose(k + 1) else NoWord) else if c == '\r' then CloseFeed else NoWord
      case CloseFeed => NoWord
      case ChunkedBlank => if Space(c) then ChunkedBlank else if Lower(c) == 'c' then InChunked(1) else NoWord
      case InChunked(k) =>
        if k < 7 then (if Lower(c) == "chunked"[k] then InChunked(k + 1) else NoWord) else if c == '\r' then ChunkedFeed else NoWord
      case ChunkedFeed => NoWord
      case LengthBlank => if Space(c) then LengthBlank else if IsDigit(c) then LengthDigits else NoWord
      case LengthDigits => if IsDigit(c) then LengthDigits else NoWord
  }

  /** Where a special header that ends on `c` leads; a plain header that ends with it leads
      nowhere else. */
  function Ended(w: Word, c: byte): Place {
    if w.LengthDigits? && LineEnd(c) then ValueEnd(c)
    else if c != '\n' then Nowhere
    else if w == InClose(5) || w == CloseFeed then ClosingLine
    else if w == InChunked(7) || w == ChunkedFeed then Line
    else Nowhere
  }

  function GrammarStep(r: Reading, c: byte): Reading {
    var word := WordStep(r, c);
    var ended := Ended(r.word, c);
    Reading(
      if ended != Nowhere then ended else if word == CloseFeed || word == ChunkedFeed then Nowhere else PlaceStep(r.place, c),
      LetterStep(r, r.connection, "connection", c),
      LetterStep(r, r.length, "content-length", c),
      LetterStep(r, r.encoding, "transfer-encoding", c),
      word)
  }

  /** No alternative is left. */
  predicate Stuck(r: Reading) {
    r.place == Nowhere && r.word == NoWord
  }

  // ---------- Its actions ----------

  /** The action blocks of the grammar; start_value is mark. */
  datatype Block =
    | StartField | WriteField | Mark | WriteLength | WriteValue | TransChunked | WriteClose
    | SizeBlock | VersionBlock | StatusBlock | ReasonBlock

  /** The blocks that reading `c` runs. */
  predicate Asked(r: Reading, c: byte, b: Block) {
    var at, w := r.place, r.word;
    match b
    case StartField => (AtLine(at) || at == ExtStart) && IsToken(c)
    case WriteField => (at == Name && c == ':') || (at == ExtName && !IsToken(c))
    case Mark =>
      at == Start || at == StatusGap || at == ReasonGap || at == BeforeValue || at == ExtEquals
      || (at == ExtName && !IsToken(c))
      || (w == ChunkedBlank && Lower(c) == 'c') || (w == LengthBlank && IsDigit(c))
    case WriteLength => w == LengthDigits && LineEnd(c)
    case WriteValue =>
      ((at == BeforeValue || at == ValueText) && LineEnd(c))
      || (at == ExtName && !IsToken(c) && c != '=') || (at == ExtValue && !IsToken(c))
      || (w == LengthDigits && LineEnd(c)) || (w == InChunked(7) && LineEnd(c))
    case TransChunked => (w == InChunked(7) || w == ChunkedFeed) && c == '\n'
    case WriteClose => at == ClosingLine
    case SizeBlock => at == SizeDigits && !IsHex(c)
    case VersionBlock => at == Minor && c == ' '
    case StatusBlock => at == StatusDigits && c == ' '
    case ReasonBlock => at == ReasonText && LineEnd(c)
  }

  // ---------- The states of the generated automaton ----------

  function Plain(at: Place): Reading {
    Reading(at, 0, 0, 0, NoWord)
  }

  function Both(at: Place, w: Word): Reading {
    Reading(at, 0, 0, 0, w)
  }

  /** What each state stands for. */
  function Of(cs: nat): Reading {
    if cs == 1 then Plain(Start)
    else if cs == 2 then Plain(SizeDigits)
    else if cs == 3 then Plain(LastFeed)
    else if cs == 4 then Plain(ExtStart)
    else if cs == 5 then Plain(ExtName)
    else if cs == 6 then Plain(ExtEquals)
    else if cs == 7 then Plain(ExtValue)
    else if 8 <= cs <= 12 then Plain(Http(cs - 7))
    else if cs == 13 then Plain(Major)
    else if cs == 14 then Plain(Dot)
    else if cs == 15 then Plain(Minor)
    else if cs == 16 then Plain(StatusGap)
    else if cs == 17 then Plain(StatusDigits)
    else if cs == 18 then Plain(ReasonGap)
    else if cs == 19 then Plain(ReasonText)
    else if cs <= 60 then OfHeaders(cs)
    else if cs <= 100 then OfFolded(cs)
    else OfLength(cs)
  }

  function OfHeaders(cs: nat): Reading {
    if cs == 20 then Plain(Line)
    else if cs == 21 then Plain(Name)
    else if cs == 22 then Plain(BeforeValue)
    else if cs == 23 then Plain(ValueText)
    else if cs == 24 then Plain(ValueFeed)
    else if 25 <= cs <= 34 then Reading(Name, cs - 24, if cs <= 27 then cs - 24 else 0, 0, NoWord)
    else if cs == 35 then Both(BeforeValue, CloseBlank)
    else if cs == 36 then Both(Line, CloseBlank)
    else if cs == 37 then Both(Nowhere, CloseBlank)
    else if 38 <= cs <= 42 then Both(Nowhere, InClose(cs - 37))
    else if cs == 43 then Plain(ClosingLine)
    else if 44 <= cs <= 60 then Reading(Name, 0, 0, cs - 43, NoWord)
    else Plain(Nowhere)
  }

  function OfFolded(cs: nat): Reading {
    if cs == 61 then Both(BeforeValue, ChunkedBlank)
    else if cs == 62 then Both(Line, ChunkedBlank)
    else if cs == 63 then Both(Nowhere, ChunkedBlank)
    else if 64 <= cs <= 70 then Both(Nowhere, InChunked(cs - 63))
    else if cs == 71 then Both(Nowhere, ChunkedFeed)
    else if cs == 72 then Both(LastFeed, ChunkedBlank)
    else if 73 <= cs <= 79 then Reading(Name, if cs == 73 then 1 else 0, if cs == 73 then 1 else 0, 0, InChunked(cs - 72))
    else if cs == 80 then Both(ValueFeed, ChunkedBlank)
    else if 81 <= cs <= 87 then Both(ValueText, InChunked(cs - 80))
    else if cs == 88 then Both(Nowhere, CloseFeed)
    else if cs == 89 then Both(LastFeed, CloseBlank)
    else if 90 <= cs <= 94 then Reading(Name, if cs == 90 then 1 else 0, if cs == 90 then 1 else 0, 0, InClose(cs - 89))
    else if cs == 95 then Both(ValueFeed, CloseBlank)
    else if 96 <= cs <= 100 then Both(ValueText, InClose(cs - 95))
    else Plain(Nowhere)
  }

  function OfLength(cs: nat): Reading {
    if 101 <= cs <= 111 then Reading(Name, 0, cs - 97, 0, NoWord)
    else if cs == 112 then Both(BeforeValue, LengthBlank)
    else if cs == 113 then Both(Line, LengthBlank)
    else if cs == 114 then Both(Nowhere, LengthBlank)
    else if cs == 115 then Both(Nowhere, LengthDigits)
    else if cs == 116 then Both(LastFeed, LengthBlank)
    else if cs == 117 then Both(Name, LengthDigits)
    else if cs == 118 then Both(ValueFeed, LengthBlank)
    else if cs == 119 then Both(ValueText, LengthDigits)
    else if cs == 120 then Plain(Final)
    else if cs == 121 then Both(Final, ChunkedBlank)
    else if cs == 122 then Both(Final, CloseBlank)
    else if cs == 123 then Both(Final, LengthBlank)
    else Plain(Nowhere)
  }

  /** The blocks of an arc's action. */
  predicate Has(a: Action, b: Block) {
    match b
    case StartField => a == MarkName || a == MarkBoth || a == CloseMarkName
    case WriteField => a == EndName || a == EndNameMark || a == NameOnlyField
    case Mark => a == MarkValue || a == MarkBoth || a == EndNameMark || a == NameOnlyField || a == EmptyField
    case WriteLength => a == LengthField
    case WriteValue => a == Field || a == EmptyField || a == NameOnlyField || a == LengthField || a == ChunkedField
    case TransChunked => a == ChunkedField || a == Chunked
    case WriteClose => a == Close || a == CloseMarkName
    case SizeBlock => a == ChunkSize
    case VersionBlock => a == HttpVersion
    case StatusBlock => a == StatusCode
    case ReasonBlock => a == ReasonPhrase
  }

  /** A move of the automaton leads where a step of the grammar does ... */
  predicate SameStep(m: Move, r: Reading, c: byte) {
    var next := GrammarStep(r, c);
    m.target <= 123 && (m.target == 0 <==> Stuck(next)) && (m.target != 0 ==> Of(m.target) == next)
  }

  /** ... and runs the same actions. */
  predicate SameActions(m: Move, r: Reading, c: byte) {
    m.target != 0 ==> forall b :: Has(m.action, b) <==> Asked(r, c, b)
  }

  // ---------- Chunk headers and status lines ----------

  lemma Classes(c: byte)
    ensures IsToken(c) ==> c != '\r' && c != '\n' && c != ';' && c != '=' && c != ':' && !Space(c)
    ensures IsHex(c) ==> c != '\r' && c != '\n' && c != ';' && c != 'H'
    ensures IsDigit(c) ==> c != '\r' && c != '\n' && c != ' ' && c != '.' && c != ':' && !Space(c)
    ensures Space(c) <==> IsBlank(c) || LineEnd(c)
    ensures IsBlank(c) ==> !LineEnd(c)
    ensures 'a' <= Lower(c) <= 'z' ==> IsToken(c) && !IsDigit(c)
    ensures Lower(c) == '-' <==> c == '-'
    ensures IsToken('-')
  {
  }

  /** A place that is no header has no other alternative beside it. */
  lemma PlainStep(at: Place, c: byte)
    requires !AtLine(at)
    ensures GrammarStep(Plain(at), c) == Plain(PlaceStep(at, c))
  {
  }

  lemma ChunkStates()
    ensures Of(1) == Plain(Start) && Of(2) == Plain(SizeDigits) && Of(3) == Plain(LastFeed) && Of(4) == Plain(ExtStart)
    ensures Of(5) == Plain(ExtName) && Of(6) == Plain(ExtEquals) && Of(7) == Plain(ExtValue)
    ensures Of(8) == Plain(Http(1)) && Of(120) == Plain(Final)
  {
  }

  lemma StatusStates()
    ensures Of(8) == Plain(Http(1)) && Of(9) == Plain(Http(2)) && Of(10) == Plain(Http(3)) && Of(11) == Plain(Http(4))
    ensures Of(12) == Plain(Http(5)) && Of(13) == Plain(Major) && Of(14) == Plain(Dot) && Of(15) == Plain(Minor)
    ensures Of(16) == Plain(StatusGap) && Of(17) == Plain(StatusDigits) && Of(18) == Plain(ReasonGap)
    ensures Of(19) == Plain(ReasonText) && Of(20) == Plain(Line) && Of(24) == Plain(ValueFeed)
  {
  }

  lemma ChunkSteps(cs: nat, c: byte)
    requires 1 <= cs <= 7
    ensures SameStep(ChunkLine(cs, c), Of(cs), c)
  {
    hide Of, IsToken, IsHex, IsDigit, GrammarStep, Space, Lower, IsBlank;
    ChunkStates();
    Classes(c);
    PlainStep(Of(cs).place, c);
    if cs <= 3 {
    } else if cs == 4 || cs == 6 {
    } else {
    }
  }

  lemma SizeActions(cs: nat, c: byte)
    requires 1 <= cs <= 3
    ensures SameActions(ChunkLine(cs, c), Of(cs), c)
  {
    hide Of, IsToken, IsHex, IsDigit, Space, Lower, IsBlank;
    ChunkStates();
    Classes(c);
  }

  lemma ExtensionActions(cs: nat, c: byte)
    requires 4 <= cs <= 7
    ensures SameActions(ChunkLine(cs, c), Of(cs), c)
  {
    hide Of, IsToken, IsHex, IsDigit, Space, Lower, IsBlank;
    ChunkStates();
    Classes(c);
  }

  lemma StatusSteps(cs: nat, c: byte)
    requires 8 <= cs <= 19
    ensures SameStep(StatusLine(cs, c), Of(cs), c)
  {
    hide Of, IsToken, IsHex, IsDigit, GrammarStep, Space, Lower, IsBlank;
    StatusStates();
    Classes(c);
    PlainStep(Of(cs).place, c);
  }

  lemma VersionActions(cs: nat, c: byte)
    requires 8 <= cs <= 15
    ensures SameActions(StatusLine(cs, c), Of(cs), c)
  {
    hide Of, IsToken, IsHex, IsDigit, Space, Lower, IsBlank;
    StatusStates();
    Classes(c);
  }

  lemma StatusActions(cs: nat, c: byte)
    requires 16 <= cs <= 19
    ensures SameActions(StatusLine(cs, c), Of(cs), c)
  {
    hide Of, IsToken, IsHex, IsDigit, Space, Lower, IsBlank;
    StatusStates();
    Classes(c);
  }

  // ---------- Names ----------

  lemma NameStates(k: nat)
    ensures Of(20) == Plain(Line) && Of(43) == Plain(ClosingLine) && Of(21) == Plain(Name) && Of(22) == Plain(BeforeValue)
    ensures Of(35) == Both(BeforeValue, CloseBlank) && Of(61) == Both(BeforeValue, ChunkedBlank)
    ensures Of(112) == Both(BeforeValue, LengthBlank) && Of(3) == Plain(LastFeed) && Of(120) == Plain(Final)
    ensures 1 <= k <= 10 ==> Of(24 + k) == Reading(Name, k, if k <= 3 then k else 0, 0, NoWord)
    ensures 4 <= k <= 14 ==> Of(97 + k) == Reading(Name, 0, k, 0, NoWord)
    ensures 1 <= k <= 17 ==> Of(43 + k) == Reading(Name, 0, 0, k, NoWord)
  {
  }

  /** The moves at the start of a line. */
  lemma FromLine(at: Place, c: byte)
    requires AtLine(at)
    ensures GrammarStep(Plain(at), c) ==
      Reading(LineStep(c), if Lower(c) == 'c' then 1 else 0, if Lower(c) == 'c' then 1 else 0, if Lower(c) == 't' then 1 else 0, NoWord)
  {
  }

  lemma LineSteps(c: byte)
    ensures SameStep(LineStart(c, 120, 3, 25), Plain(Line), c) && SameStep(AfterClose(c), Plain(ClosingLine), c)
  {
    hide Of, IsToken, IsHex, IsDigit, Space, Lower, GrammarStep;
    NameStates(1);
    Classes(c);
    FromLine(Line, c);
    FromLine(ClosingLine, c);
  }

  lemma LineActions(c: byte)
    ensures SameActions(LineStart(c, 120, 3, 25), Plain(Line), c) && SameActions(AfterClose(c), Plain(ClosingLine), c)
  {
    hide IsToken, IsHex, IsDigit, Space, Lower;
    Classes(c);
  }

  lemma InNameSteps(c: byte)
    ensures SameStep(InName(c, 22), Plain(Name), c)
  {
    hide Of, IsToken, IsHex, IsDigit, Space, Lower, GrammarStep;
    NameStates(1);
    Classes(c);
    NameStep(0, 0, 0, c);
  }

  /** Within a name only its end runs a block. */
  lemma NameAsks(r: Reading, c: byte, m: Move)
    requires r.place == Name && r.word == NoWord && m.action == if c == ':' then EndName else Skip
    ensures SameActions(m, r, c)
  {
    forall b ensures Has(m.action, b) <==> Asked(r, c, b) {
      assert Asked(r, c, b) <==> b == WriteField && c == ':';
    }
  }

  /** A letter or a colon after `k`, `l` and `e` letters of the special names. */
  lemma NameStep(k: nat, l: nat, e: nat, c: byte)
    ensures GrammarStep(Reading(Name, k, l, e, NoWord), c) == Reading(PlaceStep(Name, c),
      if 0 < k < 10 && Lower(c) == "connection"[k] then k + 1 else 0,
      if 0 < l < 14 && Lower(c) == "content-length"[l] then l + 1 else 0,
      if 0 < e < 17 && Lower(c) == "transfer-encoding"[e] then e + 1 else 0,
      if c != ':' then NoWord else if k == 10 then CloseBlank else if e == 17 then ChunkedBlank
      else if l == 14 then LengthBlank else NoWord)
  {
  }

  lemma Letters()
    ensures forall i :: 0 <= i < 10 ==> 'a' <= "connection"[i] <= 'z'
    ensures forall i :: 0 <= i < 14 ==> "content-length"[i] == '-' || 'a' <= "content-length"[i] <= 'z'
    ensures forall i :: 0 <= i < 17 ==> "transfer-encoding"[i] == '-' || 'a' <= "transfer-encoding"[i] <= 'z'
    ensures "connection"[1] == "content-length"[1] && "connection"[2] == "content-length"[2]
    ensures "connection"[3] == 'n' && "content-length"[3] == 't'
  {
  }

  lemma ConnectionSteps(k: nat, c: byte)
    requires 1 <= k <= 10
    ensures SameStep(Keyword(24 + k, c), Of(24 + k), c)
  {
    hide Of, IsToken, IsHex, IsDigit, Space, Lower, GrammarStep;
    NameStates(k);
    NameStates(k + 1);
    NameStates(4);
    NameStep(k, if k <= 3 then k else 0, 0, c);
    Letters();
    Classes(c);
  }

  lemma LengthSteps(k: nat, c: byte)
    requires 4 <= k <= 14
    ensures SameStep(Keyword(97 + k, c), Of(97 + k), c)
  {
    hide Of, IsToken, IsHex, IsDigit, Space, Lower, GrammarStep;
    NameStates(k);
    NameStates(k + 1);
    NameStep(0, k, 0, c);
    Letters();
    Classes(c);
  }

  lemma EncodingSteps(k: nat, c: byte)
    requires 1 <= k <= 17
    ensures SameStep(Keyword(43 + k, c), Of(43 + k), c)
  {
    hide Of, IsToken, IsHex, IsDigit, Space, Lower, GrammarStep;
    NameStates(k);
    NameStates(k + 1);
    NameStep(0, 0, k, c);
    Letters();
    Classes(c);
  }

  lemma KeywordActions(cs: nat, c: byte)
    requires 25 <= cs <= 34 || 44 <= cs <= 60 || 101 <= cs <= 111
    ensures Keyword(cs, c).target != 0 ==> Keyword(cs, c).action == if c == ':' then EndName else Skip
  {
    hide IsToken, IsDigit, Lower;
    Letters();
    Classes(c);
  }

  lemma NameActions(cs: nat, c: byte)
    requires 25 <= cs <= 34 || 44 <= cs <= 60 || 101 <= cs <= 111
    ensures SameActions(Keyword(cs, c), Of(cs), c)
  {
    hide Of, Keyword, Has, Asked;
    NameStates(if cs <= 34 then cs - 24 else if cs <= 60 then cs - 43 else cs - 97);
    assert Of(cs).place == Name && Of(cs).word == NoWord;
    KeywordActions(cs, c);
    if Keyword(cs, c).target != 0 {
      NameAsks(Of(cs), c, Keyword(cs, c));
    }
  }

  // ---------- Values ----------

  /** Away from the start of a line and its name, the letters play no part. */
  lemma WordedStep(at: Place, w: Word, c: byte)
    requires !AtLine(at)
    ensures GrammarStep(Both(at, w), c) ==
      Both(if Ended(w, c) != Nowhere then Ended(w, c)
           else if WordOnly(w, c) == CloseFeed || WordOnly(w, c) == ChunkedFeed then Nowhere else PlaceStep(at, c),
           WordOnly(w, c))
  {
  }

  /** The step of a word when no name ends. */
  function WordOnly(w: Word, c: byte): Word {
    WordStep(Both(Nowhere, w), c)
  }

  /** A special value is looked for past its blanks, whatever is beside it. */
  lemma FromBlank(at: Place, c: byte)
    requires !AtLine(at)
    ensures GrammarStep(Both(at, CloseBlank), c) ==
      Both(PlaceStep(at, c), if Space(c) then CloseBlank else if Lower(c) == 'c' then InClose(1) else NoWord)
    ensures GrammarStep(Both(at, ChunkedBlank), c) ==
      Both(PlaceStep(at, c), if Space(c) then ChunkedBlank else if Lower(c) == 'c' then InChunked(1) else NoWord)
    ensures GrammarStep(Both(at, LengthBlank), c) ==
      Both(PlaceStep(at, c), if Space(c) then LengthBlank else if IsDigit(c) then LengthDigits else NoWord)
  {
    hide Space, GrammarStep, IsDigit, Lower, PlaceStep;
    WordedStep(at, CloseBlank, c);
    WordedStep(at, ChunkedBlank, c);
    WordedStep(at, LengthBlank, c);
  }

  lemma PlainStates()
    ensures Of(20) == Plain(Line) && Of(22) == Plain(BeforeValue) && Of(23) == Plain(ValueText) && Of(24) == Plain(ValueFeed)
  {
  }

  lemma CloseStates()
    ensures Of(35) == Both(BeforeValue, CloseBlank) && Of(36) == Both(Line, CloseBlank) && Of(37) == Both(Nowhere, CloseBlank)
    ensures Of(89) == Both(LastFeed, CloseBlank) && Of(95) == Both(ValueFeed, CloseBlank) && Of(122) == Both(Final, CloseBlank)
    ensures Of(43) == Plain(ClosingLine) && Of(88) == Both(Nowhere, CloseFeed)
    ensures Of(96) == Both(ValueText, InClose(1)) && Of(38) == Both(Nowhere, InClose(1))
  {
    hide Of;
    CloseBlankStates();
    CloseLetterStates(1);
  }

  lemma CloseBlankStates()
    ensures Of(35) == Both(BeforeValue, CloseBlank) && Of(36) == Both(Line, CloseBlank) && Of(37) == Both(Nowhere, CloseBlank)
    ensures Of(89) == Both(LastFeed, CloseBlank) && Of(95) == Both(ValueFeed, CloseBlank) && Of(122) == Both(Final, CloseBlank)
    ensures Of(43) == Plain(ClosingLine) && Of(88) == Both(Nowhere, CloseFeed)
  {
  }

  lemma CloseLetterStates(k: nat)
    requires 1 <= k <= 5
    ensures Of(95 + k) == Both(ValueText, InClose(k)) && Of(37 + k) == Both(Nowhere, InClose(k))
  {
  }

  lemma ChunkedStates()
    ensures Of(61) == Both(BeforeValue, ChunkedBlank) && Of(62) == Both(Line, ChunkedBlank) && Of(63) == Both(Nowhere, ChunkedBlank)
    ensures Of(72) == Both(LastFeed, ChunkedBlank) && Of(80) == Both(ValueFeed, ChunkedBlank) && Of(121) == Both(Final, ChunkedBlank)
    ensures Of(71) == Both(Nowhere, ChunkedFeed)
    ensures Of(81) == Both(ValueText, InChunked(1)) && Of(64) == Both(Nowhere, InChunked(1))
  {
    hide Of;
    ChunkedBlankStates();
    ChunkedLetterStates(1);
  }

  lemma ChunkedBlankStates()
    ensures Of(61) == Both(BeforeValue, ChunkedBlank) && Of(62) == Both(Line, ChunkedBlank) && Of(63) == Both(Nowhere, ChunkedBlank)
    ensures Of(72) == Both(LastFeed, ChunkedBlank) && Of(80) == Both(ValueFeed, ChunkedBlank) && Of(121) == Both(Final, ChunkedBlank)
    ensures Of(71) == Both(Nowhere, ChunkedFeed)
  {
  }

  lemma ChunkedLetterStates(k: nat)
    requires 1 <= k <= 7
    ensures Of(80 + k) == Both(ValueText, InChunked(k)) && Of(63 + k) == Both(Nowhere, InChunked(k))
  {
  }

  lemma LengthStates()
    ensures Of(112) == Both(BeforeValue, LengthBlank) && Of(113) == Both(Line, LengthBlank) && Of(114) == Both(Nowhere, LengthBlank)
    ensures Of(116) == Both(LastFeed, LengthBlank) && Of(118) == Both(ValueFeed, LengthBlank) && Of(123) == Both(Final, LengthBlank)
  {
  }

  lemma DigitStates()
    ensures Of(119) == Both(ValueText, LengthDigits) && Of(115) == Both(Nowhere, LengthDigits)
    ensures Of(117) == Both(Name, LengthDigits)
  {
  }

  lemma PlainValueSteps(c: byte)
    ensures SameStep(ValueStart(c, 22, 20, 24), Plain(BeforeValue), c) && SameStep(InValue(c), Plain(ValueText), c)
    ensures SameStep(if c == '\n' then Move(20, Skip) else ERROR, Plain(ValueFeed), c)
  {
    hide Of, IsBlank, Space, GrammarStep;
    PlainStates();
    Classes(c);
    PlainStep(BeforeValue, c);
    PlainStep(ValueText, c);
    PlainStep(ValueFeed, c);
  }

  lemma PlainValueActions(c: byte)
    ensures SameActions(ValueStart(c, 22, 20, 24), Plain(BeforeValue), c) && SameActions(InValue(c), Plain(ValueText), c)
    ensures SameActions(if c == '\n' then Move(20, Skip) else ERROR, Plain(ValueFeed), c)
  {
    hide IsBlank, Space, IsToken, IsDigit, IsHex, Lower;
    Classes(c);
  }

  lemma ValueLetters()
    ensures forall i :: 0 <= i < 5 ==> 'a' <= "close"[i] <= 'z'
    ensures forall i :: 0 <= i < 7 ==> 'a' <= "chunked"[i] <= 'z'
  {
  }

  /** One more letter of a special value, or its end. */
  lemma CloseWord(k: nat, c: byte)
    requires 1 <= k <= 5
    ensures WordOnly(InClose(k), c) ==
      if k < 5 && Lower(c) == "close"[k] then InClose(k + 1) else if k == 5 && c == '\r' then CloseFeed else NoWord
    ensures Ended(InClose(k), c) == if k == 5 && c == '\n' then ClosingLine else Nowhere
  {
  }

  lemma ChunkedWord(k: nat, c: byte)
    requires 1 <= k <= 7
    ensures WordOnly(InChunked(k), c) ==
      if k < 7 && Lower(c) == "chunked"[k] then InChunked(k + 1) else if k == 7 && c == '\r' then ChunkedFeed else NoWord
    ensures Ended(InChunked(k), c) == if k == 7 && c == '\n' then Line else Nowhere
  {
  }

  // conn_close

  lemma CloseBlankSteps(c: byte)
    ensures SameStep(Value(35, c), Both(BeforeValue, CloseBlank), c)
  {
    hide Of, IsBlank, Space, GrammarStep, IsToken, IsDigit, Lower;
    CloseStates();
    PlainStates();
    Classes(c);
    FromBlank(BeforeValue, c);
  }

  lemma CloseBlankActions(c: byte)
    ensures SameActions(Value(35, c), Both(BeforeValue, CloseBlank), c)
  {
    hide IsBlank, Space, IsToken, IsDigit, IsHex, Lower;
    Classes(c);
  }

  lemma CloseSteps(k: nat, c: byte)
    requires 1 <= k <= 5
    ensures SameStep(Value(95 + k, c), Both(ValueText, InClose(k)), c)
  {
    hide Of, WordOnly, Ended, IsBlank, Space, GrammarStep, IsToken, IsDigit, Lower;
    CloseStates();
    if k < 5 {
      CloseLetterStates(k + 1);
    }
    PlainStates();
    Classes(c);
    ValueLetters();
    CloseWord(k, c);
    WordedStep(ValueText, InClose(k), c);
  }

  lemma FoldedCloseSteps(k: nat, c: byte)
    requires 1 <= k <= 5
    ensures SameStep(FoldedKeyword(37 + k, c), Both(Nowhere, InClose(k)), c)
  {
    hide Of, WordOnly, Ended, GrammarStep, Lower;
    CloseStates();
    if k < 5 {
      CloseLetterStates(k + 1);
    }
    ValueLetters();
    CloseWord(k, c);
    WordedStep(Nowhere, InClose(k), c);
  }

  lemma CloseActions(k: nat, c: byte)
    requires 1 <= k <= 5
    ensures SameActions(Value(95 + k, c), Both(ValueText, InClose(k)), c)
    ensures SameActions(FoldedKeyword(37 + k, c), Both(Nowhere, InClose(k)), c)
  {
    hide IsBlank, Space, IsToken, IsDigit, IsHex, Lower;
    Classes(c);
    ValueLetters();
  }

  lemma CloseFeedSteps(c: byte)
    ensures var m := if c == '\n' then Move(43, Skip) else ERROR;
      SameStep(m, Both(Nowhere, CloseFeed), c) && SameActions(m, Both(Nowhere, CloseFeed), c)
  {
    hide Of, GrammarStep;
    CloseStates();
    WordedStep(Nowhere, CloseFeed, c);
  }

  // transfer_encoding_chunked

  lemma ChunkedBlankSteps(c: byte)
    ensures SameStep(Value(61, c), Both(BeforeValue, ChunkedBlank), c)
  {
    hide Of, IsBlank, Space, GrammarStep, IsToken, IsDigit, Lower;
    ChunkedStates();
    PlainStates();
    Classes(c);
    FromBlank(BeforeValue, c);
  }

  lemma ChunkedBlankActions(c: byte)
    ensures SameActions(Value(61, c), Both(BeforeValue, ChunkedBlank), c)
  {
    hide IsBlank, Space, IsToken, IsDigit, IsHex, Lower;
    Classes(c);
  }

  lemma ChunkedSteps(k: nat, c: byte)
    requires 1 <= k <= 7
    ensures SameStep(Value(80 + k, c), Both(ValueText, InChunked(k)), c)
  {
    hide Of, WordOnly, Ended, IsBlank, Space, GrammarStep, IsToken, IsDigit, Lower;
    ChunkedStates();
    if k < 7 {
      ChunkedLetterStates(k + 1);
    }
    PlainStates();
    Classes(c);
    ValueLetters();
    ChunkedWord(k, c);
    WordedStep(ValueText, InChunked(k), c);
  }

  lemma FoldedChunkedSteps(k: nat, c: byte)
    requires 1 <= k <= 7
    ensures SameStep(FoldedKeyword(63 + k, c), Both(Nowhere, InChunked(k)), c)
  {
    hide Of, WordOnly, Ended, GrammarStep, Lower;
    ChunkedStates();
    if k < 7 {
      ChunkedLetterStates(k + 1);
    }
    PlainStates();
    ValueLetters();
    ChunkedWord(k, c);
    WordedStep(Nowhere, InChunked(k), c);
  }

  lemma ChunkedActions(k: nat, c: byte)
    requires 1 <= k <= 7
    ensures SameActions(Value(80 + k, c), Both(ValueText, InChunked(k)), c)
    ensures SameActions(FoldedKeyword(63 + k, c), Both(Nowhere, InChunked(k)), c)
  {
    hide IsBlank, Space, IsToken, IsDigit, IsHex, Lower;
    Classes(c);
    ValueLetters();
  }

  lemma ChunkedFeedSteps(c: byte)
    ensures SameStep(FoldedKeyword(71, c), Both(Nowhere, ChunkedFeed), c)
    ensures SameActions(FoldedKeyword(71, c), Both(Nowhere, ChunkedFeed), c)
  {
    hide Of, GrammarStep;
    PlainStates();
    WordedStep(Nowhere, ChunkedFeed, c);
  }

  // content_length

  lemma LengthBlankSteps(c: byte)
    ensures SameStep(Value(112, c), Both(BeforeValue, LengthBlank), c)
  {
    hide Of, IsBlank, Space, GrammarStep, IsToken, IsDigit, Lower;
    LengthStates();
    DigitStates();
    PlainStates();
    Classes(c);
    FromBlank(BeforeValue, c);
  }

  lemma LengthBlankActions(c: byte)
    ensures SameActions(Value(112, c), Both(BeforeValue, LengthBlank), c)
  {
    hide IsBlank, Space, IsToken, IsDigit, IsHex, Lower;
    Classes(c);
  }

  lemma DigitSteps(c: byte)
    ensures SameStep(Value(119, c), Both(ValueText, LengthDigits), c)
    ensures SameStep(FoldedKeyword(115, c), Both(Nowhere, LengthDigits), c)
  {
    hide Of, IsBlank, Space, GrammarStep, IsToken, IsDigit, Lower;
    DigitStates();
    PlainStates();
    Classes(c);
    WordedStep(ValueText, LengthDigits, c);
    WordedStep(Nowhere, LengthDigits, c);
  }

  lemma DigitActions(c: byte)
    ensures SameActions(Value(119, c), Both(ValueText, LengthDigits), c)
    ensures SameActions(FoldedKeyword(115, c), Both(Nowhere, LengthDigits), c)
  {
    hide IsBlank, Space, IsToken, IsDigit, IsHex, Lower;
    Classes(c);
  }

  // ---------- Folded values ----------

  lemma FirstLetters(c: byte)
    ensures Lower(c) == 'c' ==> c != '\r' && c != '\n' && !IsBlank(c) && !Space(c)
    ensures Space(c) <==> IsBlank(c) || c == '\r' || c == '\n'
  {
  }

  /** Blanks before a special value where a header or the end of the headers may also be. */
  predicate Beside(at: Place) {
    at == Nowhere || at == LastFeed || at == ValueFeed || at == Final
  }

  lemma FoldCloseAlone(c: byte)
    ensures SameStep(Fold(c, 37, 0, Move(38, Skip), Lower(c) == 'c'), Both(Nowhere, CloseBlank), c)
  {
    hide Of, IsBlank, Space, GrammarStep, IsToken, IsDigit, Lower;
    CloseStates();
    FirstLetters(c);
    FromBlank(Nowhere, c);
  }

  lemma FoldCloseAtEnd(c: byte)
    ensures SameStep(Fold(c, 37, 0, Move(38, Skip), Lower(c) == 'c'), Both(Final, CloseBlank), c)
  {
    hide Of, IsBlank, Space, GrammarStep, IsToken, IsDigit, Lower;
    CloseStates();
    FirstLetters(c);
    FromBlank(Final, c);
  }

  lemma FoldCloseAfterCr(c: byte)
    ensures SameStep(Fold(c, 37, 122, Move(38, Skip), Lower(c) == 'c'), Both(LastFeed, CloseBlank), c)
  {
    hide Of, IsBlank, Space, GrammarStep, IsToken, IsDigit, Lower;
    CloseStates();
    FirstLetters(c);
    FromBlank(LastFeed, c);
  }

  lemma FoldCloseAfterValue(c: byte)
    ensures SameStep(Fold(c, 37, 36, Move(38, Skip), Lower(c) == 'c'), Both(ValueFeed, CloseBlank), c)
  {
    hide Of, IsBlank, Space, GrammarStep, IsToken, IsDigit, Lower;
    CloseStates();
    FirstLetters(c);
    FromBlank(ValueFeed, c);
  }

  lemma FoldCloseSteps(at: Place, c: byte)
    requires Beside(at)
    ensures SameStep(Fold(c, 37, if at == LastFeed then 122 else if at == ValueFeed then 36 else 0, Move(38, Skip), Lower(c) == 'c'),
                     Both(at, CloseBlank), c)
  {
    hide SameStep, Fold;
    match at
    case Nowhere => FoldCloseAlone(c);
    case Final => FoldCloseAtEnd(c);
    case LastFeed => FoldCloseAfterCr(c);
    case ValueFeed => FoldCloseAfterValue(c);
  }

  lemma FoldCloseActions(at: Place, c: byte)
    requires Beside(at)
    ensures SameActions(Fold(c, 37, if at == LastFeed then 122 else if at == ValueFeed then 36 else 0, Move(38, Skip), Lower(c) == 'c'),
                        Both(at, CloseBlank), c)
  {
    hide IsBlank, Space, IsToken, IsDigit, IsHex, Lower;
    Classes(c);
  }

  lemma FoldChunkedAlone(c: byte)
    ensures SameStep(Fold(c, 63, 0, Move(64, MarkValue), Lower(c) == 'c'), Both(Nowhere, ChunkedBlank), c)
  {
    hide Of, IsBlank, Space, GrammarStep, IsToken, IsDigit, Lower;
    ChunkedStates();
    FirstLetters(c);
    FromBlank(Nowhere, c);
  }

  lemma FoldChunkedAtEnd(c: byte)
    ensures SameStep(Fold(c, 63, 0, Move(64, MarkValue), Lower(c) == 'c'), Both(Final, ChunkedBlank), c)
  {
    hide Of, IsBlank, Space, GrammarStep, IsToken, IsDigit, Lower;
    ChunkedStates();
    FirstLetters(c);
    FromBlank(Final, c);
  }

  lemma FoldChunkedAfterCr(c: byte)
    ensures SameStep(Fold(c, 63, 121, Move(64, MarkValue), Lower(c) == 'c'), Both(LastFeed, ChunkedBlank), c)
  {
    hide Of, IsBlank, Space, GrammarStep, IsToken, IsDigit, Lower;
    ChunkedStates();
    FirstLetters(c);
    FromBlank(LastFeed, c);
  }

  lemma FoldChunkedAfterValue(c: byte)
    ensures SameStep(Fold(c, 63, 62, Move(64, MarkValue), Lower(c) == 'c'), Both(ValueFeed, ChunkedBlank), c)
  {
    hide Of, IsBlank, Space, GrammarStep, IsToken, IsDigit, Lower;
    ChunkedStates();
    FirstLetters(c);
    FromBlank(ValueFeed, c);
  }

  lemma FoldChunkedSteps(at: Place, c: byte)
    requires Beside(at)
    ensures SameStep(Fold(c, 63, if at == LastFeed then 121 else if at == ValueFeed then 62 else 0, Move(64, MarkValue), Lower(c) == 'c'),
                     Both(at, ChunkedBlank), c)
  {
    hide SameStep, Fold;
    match at
    case Nowhere => FoldChunkedAlone(c);
    case Final => FoldChunkedAtEnd(c);
    case LastFeed => FoldChunkedAfterCr(c);
    case ValueFeed => FoldChunkedAfterValue(c);
  }

  lemma FoldChunkedActions(at: Place, c: byte)
    requires Beside(at)
    ensures SameActions(Fold(c, 63, if at == LastFeed then 121 else if at == ValueFeed then 62 else 0, Move(64, MarkValue), Lower(c) == 'c'),
                        Both(at, ChunkedBlank), c)
  {
    hide IsBlank, Space, IsToken, IsDigit, IsHex, Lower;
    Classes(c);
  }

  lemma FoldLengthSteps(at: Place, c: byte)
    requires Beside(at)
    ensures SameStep(Fold(c, 114, if at == LastFeed then 123 else if at == ValueFeed then 113 else 0, Move(115, MarkValue), IsDigit(c)),
                     Both(at, LengthBlank), c)
  {
    hide Of, IsBlank, Space, GrammarStep, IsToken, IsDigit, Lower;
    LengthStates();
    DigitStates();
    Classes(c);
    FromBlank(at, c);
  }

  lemma FoldLengthActions(at: Place, c: byte)
    requires Beside(at)
    ensures SameActions(Fold(c, 114, if at == LastFeed then 123 else if at == ValueFeed then 113 else 0, Move(115, MarkValue), IsDigit(c)),
                        Both(at, LengthBlank), c)
  {
    hide IsBlank, Space, IsToken, IsDigit, IsHex, Lower;
    Classes(c);
  }

  /** The line after an empty special value: a header, the end, or the folded value. */
  lemma FromFoldedLine(w: Word, c: byte)
    requires w == CloseBlank || w == ChunkedBlank || w == LengthBlank
    ensures GrammarStep(Both(Line, w), c) ==
      Reading(LineStep(c), if Lower(c) == 'c' then 1 else 0, if Lower(c) == 'c' then 1 else 0, if Lower(c) == 't' then 1 else 0,
              WordOnly(w, c))
  {
  }

  lemma FoldedNameStates()
    ensures Of(90) == Reading(Name, 1, 1, 0, InClose(1)) && Of(73) == Reading(Name, 1, 1, 0, InChunked(1))
    ensures Of(25) == Reading(Name, 1, 1, 0, NoWord) && Of(44) == Reading(Name, 0, 0, 1, NoWord) && Of(21) == Plain(Name)
  {
  }

  lemma FoldedLineSteps(c: byte)
    ensures SameStep(if IsBlank(c) then Move(37, Skip) else LineStart(c, 122, 89, 90), Both(Line, CloseBlank), c)
    ensures SameStep(if IsBlank(c) then Move(63, Skip) else if Lower(c) == 'c' then Move(73, MarkBoth) else LineStart(c, 121, 72, 73),
                     Both(Line, ChunkedBlank), c)
  {
    hide Of, IsBlank, Space, GrammarStep, IsToken, IsDigit, IsHex, Lower;
    CloseStates();
    ChunkedStates();
    FoldedNameStates();
    Classes(c);
    FromFoldedLine(CloseBlank, c);
    FromFoldedLine(ChunkedBlank, c);
  }

  lemma FoldedLineActions(c: byte)
    ensures SameActions(if IsBlank(c) then Move(37, Skip) else LineStart(c, 122, 89, 90), Both(Line, CloseBlank), c)
    ensures SameActions(if IsBlank(c) then Move(63, Skip) else if Lower(c) == 'c' then Move(73, MarkBoth) else LineStart(c, 121, 72, 73),
                        Both(Line, ChunkedBlank), c)
  {
    hide IsBlank, Space, IsToken, IsDigit, IsHex, Lower;
    Classes(c);
  }

  lemma LengthLineSteps(c: byte)
    ensures SameStep(if IsBlank(c) then Move(114, Skip) else if IsDigit(c) then Move(117, MarkBoth) else LineStart(c, 123, 116, 25),
                     Both(Line, LengthBlank), c)
  {
    hide Of, IsBlank, Space, GrammarStep, IsToken, IsDigit, Lower;
    LengthStates();
    DigitStates();
    FoldedNameStates();
    Classes(c);
    DigitsAreTokens(c);
    FromFoldedLine(LengthBlank, c);
  }

  lemma LengthLineActions(c: byte)
    ensures SameActions(if IsBlank(c) then Move(114, Skip) else if IsDigit(c) then Move(117, MarkBoth) else LineStart(c, 123, 116, 25),
                        Both(Line, LengthBlank), c)
  {
    hide IsBlank, Space, IsToken, IsDigit, IsHex, Lower;
    Classes(c);
    DigitsAreTokens(c);
  }

  lemma DigitsAreTokens(c: byte)
    ensures IsDigit(c) ==> IsToken(c) && Lower(c) != 'c' && Lower(c) != 't'
  {
  }

  /** A name that may still turn out to be a folded special value. */
  lemma FoldedNameStep(k: nat, w: Word, c: byte)
    requires k <= 1
    ensures GrammarStep(Reading(Name, k, k, 0, w), c) ==
      (var letters := if k == 1 && Lower(c) == 'o' then 2 else 0;
       Reading(if Ended(w, c) != Nowhere then Ended(w, c)
               else if WordOnly(w, c) == CloseFeed || WordOnly(w, c) == ChunkedFeed then Nowhere else PlaceStep(Name, c),
               letters, letters, 0, WordOnly(w, c)))
  {
    assert "connection"[1] == 'o' && "content-length"[1] == 'o';
  }

  lemma FoldedStates()
    ensures Of(26) == Reading(Name, 2, 2, 0, NoWord)
    ensures Of(21) == Plain(Name) && Of(22) == Plain(BeforeValue) && Of(20) == Plain(Line)
  {
  }

  lemma ChunkedNameStates(k: nat)
    requires 1 <= k <= 7
    ensures Of(72 + k) == Reading(Name, if k == 1 then 1 else 0, if k == 1 then 1 else 0, 0, InChunked(k))
  {
  }

  lemma CloseNameStates(k: nat)
    requires 1 <= k <= 5
    ensures Of(89 + k) == Reading(Name, if k == 1 then 1 else 0, if k == 1 then 1 else 0, 0, InClose(k))
  {
  }

  lemma FirstChunkedName(k: nat, c: byte)
    requires k == 1
    ensures SameStep(FoldedKeyword(72 + k, c), Reading(Name, 1, 1, 0, InChunked(k)), c)
  {
    hide Of, WordOnly, Ended, IsBlank, Space, GrammarStep, IsToken, IsDigit, Lower;
    FoldedStates();
    ChunkedNameStates(k + 1);
    ChunkedStates();
    ValueLetters();
    ChunkedWord(k, c);
    Classes(c);
    assert "chunked"[1] == 'h';
    FoldedNameStep(1, InChunked(k), c);
  }

  lemma InsideChunkedName(k: nat, c: byte)
    requires 1 < k < 7
    ensures SameStep(FoldedKeyword(72 + k, c), Reading(Name, 0, 0, 0, InChunked(k)), c)
  {
    hide Of, WordOnly, Ended, IsBlank, Space, GrammarStep, IsToken, IsDigit, Lower;
    FoldedStates();
    ChunkedNameStates(k + 1);
    ChunkedStates();
    ValueLetters();
    ChunkedWord(k, c);
    Classes(c);
    assert "chunked"[1] == 'h';
    FoldedNameStep(0, InChunked(k), c);
  }

  lemma LastChunkedName(k: nat, c: byte)
    requires k == 7
    ensures SameStep(FoldedKeyword(72 + k, c), Reading(Name, 0, 0, 0, InChunked(k)), c)
  {
    hide Of, WordOnly, Ended, IsBlank, Space, GrammarStep, IsToken, IsDigit, Lower;
    FoldedStates();
    ChunkedStates();
    ValueLetters();
    ChunkedWord(k, c);
    Classes(c);
    assert "chunked"[1] == 'h';
    FoldedNameStep(0, InChunked(k), c);
  }

  lemma FirstCloseName(k: nat, c: byte)
    requires k == 1
    ensures SameStep(FoldedKeyword(89 + k, c), Reading(Name, 1, 1, 0, InClose(k)), c)
  {
    hide Of, WordOnly, Ended, IsBlank, Space, GrammarStep, IsToken, IsDigit, Lower;
    FoldedStates();
    CloseNameStates(k + 1);
    CloseStates();
    ValueLetters();
    CloseWord(k, c);
    Classes(c);
    assert "close"[1] == 'l';
    FoldedNameStep(1, InClose(k), c);
  }

  lemma InsideCloseName(k: nat, c: byte)
    requires 1 < k < 5
    ensures SameStep(FoldedKeyword(89 + k, c), Reading(Name, 0, 0, 0, InClose(k)), c)
  {
    hide Of, WordOnly, Ended, IsBlank, Space, GrammarStep, IsToken, IsDigit, Lower;
    FoldedStates();
    CloseNameStates(k + 1);
    CloseStates();
    ValueLetters();
    CloseWord(k, c);
    Classes(c);
    assert "close"[1] == 'l';
    FoldedNameStep(0, InClose(k), c);
  }

  lemma LastCloseName(k: nat, c: byte)
    requires k == 5
    ensures SameStep(FoldedKeyword(89 + k, c), Reading(Name, 0, 0, 0, InClose(k)), c)
  {
    hide Of, WordOnly, Ended, IsBlank, Space, GrammarStep, IsToken, IsDigit, Lower;
    FoldedStates();
    CloseStates();
    ValueLetters();
    CloseWord(k, c);
    Classes(c);
    assert "close"[1] == 'l';
    FoldedNameStep(0, InClose(k), c);
  }

  lemma FoldedDigitNames(c: byte)
    ensures SameStep(FoldedKeyword(117, c), Both(Name, LengthDigits), c)
  {
    hide Of, IsBlank, Space, GrammarStep, IsToken, IsDigit, Lower;
    FoldedStates();
    DigitStates();
    PlainStates();
    Classes(c);
    DigitsAreTokens(c);
    FoldedNameStep(0, LengthDigits, c);
  }

  lemma FoldedNameActions(k: nat, w: Word, cs: nat, c: byte)
    requires (73 <= cs <= 79 && w == InChunked(cs - 72)) || (90 <= cs <= 94 && w == InClose(cs - 89)) || (cs == 117 && w == LengthDigits)
    ensures SameActions(FoldedKeyword(cs, c), Reading(Name, k, k, 0, w), c)
  {
    hide IsBlank, Space, IsToken, IsDigit, IsHex, Lower;
    ValueLetters();
    Classes(c);
    DigitsAreTokens(c);
  }

  // ---------- The whole automaton ----------

  /** An arc of the automaton is a step of the grammar, with its actions. */
  predicate ArcIsStep(cs: nat, c: byte) {
    SameStep(Transition(cs, c), Of(cs), c) && SameActions(Transition(cs, c), Of(cs), c)
  }

  lemma HeadArcs(cs: nat, c: byte)
    requires 1 <= cs <= 19
    ensures ArcIsStep(cs, c)
  {
    hide SameStep, SameActions, Of, ChunkLine, StatusLine;
    if cs <= 7 {
      ChunkSteps(cs, c);
      if cs <= 3 {
        SizeActions(cs, c);
      } else {
        ExtensionActions(cs, c);
      }
    } else {
      StatusSteps(cs, c);
      if cs <= 15 {
        VersionActions(cs, c);
      } else {
        StatusActions(cs, c);
      }
    }
  }

  lemma NameArcs(cs: nat, c: byte)
    requires 20 <= cs <= 34 || 43 <= cs <= 60 || 101 <= cs <= 111
    ensures ArcIsStep(cs, c)
  {
    hide SameStep, SameActions, Of, Keyword, LineStart, InName, InValue, ValueStart, AfterClose;
    PlainStates();
    NameStates(1);
    if cs == 20 || cs == 43 {
      LineSteps(c);
      LineActions(c);
    } else if cs == 21 {
      InNameSteps(c);
      InNameActions(c);
    } else if cs <= 24 {
      PlainValueSteps(c);
      PlainValueActions(c);
    } else {
      NameActions(cs, c);
      if cs <= 34 {
        ConnectionSteps(cs - 24, c);
      } else if cs <= 60 {
        EncodingSteps(cs - 43, c);
      } else {
        LengthSteps(cs - 97, c);
      }
    }
  }

  lemma InNameActions(c: byte)
    ensures SameActions(InName(c, 22), Plain(Name), c)
  {
    hide IsToken;
    Classes(c);
    var m := InName(c, 22);
    if m.target != 0 {
      NameAsks(Plain(Name), c, m);
    }
  }

  lemma CloseBlankArcs(cs: nat, c: byte)
    requires cs == 35 || cs == 36 || cs == 88
    ensures ArcIsStep(cs, c)
  {
    hide SameStep, SameActions, Of, Value, FoldedKeyword, Fold, LineStart;
    CloseStates();
    if cs == 35 {
      CloseBlankSteps(c);
      CloseBlankActions(c);
    } else if cs == 36 {
      FoldedLineSteps(c);
      FoldedLineActions(c);
    } else {
      CloseFeedSteps(c);
    }
  }

  lemma CloseFoldMoves(c: byte)
    ensures Transition(37, c) == Fold(c, 37, 0, Move(38, Skip), Lower(c) == 'c') == Transition(122, c)
    ensures Transition(89, c) == Fold(c, 37, 122, Move(38, Skip), Lower(c) == 'c')
    ensures Transition(95, c) == Fold(c, 37, 36, Move(38, Skip), Lower(c) == 'c')
  {
    hide Fold, Lower;
  }

  lemma CloseFoldArcs(cs: nat, c: byte)
    requires cs == 37 || cs == 89 || cs == 95 || cs == 122
    ensures ArcIsStep(cs, c)
  {
    hide SameStep, SameActions, Of, Transition, Fold, Lower;
    CloseStates();
    CloseFoldMoves(c);
    var at := if cs == 37 then Nowhere else if cs == 89 then LastFeed else if cs == 95 then ValueFeed else Final;
    FoldCloseSteps(at, c);
    FoldCloseActions(at, c);
  }

  lemma CloseLetterArcs(k: nat, c: byte)
    requires 1 <= k <= 5
    ensures ArcIsStep(95 + k, c) && ArcIsStep(37 + k, c) && ArcIsStep(89 + k, c)
  {
    hide SameStep, SameActions, Of, Value, FoldedKeyword;
    CloseLetterStates(k);
    CloseNameStates(k);
    CloseActions(k, c);
    CloseSteps(k, c);
    FoldedCloseSteps(k, c);
    FoldedNameActions(if k == 1 then 1 else 0, InClose(k), 89 + k, c);
    if k == 1 {
      FirstCloseName(k, c);
    } else if k < 5 {
      InsideCloseName(k, c);
    } else {
      LastCloseName(k, c);
    }
  }

  lemma ChunkedBlankArcs(cs: nat, c: byte)
    requires cs == 61 || cs == 62 || cs == 71
    ensures ArcIsStep(cs, c)
  {
    hide SameStep, SameActions, Of, Value, FoldedKeyword, Fold, LineStart;
    ChunkedStates();
    if cs == 61 {
      ChunkedBlankSteps(c);
      ChunkedBlankActions(c);
    } else if cs == 62 {
      FoldedLineSteps(c);
      FoldedLineActions(c);
    } else {
      ChunkedFeedSteps(c);
    }
  }

  lemma ChunkedFoldMoves(c: byte)
    ensures Transition(63, c) == Fold(c, 63, 0, Move(64, MarkValue), Lower(c) == 'c') == Transition(121, c)
    ensures Transition(72, c) == Fold(c, 63, 121, Move(64, MarkValue), Lower(c) == 'c')
    ensures Transition(80, c) == Fold(c, 63, 62, Move(64, MarkValue), Lower(c) == 'c')
  {
    hide Fold, Lower;
  }

  lemma ChunkedFoldArcs(cs: nat, c: byte)
    requires cs == 63 || cs == 72 || cs == 80 || cs == 121
    ensures ArcIsStep(cs, c)
  {
    hide SameStep, SameActions, Of, Transition, Fold, Lower;
    ChunkedStates();
    ChunkedFoldMoves(c);
    var at := if cs == 63 then Nowhere else if cs == 72 then LastFeed else if cs == 80 then ValueFeed else Final;
    FoldChunkedSteps(at, c);
    FoldChunkedActions(at, c);
  }

  lemma ChunkedLetterArcs(k: nat, c: byte)
    requires 1 <= k <= 7
    ensures ArcIsStep(80 + k, c) && ArcIsStep(63 + k, c) && ArcIsStep(72 + k, c)
  {
    hide SameStep, SameActions, Of, Value, FoldedKeyword;
    ChunkedLetterStates(k);
    ChunkedNameStates(k);
    ChunkedActions(k, c);
    ChunkedSteps(k, c);
    FoldedChunkedSteps(k, c);
    FoldedNameActions(if k == 1 then 1 else 0, InChunked(k), 72 + k, c);
    if k == 1 {
      FirstChunkedName(k, c);
    } else if k < 7 {
      InsideChunkedName(k, c);
    } else {
      LastChunkedName(k, c);
    }
  }

  lemma LengthBlankArcs(cs: nat, c: byte)
    requires 112 <= cs <= 119 || cs == 123
    ensures ArcIsStep(cs, c)
  {
    hide SameStep, SameActions, Of, Value, FoldedKeyword, Fold, LineStart;
    LengthStates();
    DigitStates();
    if cs == 112 {
      LengthBlankSteps(c);
      LengthBlankActions(c);
    } else if cs == 113 {
      LengthLineSteps(c);
      LengthLineActions(c);
    } else if cs == 115 || cs == 119 {
      DigitSteps(c);
      DigitActions(c);
    } else if cs == 117 {
      FoldedDigitNames(c);
      FoldedNameActions(0, LengthDigits, 117, c);
    } else {
      var at := if cs == 114 then Nowhere else if cs == 116 then LastFeed else if cs == 118 then ValueFeed else Final;
      FoldLengthSteps(at, c);
      FoldLengthActions(at, c);
    }
  }

  /** Every arc of every state, on every character, is a step of the grammar; the final states
      that are not the first have the arcs of their alternatives too. */
  lemma EveryArcIsStep(cs: nat, c: byte)
    requires 1 <= cs <= 123 && cs != 120
    ensures ArcIsStep(cs, c)
  {
    hide ArcIsStep;
    if cs <= 19 {
      HeadArcs(cs, c);
    } else if cs <= 34 || 43 <= cs <= 60 || 101 <= cs <= 111 {
      NameArcs(cs, c);
    } else if cs <= 36 || cs == 88 {
      CloseBlankArcs(cs, c);
    } else if cs == 37 || cs == 89 || cs == 95 || cs == 122 {
      CloseFoldArcs(cs, c);
    } else if cs <= 42 {
      CloseLetterArcs(cs - 37, c);
    } else if cs <= 62 || cs == 71 {
      ChunkedBlankArcs(cs, c);
    } else if cs == 63 || cs == 72 || cs == 80 || cs == 121 {
      ChunkedFoldArcs(cs, c);
    } else if cs <= 70 {
      ChunkedLetterArcs(cs - 63, c);
    } else if cs <= 79 {
      ChunkedLetterArcs(cs - 72, c);
    } else if cs <= 87 {
      ChunkedLetterArcs(cs - 80, c);
    } else if cs <= 94 {
      CloseLetterArcs(cs - 89, c);
    } else if cs <= 100 {
      CloseLetterArcs(cs - 95, c);
    } else {
      LengthBlankArcs(cs, c);
    }
  }

  // ---------- Runs of the grammar ----------

  /** One action block. */
  function Effect(s: Parser, b: Block, buf: bytes, p: nat): Parser
    requires p < |buf|
  {
    match b
    case StartField => s.(fieldStart := p)
    case WriteField => s.(fieldLen := p - s.fieldStart)
    case Mark => s.(mark := p)
    case WriteLength => s.(contentLen := NumberAt(s, buf, false))
    case WriteValue => WithHeader(s, buf, p)
    case TransChunked => s.(chunked := true)
    case WriteClose => s.(close := true)
    case SizeBlock => WithChunk(s, buf, p)
    case VersionBlock => s.(events := s.events + [Version(Slice(buf, s.mark, p - s.mark))])
    case StatusBlock => s.(status := NumberAt(s, buf, false), events := s.events + [Status(Slice(buf, s.mark, p - s.mark))])
    case ReasonBlock => s.(events := s.events + [Reason(Slice(buf, s.mark, p - s.mark))])
  }

  function When(on: bool, s: Parser, b: Block, buf: bytes, p: nat): Parser
    requires p < |buf|
  {
    if on then Effect(s, b, buf, p) else s
  }

  /** The blocks that are `on`, in the order of the grammar. */
  function Blocks(on: Block -> bool, s: Parser, buf: bytes, p: nat): Parser
    requires p < |buf|
  {
    var s1 := When(on(WriteClose), s, WriteClose, buf, p);
    var s2 := When(on(StartField), s1, StartField, buf, p);
    var s3 := When(on(WriteField), s2, WriteField, buf, p);
    var s4 := When(on(SizeBlock), s3, SizeBlock, buf, p);
    var s5 := When(on(VersionBlock), s4, VersionBlock, buf, p);
    var s6 := When(on(StatusBlock), s5, StatusBlock, buf, p);
    var s7 := When(on(ReasonBlock), s6, ReasonBlock, buf, p);
    var s8 := When(on(Mark), s7, Mark, buf, p);
    var s9 := When(on(WriteLength), s8, WriteLength, buf, p);
    var s10 := When(on(WriteValue), s9, WriteValue, buf, p);
    When(on(TransChunked), s10, TransChunked, buf, p)
  }

  /** The blocks a character runs. */
  function Ran(s: Parser, r: Reading, buf: bytes, p: nat): Parser
    requires p < |buf|
  {
    Blocks(b => Asked(r, buf[p], b), s, buf, p)
  }

  /** The grammar read from `p` on: the parser it leaves, but for its state, what is being read,
      and how far it got. */
  function GrammarRun(s: Parser, r: Reading, buf: bytes, p: nat): (Parser, Reading, nat)
    requires p <= |buf|
    decreases |buf| - p
  {
    if p == |buf| then (s, r, p)
    else
      var next := GrammarStep(r, buf[p]);
      if Stuck(next) then (s, next, p)
      else if next.place == Final then (WithBody(Ran(s, r, buf, p), buf, p), next, p + 1)
      else GrammarRun(Ran(s, r, buf, p), next, buf, p + 1)
  }

  lemma SameBlocks(f: Block -> bool, g: Block -> bool, s: Parser, buf: bytes, p: nat)
    requires p < |buf| && forall b :: f(b) == g(b)
    ensures Blocks(f, s, buf, p) == Blocks(g, s, buf, p)
  {
    hide When;
  }

  /** The blocks of an action, one after the other, are the action. */
  lemma ActionIsBlocks(s: Parser, r: Reading, m: Move, buf: bytes, p: nat)
    requires p < |buf| && m.target != 0 && SameActions(m, r, buf[p])
    ensures Do(s, m.action, buf, p) == Ran(s, r, buf, p)
  {
    hide Blocks, Do;
    HasIsDo(s, m.action, buf, p);
    SameBlocks(b => Has(m.action, b), b => Asked(r, buf[p], b), s, buf, p);
  }

  lemma HasIsDo(s: Parser, a: Action, buf: bytes, p: nat)
    requires p < |buf|
    ensures Do(s, a, buf, p) == Blocks(b => Has(a, b), s, buf, p)
  {
    hide Blocks, Do, Has, First, Second;
    var on := b => Has(a, b);
    if a == Skip {
      SkipHasNone(s, on, buf, p);
    } else if a == NameOnlyField {
      NameOnlyBlocks(s, on, buf, p) by { HasThree(); }
    } else if First(a) == Second(a) {
      OneBlock(on, First(a), s, buf, p) by { HasFirstAndSecond(a); }
      OneIsDo(s, a, buf, p);
    } else {
      TwoBlocks(on, First(a), Second(a), s, buf, p) by { HasFirstAndSecond(a); }
      TwoAreDo(s, a, buf, p);
    }
  }

  /** The blocks of an action that has one or two, in the order of the grammar. */
  function First(a: Action): Block {
    match a
    case MarkName | MarkBoth => StartField
    case EndName | EndNameMark => WriteField
    case MarkValue | EmptyField => Mark
    case Field | ChunkedField => WriteValue
    case LengthField => WriteLength
    case Chunked => TransChunked
    case ChunkSize => SizeBlock
    case HttpVersion => VersionBlock
    case StatusCode => StatusBlock
    case ReasonPhrase => ReasonBlock
    case _ => WriteClose
  }

  function Second(a: Action): Block {
    match a
    case MarkBoth | EndNameMark => Mark
    case EmptyField | LengthField => WriteValue
    case ChunkedField => TransChunked
    case CloseMarkName => StartField
    case _ => First(a)
  }

  predicate Before(b0: Block, b1: Block) {
    match b1
    case StartField => b0 == WriteClose
    case Mark => b0 == StartField || b0 == WriteField
    case WriteValue => b0 == Mark || b0 == WriteLength
    case TransChunked => b0 == WriteValue
    case _ => false
  }

  lemma HasFirstOrSecond(a: Action, b: Block)
    requires a != Skip && a != NameOnlyField
    ensures Has(a, b) <==> b == First(a) || b == Second(a)
  {
  }

  lemma HasFirstAndSecond(a: Action)
    requires a != Skip && a != NameOnlyField
    ensures forall b :: Has(a, b) <==> b == First(a) || b == Second(a)
    ensures First(a) == Second(a) || Before(First(a), Second(a))
  {
    hide Has;
    forall b ensures Has(a, b) <==> b == First(a) || b == Second(a) {
      HasFirstOrSecond(a, b);
    }
  }

  lemma HasThree()
    ensures forall b :: Has(NameOnlyField, b) <==> b == WriteField || b == Mark || b == WriteValue
  {
  }

  lemma OneBlock(on: Block -> bool, b0: Block, s: Parser, buf: bytes, p: nat)
    requires p < |buf| && forall b :: on(b) <==> b == b0
    ensures Blocks(on, s, buf, p) == Effect(s, b0, buf, p)
  {
    hide Effect;
  }

  lemma TwoBlocks(on: Block -> bool, b0: Block, b1: Block, s: Parser, buf: bytes, p: nat)
    requires p < |buf| && Before(b0, b1) && forall b :: on(b) <==> b == b0 || b == b1
    ensures Blocks(on, s, buf, p) == Effect(Effect(s, b0, buf, p), b1, buf, p)
  {
    hide Effect;
  }

  lemma SkipHasNone(s: Parser, on: Block -> bool, buf: bytes, p: nat)
    requires p < |buf| && forall b :: on(b) <==> Has(Skip, b)
    ensures Do(s, Skip, buf, p) == Blocks(on, s, buf, p)
  {
    hide Effect;
    assert forall b :: !on(b);
  }

  lemma NameOnlyBlocks(s: Parser, on: Block -> bool, buf: bytes, p: nat)
    requires p < |buf| && forall b :: on(b) <==> b == WriteField || b == Mark || b == WriteValue
    ensures Do(s, NameOnlyField, buf, p) == Blocks(on, s, buf, p)
  {
    hide Blocks, WithHeader;
    ThreeBlocks(s, on, buf, p);
  }

  lemma ThreeBlocks(s: Parser, on: Block -> bool, buf: bytes, p: nat)
    requires p < |buf| && forall b :: on(b) <==> b == WriteField || b == Mark || b == WriteValue
    ensures Blocks(on, s, buf, p) == Effect(Effect(Effect(s, WriteField, buf, p), Mark, buf, p), WriteValue, buf, p)
  {
    hide Effect;
  }

  lemma OneIsDo(s: Parser, a: Action, buf: bytes, p: nat)
    requires p < |buf| && a != Skip && First(a) == Second(a) && a != NameOnlyField
    ensures Do(s, a, buf, p) == Effect(s, First(a), buf, p)
  {
    hide NumberAt, Slice, WithHeader, WithChunk;
  }

  lemma TwoAreDo(s: Parser, a: Action, buf: bytes, p: nat)
    requires p < |buf| && First(a) != Second(a)
    ensures Do(s, a, buf, p) == Effect(Effect(s, First(a), buf, p), Second(a), buf, p)
  {
    hide NumberAt, Slice, WithHeader, WithChunk;
  }

  lemma FinalStates(cs: nat)
    requires 1 <= cs <= 123
    ensures cs >= 120 <==> Of(cs).place == Final
  {
  }

  lemma WhenIgnoresState(on: bool, s: Parser, cs: nat, b: Block, buf: bytes, p: nat)
    requires p < |buf|
    ensures When(on, s.(cs := cs), b, buf, p) == When(on, s, b, buf, p).(cs := cs)
  {
    hide Slice, Strtol;
  }

  lemma BlocksIgnoreState(on: Block -> bool, s: Parser, cs: nat, buf: bytes, p: nat)
    requires p < |buf|
    ensures Blocks(on, s.(cs := cs), buf, p) == Blocks(on, s, buf, p).(cs := cs)
  {
    forall on': bool, t: Parser, b: Block ensures When(on', t.(cs := cs), b, buf, p) == When(on', t, b, buf, p).(cs := cs) {
      WhenIgnoresState(on', t, cs, b, buf, p);
    }
    hide When;
  }

  lemma RanIgnoresState(s: Parser, cs: nat, r: Reading, buf: bytes, p: nat)
    requires p < |buf|
    ensures Ran(s.(cs := cs), r, buf, p) == Ran(s, r, buf, p).(cs := cs)
  {
    hide Blocks;
    BlocksIgnoreState(b => Asked(r, buf[p], b), s, cs, buf, p);
  }

  lemma {:induction false} GrammarIgnoresState(s: Parser, cs: nat, r: Reading, buf: bytes, p: nat)
    requires p <= |buf|
    ensures var g, h := GrammarRun(s, r, buf, p), GrammarRun(s.(cs := cs), r, buf, p);
      h == (g.0.(cs := cs), g.1, g.2)
    decreases |buf| - p
  {
    hide GrammarStep, Ran;
    if p < |buf| {
      RanIgnoresState(s, cs, r, buf, p);
      GrammarIgnoresState(Ran(s, r, buf, p), cs, GrammarStep(r, buf[p]), buf, p + 1);
    }
  }

  /** What a finished run is in: a state, and what of the grammar it stands for. */
  predicate Stands(cs: nat, r: Reading) {
    if cs == 0 then Stuck(r) else cs <= 123 && Of(cs) == r
  }

  /** Refinement: a run of the generated automaton, from any of its states over any bytes, is
      the run of the grammar from what that state stands for: the same callbacks and fields, the
      same place where it stops, and an error exactly where the grammar has no alternative. */
  lemma {:induction false} RunIsGrammarRun(s: Parser, buf: bytes, p: nat)
    requires p <= |buf| && 1 <= s.cs < 120
    ensures var run, g := Run(s, buf, p), GrammarRun(s, Of(s.cs), buf, p);
      run.0 == g.0.(cs := run.0.cs) && run.1 == g.2 && Stands(run.0.cs, g.1)
    decreases |buf| - p
  {
    hide Transition, Of, GrammarStep, Do, Ran, Asked, Stuck;
    if p < |buf| {
      var c := buf[p];
      EveryArcIsStep(s.cs, c);
      var m := Transition(s.cs, c);
      if m.target != 0 {
        ActionIsBlocks(s, Of(s.cs), m, buf, p);
        FinalStates(m.target);
        var t := Ran(s, Of(s.cs), buf, p);
        assert Advance(s, buf, p) == t.(cs := m.target);
        if m.target < 120 {
          RunIsGrammarRun(t.(cs := m.target), buf, p + 1);
          GrammarIgnoresState(t, m.target, Of(m.target), buf, p + 1);
        }
      }
    }
  }
}
