/** String literals of util/cJSON.c: escaping when printing, transcoding when parsing. */
module JsonString {
  import opened Bytes

  // ---------- Printing: print_string_ptr ----------

  function HexChar(d: nat): byte
    requires d < 16
  {
    if d < 10 then ('0' as int + d) as char else ('a' as int + d - 10) as char
  }

  /** sprintf("%04x") of a value below 0x10000. */
  function Hex4(v: nat): bytes
    requires v < 0x10000
  {
    [HexChar(v / 0x1000), HexChar(v / 0x100 % 16), HexChar(v / 16 % 16), HexChar(v % 16)]
  }

  predicate NeedsEscape(c: byte) {
    !(c as int > 31 && c != '"' && c != '\\')
  }

  /** What follows the backslash in the escape of `c`. */
  function EscapeTail(c: byte): bytes
    requires NeedsEscape(c)
  {
    match c
    case '\\' => "\\"
    case '"' => "\""
    case '\U{8}' => "b"
    case '\U{c}' => "f"
    case '\n' => "n"
    case '\r' => "r"
    case '\t' => "t"
    case _ => "u" + Hex4(c as int)
  }

  function EscapeByte(c: byte): bytes {
    if NeedsEscape(c) then "\\" + EscapeTail(c) else [c]
  }

  function Escape(s: bytes): bytes {
    if s == [] then [] else EscapeByte(s[0]) + Escape(s[1..])
  }

  /** The literal of `s`, with its quotes. */
  function Quoted(s: bytes): bytes {
    "\"" + Escape(s) + "\""
  }

  /** The bytes the sizing pass adds for one character. */
  function EscapedSize(c: byte): nat {
    1 + (if c in "\"\\\U{8}\U{c}\n\r\t" then 1 else if c as int < 32 then 5 else 0)
  }

  lemma EscapedSizeIsExact(c: byte)
    ensures |EscapeByte(c)| == EscapedSize(c)
  {
  }

  lemma {:induction false} EscapeAppend(s: bytes, t: bytes)
    ensures Escape(s + t) == Escape(s) + Escape(t)
  {
    if s == [] {
      assert s + t == t;
    } else {
      assert (s + t)[1..] == s[1..] + t;
      EscapeAppend(s[1..], t);
    }
  }

  lemma EscapePrefixStep(s: bytes, i: nat)
    requires i < |s|
    ensures Escape(s[..i + 1]) == Escape(s[..i]) + EscapeByte(s[i])
  {
    assert s[..i + 1] == s[..i] + [s[i]];
    EscapeAppend(s[..i], [s[i]]);
    assert [s[i]][1..] == [];
  }

  /** Copies `piece` into `out` at `at` (the `*ptr2++ =` runs of the printers). */
  method Put(out: array<byte>, at: nat, piece: bytes) returns (next: nat)
    requires at + |piece| <= out.Length
    modifies out
    ensures next == at + |piece|
    ensures out[..next] == old(out[..at]) + piece
  {
    next := at;
    ghost var before := out[..at];
    var i := 0;
    while i < |piece|
      invariant 0 <= i <= |piece| && next == at + i
      invariant out[..next] == before + piece[..i]
    {
      out[next] := piece[i];
      assert out[..next + 1] == out[..next] + [piece[i]];
      next, i := next + 1, i + 1;
    }
  }

  /** The sizing pass of print_string_ptr. */
  method EscapedLength(str: bytes) returns (len: nat)
    ensures len == |Escape(str)|
  {
    len := 0;
    var i := 0;
    while i < |str|
      invariant 0 <= i <= |str|
      invariant len == |Escape(str[..i])|
    {
      EscapePrefixStep(str, i);
      EscapedSizeIsExact(str[i]);
      len := len + 1;
      if str[i] in "\"\\\U{8}\U{c}\n\r\t" {
        len := len + 1;
      } else if str[i] as int < 32 {
        len := len + 5;
      }
      i := i + 1;
    }
    assert str[..|str|] == str;
  }

  method PutEscaped(out: array<byte>, at: nat, c: byte) returns (next: nat)
    requires at + |EscapeByte(c)| <= out.Length
    modifies out
    ensures next == at + |EscapeByte(c)|
    ensures out[..next] == old(out[..at]) + EscapeByte(c)
  {
    if !NeedsEscape(c) {
      next := Put(out, at, [c]);
    } else {
      next := Put(out, at, "\\");
      next := Put(out, next, EscapeTail(c));
    }
  }

  /** The filling pass of print_string_ptr: the sized buffer is filled to its last byte. */
  method FillQuoted(out: array<byte>, str: bytes)
    requires out.Length == |Escape(str)| + 3
    modifies out
    ensures out[..] == Quoted(str) + "\0"
  {
    hide EscapeByte;
    var p: nat := Put(out, 0, "\"");
    var i := 0;
    while i < |str|
      invariant 0 <= i <= |str|
      invariant p + |Escape(str[i..])| + 2 == out.Length
      invariant out[..p] == "\"" + Escape(str[..i])
    {
      ghost var done := Escape(str[..i]);
      EscapePrefixStep(str, i);
      assert str[i..][1..] == str[i + 1..];
      p := PutEscaped(out, p, str[i]);
      assert "\"" + done + EscapeByte(str[i]) == "\"" + (done + EscapeByte(str[i]));
      i := i + 1;
    }
    assert str[..|str|] == str;
    p := Put(out, p, "\"");
    p := Put(out, p, "\0");
    assert out[..] == out[..p];
  }

  /** print_string_ptr: the allocation is exactly what the second pass writes. */
  method PrintString(str: bytes) returns (out: array<byte>)
    requires NulFree(str)
    ensures fresh(out)
    ensures out[..] == Quoted(str) + "\0"
  {
    var len := EscapedLength(str);
    out := new byte[len + 3];
    FillQuoted(out, str);
  }

  // ---------- Parsing: parse_string ----------

  /** The outcome of parsing from a position: the value and the text after it, the position
      stored in the error pointer, or text the model gives no value. The last is text on which
      the C code reads past its terminator, a \u escape that does not start with a hex digit
      (sscanf then skips blanks, takes a sign or a 0x, or leaves its variable alone), and one
      with fewer than four digits whose four places do not end between two characters of the
      literal, so that the two passes no longer walk the same text. */
  datatype Parse<+T> = Parsed(value: T, rest: bytes) | Failed(at: bytes) | Undefined

  predicate FourHex(s: bytes) {
    |s| >= 4 && IsHex(s[0]) && IsHex(s[1]) && IsHex(s[2]) && IsHex(s[3])
  }

  function Hex4Value(s: bytes): (v: nat)
    requires FourHex(s)
    ensures v < 0x10000
  {
    HexValue(s[0]) * 0x1000 + HexValue(s[1]) * 0x100 + HexValue(s[2]) * 16 + HexValue(s[3])
  }

  /** How many hex digits `t` starts with, up to four. */
  function HexCount(t: bytes): (k: nat)
    ensures k <= 4 && k <= |t| && (forall i :: 0 <= i < k ==> IsHex(t[i])) && (k == 4 || k == |t| || !IsHex(t[k]))
  {
    if |t| < 1 || !IsHex(t[0]) then 0
    else if |t| < 2 || !IsHex(t[1]) then 1
    else if |t| < 3 || !IsHex(t[2]) then 2
    else if |t| < 4 || !IsHex(t[3]) then 3
    else 4
  }

  /** The number the first `k` digits make. */
  function HexNumber(t: bytes, k: nat): (v: nat)
    requires k <= 4 && k <= |t| && forall i :: 0 <= i < k ==> IsHex(t[i])
    ensures v < 0x10000
  {
    if k == 0 then 0
    else if k == 1 then HexValue(t[0])
    else if k == 2 then HexValue(t[0]) * 16 + HexValue(t[1])
    else if k == 3 then HexValue(t[0]) * 0x100 + HexValue(t[1]) * 16 + HexValue(t[2])
    else HexValue(t[0]) * 0x1000 + HexValue(t[1]) * 0x100 + HexValue(t[2]) * 16 + HexValue(t[3])
  }

  /** A character that is one on its own to both passes. */
  predicate Single(c: byte) {
    c != '"' && c != '\\' && c != '\0'
  }

  /** The four places after a 'u' that the decoding pass moves over: they start with a digit
      that is read as one, and end where a character of the literal ends. */
  predicate Scannable(t: bytes) {
    && |t| >= 4 && IsHex(t[0]) && !(t[0] == '0' && Lower(t[1]) == 'x')
    && if Single(t[1]) && Single(t[2]) then Single(t[3])
       else if Single(t[1]) then t[2] == '\\' && t[3] != '\0'
       else t[1] == '\\' && t[2] != '\0' && Single(t[3])
  }

  /** The number "%4x" reads: up to four hex digits, as many as there are. */
  function Scanned(t: bytes): (v: nat)
    ensures v < 0x10000
  {
    HexNumber(t, HexCount(t))
  }

  /** Four hex digits are always read, as the number they are. */
  lemma FourHexScans(t: bytes)
    requires FourHex(t)
    ensures Scannable(t) && Scanned(t) == Hex4Value(t)
  {
    assert HexCount(t) == 4;
    hide HexValue;
  }

  predicate HighSurrogate(u: nat) { 0xD800 <= u <= 0xDBFF }
  predicate LowSurrogate(u: nat) { 0xDC00 <= u <= 0xDFFF }

  /** The parser's combination of a pair: 0x10000 | ((hi & 0x3FF) << 10) | (lo & 0x3FF),
      where the low twenty bits are set from the pair and bit 16 is OR-ed in. */
  function PairCode(hi: nat, lo: nat): (uc: nat)
    requires HighSurrogate(hi) && LowSurrogate(lo)
    ensures 0x10000 <= uc < 0x110000
  {
    var low20 := hi % 0x400 * 0x400 + lo % 0x400;
    if low20 / 0x10000 % 2 == 1 then low20 else low20 + 0x10000
  }

  function Utf8Length(uc: nat): nat {
    if uc < 0x80 then 1 else if uc < 0x800 then 2 else if uc < 0x10000 then 3 else 4
  }

  /** ((uc | 0x80) & 0xBF) stored in a byte. */
  function Continuation(uc: nat): byte {
    (0x80 + uc % 64) as char
  }

  /** The table firstByteMark. */
  function FirstByteMark(len: nat): nat {
    match len
    case 2 => 0xC0
    case 3 => 0xE0
    case 4 => 0xF0
    case 5 => 0xF8
    case 6 => 0xFC
    case _ => 0x00
  }

  /** `k` bytes, the last ones carrying six bits each. */
  function Encoded(uc: nat, k: nat, mark: nat): (r: bytes)
    requires k > 0
    ensures |r| == k
  {
    if k == 1 then [((uc + mark) % 256) as char] else Encoded(uc / 64, k - 1, mark) + [Continuation(uc)]
  }

  function Utf8Bytes(uc: nat): (r: bytes)
    ensures |r| == Utf8Length(uc)
  {
    Encoded(uc, Utf8Length(uc), FirstByteMark(Utf8Length(uc)))
  }

  /** What one character of a literal contributes and how many bytes of text it takes. */
  datatype Decoded = Decoded(out: bytes, used: nat) | Overrun

  /** A \u escape, or a pair of them, on the text after the 'u'. */
  function Transcode(t: bytes): (r: Decoded)
    ensures r.Decoded? ==> (r.used == 4 || r.used == 10) && r.used <= |t| && |r.out| <= (if r.used == 4 then 3 else 4)
  {
    if !Scannable(t) then Overrun
    else
      var uc := Scanned(t);
      if LowSurrogate(uc) || uc == 0 then Decoded([], 4)
      else if HighSurrogate(uc) then
        if !(|t| >= 6 && t[4] == '\\' && t[5] == 'u') then Decoded([], 4)
        else if !Scannable(t[6..]) then Overrun
        else
          var uc2 := Scanned(t[6..]);
          if !LowSurrogate(uc2) then Decoded([], 10)
          else Decoded(Utf8Bytes(PairCode(uc, uc2)), 10)
      else Decoded(Utf8Bytes(uc), 4)
  }

  function SimpleEscape(c: byte): byte {
    match c
    case 'b' => '\U{8}'
    case 'f' => '\U{c}'
    case 'n' => '\n'
    case 'r' => '\r'
    case 't' => '\t'
    case _ => c
  }

  function Prepend(front: bytes, r: Parse<bytes>): Parse<bytes> {
    match r
    case Parsed(v, rest) => Parsed(front + v, rest)
    case _ => r
  }

  function DecodeOne(s: bytes): (r: Decoded)
    requires !AtEnd(s)
    ensures r.Decoded? ==> 0 < r.used <= |s|
  {
    if s[0] != '\\' then Decoded([s[0]], 1)
    else if AtEnd(s[1..]) then Overrun
    else if s[1] != 'u' then Decoded([SimpleEscape(s[1])], 2)
    else
      match Transcode(s[2..])
      case Overrun => Overrun
      case Decoded(out, used) => Decoded(out, used + 2)
  }

  /** The decoded text of a literal whose opening quote has been read. A literal that ends
      with the text instead of a quote is accepted, as the C code does. */
  function Unescape(s: bytes): (r: Parse<bytes>)
    ensures !r.Failed?
    ensures r.Parsed? ==> |r.rest| <= |s|
    decreases |s|
  {
    if AtEnd(s) then Parsed([], s)
    else if s[0] == '"' then Parsed([], s[1..])
    else
      match DecodeOne(s)
      case Overrun => Undefined
      case Decoded(out, used) => Prepend(out, Unescape(s[used..]))
  }

  lemma PrependTwice(a: bytes, b: bytes, r: Parse<bytes>)
    ensures Prepend(a, Prepend(b, r)) == Prepend(a + b, r)
  {
    if r.Parsed? {
      assert a + (b + r.value) == a + b + r.value;
    }
  }

  lemma PrependNothing(r: Parse<bytes>)
    ensures Prepend([], r) == r
  {
    if r.Parsed? {
      assert [] + r.value == r.value;
    }
  }

  function ParseStringSpec(s: bytes): (r: Parse<bytes>)
    ensures r.Parsed? ==> |r.rest| < |s|
  {
    if Head(s) != '"' then Failed(s) else Unescape(s[1..])
  }

  /** The sizing pass: one for each character, where a backslash and the byte after it are
      one character. None when a backslash is the last byte before the terminator. */
  function SizingPass(s: bytes): Option<nat>
    decreases |s|
  {
    if AtEnd(s) || s[0] == '"' then Some(0)
    else if s[0] == '\\' && AtEnd(s[1..]) then None
    else
      match SizingPass(if s[0] == '\\' then s[2..] else s[1..])
      case None => None
      case Some(n) => Some(n + 1)
  }

  lemma SizingSteps(s: bytes)
    ensures s != [] && Single(s[0]) ==>
      SizingPass(s) == match SizingPass(s[1..]) case None => None case Some(n) => Some(n + 1)
    ensures |s| >= 2 && s[0] == '\\' && s[1] != '\0' ==>
      SizingPass(s) == match SizingPass(s[2..]) case None => None case Some(n) => Some(n + 1)
  {
  }

  /** The sizing pass moves over the four places too, counting at least three. */
  lemma SizingSkipsPlaces(s: bytes)
    requires Scannable(s)
    ensures SizingPass(s).Some? <==> SizingPass(s[4..]).Some?
    ensures SizingPass(s).Some? ==> SizingPass(s).value >= SizingPass(s[4..]).value + 3
  {
    assert Single(s[0]);
    assert s[1..][0] == s[1] && s[1..][1] == s[2] && s[2..][0] == s[2] && s[2..][1] == s[3] && s[3..][0] == s[3];
    assert s[1..][1..] == s[2..] && s[1..][2..] == s[3..] && s[2..][1..] == s[3..] && s[2..][2..] == s[4..] && s[3..][1..] == s[4..];
    hide SizingPass;
    SizingSteps(s);
    SizingSteps(s[1..]);
    SizingSteps(s[2..]);
    SizingSteps(s[3..]);
  }

  lemma EscapeIsSized(t: bytes)
    requires Transcode(t).Decoded?
    ensures var used := Transcode(t).used;
      && (SizingPass(t).Some? <==> SizingPass(t[used..]).Some?)
      && (SizingPass(t).Some? ==> SizingPass(t).value >= SizingPass(t[used..]).value + 3)
      && (SizingPass(t).Some? && used == 10 ==> SizingPass(t).value >= SizingPass(t[10..]).value + 7)
  {
    hide Scanned, Utf8Bytes, PairCode, SizingPass, Scannable;
    SizingSkipsPlaces(t);
    if Transcode(t).used == 10 {
      assert t[4..][0] == '\\' && t[4..][1] == 'u' && t[4..][2..] == t[6..] && t[6..][4..] == t[10..];
      SizingSteps(t[4..]);
      SizingSkipsPlaces(t[6..]);
    }
  }

  /** The sizing pass counts a character at least as many times as it decodes to bytes. */
  lemma CharacterIsSized(s: bytes)
    requires !AtEnd(s) && s[0] != '"' && DecodeOne(s).Decoded?
    ensures SizingPass(s).Some? <==> SizingPass(s[DecodeOne(s).used..]).Some?
    ensures var d := DecodeOne(s); var rest := SizingPass(s[d.used..]);
      rest.Some? ==> |d.out| + rest.value <= SizingPass(s).value
  {
    hide Transcode, SimpleEscape;
    if s[0] == '\\' && s[1] == 'u' {
      EscapeIsSized(s[2..]);
      assert s[2..][Transcode(s[2..]).used..] == s[DecodeOne(s).used..];
    }
  }

  /** Both passes agree on where the literal's characters are, and the second never writes
      more bytes than the first counted. */
  lemma {:induction false} DecodedTextFits(s: bytes)
    ensures Unescape(s).Parsed? ==> SizingPass(s).Some? && |Unescape(s).value| <= SizingPass(s).value
    decreases |s|
  {
    if !AtEnd(s) && s[0] != '"' && DecodeOne(s).Decoded? {
      DecodedTextFits(s[DecodeOne(s).used..]);
      CharacterIsSized(s);
    }
  }

  /** A literal the sizing pass runs off the end of is one the decoding pass runs off too. */
  lemma {:induction false} SizingOverrunIsUndefined(s: bytes)
    ensures SizingPass(s).None? ==> Unescape(s).Undefined?
    decreases |s|
  {
    if !AtEnd(s) && s[0] != '"' && DecodeOne(s).Decoded? {
      SizingOverrunIsUndefined(s[DecodeOne(s).used..]);
      CharacterIsSized(s);
    }
  }

  /** Writes one code point backwards from `at + Utf8Length(code)`; the loop stands for the
      cases of the switch that fall through into each other. */
  method PutUtf8(out: array<byte>, at: nat, code: nat) returns (next: nat)
    requires at + Utf8Length(code) <= out.Length
    modifies out
    ensures next == at + Utf8Length(code)
    ensures out[..next] == old(out[..at]) + Utf8Bytes(code)
  {
    var len := Utf8Length(code);
    var uc: nat, k: nat := code, len;
    next := at + len;
    while k > 1
      invariant 1 <= k <= len
      invariant out[..at] == old(out[..at])
      invariant Utf8Bytes(code) == Encoded(uc, k, FirstByteMark(len)) + out[at + k..next]
    {
      k := k - 1;
      out[at + k] := Continuation(uc);
      assert out[at + k..next] == [Continuation(uc)] + out[at + k + 1..next];
      uc := uc / 64;
    }
    out[at] := ((uc + FirstByteMark(len)) % 256) as char;
    assert out[..next] == out[..at] + [out[at]] + out[at + 1..next];
  }

  /** One round of the decoding pass; `used` is zero where the C code would overrun. */
  method PutDecoded(out: array<byte>, at: nat, s: bytes) returns (next: nat, used: nat)
    requires !AtEnd(s)
    requires DecodeOne(s).Decoded? ==> at + |DecodeOne(s).out| <= out.Length
    requires at <= out.Length
    modifies out
    ensures used == match DecodeOne(s) case Overrun => 0 case Decoded(_, k) => k
    ensures used > 0 ==> next == at + |DecodeOne(s).out|
    ensures used > 0 ==> out[..next] == old(out[..at]) + DecodeOne(s).out
  {
    next, used := at, 0;
    if s[0] != '\\' {
      next := Put(out, at, [s[0]]);
      used := 1;
    } else if AtEnd(s[1..]) {
    } else if s[1] != 'u' {
      next := Put(out, at, [SimpleEscape(s[1])]);
      used := 2;
    } else {
      next, used := PutTranscoded(out, at, s[2..]);
      used := if used == 0 then 0 else used + 2;
    }
  }

  /** sscanf with "%4x". */
  method ScanDigits(t: bytes) returns (v: nat)
    ensures v == Scanned(t)
  {
    hide HexValue;
    var k: nat := 0;
    v := 0;
    while k < 4 && k < |t| && IsHex(t[k])
      invariant k <= HexCount(t)
      invariant v == HexNumber(t, k)
    {
      v := v * 16 + HexValue(t[k]);
      k := k + 1;
    }
  }

  /** The 'u' case, from the first hex digit on. */
  method PutTranscoded(out: array<byte>, at: nat, t: bytes) returns (next: nat, used: nat)
    requires Transcode(t).Decoded? ==> at + |Transcode(t).out| <= out.Length
    requires at <= out.Length
    modifies out
    ensures used == match Transcode(t) case Overrun => 0 case Decoded(_, k) => k
    ensures used > 0 ==> next == at + |Transcode(t).out|
    ensures used > 0 ==> out[..next] == old(out[..at]) + Transcode(t).out
  {
    next, used := at, 0;
    if !Scannable(t) {
      return;
    }
    var uc := ScanDigits(t);
    if LowSurrogate(uc) || uc == 0 {
      used := 4;
      return;
    }
    used := 4;
    if HighSurrogate(uc) {
      if !(|t| >= 6 && t[4] == '\\' && t[5] == 'u') {
        return;
      }
      if !Scannable(t[6..]) {
        used := 0;
        return;
      }
      var uc2 := ScanDigits(t[6..]);
      used := 10;
      if !LowSurrogate(uc2) {
        return;
      }
      uc := PairCode(uc, uc2);
    }
    next := PutUtf8(out, at, uc);
  }

  /** The sizing pass of parse_string over the literal whose text starts at `start`. */
  method SizeLiteral(text: bytes, start: nat) returns (r: Option<nat>)
    requires start <= |text|
    ensures r == SizingPass(text[start..])
  {
    var len: nat, p := 0, start;
    while p < |text| && text[p] != '"' && text[p] != '\0'
      invariant start <= p <= |text|
      invariant SizingPass(text[start..]) == match SizingPass(text[p..]) case None => None case Some(n) => Some(n + len)
      decreases |text| - p
    {
      assert text[p..][1..] == text[p + 1..];
      len := len + 1;
      if text[p] == '\\' {
        if p + 1 == |text| || text[p + 1] == '\0' {
          return None;
        }
        assert text[p..][2..] == text[p + 2..];
        p := p + 2;
      } else {
        p := p + 1;
      }
    }
    r := Some(len);
  }

  /** The decoding pass of parse_string: it stays within a buffer of the counted size. */
  method DecodeLiteral(out: array<byte>, text: bytes, start: nat) returns (r: Parse<bytes>, p: nat)
    requires start <= |text|
    requires SizingPass(text[start..]).Some? && out.Length == SizingPass(text[start..]).value + 1
    modifies out
    ensures r == Unescape(text[start..])
    ensures start <= p <= |text| && (r.Parsed? ==> r.rest == text[p..])
  {
    hide DecodeOne;
    var n: nat := 0;
    p := start;
    PrependNothing(Unescape(text[start..]));
    assert out[..0] == [];
    while p < |text| && text[p] != '"' && text[p] != '\0'
      invariant start <= p <= |text|
      invariant SizingPass(text[p..]).Some? && n + SizingPass(text[p..]).value < out.Length
      invariant Unescape(text[start..]) == Prepend(out[..n], Unescape(text[p..]))
      decreases |text| - p
    {
      var s := text[p..];
      ghost var before := out[..n];
      if DecodeOne(s).Decoded? {
        CharacterIsSized(s);
        PrependTwice(before, DecodeOne(s).out, Unescape(s[DecodeOne(s).used..]));
      }
      var used;
      n, used := PutDecoded(out, n, s);
      if used == 0 {
        r := Undefined;
        return;
      }
      assert s[used..] == text[p + used..];
      p := p + used;
    }
    r, p := FinishLiteral(out, n, text, p);
  }

  /** The end of parse_string: the NUL, and the closing quote if there is one. */
  method FinishLiteral(out: array<byte>, n: nat, text: bytes, at: nat) returns (r: Parse<bytes>, p: nat)
    requires n < out.Length && at <= |text| && (AtEnd(text[at..]) || text[at] == '"')
    modifies out
    ensures r == Prepend(old(out[..n]), Unescape(text[at..]))
    ensures at <= p <= |text| && r.Parsed? && r.rest == text[p..]
  {
    ghost var decoded := out[..n];
    assert decoded + [] == decoded;
    p := at;
    out[n] := '\0';
    assert out[..n] == decoded;
    if p < |text| && text[p] == '"' {
      assert text[p..][1..] == text[p + 1..];
      p := p + 1;
    }
    r := Parsed(out[..n], text[p..]);
  }

  /** parse_string on the text from `start`: a sizing pass, an allocation of that size, and a
      decoding pass whose every write is in bounds. */
  method ParseString(text: bytes, start: nat) returns (r: Parse<bytes>, p: nat)
    requires start <= |text|
    ensures r == ParseStringSpec(text[start..])
    ensures r.Parsed? ==> start < p <= |text| && r.rest == text[p..]
  {
    p := start;
    if Head(text[start..]) != '"' {
      r := Failed(text[start..]);
      return;
    }
    assert text[start..][1..] == text[start + 1..];
    SizingOverrunIsUndefined(text[start + 1..]);
    var len := SizeLiteral(text, start + 1);
    if len.None? {
      r := Undefined;
      return;
    }
    var out := new byte[len.value + 1];
    r, p := DecodeLiteral(out, text, start + 1);
  }

  // ---------- Printing and parsing undo each other ----------

  lemma Hex4ReadsBack(v: nat, rest: bytes)
    requires v < 256
    ensures FourHex(Hex4(v) + rest) && Hex4Value(Hex4(v) + rest) == v
  {
    assert v / 0x1000 == 0 && v / 0x100 % 16 == 0;
  }

  /** A lone escape that is no surrogate decodes by its number. */
  lemma EscapeDecodes(u: bytes, tail: bytes)
    requires |u| == 4 && Scannable(u)
    requires Scanned(u) != 0 && !HighSurrogate(Scanned(u)) && !LowSurrogate(Scanned(u))
    ensures Unescape("\\u" + u + tail) == Prepend(Utf8Bytes(Scanned(u)), Unescape(tail))
  {
    var s := "\\u" + u + tail;
    assert s[2..] == u + tail && s[6..] == tail;
    assert s[2..][..4] == u;
    ScanIgnoresTail(s[2..], u);
    hide Scannable, Scanned, Utf8Bytes;
    assert DecodeOne(s) == Decoded(Utf8Bytes(Scanned(u)), 6);
    hide DecodeOne;
  }

  lemma ScanIgnoresTail(t: bytes, u: bytes)
    requires |t| >= 4 && t[..4] == u
    ensures Scanned(t) == Scanned(u) && Scannable(t) == Scannable(u)
  {
    assert u[0] == t[0] && u[1] == t[1] && u[2] == t[2] && u[3] == t[3];
    hide HexValue, IsHex;
  }

  lemma Hex4Scans(v: nat)
    requires 0 < v < 256
    ensures |Hex4(v)| == 4 && Scannable(Hex4(v)) && Scanned(Hex4(v)) == v
  {
    Hex4ReadsBack(v, []);
    assert Hex4(v) + [] == Hex4(v);
    hide Hex4, Scannable, Scanned, Hex4Value;
    FourHexScans(Hex4(v));
  }

  lemma AsciiIsItself(c: byte)
    requires c as int < 0x80
    ensures Utf8Bytes(c as int) == [c]
  {
  }

  lemma HexEscapeReadsBack(c: byte, tail: bytes)
    requires c != '\0' && c as int < 32
    ensures Unescape("\\u" + Hex4(c as int) + tail) == Prepend([c], Unescape(tail))
  {
    Hex4Scans(c as int);
    AsciiIsItself(c);
    hide Hex4, Scannable, Scanned, Utf8Bytes, Unescape;
    EscapeDecodes(Hex4(c as int), tail);
  }

  lemma SimpleEscapeReadsBack(c: byte)
    requires NeedsEscape(c) && |EscapeTail(c)| == 1
    ensures EscapeTail(c)[0] != 'u' && SimpleEscape(EscapeTail(c)[0]) == c
  {
  }

  lemma EscapedByteReadsBack(c: byte, tail: bytes)
    requires c != '\0'
    ensures Unescape(EscapeByte(c) + tail) == Prepend([c], Unescape(tail))
  {
    hide Hex4, Transcode, SimpleEscape;
    var s := EscapeByte(c) + tail;
    if !NeedsEscape(c) {
      assert s[1..] == tail;
    } else if |EscapeTail(c)| == 1 {
      SimpleEscapeReadsBack(c);
      hide EscapeTail;
      assert DecodeOne(s) == Decoded([c], 2);
      assert s[2..] == tail;
    } else {
      assert s == "\\u" + Hex4(c as int) + tail;
      HexEscapeReadsBack(c, tail);
    }
  }

  /** Parsing the printed literal of any NUL-free text gives that text back. */
  lemma {:induction false} StringRoundTrip(str: bytes, post: bytes)
    requires NulFree(str)
    ensures ParseStringSpec(Quoted(str) + post) == Parsed(str, post)
  {
    assert (Quoted(str) + post)[1..] == Escape(str) + ("\"" + post);
    EscapedTextReadsBack(str, "\"" + post);
    assert ("\"" + post)[1..] == post;
    assert str + [] == str;
  }

  lemma {:induction false} EscapedTextReadsBack(str: bytes, tail: bytes)
    requires NulFree(str)
    ensures Unescape(Escape(str) + tail) == Prepend(str, Unescape(tail))
  {
    if str == [] {
      assert Escape(str) + tail == tail;
      PrependNothing(Unescape(tail));
    } else {
      assert Escape(str) + tail == EscapeByte(str[0]) + (Escape(str[1..]) + tail);
      EscapedByteReadsBack(str[0], Escape(str[1..]) + tail);
      EscapedTextReadsBack(str[1..], tail);
      PrependTwice([str[0]], str[1..], Unescape(tail));
      assert [str[0]] + str[1..] == str;
    }
  }

  // ---------- \u escapes against RFC 3629, section 3 ----------

  predicate IsContinuation(c: byte) { 0x80 <= c as int <= 0xBF }

  /** The code point an octet sequence encodes under section 3 of RFC 3629: shortest form
      only, no surrogates, nothing above U+10FFFF. */
  function Utf8CodePoint(b: bytes): Option<nat> {
    var v :=
      if |b| == 1 && b[0] as int <= 0x7F then b[0] as int
      else if |b| == 2 && 0xC0 <= b[0] as int <= 0xDF && IsContinuation(b[1]) then
        (b[0] as int - 0xC0) * 0x40 + (b[1] as int - 0x80)
      else if |b| == 3 && 0xE0 <= b[0] as int <= 0xEF && IsContinuation(b[1]) && IsContinuation(b[2]) then
        (b[0] as int - 0xE0) * 0x1000 + (b[1] as int - 0x80) * 0x40 + (b[2] as int - 0x80)
      else if |b| == 4 && 0xF0 <= b[0] as int <= 0xF7 && IsContinuation(b[1]) && IsContinuation(b[2]) && IsContinuation(b[3]) then
        (b[0] as int - 0xF0) * 0x40000 + (b[1] as int - 0x80) * 0x1000 + (b[2] as int - 0x80) * 0x40 + (b[3] as int - 0x80)
      else -1;
    if v < 0 || v >= 0x110000 || 0xD800 <= v <= 0xDFFF || Utf8Length(v) != |b| then None else Some(v)
  }

  lemma TwoByteForm(uc: nat)
    requires 0x80 <= uc < 0x800
    ensures Utf8Bytes(uc) == [(uc / 64 + 0xC0) as char, Continuation(uc)]
  {
    assert Encoded(uc / 64, 1, 0xC0) == [(uc / 64 + 0xC0) as char];
  }

  lemma ThreeByteForm(uc: nat)
    requires 0x800 <= uc < 0x10000
    ensures Utf8Bytes(uc) == [(uc / 64 / 64 + 0xE0) as char, Continuation(uc / 64), Continuation(uc)]
  {
    assert Encoded(uc / 64 / 64, 1, 0xE0) == [(uc / 64 / 64 + 0xE0) as char];
    assert Encoded(uc / 64, 2, 0xE0) == Encoded(uc / 64 / 64, 1, 0xE0) + [Continuation(uc / 64)];
  }

  lemma FourByteForm(uc: nat)
    requires 0x10000 <= uc < 0x110000
    ensures Utf8Bytes(uc)
         == [(uc / 64 / 64 / 64 + 0xF0) as char, Continuation(uc / 64 / 64), Continuation(uc / 64), Continuation(uc)]
  {
    var b := uc / 64;
    assert Encoded(b / 64 / 64, 1, 0xF0) == [(b / 64 / 64 + 0xF0) as char];
    assert Encoded(b / 64, 2, 0xF0) == Encoded(b / 64 / 64, 1, 0xF0) + [Continuation(b / 64)];
    assert Encoded(b, 3, 0xF0) == Encoded(b / 64, 2, 0xF0) + [Continuation(b)];
  }

  lemma ThreeBytesEncode(uc: nat)
    requires 0x800 <= uc < 0x10000 && !(0xD800 <= uc <= 0xDFFF)
    ensures Utf8CodePoint(Utf8Bytes(uc)) == Some(uc)
  {
    var b, c := uc / 64, uc / 64 / 64;
    ThreeByteForm(uc);
    assert uc == c * 0x1000 + b % 64 * 0x40 + uc % 64;
    hide Utf8Bytes;
  }

  lemma FourBytesEncode(uc: nat)
    requires 0x10000 <= uc < 0x110000
    ensures Utf8CodePoint(Utf8Bytes(uc)) == Some(uc)
  {
    var b, c := uc / 64, uc / 64 / 64;
    FourByteForm(uc);
    assert uc == c / 64 * 0x40000 + c % 64 * 0x1000 + b % 64 * 0x40 + uc % 64;
    hide Utf8Bytes;
  }

  lemma TwoBytesEncode(uc: nat)
    requires 0x80 <= uc < 0x800
    ensures Utf8CodePoint(Utf8Bytes(uc)) == Some(uc)
  {
    TwoByteForm(uc);
    hide Utf8Bytes;
  }

  lemma Utf8BytesEncode(uc: nat)
    requires uc < 0x110000 && !(0xD800 <= uc <= 0xDFFF)
    ensures Utf8CodePoint(Utf8Bytes(uc)) == Some(uc)
  {
    if uc < 0x80 {
      assert Utf8Bytes(uc) == [uc as char];
    } else {
      hide Utf8Bytes, Utf8CodePoint;
      if uc < 0x800 {
        TwoBytesEncode(uc);
      } else if uc < 0x10000 {
        ThreeBytesEncode(uc);
      } else {
        FourBytesEncode(uc);
      }
    }
  }

  /** The code point a surrogate pair stands for (section 7 of RFC 8259). */
  function PairCodePoint(hi: nat, lo: nat): nat
    requires HighSurrogate(hi) && LowSurrogate(lo)
  {
    0x10000 + (hi - 0xD800) * 0x400 + (lo - 0xDC00)
  }

  /** A lone escape becomes the UTF-8 form of the number its digits are, four or fewer. */
  lemma SingleEscapeIsUtf8(u: bytes, tail: bytes)
    requires |u| == 4 && Scannable(u)
    requires Scanned(u) != 0 && !HighSurrogate(Scanned(u)) && !LowSurrogate(Scanned(u))
    ensures Utf8CodePoint(Utf8Bytes(Scanned(u))) == Some(Scanned(u))
    ensures Unescape("\\u" + u + tail) == Prepend(Utf8Bytes(Scanned(u)), Unescape(tail))
    ensures FourHex(u) ==> Scanned(u) == Hex4Value(u)
  {
    if FourHex(u) {
      FourHexScans(u);
    }
    Utf8BytesEncode(Scanned(u));
    EscapeDecodes(u, tail);
  }

  lemma PairText(h: bytes, l: bytes, tail: bytes)
    requires |h| == 4 && FourHex(h) && |l| == 4 && FourHex(l)
    ensures var s := "\\u" + h + "\\u" + l + tail;
      && |s| >= 12 && s[0] == '\\' && s[1] == 'u' && s[2..][4] == '\\' && s[2..][5] == 'u' && s[12..] == tail
      && Scannable(s[2..]) && Scanned(s[2..]) == Hex4Value(h)
      && Scannable(s[2..][6..]) && Scanned(s[2..][6..]) == Hex4Value(l)
  {
    var s := "\\u" + h + "\\u" + l + tail;
    assert s[2..][..4] == h && s[2..][6..] == l + tail;
    FourHexScans(s[2..]);
    FourHexScans(s[2..][6..]);
  }

  lemma PairDecodes(h: bytes, l: bytes, tail: bytes)
    requires |h| == 4 && FourHex(h) && HighSurrogate(Hex4Value(h))
    requires |l| == 4 && FourHex(l) && LowSurrogate(Hex4Value(l))
    ensures Unescape("\\u" + h + "\\u" + l + tail)
         == Prepend(Utf8Bytes(PairCode(Hex4Value(h), Hex4Value(l))), Unescape(tail))
  {
    PairText(h, l, tail);
    hide Scannable, Scanned, Hex4Value, PairCode, Utf8Bytes, FourHex;
    var s := "\\u" + h + "\\u" + l + tail;
    assert DecodeOne(s) == Decoded(Utf8Bytes(PairCode(Hex4Value(h), Hex4Value(l))), 12);
    hide DecodeOne;
  }

  /** A pair becomes the UTF-8 form of its code point exactly when bit 6 of the high
      surrogate is clear: the parser ORs 0x10000 where it should add it. */
  lemma PairEscapeIsUtf8(h: bytes, l: bytes, tail: bytes)
    requires |h| == 4 && FourHex(h) && HighSurrogate(Hex4Value(h))
    requires |l| == 4 && FourHex(l) && LowSurrogate(Hex4Value(l))
    ensures var enc := Utf8Bytes(PairCode(Hex4Value(h), Hex4Value(l)));
      && Unescape("\\u" + h + "\\u" + l + tail) == Prepend(enc, Unescape(tail))
      && (Utf8CodePoint(enc) == Some(PairCodePoint(Hex4Value(h), Hex4Value(l))) <==> Hex4Value(h) / 64 % 2 == 0)
  {
    PairDecodes(h, l, tail);
    PairCodeCorrect(Hex4Value(h), Hex4Value(l));
    Utf8BytesEncode(PairCode(Hex4Value(h), Hex4Value(l)));
  }

  lemma D840DC00()
    ensures FourHex("D840") && Hex4Value("D840") == 0xD840 && FourHex("DC00") && Hex4Value("DC00") == 0xDC00
    ensures PairCode(0xD840, 0xDC00) == 0x10000 && PairCodePoint(0xD840, 0xDC00) == 0x20000
  {
  }

  /** U+20000 is written D840 DC00, whose high surrogate has bit 6 set: it comes out as
      U+10000. */
  lemma PairEscapeGoesWrong(tail: bytes)
    ensures Utf8CodePoint(Utf8Bytes(0x10000)) == Some(0x10000) && PairCodePoint(0xD840, 0xDC00) == 0x20000
    ensures Unescape("\\u" + "D840" + "\\u" + "DC00" + tail) == Prepend(Utf8Bytes(0x10000), Unescape(tail))
  {
    D840DC00();
    hide FourHex, Hex4Value, PairCode, Unescape;
    PairDecodes("D840", "DC00", tail);
    Utf8BytesEncode(0x10000);
  }

  lemma PairCodeCorrect(hi: nat, lo: nat)
    requires HighSurrogate(hi) && LowSurrogate(lo)
    ensures PairCode(hi, lo) == PairCodePoint(hi, lo) <==> hi / 64 % 2 == 0
  {
    assert hi % 0x400 == hi - 0xD800 && lo % 0x400 == lo - 0xDC00;
    var h := hi - 0xD800;
    assert (h * 0x400 + (lo - 0xDC00)) / 0x10000 == h / 64;
    assert hi / 64 == h / 64 + 0x360;
  }
}
