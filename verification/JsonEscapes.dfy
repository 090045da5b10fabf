/** What every escape of a string literal decodes to, by the way it is spelled, and the decoding
    of whole literals (section 7 of RFC 8259). */
module JsonEscapes {
  import opened Bytes
  import opened JsonString

  // ---------- Spelling numbers in hex digits ----------

  /** The first `k` characters of `u` are the number `v` in `k` hex digits. */
  predicate Spells(u: bytes, k: nat, v: nat) {
    |u| >= k
    && if k == 1 then v < 0x10 && HexDigit(u[0], v)
       else if k == 2 then v < 0x100 && HexDigit(u[0], v / 0x10) && HexDigit(u[1], v % 16)
       else if k == 3 then v < 0x1000 && HexDigit(u[0], v / 0x100) && HexDigit(u[1], v / 0x10 % 16) && HexDigit(u[2], v % 16)
       else
         k == 4 && v < 0x1_0000 && HexDigit(u[0], v / 0x1000) && HexDigit(u[1], v / 0x100 % 16)
         && HexDigit(u[2], v / 0x10 % 16) && HexDigit(u[3], v % 16)
  }

  /** The four places after a 'u' start with `v` in `k` hex digits, and no digit follows. */
  predicate Places(u: bytes, k: nat, v: nat) {
    |u| == 4 && Spells(u, k, v) && (k < 4 ==> Scannable(u) && forall d: nat :: d < 16 ==> !HexDigit(u[k], d))
  }

  lemma PlacesCount(u: bytes, k: nat, v: nat)
    requires Places(u, k, v)
    ensures HexCount(u) == k && 1 <= k <= 4
  {
    hide HexDigit, HexValue, Scannable;
    if k < 4 {
      if IsHex(u[k]) { HexIsDigit(u[k]); }
    }
    DigitIsHex(u[0], if k == 1 then v else if k == 2 then v / 0x10 else if k == 3 then v / 0x100 else v / 0x1000);
    if k >= 2 { DigitIsHex(u[1], if k == 2 then v % 16 else if k == 3 then v / 0x10 % 16 else v / 0x100 % 16); }
    if k >= 3 { DigitIsHex(u[2], if k == 3 then v % 16 else v / 0x10 % 16); }
    if k >= 4 { DigitIsHex(u[3], v % 16); }
    hide IsHex;
  }

  lemma InDigits(v: nat)
    ensures v < 0x100 ==> v == v / 0x10 * 16 + v % 16
    ensures v < 0x1000 ==> v == v / 0x100 * 0x100 + v / 0x10 % 16 * 16 + v % 16
    ensures v < 0x1_0000 ==> v == v / 0x1000 * 0x1000 + v / 0x100 % 16 * 0x100 + v / 0x10 % 16 * 16 + v % 16
  {
    var a, b, c := v / 0x10, v / 0x100, v / 0x1000;
    assert v == a * 16 + v % 16 && a == b * 16 + a % 16 && b == c * 16 + b % 16;
  }

  /** The parser reads the number that is spelled. */
  lemma PlacesAreRead(u: bytes, k: nat, v: nat)
    requires Places(u, k, v)
    ensures Scannable(u) && Scanned(u) == v
    ensures k == 4 ==> FourHex(u) && Hex4Value(u) == v
  {
    PlacesCount(u, k, v);
    InDigits(v);
    if k == 4 {
      FourAreRead(u, v);
      hide HexValue, IsHex, HexDigit, Scanned, Scannable;
      FourHexScans(u);
    } else {
      ShortIsRead(u, k, v);
    }
  }

  lemma FourAreRead(u: bytes, v: nat)
    requires |u| == 4 && Spells(u, 4, v)
    ensures FourHex(u) && Hex4Value(u) == v
  {
    DigitIsHex(u[0], v / 0x1000);
    DigitIsHex(u[1], v / 0x100 % 16);
    DigitIsHex(u[2], v / 0x10 % 16);
    DigitIsHex(u[3], v % 16);
    InDigits(v);
    hide HexValue, IsHex, HexDigit;
  }

  lemma ShortIsRead(u: bytes, k: nat, v: nat)
    requires Places(u, k, v) && k < 4 && HexCount(u) == k && 1 <= k
    ensures Scanned(u) == v
  {
    InDigits(v);
    hide HexValue, HexDigit, Scannable, IsHex, HexCount;
    if k == 1 {
      DigitIsHex(u[0], v);
    } else if k == 2 {
      DigitIsHex(u[0], v / 0x10);
      DigitIsHex(u[1], v % 16);
    } else {
      DigitIsHex(u[0], v / 0x100);
      DigitIsHex(u[1], v / 0x10 % 16);
      DigitIsHex(u[2], v % 16);
    }
  }

  // ---------- One escape ----------

  predicate Surrogate(v: nat) {
    0xD800 <= v <= 0xDFFF
  }

  /** A number that is spelled after \u, in one to four digits of either case, becomes the
      UTF-8 encoding of that code point. */
  lemma CodeDecodes(u: bytes, k: nat, v: nat, tail: bytes) returns (b: bytes)
    requires Places(u, k, v) && v != 0 && !Surrogate(v)
    ensures Unescape("\\u" + u + tail) == Prepend(b, Unescape(tail)) && Utf8CodePoint(b) == Some(v)
  {
    PlacesAreRead(u, k, v);
    hide Places, Scanned, Scannable, Unescape;
    SingleEscapeIsUtf8(u, tail);
    b := Utf8Bytes(v);
  }

  /** Zero and the second half of a pair on its own decode to nothing. */
  lemma StrayDecodes(u: bytes, k: nat, v: nat, tail: bytes)
    requires Places(u, k, v) && (v == 0 || 0xDC00 <= v <= 0xDFFF)
    ensures Unescape("\\u" + u + tail) == Unescape(tail)
  {
    PlacesAreRead(u, k, v);
    EscapeText(u, tail);
    hide Places, Scanned, Scannable, Utf8Bytes;
    var s := "\\u" + u + tail;
    assert DecodeOne(s) == Decoded([], 6);
    hide DecodeOne;
    PrependNothing(Unescape(tail));
  }

  lemma EscapeText(u: bytes, tail: bytes)
    requires |u| == 4 && Scannable(u)
    ensures var s := "\\u" + u + tail;
      && |s| >= 6 && s[0] == '\\' && s[1] == 'u' && s[2..] == u + tail && s[6..] == tail && s[2..][4..] == tail
      && Scannable(s[2..]) && Scanned(s[2..]) == Scanned(u)
  {
    var s := "\\u" + u + tail;
    assert s[2..] == u + tail && s[6..] == tail;
    assert s[2..][..4] == u;
    ScanIgnoresTail(s[2..], u);
  }

  /** So does the first half without a second escape after it. */
  lemma HalfDecodes(u: bytes, v: nat, tail: bytes)
    requires Places(u, 4, v) && 0xD800 <= v <= 0xDBFF && !(|tail| >= 2 && tail[0] == '\\' && tail[1] == 'u')
    ensures Unescape("\\u" + u + tail) == Unescape(tail)
  {
    PlacesAreRead(u, 4, v);
    EscapeText(u, tail);
    hide Places, Scanned, Scannable, Utf8Bytes;
    var s := "\\u" + u + tail;
    assert DecodeOne(s) == Decoded([], 6);
    hide DecodeOne;
    PrependNothing(Unescape(tail));
  }

  /** The code point of a pair of surrogates (section 7 of RFC 8259). */
  function PairOf(hi: nat, lo: nat): int {
    0x10000 + (hi - 0xD800) * 0x400 + (lo - 0xDC00)
  }

  /** A pair that is spelled in two escapes becomes the UTF-8 encoding of one code point, which
      is the pair's own if and only if bit 6 of the first half is clear. */
  lemma PairDecodesIff(h: bytes, hi: nat, l: bytes, lo: nat, tail: bytes) returns (b: bytes, v: nat)
    requires Places(h, 4, hi) && 0xD800 <= hi <= 0xDBFF && Places(l, 4, lo) && 0xDC00 <= lo <= 0xDFFF
    ensures Unescape("\\u" + h + "\\u" + l + tail) == Prepend(b, Unescape(tail)) && Utf8CodePoint(b) == Some(v)
    ensures v == PairOf(hi, lo) <==> hi / 0x40 % 2 == 0
  {
    PlacesAreRead(h, 4, hi);
    PlacesAreRead(l, 4, lo);
    hide Hex4Value, FourHex, Unescape, Places, Scannable, Scanned, PairCode, Utf8Bytes, Utf8CodePoint;
    PairEscapeIsUtf8(h, l, tail);
    v := PairCode(hi, lo);
    PairIsScalar(hi, lo);
    Utf8BytesEncode(v);
    b := Utf8Bytes(v);
    PairCodeCorrect(hi, lo);
  }

  lemma PairIsScalar(hi: nat, lo: nat)
    requires HighSurrogate(hi) && LowSurrogate(lo)
    ensures 0x10000 <= PairCode(hi, lo) < 0x110000 && PairCodePoint(hi, lo) == PairOf(hi, lo)
  {
  }

  /** A first half followed by an escape that is no second half: both decode to nothing. */
  lemma MismatchDecodes(h: bytes, hi: nat, l: bytes, k: nat, lo: nat, tail: bytes)
    requires Places(h, 4, hi) && 0xD800 <= hi <= 0xDBFF && Places(l, k, lo) && !(0xDC00 <= lo <= 0xDFFF)
    ensures Unescape("\\u" + h + "\\u" + l + tail) == Unescape(tail)
  {
    PlacesAreRead(h, 4, hi);
    PlacesAreRead(l, k, lo);
    var rest := "\\u" + l + tail;
    assert "\\u" + h + "\\u" + l + tail == "\\u" + h + rest;
    EscapeText(h, rest);
    EscapeText(l, tail);
    var s := "\\u" + h + rest;
    assert s[2..][6..] == rest[2..] && s[12..] == tail && s[2..][4] == '\\' && s[2..][5] == 'u';
    hide Places, Scanned, Scannable, Utf8Bytes;
    assert DecodeOne(s) == Decoded([], 12);
    hide DecodeOne;
    PrependNothing(Unescape(tail));
  }

  /** The character that a backslash and `c` stand for. */
  function Named(c: byte): byte {
    if c == 'b' then 8 as char
    else if c == 't' then 9 as char
    else if c == 'n' then 10 as char
    else if c == 'f' then 12 as char
    else if c == 'r' then 13 as char
    else c
  }

  /** Two-character escapes: the five named ones, and any other character for itself. */
  lemma NamedDecodes(c: byte, tail: bytes)
    requires c != 'u' && c != '\0'
    ensures Unescape("\\" + [c] + tail) == Prepend([Named(c)], Unescape(tail))
  {
    var s := "\\" + [c] + tail;
    assert s[2..] == tail && s[1..][0] == c;
    assert DecodeOne(s) == Decoded([Named(c)], 2);
    hide DecodeOne;
  }

  // ---------- Whole literals ----------

  /** A character of a literal as it is written. */
  datatype Written =
    | Plain(c: byte)
    | Escape(c: byte)                                  // backslash and c
    | Code(u: bytes, v: nat)                           // \u and four digits
    | Pair(h: bytes, hi: nat, l: bytes, lo: nat)       // two of them

  predicate WellWritten(w: Written) {
    match w
    case Plain(c) => c != '"' && c != '\\' && c != '\0'
    case Escape(c) => c != 'u' && c != '\0'
    case Code(u, v) => Places(u, 4, v) && v != 0 && !Surrogate(v)
    case Pair(h, hi, l, lo) =>
      Places(h, 4, hi) && 0xD800 <= hi <= 0xDBFF && Places(l, 4, lo) && 0xDC00 <= lo <= 0xDFFF && hi / 0x40 % 2 == 0
  }

  function Text(w: Written): bytes {
    match w
    case Plain(c) => [c]
    case Escape(c) => "\\" + [c]
    case Code(u, _) => "\\u" + u
    case Pair(h, _, l, _) => "\\u" + h + "\\u" + l
  }

  function Texts(ws: seq<Written>): bytes {
    if ws == [] then [] else Text(ws[0]) + Texts(ws[1..])
  }

  /** The bytes `b` are what `w` means. */
  predicate Means(w: Written, b: bytes) {
    match w
    case Plain(c) => b == [c]
    case Escape(c) => b == [Named(c)]
    case Code(_, v) => Utf8CodePoint(b) == Some(v)
    case Pair(_, hi, _, lo) => PairOf(hi, lo) >= 0 && Utf8CodePoint(b) == Some(PairOf(hi, lo))
  }

  /** The bytes of a literal are those of its characters, one after the other. */
  ghost predicate Meaning(ws: seq<Written>, text: bytes)
    decreases |ws|
  {
    if ws == [] then text == []
    else exists b: bytes :: Means(ws[0], b) && StartsWith(text, b) && Meaning(ws[1..], text[|b|..])
  }

  lemma WrittenDecodes(w: Written, tail: bytes) returns (b: bytes)
    requires WellWritten(w)
    ensures Means(w, b) && Unescape(Text(w) + tail) == Prepend(b, Unescape(tail))
    ensures Head(Text(w) + tail) != '"' && !AtEnd(Text(w) + tail)
  {
    match w {
      case Plain(c) =>
        b := [c];
        assert (Text(w) + tail)[1..] == tail;
      case Escape(c) =>
        b := [Named(c)];
        NamedDecodes(c, tail);
      case Code(u, v) =>
        hide Unescape, Places;
        b := CodeDecodes(u, 4, v, tail);
      case Pair(h, hi, l, lo) =>
        hide Unescape, Places;
        var v;
        b, v := PairDecodesIff(h, hi, l, lo, tail);
    }
  }

  lemma {:induction false} TextsDecode(ws: seq<Written>, post: bytes) returns (text: bytes)
    requires forall i :: 0 <= i < |ws| ==> WellWritten(ws[i])
    ensures Meaning(ws, text) && Unescape(Texts(ws) + ("\"" + post)) == Parsed(text, post)
    decreases |ws|
  {
    if ws == [] {
      text := [];
      NoTexts(post);
    } else {
      hide Unescape, Means, Text, WellWritten;
      var rest := TextsDecode(ws[1..], post);
      var tail := Texts(ws[1..]) + ("\"" + post);
      FirstText(ws, "\"" + post);
      var b := WrittenDecodes(ws[0], tail);
      text := b + rest;
      hide Meaning, Texts;
      MeaningGrows(ws, b, rest);
    }
  }

  lemma FirstText(ws: seq<Written>, end: bytes)
    requires ws != []
    ensures Texts(ws) + end == Text(ws[0]) + (Texts(ws[1..]) + end)
  {
    hide Text;
  }

  lemma NoTexts(post: bytes)
    ensures Meaning([], []) && Unescape(Texts([]) + ("\"" + post)) == Parsed([], post)
  {
    var s := "\"" + post;
    assert Texts([]) + s == s && s[1..] == post;
  }

  lemma MeaningGrows(ws: seq<Written>, b: bytes, rest: bytes)
    requires ws != [] && Means(ws[0], b) && Meaning(ws[1..], rest)
    ensures Meaning(ws, b + rest)
  {
    var text := b + rest;
    assert StartsWith(text, b) && text[|b|..] == rest;
    hide Means;
  }

  /** Every well-formed literal parses to the text it means, and the parser stops after its
      closing quote. */
  lemma LiteralParses(ws: seq<Written>, post: bytes) returns (text: bytes)
    requires forall i :: 0 <= i < |ws| ==> WellWritten(ws[i])
    ensures Meaning(ws, text) && ParseStringSpec("\"" + (Texts(ws) + ("\"" + post))) == Parsed(text, post)
  {
    text := TextsDecode(ws, post);
    var s := "\"" + (Texts(ws) + ("\"" + post));
    assert s[1..] == Texts(ws) + ("\"" + post);
  }

  // ---------- What is printed ----------

  /** Printing writes a byte as it is, or as the shortest escape there is for it: a named one ... */
  lemma PrintedAs(c: byte)
    ensures c >= ' ' && c != '"' && c != '\\' ==> EscapeByte(c) == [c]
    ensures c == '"' || c == '\\' || (8 <= c as int <= 13 && c as int != 11) ==>
      |EscapeByte(c)| == 2 && EscapeByte(c)[0] == '\\' && EscapeByte(c)[1] != 'u' && Named(EscapeByte(c)[1]) == c
  {
  }

  /** ... or \u00 and two small hex digits for the other control characters. */
  lemma ControlPrintedAs(c: byte)
    requires c < ' ' && (c as int < 8 || c as int == 11 || c as int > 13)
    ensures EscapeByte(c) == "\\u00" + [HEX_LOWER[c as int / 16], HEX_LOWER[c as int % 16]]
  {
    SmallHex(c as int / 16);
    SmallHex(c as int % 16);
    assert EscapeByte(c) == "\\" + ("u" + Hex4(c as int));
    hide HexChar, EscapeByte;
  }

  lemma SmallHex(d: nat)
    requires d < 16
    ensures HexChar(d) == HEX_LOWER[d]
  {
    assert HEX_LOWER[10] == 'a' && HEX_LOWER[11] == 'b' && HEX_LOWER[12] == 'c' && HEX_LOWER[13] == 'd' && HEX_LOWER[14] == 'e' && HEX_LOWER[15] == 'f';
    assert d < 10 ==> HEX_LOWER[d] == DigitChar(d);
  }
}
