/** JSON texts as RFC 8259 has them, with any blanks, numerals and escapes: the parser of
    util/cJSON.c takes each for the value it denotes. */
module JsonGrammar {
  import opened Bytes
  import opened JsonString
  import opened JsonValue
  import opened JsonParser
  import opened JsonEscapes

  // ---------- Numbers ----------

  datatype Exponent = NoExponent | Exponent(e: byte, sign: bytes, digits: bytes)

  /** A numeral: an integer part, the digits after the point if there are any, an exponent. */
  datatype Numeral = Numeral(minus: bool, whole: bytes, fraction: bytes, exponent: Exponent)

  /** The digit `c` is, if it is one. */
  function DigitOf(c: byte): Option<nat> {
    match c
    case '0' => Some(0)
    case '1' => Some(1)
    case '2' => Some(2)
    case '3' => Some(3)
    case '4' => Some(4)
    case '5' => Some(5)
    case '6' => Some(6)
    case '7' => Some(7)
    case '8' => Some(8)
    case '9' => Some(9)
    case _ => None
  }

  predicate Digits(w: bytes) {
    forall i :: 0 <= i < |w| ==> DigitOf(w[i]).Some?
  }

  predicate WellFormedNumber(n: Numeral) {
    && Digits(n.whole) && n.whole != [] && (n.whole[0] == '0' ==> |n.whole| == 1)
    && Digits(n.fraction) && WellFormedExponent(n.exponent)
  }

  predicate WellFormedExponent(x: Exponent) {
    x.Exponent? ==>
      (x.e == 'e' || x.e == 'E') && (x.sign == "" || x.sign == "+" || x.sign == "-") && Digits(x.digits) && x.digits != []
  }

  predicate OfDigits(n: Numeral) {
    Digits(n.whole) && Digits(n.fraction) && (n.exponent.Exponent? ==> Digits(n.exponent.digits))
  }

  /** The digits of `w` written after a number `acc`. */
  function NumberFrom(acc: nat, w: bytes): nat
    requires Digits(w)
    decreases |w|
  {
    if w == [] then acc
    else
      var front := w[..|w| - 1];
      assert forall i :: 0 <= i < |front| ==> front[i] == w[i];
      10 * NumberFrom(acc, front) + DigitOf(w[|w| - 1]).value
  }

  function ExponentValue(x: Exponent): int
    requires x.Exponent? ==> Digits(x.digits)
  {
    if x.NoExponent? then 0
    else
      var n: int := NumberFrom(0, x.digits);
      if x.sign == "-" then -n else n
  }

  /** The power of ten a numeral is scaled by. */
  function Power(n: Numeral): int
    requires OfDigits(n)
  {
    ExponentValue(n.exponent) - |n.fraction|
  }

  /** The item for a numeral: an integer if it has neither a fraction nor a scaling exponent. */
  function NumberValue(n: Numeral): Json
    requires OfDigits(n)
  {
    var digits: int := NumberFrom(NumberFrom(0, n.whole), n.fraction);
    var value := if n.minus then -digits else digits;
    if n.fraction == [] && Power(n) == 0 then Int(if n.minus then -1 else 1, value) else Double(value, Power(n))
  }

  /** A numeral and the text after it. */
  function PutNumber(n: Numeral, post: bytes): bytes {
    (if n.minus then "-" else "") + (n.whole + PutFraction(n, post))
  }

  function PutFraction(n: Numeral, post: bytes): bytes {
    if n.fraction == [] then PutExponent(n.exponent, post) else "." + (n.fraction + PutExponent(n.exponent, post))
  }

  function PutExponent(x: Exponent, post: bytes): bytes {
    if x.NoExponent? then post else [x.e] + (x.sign + (x.digits + post))
  }

  lemma DigitsAreDigits(c: byte)
    ensures DigitOf(c).Some? <==> IsDigit(c)
    ensures IsDigit(c) ==> DigitOf(c) == Some(DigitValue(c))
  {
  }

  lemma {:induction false} DigitsAreRead(w: bytes, rest: bytes, acc: nat)
    requires Digits(w)
    ensures ReadDigits(w + rest, acc) == ReadDigits(rest, NumberFrom(acc, w))
    decreases |w|
  {
    hide DigitOf;
    if w == [] {
      assert w + rest == rest;
    } else {
      var front, last := w[..|w| - 1], w[|w| - 1];
      assert forall i :: 0 <= i < |front| ==> front[i] == w[i];
      assert w + rest == front + ([last] + rest);
      DigitsAreRead(front, [last] + rest, acc);
      DigitsAreDigits(last);
      assert ([last] + rest)[1..] == rest;
    }
  }

  /** A run of digits is read as its value, up to its end. */
  lemma RunIsRead(w: bytes, rest: bytes, acc: nat)
    requires Digits(w) && !IsDigit(Head(rest))
    ensures ReadDigits(w + rest, acc) == (NumberFrom(acc, w), rest)
    ensures w != [] ==> IsDigit(w[0])
  {
    DigitsAreRead(w, rest, acc);
    if w != [] {
      DigitsAreDigits(w[0]);
    }
  }

  lemma ExponentIsRead(x: Exponent, post: bytes)
    requires EndsNumber(post) && WellFormedExponent(x)
    ensures ReadExponent(PutExponent(x, post)) == (ExponentValue(x), post)
  {
    if x.Exponent? {
      RunIsRead(x.digits, post, 0);
      hide NumberFrom, ReadDigits, Digits, EndsNumber;
      ExponentSpelled(x, x.digits + post);
    }
  }

  /** The parser finds the digits of an exponent behind its sign. */
  lemma ExponentSpelled(x: Exponent, digits: bytes)
    requires x.Exponent? && (x.e == 'e' || x.e == 'E') && (x.sign == "" || x.sign == "+" || x.sign == "-")
    requires digits != [] && IsDigit(digits[0])
    ensures var s, d := [x.e] + (x.sign + digits), ReadDigits(digits, 0);
      ReadExponent(s) == (if x.sign == "-" then 0 - d.0 else d.0 as int, d.1)
  {
    hide ReadDigits;
    var s := [x.e] + (x.sign + digits);
    assert s[1..] == x.sign + digits;
    if x.sign == "" {
      assert s[1..] == digits;
    } else {
      assert s == [x.e, x.sign[0]] + digits;
      assert s[2..] == digits && s[1] == x.sign[0];
    }
  }

  lemma AfterDigits(n: Numeral, post: bytes)
    requires WellFormedNumber(n) && EndsNumber(post)
    ensures !IsDigit(Head(PutExponent(n.exponent, post))) && Head(PutExponent(n.exponent, post)) != '.'
    ensures !IsDigit(Head(PutFraction(n, post)))
  {
  }

  lemma FractionIsRead(n: Numeral, post: bytes, whole: nat)
    requires WellFormedNumber(n) && EndsNumber(post)
    ensures ReadFraction(PutFraction(n, post), whole)
         == (NumberFrom(whole, n.fraction), -|n.fraction|, PutExponent(n.exponent, post))
  {
    AfterDigits(n, post);
    var rest := PutExponent(n.exponent, post);
    RunIsRead(n.fraction, rest, whole);
    assert NumberFrom(whole, []) == whole;
    hide NumberFrom, ReadDigits, PutExponent, WellFormedNumber, EndsNumber;
    if n.fraction != [] {
      FractionSpelled(n.fraction + rest, whole);
    }
  }

  lemma FractionSpelled(digits: bytes, n: nat)
    requires digits != [] && IsDigit(digits[0])
    ensures var d := ReadDigits(digits, n); ReadFraction("." + digits, n) == (d.0, |d.1| - |digits|, d.1)
  {
    hide ReadDigits;
    assert ("." + digits)[1..] == digits;
  }

  lemma WholeIsRead(n: Numeral, post: bytes)
    requires WellFormedNumber(n) && EndsNumber(post)
    ensures ReadWhole(n.whole + PutFraction(n, post)) == (NumberFrom(0, n.whole), PutFraction(n, post))
    ensures IsDigit(Head(n.whole + PutFraction(n, post)))
  {
    AfterDigits(n, post);
    var rest := PutFraction(n, post);
    hide PutFraction;
    DigitsAreDigits(n.whole[0]);
    if n.whole[0] == '0' {
      assert n.whole == "0" && (n.whole + rest)[1..] == rest;
      assert n.whole[..0] == [];
      DigitsAreDigits('0');
    } else {
      DigitsAreRead(n.whole, rest, 0);
    }
  }

  lemma ItemIsValue(n: Numeral)
    requires WellFormedNumber(n)
    ensures NumberItem(if n.minus then -1 else 1, NumberFrom(NumberFrom(0, n.whole), n.fraction), -|n.fraction|, ExponentValue(n.exponent))
         == NumberValue(n)
  {
    var digits: int := NumberFrom(NumberFrom(0, n.whole), n.fraction);
    hide NumberFrom, ExponentValue, WellFormedNumber;
    assert (if n.minus then -1 else 1) * digits == if n.minus then -digits else digits;
  }

  /** The parser's numeral is the one after the sign. */
  lemma SignIsRead(n: Numeral, post: bytes)
    requires IsDigit(Head(n.whole + PutFraction(n, post)))
    ensures var s, t := PutNumber(n, post), n.whole + PutFraction(n, post);
      (n.minus ==> Head(s) == '-' && s[1..] == t) && (!n.minus ==> s == t && Head(s) != '-' && IsDigit(Head(s)))
  {
    hide PutFraction;
  }

  /** Every numeral is read as its value, up to its end. */
  lemma NumberParses(n: Numeral, post: bytes)
    requires WellFormedNumber(n) && EndsNumber(post)
    ensures var s := PutNumber(n, post);
      && (Head(s) == '-' || IsDigit(Head(s)))
      && ParseNumberSpec(s) == (NumberValue(n), post)
  {
    hide NumberFrom, ReadWhole, ReadFraction, ReadExponent, PutNumber, PutFraction, PutExponent, ExponentValue, Digits, EndsNumber,
         NumberItem, NumberValue;
    WholeIsRead(n, post);
    FractionIsRead(n, post, NumberFrom(0, n.whole));
    ExponentIsRead(n.exponent, post);
    ItemIsValue(n);
    SignIsRead(n, post);
    hide WellFormedNumber, WellFormedExponent, IsDigit;
  }

  // ---------- Documents ----------

  /** A JSON value as it is written. `pad`, `after` and `before` are blanks. */
  datatype Doc =
    | Word(value: Json)
    | Number(number: Numeral)
    | Literal(chars: seq<Written>)
    | NoItems(pad: bytes)
    | Array(pad: bytes, items: Items)
    | NoMembers(pad: bytes)
    | Object(pad: bytes, members: Members)

  datatype Items =
    | LastItem(value: Doc, after: bytes)
    | Item(value: Doc, after: bytes, before: bytes, rest: Items)

  datatype Members =
    | LastMember(key: seq<Written>, gap: bytes, lead: bytes, value: Doc, after: bytes)
    | NextMember(key: seq<Written>, gap: bytes, lead: bytes, value: Doc, after: bytes, before: bytes, rest: Members)

  predicate GoodLiteral(chars: seq<Written>) {
    forall i :: 0 <= i < |chars| ==> WellWritten(chars[i])
  }

  predicate Good(d: Doc) {
    match d
    case Word(v) => v == Null || v == True || v == False
    case Number(n) => WellFormedNumber(n)
    case Literal(chars) => GoodLiteral(chars)
    case NoItems(pad) => Blank(pad)
    case Array(pad, items) => Blank(pad) && GoodItems(items)
    case NoMembers(pad) => Blank(pad)
    case Object(pad, members) => Blank(pad) && GoodMembers(members)
  }

  predicate GoodItems(items: Items) {
    Good(items.value) && Blank(items.after) && (items.Item? ==> Blank(items.before) && GoodItems(items.rest))
  }

  predicate GoodMembers(ms: Members) {
    && GoodLiteral(ms.key) && Blank(ms.gap) && Blank(ms.lead) && Good(ms.value) && Blank(ms.after)
    && (ms.NextMember? ==> Blank(ms.before) && GoodMembers(ms.rest))
  }

  /** The text of a document, and `post` after it. */
  function Put(d: Doc, post: bytes): bytes {
    match d
    case Word(v) => (if v == Null then "null" else if v == True then "true" else "false") + post
    case Number(n) => PutNumber(n, post)
    case Literal(chars) => PutLiteral(chars, post)
    case NoItems(pad) => "[" + (pad + ("]" + post))
    case Array(pad, items) => "[" + (pad + PutItems(items, "]" + post))
    case NoMembers(pad) => "{" + (pad + ("}" + post))
    case Object(pad, members) => "{" + (pad + PutMembers(members, "}" + post))
  }

  function PutLiteral(chars: seq<Written>, post: bytes): bytes {
    "\"" + (Texts(chars) + ("\"" + post))
  }

  function PutItems(items: Items, post: bytes): bytes {
    Put(items.value, items.after + if items.LastItem? then post else "," + (items.before + PutItems(items.rest, post)))
  }

  function PutMembers(ms: Members, post: bytes): bytes {
    PutLiteral(ms.key, ms.gap + (":" + (ms.lead + Put(ms.value, ms.after + if ms.LastMember? then post
      else "," + (ms.before + PutMembers(ms.rest, post))))))
  }

  // ---------- What documents denote ----------

  ghost predicate Denotes(d: Doc, v: Json)
    decreases d, 0
  {
    match d
    case Word(w) => v == w
    case Number(n) => WellFormedNumber(n) && v == NumberValue(n)
    case Literal(chars) => v.Str? && Meaning(chars, v.text)
    case NoItems(_) => v == Arr([])
    case Array(_, items) => v.Arr? && ItemsDenote(items, v.items)
    case NoMembers(_) => v == Obj([])
    case Object(_, members) => v.Obj? && MembersDenote(members, v.members)
  }

  ghost predicate ItemsDenote(items: Items, vs: seq<Json>)
    decreases items, 1
  {
    && vs != [] && Denotes(items.value, vs[0])
    && if items.LastItem? then |vs| == 1 else ItemsDenote(items.rest, vs[1..])
  }

  ghost predicate MembersDenote(ms: Members, vs: seq<Member>)
    decreases ms, 1
  {
    && vs != [] && Meaning(ms.key, vs[0].key) && Denotes(ms.value, vs[0].value)
    && if ms.LastMember? then |vs| == 1 else MembersDenote(ms.rest, vs[1..])
  }

  // ---------- Parsing ----------

  /** A document starts with none of the characters a parser looks for before it. */
  lemma DocHead(d: Doc, post: bytes)
    requires Good(d)
    ensures var c := Head(Put(d, post)); c > ' ' && c != ']' && c != '}' && c != ','
  {
    if d.Number? {
      DigitsAreDigits(d.number.whole[0]);
    }
  }

  lemma BlankEnds(after: bytes, next: bytes)
    requires Blank(after) && (Head(next) == ',' || Head(next) == ']' || Head(next) == '}')
    ensures EndsNumber(after + next) && Skip(after + next) == next
  {
    SkipBlank(after, next);
    if after != [] {
      assert (after + next)[0] == after[0];
    } else {
      assert after + next == next;
    }
  }

  /** Every document parses to a value it denotes, and the parser stops right after it. */
  lemma {:induction false} DocParses(d: Doc, post: bytes) returns (v: Json)
    requires Good(d) && (d.Number? ==> EndsNumber(post))
    ensures Denotes(d, v) && ParseValueSpec(Put(d, post)) == Parsed(v, post)
    decreases d, 0
  {
    match d {
      case Word(w) =>
        v := w;
        KeywordRoundTrip(w, if w == Null then "null" else if w == True then "true" else "false", post);
      case Number(n) =>
        v := NumberValue(n);
        NumberParses(n, post);
        hide PutNumber, ParseNumberSpec, ParseValueSpec, NumberValue;
        Dispatch(Put(d, post));
      case Literal(chars) =>
        var text := LiteralParses(chars, post);
        v := Str(text);
        hide ParseStringSpec, ParseValueSpec, Texts;
        Dispatch(Put(d, post));
      case NoItems(pad) =>
        v := Arr([]);
        EmptyParses(pad, "]", post);
        hide Skip, ParseValueSpec;
        Dispatch(Put(d, post));
      case Array(pad, items) =>
        v := ArrayParses(pad, items, post);
        hide PutItems, ParseArraySpec, ParseValueSpec;
        Dispatch(Put(d, post));
      case NoMembers(pad) =>
        v := Obj([]);
        EmptyParses(pad, "}", post);
        hide Skip, ParseValueSpec;
        Dispatch(Put(d, post));
      case Object(pad, members) =>
        v := ObjectParses(pad, members, post);
        hide PutMembers, ParseObjectSpec, ParseValueSpec;
        Dispatch(Put(d, post));
    }
  }

  lemma EmptyParses(pad: bytes, close: bytes, post: bytes)
    requires Blank(pad) && (close == "]" || close == "}")
    ensures forall open: byte :: Skip(([open] + (pad + (close + post)))[1..]) == close + post
    ensures (close + post)[1..] == post
  {
    SkipBlank(pad, close + post);
    forall open: byte ensures Skip(([open] + (pad + (close + post)))[1..]) == close + post {
      assert ([open] + (pad + (close + post)))[1..] == pad + (close + post);
    }
  }

  lemma ArrayParses(pad: bytes, items: Items, post: bytes) returns (v: Json)
    requires Blank(pad) && GoodItems(items)
    ensures v.Arr? && ItemsDenote(items, v.items)
    ensures Head("[" + (pad + PutItems(items, "]" + post))) == '['
    ensures ParseArraySpec("[" + (pad + PutItems(items, "]" + post))) == Parsed(v, post)
    decreases items, 1
  {
    var text := PutItems(items, "]" + post);
    var s := "[" + (pad + text);
    assert s[1..] == pad + text;
    DocHead(items.value, items.after + if items.LastItem? then "]" + post else "," + (items.before + PutItems(items.rest, "]" + post)));
    SkipBlank(pad, text);
    var vs := ItemsParse(items, post);
    v := Arr(vs);
    hide PutItems, ParseElements, Skip;
  }

  lemma {:induction false} ItemsParse(items: Items, post: bytes) returns (vs: seq<Json>)
    requires GoodItems(items)
    ensures ItemsDenote(items, vs) && ParseElements(PutItems(items, "]" + post)) == Parsed(vs, post)
    decreases items, 0
  {
    var next := if items.LastItem? then "]" + post else "," + (items.before + PutItems(items.rest, "]" + post));
    BlankEnds(items.after, next);
    var v := DocParses(items.value, items.after + next);
    if items.LastItem? {
      vs := [v];
      assert next[1..] == post;
      hide ParseValueSpec, Put;
      assert AfterElement(next) == Parsed([], post);
      assert [v] + [] == [v];
    } else {
      var rest := ItemsParse(items.rest, post);
      vs := [v] + rest;
      assert vs[1..] == rest;
      var tail := PutItems(items.rest, "]" + post);
      assert next[1..] == items.before + tail;
      ItemsStart(items.rest, "]" + post);
      SkipBlank(items.before, tail);
      hide ParseValueSpec, Put, Skip, ItemsDenote, PutItems, ParseElements;
      assert AfterElement(next) == Parsed(rest, post);
      ElementsStep(PutItems(items, "]" + post), v, items.after + next, rest, post) by { ItemsText(items, "]" + post); }
    }
  }

  lemma ItemsText(items: Items, post: bytes)
    requires items.Item?
    ensures PutItems(items, post) == Put(items.value, items.after + ("," + (items.before + PutItems(items.rest, post))))
  {
  }

  lemma ElementsStep(s: bytes, v: Json, tail: bytes, rest: seq<Json>, post: bytes)
    requires ParseValueSpec(s) == Parsed(v, tail) && AfterElement(Skip(tail)) == Parsed(rest, post)
    ensures ParseElements(s) == Parsed([v] + rest, post)
  {
    hide ParseValueSpec, AfterElement, Skip;
  }

  lemma ItemsStart(items: Items, post: bytes)
    requires GoodItems(items)
    ensures Head(PutItems(items, post)) > ' '
  {
    DocHead(items.value, items.after + if items.LastItem? then post else "," + (items.before + PutItems(items.rest, post)));
  }

  lemma ObjectParses(pad: bytes, members: Members, post: bytes) returns (v: Json)
    requires Blank(pad) && GoodMembers(members)
    ensures v.Obj? && MembersDenote(members, v.members)
    ensures Head("{" + (pad + PutMembers(members, "}" + post))) == '{'
    ensures ParseObjectSpec("{" + (pad + PutMembers(members, "}" + post))) == Parsed(v, post)
    decreases members, 1
  {
    var text := PutMembers(members, "}" + post);
    var s := "{" + (pad + text);
    assert s[1..] == pad + text && text[0] == '"';
    SkipBlank(pad, text);
    var vs := MembersParse(members, post);
    v := Obj(vs);
    hide PutMembers, ParseMembers, Skip;
  }

  /** One member: its key, the colon among blanks, and its value. */
  lemma PairParses(key: seq<Written>, gap: bytes, lead: bytes, text: bytes, v: Json, tail: bytes) returns (k: bytes)
    requires GoodLiteral(key) && Blank(gap) && Blank(lead) && Head(text) > ' '
    requires ParseValueSpec(text) == Parsed(v, tail)
    ensures Meaning(key, k)
    ensures ParseMember(PutLiteral(key, gap + (":" + (lead + text)))) == Parsed(Member(k, v), tail)
  {
    var colon := ":" + (lead + text);
    k := LiteralParses(key, gap + colon);
    SkipBlank(gap, colon);
    assert colon[1..] == lead + text;
    SkipBlank(lead, text);
    hide ParseStringSpec, ParseValueSpec, Skip, Texts;
  }

  lemma {:induction false} MembersParse(ms: Members, post: bytes) returns (vs: seq<Member>)
    requires GoodMembers(ms)
    ensures MembersDenote(ms, vs) && ParseMembers(PutMembers(ms, "}" + post)) == Parsed(vs, post)
    decreases ms, 0
  {
    var next := if ms.LastMember? then "}" + post else "," + (ms.before + PutMembers(ms.rest, "}" + post));
    BlankEnds(ms.after, next);
    var v := DocParses(ms.value, ms.after + next);
    DocHead(ms.value, ms.after + next);
    var k := PairParses(ms.key, ms.gap, ms.lead, Put(ms.value, ms.after + next), v, ms.after + next);
    if ms.LastMember? {
      vs := [Member(k, v)];
      assert next[1..] == post;
      hide ParseMember, Put, PutLiteral;
      assert AfterMember(next) == Parsed([], post);
      MembersGoOn(PutMembers(ms, "}" + post), Member(k, v), ms.after + next, [], post);
      assert [Member(k, v)] + [] == vs;
    } else {
      var rest := MembersParse(ms.rest, post);
      vs := [Member(k, v)] + rest;
      assert vs[1..] == rest;
      var tail := PutMembers(ms.rest, "}" + post);
      assert next[1..] == ms.before + tail && tail[0] == '"';
      SkipBlank(ms.before, tail);
      hide ParseMember, Put, Skip, MembersDenote, PutMembers, ParseMembers, PutLiteral;
      assert AfterMember(next) == Parsed(rest, post);
      MembersGoOn(PutMembers(ms, "}" + post), Member(k, v), ms.after + next, rest, post) by { MembersText(ms, "}" + post); }
    }
  }

  lemma MembersText(ms: Members, post: bytes)
    requires ms.NextMember?
    ensures PutMembers(ms, post) == PutLiteral(ms.key, ms.gap + (":" + (ms.lead
              + Put(ms.value, ms.after + ("," + (ms.before + PutMembers(ms.rest, post)))))))
  {
  }

  lemma MembersGoOn(s: bytes, m: Member, tail: bytes, rest: seq<Member>, post: bytes)
    requires ParseMember(s) == Parsed(m, tail) && AfterMember(Skip(tail)) == Parsed(rest, post)
    ensures ParseMembers(s) == Parsed([m] + rest, post)
  {
    hide ParseMember, AfterMember, Skip;
  }

  /** cJSON_Parse on any JSON text, with blanks before it and anything after it. */
  lemma TextParses(pad: bytes, d: Doc, post: bytes) returns (v: Json)
    requires Blank(pad) && Good(d) && (d.Number? ==> EndsNumber(post))
    ensures Denotes(d, v) && ParseText(pad + Put(d, post)) == Parsed(v, post)
  {
    DocHead(d, post);
    v := DocParses(d, post);
    hide Put, ParseValueSpec;
    SkipBlank(pad, Put(d, post));
  }
}
