/** What the parser of util/cJSON.c accepts: JSON texts, and the few others it is lenient about.
    Every text it takes a value from has the shape of one. */
module JsonAccepts {
  import opened Bytes
  import opened JsonString
  import opened JsonValue
  import opened JsonParser
  import opened JsonGrammar

  // ---------- Shapes ----------

  /** A value as it is accepted. A string is only said to be what the string parser takes. */
  datatype Shape =
    | Keyword(value: Json)
    | Digits(number: Numeral)
    | Quoted(text: bytes)
    | NoEntries(open: byte, pad: bytes)
    | Entries(open: byte, pad: bytes, entries: seq<Entry>)

  /** An item, or a member with its key; the blanks around it. */
  datatype Entry = Entry(key: bytes, before: bytes, gap: bytes, lead: bytes, value: Shape, after: bytes)

  /** A number may lack digits before its point or in its exponent, and have one zero too many
      in front. */
  predicate LooseNumber(n: Numeral) {
    && OfDigits(n) && (|n.whole| >= 2 && n.whole[0] == '0' ==> n.whole[1] != '0')
    && (n.whole != [] || n.minus)
    && (n.exponent.Exponent? ==>
          (n.exponent.e == 'e' || n.exponent.e == 'E')
          && (n.exponent.sign == "" || n.exponent.sign == "+" || n.exponent.sign == "-"))
  }

  predicate Loose(d: Shape) {
    match d
    case Keyword(v) => v == Null || v == True || v == False
    case Digits(n) => LooseNumber(n)
    case Quoted(text) => text != [] && text[0] == '"'
    case NoEntries(open, pad) => (open == '[' || open == '{') && Blank(pad)
    case Entries(open, pad, entries) =>
      (open == '[' || open == '{') && Blank(pad) && entries != [] && AllLoose(entries, open == '{')
  }

  predicate AllLoose(entries: seq<Entry>, keyed: bool)
    decreases entries
  {
    forall i :: 0 <= i < |entries| ==> LooseEntry(entries[i], keyed)
  }

  predicate LooseEntry(e: Entry, keyed: bool) {
    && Blank(e.before) && Blank(e.gap) && Blank(e.lead) && Blank(e.after) && Loose(e.value)
    && (keyed ==> e.key != [] && e.key[0] == '"')
  }

  /** The text of a shape, and `post` after it. */
  function Put(d: Shape, post: bytes): bytes
    decreases d, 1
  {
    match d
    case Keyword(v) => (if v == Null then "null" else if v == True then "true" else "false") + post
    case Digits(n) => PutNumber(n, post)
    case Quoted(text) => text + post
    case NoEntries(open, pad) => [open] + (pad + (Close(open) + post))
    case Entries(open, pad, entries) => [open] + (pad + PutEntries(entries, open == '{', Close(open) + post))
  }

  function Close(open: byte): bytes {
    if open == '{' then "}" else "]"
  }

  function PutEntries(entries: seq<Entry>, keyed: bool, post: bytes): bytes
    decreases entries, 0
  {
    if entries == [] then post
    else
      PutEntry(entries[0], keyed, if |entries| == 1 then post else "," + (entries[1].before + PutEntries(entries[1..], keyed, post)))
  }

  function PutEntry(e: Entry, keyed: bool, post: bytes): bytes
    decreases e, 2
  {
    if keyed then e.key + (e.gap + (":" + (e.lead + Put(e.value, e.after + post)))) else Put(e.value, e.after + post)
  }

  /** The value a shape is taken for. */
  predicate Fits(d: Shape, v: Json)
    decreases d
  {
    match d
    case Keyword(w) => v == w
    case Digits(n) => OfDigits(n) && v == NumberValue(n)
    case Quoted(_) => v.Str?
    case NoEntries(open, _) => v == if open == '{' then Obj([]) else Arr([])
    case Entries(open, _, entries) =>
      if open == '{' then v.Obj? && |v.members| == |entries| && forall i :: 0 <= i < |entries| ==> Fits(entries[i].value, v.members[i].value)
      else v.Arr? && |v.items| == |entries| && forall i :: 0 <= i < |entries| ==> Fits(entries[i].value, v.items[i])
  }

  // ---------- Pieces ----------

  lemma {:induction false} SkipIsBlank(s: bytes) returns (w: bytes)
    ensures Blank(w) && s == w + Skip(s)
  {
    if s != [] && '\0' < s[0] <= ' ' {
      var rest := SkipIsBlank(s[1..]);
      w := [s[0]] + rest;
      assert s == [s[0]] + s[1..];
    } else {
      w := [];
    }
  }

  lemma {:induction false} DigitsTaken(s: bytes, acc: nat) returns (w: bytes)
    ensures JsonGrammar.Digits(w) && s == w + ReadDigits(s, acc).1
    ensures ReadDigits(s, acc).0 == NumberFrom(acc, w) && |w| == |s| - |ReadDigits(s, acc).1|
    ensures s != [] && IsDigit(s[0]) ==> w != [] && w[0] == s[0]
    decreases |s|
  {
    hide DigitOf;
    if s == [] || !IsDigit(s[0]) {
      w := [];
    } else {
      var n := acc * 10 + DigitValue(s[0]);
      var rest := DigitsTaken(s[1..], n);
      w := [s[0]] + rest;
      assert s == [s[0]] + s[1..];
      DigitsAreDigits(s[0]);
      FrontDigit(acc, s[0], rest);
      assert ReadDigits(s, acc) == ReadDigits(s[1..], n);
      hide NumberFrom, ReadDigits, JsonGrammar.Digits;
    }
  }

  lemma {:induction false} FrontDigit(acc: nat, c: byte, rest: bytes)
    requires IsDigit(c) && JsonGrammar.Digits(rest)
    ensures JsonGrammar.Digits([c] + rest) && NumberFrom(acc, [c] + rest) == NumberFrom(acc * 10 + DigitValue(c), rest)
    decreases |rest|
  {
    hide DigitOf;
    var w := [c] + rest;
    DigitsAreDigits(c);
    if rest == [] {
      assert w[..0] == [];
    } else {
      var front := rest[..|rest| - 1];
      assert forall i :: 0 <= i < |front| ==> front[i] == rest[i];
      assert w[..|w| - 1] == [c] + front;
      FrontDigit(acc, c, front);
    }
  }

  lemma ExponentTaken(s: bytes) returns (x: Exponent)
    ensures s == PutExponent(x, ReadExponent(s).1)
    ensures x.Exponent? ==> JsonGrammar.Digits(x.digits) && (x.e == 'e' || x.e == 'E') && (x.sign == "" || x.sign == "+" || x.sign == "-")
    ensures ReadExponent(s).0 == ExponentValue(x)
  {
    if Head(s) != 'e' && Head(s) != 'E' {
      x := NoExponent;
    } else {
      assert s == [s[0]] + s[1..];
      if Head(s[1..]) == '+' || Head(s[1..]) == '-' {
        var w := DigitsTaken(s[2..], 0);
        x := Exponent(s[0], [s[1]], w);
        assert s[1..] == [s[1]] + s[2..];
      } else {
        var w := DigitsTaken(s[1..], 0);
        x := Exponent(s[0], [], w);
        assert [] + (w + ReadExponent(s).1) == s[1..];
      }
    }
  }

  lemma FractionTaken(s: bytes, n: nat) returns (w: bytes)
    ensures JsonGrammar.Digits(w) && ReadFraction(s, n).0 == NumberFrom(n, w) && ReadFraction(s, n).1 == -|w|
    ensures s == if w == [] then ReadFraction(s, n).2 else "." + (w + ReadFraction(s, n).2)
  {
    if Head(s) == '.' && |s| > 1 && IsDigit(s[1]) {
      w := DigitsTaken(s[1..], n);
      assert s == "." + s[1..];
    } else {
      w := [];
    }
  }

  /** The digits from a non-zero one on. */
  lemma SolidTaken(t: bytes) returns (v: bytes)
    ensures JsonGrammar.Digits(v) && (v != [] ==> v[0] != '0')
    ensures var r := if '1' <= Head(t) <= '9' then ReadDigits(t, 0) else (0, t);
      t == v + r.1 && r.0 == NumberFrom(0, v)
    ensures '1' <= Head(t) <= '9' ==> v != []
  {
    if '1' <= Head(t) <= '9' {
      v := DigitsTaken(t, 0);
    } else {
      v := [];
    }
  }

  lemma WholeTaken(s: bytes) returns (w: bytes)
    ensures JsonGrammar.Digits(w) && s == w + ReadWhole(s).1 && ReadWhole(s).0 == NumberFrom(0, w)
    ensures |w| >= 2 && w[0] == '0' ==> w[1] != '0'
    ensures IsDigit(Head(s)) ==> w != []
  {
    hide NumberFrom, ReadDigits, JsonGrammar.Digits;
    if Head(s) == '0' {
      var v := SolidTaken(s[1..]);
      w := ['0'] + v;
      assert s == ['0'] + s[1..];
      DigitsAreDigits('0');
      FrontDigit(0, '0', v);
    } else {
      w := SolidTaken(s);
    }
  }

  lemma NumberText(s: bytes, n: Numeral, t: bytes, r: bytes, q: bytes, rest: bytes)
    requires s == (if n.minus then "-" else "") + t && t == n.whole + r
    requires r == (if n.fraction == [] then q else "." + (n.fraction + q)) && q == PutExponent(n.exponent, rest)
    ensures s == PutNumber(n, rest)
  {
    hide PutExponent;
  }

  /** The parts of a number after its sign. */
  lemma PartsTaken(t: bytes, minus: bool) returns (n: Numeral)
    ensures n.minus == minus && OfDigits(n) && (|n.whole| >= 2 && n.whole[0] == '0' ==> n.whole[1] != '0')
    ensures IsDigit(Head(t)) ==> n.whole != []
    ensures n.exponent.Exponent? ==>
      (n.exponent.e == 'e' || n.exponent.e == 'E') && (n.exponent.sign == "" || n.exponent.sign == "+" || n.exponent.sign == "-")
    ensures var r := ReadWhole(t);
      var q := ReadFraction(r.1, r.0);
      var x := ReadExponent(q.2);
      && t == n.whole + r.1 && r.1 == (if n.fraction == [] then q.2 else "." + (n.fraction + q.2)) && q.2 == PutExponent(n.exponent, x.1)
      && q.0 == NumberFrom(NumberFrom(0, n.whole), n.fraction) && q.1 == -|n.fraction| && x.0 == ExponentValue(n.exponent)
  {
    hide ReadWhole, ReadFraction, ReadExponent, NumberFrom, PutExponent, ExponentValue;
    var whole := WholeTaken(t);
    var r := ReadWhole(t);
    var fraction := FractionTaken(r.1, r.0);
    var x := ExponentTaken(ReadFraction(r.1, r.0).2);
    n := Numeral(minus, whole, fraction, x);
  }

  /** A number is taken as its numeral. */
  lemma NumberTaken(s: bytes) returns (n: Numeral)
    requires Head(s) == '-' || IsDigit(Head(s))
    ensures LooseNumber(n) && s == PutNumber(n, ParseNumberSpec(s).1) && ParseNumberSpec(s).0 == NumberValue(n)
  {
    hide ReadWhole, ReadFraction, ReadExponent, NumberFrom, PutExponent, ExponentValue, NumberItem, NumberValue, PutNumber;
    var minus := Head(s) == '-';
    var t := if minus then s[1..] else s;
    n := PartsTaken(t, minus);
    var r := ReadWhole(t);
    var q := ReadFraction(r.1, r.0);
    assert s == (if minus then "-" else "") + t;
    NumberText(s, n, t, r.1, q.2, ReadExponent(q.2).1);
    LooseValue(n);
  }

  lemma LooseValue(n: Numeral)
    requires OfDigits(n)
    ensures NumberItem(if n.minus then -1 else 1, NumberFrom(NumberFrom(0, n.whole), n.fraction), -|n.fraction|, ExponentValue(n.exponent))
         == NumberValue(n)
  {
    var digits: int := NumberFrom(NumberFrom(0, n.whole), n.fraction);
    hide NumberFrom, ExponentValue, OfDigits;
    assert (if n.minus then -1 else 1) * digits == if n.minus then -digits else digits;
  }

  /** What the string parser takes is the front of its text. */
  lemma {:induction false} RestIsSuffix(s: bytes)
    ensures Unescape(s).Parsed? ==> |Unescape(s).rest| <= |s| && s[|s| - |Unescape(s).rest|..] == Unescape(s).rest
    decreases |s|
  {
    hide DecodeOne;
    if !AtEnd(s) && s[0] != '"' && DecodeOne(s).Decoded? {
      var used := DecodeOne(s).used;
      RestIsSuffix(s[used..]);
      assert Unescape(s) == Prepend(DecodeOne(s).out, Unescape(s[used..]));
      hide Unescape;
      if Unescape(s).Parsed? {
        var n := |Unescape(s).rest|;
        assert s[used..][|s| - used - n..] == s[|s| - n..];
      }
    }
  }

  lemma StringTaken(s: bytes) returns (text: bytes)
    requires ParseStringSpec(s).Parsed?
    ensures text != [] && text[0] == '"' && s == text + ParseStringSpec(s).rest
  {
    RestIsSuffix(s[1..]);
    assert ParseStringSpec(s) == Unescape(s[1..]);
    hide Unescape, ParseStringSpec;
    text := FrontOf(s, ParseStringSpec(s).rest);
  }

  lemma FrontOf(s: bytes, rest: bytes) returns (text: bytes)
    requires s != [] && |rest| <= |s[1..]| && s[1..][|s[1..]| - |rest|..] == rest
    ensures text != [] && text[0] == s[0] && s == text + rest
  {
    text := s[..|s| - |rest|];
    assert s[|s| - |rest|..] == s[1..][|s[1..]| - |rest|..];
  }

  // ---------- Values ----------

  /** The parser takes a value only from text that has the shape of one, up to where it stops,
      and the value is that of the shape. */
  lemma {:induction false} AcceptedHasShape(s: bytes) returns (d: Shape)
    requires ParseValueSpec(s).Parsed?
    ensures Loose(d) && s == Put(d, ParseValueSpec(s).rest) && Fits(d, ParseValueSpec(s).value)
    decreases |s|, 2
  {
    hide ParseArraySpec, ParseObjectSpec, ParseStringSpec, ParseNumberSpec, NumberValue, LooseNumber, PutNumber;
    if StartsWith(s, "null") || StartsWith(s, "false") || StartsWith(s, "true") {
      d := KeywordTaken(s);
    } else if Head(s) == '"' {
      var text := StringTaken(s);
      d := Quoted(text);
    } else if Head(s) == '-' || IsDigit(Head(s)) {
      var n := NumberTaken(s);
      NumberIsOfDigits(n);
      d := Digits(n);
    } else if Head(s) == '[' {
      Dispatch(s);
      d := ArrayTaken(s);
      hide Put, Fits, Loose, ParseValueSpec;
    } else {
      Dispatch(s);
      d := ObjectTaken(s);
      hide Put, Fits, Loose, ParseValueSpec;
    }
  }

  lemma NumberIsOfDigits(n: Numeral)
    requires LooseNumber(n)
    ensures OfDigits(n)
  {
  }

  lemma KeywordTaken(s: bytes) returns (d: Shape)
    requires StartsWith(s, "null") || StartsWith(s, "false") || StartsWith(s, "true")
    ensures ParseValueSpec(s).Parsed?
    ensures Loose(d) && s == Put(d, ParseValueSpec(s).rest) && Fits(d, ParseValueSpec(s).value)
  {
    hide ParseArraySpec, ParseObjectSpec, ParseStringSpec, ParseNumberSpec;
    d := Keyword(if StartsWith(s, "null") then Null else if StartsWith(s, "false") then False else True);
  }

  lemma ArrayTaken(s: bytes) returns (d: Shape)
    requires Head(s) == '[' && ParseArraySpec(s).Parsed?
    ensures Loose(d) && s == Put(d, ParseArraySpec(s).rest) && Fits(d, ParseArraySpec(s).value)
    decreases |s|, 1
  {
    hide ParseElements, Skip, Blank;
    var pad := SkipIsBlank(s[1..]);
    var t := Skip(s[1..]);
    assert s == ['['] + s[1..];
    if Head(t) == ']' {
      d := NoEntries('[', pad);
      assert t == "]" + t[1..];
    } else {
      SkipShortens(s[1..]);
      var entries := ItemsTaken(t);
      d := Entries('[', pad, entries);
      hide PutEntries, AllLoose;
    }
  }

  /** The blanks before an entry are the separator's. */
  lemma SameText(entries: seq<Entry>, before: bytes, keyed: bool, post: bytes) returns (moved: seq<Entry>)
    requires entries != [] && AllLoose(entries, keyed) && Blank(before)
    ensures |moved| == |entries| && moved[0].before == before && AllLoose(moved, keyed)
    ensures forall i :: 0 <= i < |entries| ==> moved[i].value == entries[i].value && moved[i].key == entries[i].key
    ensures PutEntries(moved, keyed, post) == PutEntries(entries, keyed, post)
  {
    moved := entries[0 := entries[0].(before := before)];
    assert moved[1..] == entries[1..];
    assert LooseEntry(entries[0], keyed);
    forall i | 0 <= i < |moved| ensures LooseEntry(moved[i], keyed) {
      assert LooseEntry(entries[i], keyed);
    }
    hide Put, Loose;
  }

  lemma OneEntry(e: Entry, keyed: bool, post: bytes)
    requires LooseEntry(e, keyed)
    ensures AllLoose([e], keyed) && PutEntries([e], keyed, post) == PutEntry(e, keyed, post)
  {
    hide Put, Loose;
  }

  lemma MoreEntries(e: Entry, more: seq<Entry>, keyed: bool, post: bytes)
    requires LooseEntry(e, keyed) && more != [] && AllLoose(more, keyed)
    ensures AllLoose([e] + more, keyed)
    ensures PutEntries([e] + more, keyed, post) == PutEntry(e, keyed, "," + (more[0].before + PutEntries(more, keyed, post)))
  {
    assert ([e] + more)[1..] == more && ([e] + more)[1] == more[0];
    forall i | 0 <= i < |[e] + more| ensures LooseEntry(([e] + more)[i], keyed) {
      if i > 0 {
        assert LooseEntry(more[i - 1], keyed);
      }
    }
    hide Put, Loose;
  }

  /** The values of entries, one for one. */
  predicate FitItems(entries: seq<Entry>, vs: seq<Json>) {
    |entries| == |vs| && forall i :: 0 <= i < |entries| ==> Fits(entries[i].value, vs[i])
  }

  predicate FitMembers(entries: seq<Entry>, vs: seq<Member>) {
    |entries| == |vs| && forall i :: 0 <= i < |entries| ==> Fits(entries[i].value, vs[i].value)
  }

  lemma OneFits(e: Entry, v: Json, k: bytes)
    requires Fits(e.value, v)
    ensures FitItems([e], [v]) && FitMembers([e], [Member(k, v)])
  {
    hide Fits;
  }

  lemma MoreItemsFit(e: Entry, more: seq<Entry>, v: Json, vs: seq<Json>)
    requires Fits(e.value, v) && FitItems(more, vs)
    ensures FitItems([e] + more, [v] + vs)
  {
    hide Fits;
  }

  lemma MoreMembersFit(e: Entry, more: seq<Entry>, m: Member, vs: seq<Member>)
    requires Fits(e.value, m.value) && FitMembers(more, vs)
    ensures FitMembers([e] + more, [m] + vs)
  {
    hide Fits;
  }

  lemma ElementsUnfold(s: bytes)
    requires ParseElements(s).Parsed?
    ensures ParseValueSpec(s).Parsed?
    ensures var v, t, r := ParseValueSpec(s).value, Skip(ParseValueSpec(s).rest), ParseElements(s);
      && t != []
      && if t[0] == ','
         then var more := ParseElements(Skip(t[1..])); more.Parsed? && r.value == [v] + more.value && r.rest == more.rest
         else t[0] == ']' && r.value == [v] && r.rest == t[1..]
  {
    hide ParseValueSpec, Skip;
    var v := ParseValueSpec(s).value;
    assert [v] + [] == [v];
  }

  lemma MembersUnfold(s: bytes)
    requires ParseMembers(s).Parsed?
    ensures ParseMember(s).Parsed?
    ensures var m, t, r := ParseMember(s).value, Skip(ParseMember(s).rest), ParseMembers(s);
      && t != []
      && if t[0] == ','
         then var more := ParseMembers(Skip(t[1..])); more.Parsed? && r.value == [m] + more.value && r.rest == more.rest
         else t[0] == '}' && r.value == [m] && r.rest == t[1..]
  {
    hide ParseMember, Skip;
    var m := ParseMember(s).value;
    assert [m] + [] == [m];
  }

  lemma SkipShortens(s: bytes)
    ensures |Skip(s)| <= |s|
  {
  }

  lemma {:induction false} ItemsTaken(s: bytes) returns (entries: seq<Entry>)
    requires ParseElements(s).Parsed?
    ensures var r := ParseElements(s);
      && entries != [] && AllLoose(entries, false) && s == PutEntries(entries, false, "]" + r.rest) && FitItems(entries, r.value)
    decreases |s|, 4
  {
    hide ParseElements, ParseValueSpec, Put, Fits, Loose, Skip, Blank, LooseEntry, PutEntry, FitItems, AllLoose, PutEntries;
    ElementsUnfold(s);
    var v, rest := ParseValueSpec(s).value, ParseValueSpec(s).rest;
    SkipShortens(rest);
    var t := Skip(rest);
    var post := "]" + ParseElements(s).rest;
    var e := ItemAndBlanks(s, t);
    assert t == [t[0]] + t[1..];
    if t[0] == ',' {
      var before := SkipIsBlank(t[1..]);
      SkipShortens(t[1..]);
      var more := ItemsTaken(Skip(t[1..]));
      var vs := ParseElements(Skip(t[1..])).value;
      more := SeparatedItems(more, before, vs, post);
      MoreEntries(e, more, false, post);
      MoreItemsFit(e, more, v, vs);
      entries := [e] + more;
    } else {
      entries := [e];
      OneEntry(e, false, post);
      OneFits(e, v, []);
    }
  }

  lemma ItemAndBlanks(s: bytes, t: bytes) returns (e: Entry)
    requires ParseValueSpec(s).Parsed? && t == Skip(ParseValueSpec(s).rest)
    ensures LooseEntry(e, false) && s == PutEntry(e, false, t) && Fits(e.value, ParseValueSpec(s).value)
    decreases |s|, 3
  {
    var d := AcceptedHasShape(s);
    var after := SkipIsBlank(ParseValueSpec(s).rest);
    e := Entry([], [], [], [], d, after);
    hide ParseValueSpec, Put, Fits, Loose, Skip;
  }

  lemma SeparatedItems(entries: seq<Entry>, before: bytes, vs: seq<Json>, post: bytes) returns (moved: seq<Entry>)
    requires entries != [] && AllLoose(entries, false) && Blank(before) && FitItems(entries, vs)
    ensures moved != [] && moved[0].before == before && AllLoose(moved, false) && FitItems(moved, vs)
    ensures PutEntries(moved, false, post) == PutEntries(entries, false, post)
  {
    moved := SameText(entries, before, false, post);
    hide AllLoose, PutEntries, Fits;
  }

  lemma SeparatedMembers(entries: seq<Entry>, before: bytes, vs: seq<Member>, post: bytes) returns (moved: seq<Entry>)
    requires entries != [] && AllLoose(entries, true) && Blank(before) && FitMembers(entries, vs)
    ensures moved != [] && moved[0].before == before && AllLoose(moved, true) && FitMembers(moved, vs)
    ensures PutEntries(moved, true, post) == PutEntries(entries, true, post)
  {
    moved := SameText(entries, before, true, post);
    hide AllLoose, PutEntries, Fits;
  }

  lemma ObjectTaken(s: bytes) returns (d: Shape)
    requires Head(s) == '{' && ParseObjectSpec(s).Parsed?
    ensures Loose(d) && s == Put(d, ParseObjectSpec(s).rest) && Fits(d, ParseObjectSpec(s).value)
    decreases |s|, 1
  {
    hide ParseMembers, Skip, Blank;
    var pad := SkipIsBlank(s[1..]);
    var t := Skip(s[1..]);
    assert s == ['{'] + s[1..];
    if Head(t) == '}' {
      d := NoEntries('{', pad);
      assert t == "}" + t[1..];
    } else {
      SkipShortens(s[1..]);
      var entries := MembersTaken(t);
      d := Entries('{', pad, entries);
      hide PutEntries, AllLoose;
    }
  }

  lemma MemberTaken(s: bytes) returns (e: Entry)
    requires ParseMember(s).Parsed?
    ensures var r := ParseMember(s);
      e.after == [] && LooseEntry(e, true) && s == PutEntry(e, true, r.rest) && Fits(e.value, r.value.value)
    decreases |s|, 3
  {
    var key := StringTaken(s);
    var rest := ParseStringSpec(s).rest;
    var gap := SkipIsBlank(rest);
    var t := Skip(rest);
    assert t == ":" + t[1..];
    var lead := SkipIsBlank(t[1..]);
    var d := AcceptedHasShape(Skip(t[1..]));
    e := Entry(key, [], gap, lead, d, []);
    hide ParseStringSpec, ParseValueSpec, Put, Fits, Loose, Skip;
    assert [] + ParseMember(s).rest == ParseMember(s).rest;
  }

  /** A member with the blanks after it. */
  lemma MemberAndBlanks(s: bytes, t: bytes) returns (e: Entry)
    requires ParseMember(s).Parsed? && t == Skip(ParseMember(s).rest)
    ensures LooseEntry(e, true) && s == PutEntry(e, true, t) && Fits(e.value, ParseMember(s).value.value)
    decreases |s|, 4
  {
    e := MemberTaken(s);
    var rest := ParseMember(s).rest;
    var after := SkipIsBlank(rest);
    hide ParseMember, Put, Fits, Loose, Skip;
    assert [] + rest == rest;
    e := e.(after := after);
  }

  lemma {:induction false} MembersTaken(s: bytes) returns (entries: seq<Entry>)
    requires ParseMembers(s).Parsed?
    ensures var r := ParseMembers(s);
      && entries != [] && AllLoose(entries, true) && s == PutEntries(entries, true, "}" + r.rest) && FitMembers(entries, r.value)
    decreases |s|, 5
  {
    hide ParseMembers, ParseMember, Put, Fits, Loose, Skip, Blank, LooseEntry, PutEntry, FitMembers, AllLoose, PutEntries;
    MembersUnfold(s);
    var m, rest := ParseMember(s).value, ParseMember(s).rest;
    SkipShortens(rest);
    var t := Skip(rest);
    var post := "}" + ParseMembers(s).rest;
    var e := MemberAndBlanks(s, t);
    assert t == [t[0]] + t[1..];
    if t[0] == ',' {
      var before := SkipIsBlank(t[1..]);
      SkipShortens(t[1..]);
      var more := MembersTaken(Skip(t[1..]));
      var vs := ParseMembers(Skip(t[1..])).value;
      more := SeparatedMembers(more, before, vs, post);
      MoreEntries(e, more, true, post);
      MoreMembersFit(e, more, m, vs);
      entries := [e] + more;
    } else {
      entries := [e];
      OneEntry(e, true, post);
      OneFits(e, m.value, m.key);
    }
  }

  /** cJSON_Parse takes a value only from blanks and then such a text. */
  lemma TextAccepted(s: bytes) returns (pad: bytes, d: Shape)
    requires ParseText(s).Parsed?
    ensures Blank(pad) && Loose(d) && s == pad + Put(d, ParseText(s).rest) && Fits(d, ParseText(s).value)
  {
    pad := SkipIsBlank(s);
    d := AcceptedHasShape(Skip(s));
  }
}
