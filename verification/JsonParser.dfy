/** The recursive-descent parser of util/cJSON.c and the proof that it undoes the printer. */
module JsonParser {
  import opened Bytes
  import opened JsonString
  import opened JsonValue

  // ---------- The parser as functions on the remaining text ----------

  function Skip(s: bytes): (r: bytes)
    ensures |r| <= |s|
  {
    if s != [] && '\0' < s[0] <= ' ' then Skip(s[1..]) else s
  }

  /** parse_number. The accumulated digits are a mathematical integer. */
  function ParseNumberSpec(s: bytes): (r: (Json, bytes))
    requires Head(s) == '-' || IsDigit(Head(s))
    ensures |r.1| < |s|
  {
    var sign := if Head(s) == '-' then -1 else 1;
    var whole := ReadWhole(if Head(s) == '-' then s[1..] else s);
    var frac := ReadFraction(whole.1, whole.0);
    var exp := ReadExponent(frac.2);
    (NumberItem(sign, frac.0, frac.1, exp.0), exp.1)
  }

  /** One leading zero is passed over; digits are read only from a non-zero one on. */
  function ReadWhole(s: bytes): (r: (nat, bytes))
    ensures |r.1| <= |s|
    ensures IsDigit(Head(s)) ==> |r.1| < |s|
  {
    var t := if Head(s) == '0' then s[1..] else s;
    if '1' <= Head(t) <= '9' then ReadDigits(t, 0) else (0, t)
  }

  /** The digits after a point that is followed by a digit, each lowering the scale by one. */
  function ReadFraction(s: bytes, n: nat): (r: (nat, int, bytes))
    ensures |r.2| <= |s|
  {
    if Head(s) == '.' && |s| > 1 && IsDigit(s[1]) then
      var d := ReadDigits(s[1..], n);
      (d.0, |d.1| - |s[1..]|, d.1)
    else (n, 0, s)
  }

  function ReadExponent(s: bytes): (r: (int, bytes))
    ensures |r.1| <= |s|
  {
    if Head(s) != 'e' && Head(s) != 'E' then (0, s)
    else if Head(s[1..]) == '+' then var e := ReadDigits(s[2..], 0); (e.0, e.1)
    else if Head(s[1..]) == '-' then var e := ReadDigits(s[2..], 0); (-(e.0 as int), e.1)
    else var e := ReadDigits(s[1..], 0); (e.0, e.1)
  }

  /** An integer when neither a fraction nor a non-zero exponent was read. */
  function NumberItem(sign: int, n: nat, scale: int, exponent: int): Json {
    if scale == 0 && exponent == 0 then Int(sign, sign * n) else Double(sign * n, scale + exponent)
  }

  function ParseValueSpec(s: bytes): (r: Parse<Json>)
    ensures r.Parsed? ==> |r.rest| < |s|
    decreases |s|, 2
  {
    if StartsWith(s, "null") then Parsed(Null, s[4..])
    else if StartsWith(s, "false") then Parsed(False, s[5..])
    else if StartsWith(s, "true") then Parsed(True, s[4..])
    else if Head(s) == '"' then
      match ParseStringSpec(s)
      case Parsed(text, rest) => Parsed(Str(text), rest)
      case Failed(at) => Failed(at)
      case Undefined => Undefined
    else if Head(s) == '-' || IsDigit(Head(s)) then
      var n := ParseNumberSpec(s);
      Parsed(n.0, n.1)
    else if Head(s) == '[' then ParseArraySpec(s)
    else if Head(s) == '{' then ParseObjectSpec(s)
    else Failed(s)
  }

  function ParseArraySpec(s: bytes): (r: Parse<Json>)
    requires Head(s) == '['
    ensures r.Parsed? ==> |r.rest| < |s|
    decreases |s|, 1
  {
    var t := Skip(s[1..]);
    if Head(t) == ']' then Parsed(Arr([]), t[1..])
    else
      match ParseElements(t)
      case Parsed(items, rest) => Parsed(Arr(items), rest)
      case Failed(at) => Failed(at)
      case Undefined => Undefined
  }

  function ParseObjectSpec(s: bytes): (r: Parse<Json>)
    requires Head(s) == '{'
    ensures r.Parsed? ==> |r.rest| < |s|
    decreases |s|, 1
  {
    var t := Skip(s[1..]);
    if Head(t) == '}' then Parsed(Obj([]), t[1..])
    else
      match ParseMembers(t)
      case Parsed(members, rest) => Parsed(Obj(members), rest)
      case Failed(at) => Failed(at)
      case Undefined => Undefined
  }

  /** The elements up to and including the closing bracket. */
  function ParseElements(s: bytes): (r: Parse<seq<Json>>)
    ensures r.Parsed? ==> |r.rest| < |s|
    decreases |s|, 3
  {
    match ParseValueSpec(s)
    case Failed(at) => Failed(at)
    case Undefined => Undefined
    case Parsed(v, rest) => Append([v], AfterElement(Skip(rest)))
  }

  function AfterElement(t: bytes): (r: Parse<seq<Json>>)
    ensures r.Parsed? ==> |r.rest| < |t|
    decreases |t|, 4
  {
    if Head(t) == ',' then ParseElements(Skip(t[1..]))
    else if Head(t) == ']' then Parsed([], t[1..])
    else Failed(t)
  }

  function Append<T>(front: seq<T>, r: Parse<seq<T>>): Parse<seq<T>> {
    match r
    case Parsed(vs, rest) => Parsed(front + vs, rest)
    case _ => r
  }

  lemma AppendTwice<T>(a: seq<T>, b: seq<T>, r: Parse<seq<T>>)
    ensures Append(a, Append(b, r)) == Append(a + b, r)
  {
    if r.Parsed? {
      assert a + (b + r.value) == a + b + r.value;
    }
  }

  /** One `"key": value` pair. */
  function ParseMember(s: bytes): (r: Parse<Member>)
    ensures r.Parsed? ==> |r.rest| < |s|
    decreases |s|, 3
  {
    match ParseStringSpec(s)
    case Failed(at) => Failed(at)
    case Undefined => Undefined
    case Parsed(key, rest) =>
      var t := Skip(rest);
      if Head(t) != ':' then Failed(t)
      else
        match ParseValueSpec(Skip(t[1..]))
        case Failed(at) => Failed(at)
        case Undefined => Undefined
        case Parsed(v, rest2) => Parsed(Member(key, v), rest2)
  }

  function ParseMembers(s: bytes): (r: Parse<seq<Member>>)
    ensures r.Parsed? ==> |r.rest| < |s|
    decreases |s|, 4
  {
    match ParseMember(s)
    case Failed(at) => Failed(at)
    case Undefined => Undefined
    case Parsed(m, rest) => Append([m], AfterMember(Skip(rest)))
  }

  function AfterMember(t: bytes): (r: Parse<seq<Member>>)
    ensures r.Parsed? ==> |r.rest| < |t|
    decreases |t|, 5
  {
    if Head(t) == ',' then ParseMembers(Skip(t[1..]))
    else if Head(t) == '}' then Parsed([], t[1..])
    else Failed(t)
  }

  /** cJSON_Parse: whatever follows the first value is ignored. */
  function ParseText(s: bytes): Parse<Json> {
    ParseValueSpec(Skip(s))
  }

  // ---------- The parser as the loops of the source ----------

  method SkipFrom(text: bytes, start: nat) returns (p: nat)
    requires start <= |text|
    ensures start <= p <= |text| && text[p..] == Skip(text[start..])
  {
    p := start;
    while p < |text| && '\0' < text[p] <= ' '
      invariant start <= p <= |text|
      invariant Skip(text[p..]) == Skip(text[start..])
    {
      assert text[p..][1..] == text[p + 1..];
      p := p + 1;
    }
  }

  method ScanDigits(text: bytes, start: nat, acc: nat) returns (n: nat, p: nat)
    requires start <= |text|
    ensures start <= p <= |text| && (n, text[p..]) == ReadDigits(text[start..], acc)
  {
    n, p := acc, start;
    while p < |text| && IsDigit(text[p])
      invariant start <= p <= |text|
      invariant ReadDigits(text[p..], n) == ReadDigits(text[start..], acc)
    {
      assert text[p..][1..] == text[p + 1..];
      n := n * 10 + DigitValue(text[p]);
      p := p + 1;
    }
  }

  method ParseNumber(text: bytes, start: nat) returns (item: Json, p: nat)
    requires start < |text| && (text[start] == '-' || IsDigit(text[start]))
    ensures start < p <= |text| && (item, text[p..]) == ParseNumberSpec(text[start..])
  {
    hide ReadWhole, ReadFraction, ReadExponent, NumberItem;
    var sign := 1;
    p := start;
    if text[p] == '-' {
      sign, p := -1, p + 1;
      assert text[p..] == text[start..][1..];
    }
    var n, scale, exponent;
    n, p := ParseWhole(text, p);
    n, scale, p := ParseFraction(text, p, n);
    exponent, p := ParseExponent(text, p);
    item := NumberItem(sign, n, scale, exponent);
  }

  method ParseWhole(text: bytes, start: nat) returns (n: nat, p: nat)
    requires start <= |text|
    ensures start <= p <= |text| && (n, text[p..]) == ReadWhole(text[start..])
  {
    n, p := 0, start;
    if p < |text| && text[p] == '0' {
      p := p + 1;
      assert text[p..] == text[start..][1..];
    }
    if p < |text| && '1' <= text[p] <= '9' {
      n, p := ScanDigits(text, p, 0);
    }
  }

  method ParseFraction(text: bytes, start: nat, whole: nat) returns (n: nat, scale: int, p: nat)
    requires start <= |text|
    ensures start <= p <= |text| && (n, scale, text[p..]) == ReadFraction(text[start..], whole)
  {
    n, scale, p := whole, 0, start;
    if p + 1 < |text| && text[p] == '.' && IsDigit(text[p + 1]) {
      assert text[start..][1..] == text[p + 1..];
      p := p + 1;
      while p < |text| && IsDigit(text[p])
        invariant start < p <= |text|
        invariant scale == start + 1 - p
        invariant ReadDigits(text[p..], n) == ReadDigits(text[start + 1..], whole)
      {
        assert text[p..][1..] == text[p + 1..];
        n := n * 10 + DigitValue(text[p]);
        p := p + 1;
        scale := scale - 1;
      }
    }
  }

  method ParseExponent(text: bytes, start: nat) returns (exponent: int, p: nat)
    requires start <= |text|
    ensures start <= p <= |text| && (exponent, text[p..]) == ReadExponent(text[start..])
  {
    exponent, p := 0, start;
    if p < |text| && (text[p] == 'e' || text[p] == 'E') {
      p := p + 1;
      assert text[start..][1..] == text[p..];
      var negative := false;
      if p < |text| && text[p] == '+' {
        p := p + 1;
        assert text[start..][2..] == text[p..];
      } else if p < |text| && text[p] == '-' {
        negative, p := true, p + 1;
        assert text[start..][2..] == text[p..];
      }
      exponent, p := ScanDigits(text, p, 0);
      if negative {
        exponent := -exponent;
      }
    }
  }

  /** parse_value. */
  method ParseValue(text: bytes, start: nat) returns (r: Parse<Json>, p: nat)
    requires start <= |text|
    ensures r == ParseValueSpec(text[start..])
    ensures r.Parsed? ==> start < p <= |text| && r.rest == text[p..]
    decreases |text| - start, 2
  {
    hide ParseNumberSpec, ParseStringSpec, ParseArraySpec, ParseObjectSpec;
    var s := text[start..];
    p := start;
    if StartsWith(s, "null") {
      r, p := Parsed(Null, s[4..]), start + 4;
    } else if StartsWith(s, "false") {
      r, p := Parsed(False, s[5..]), start + 5;
    } else if StartsWith(s, "true") {
      r, p := Parsed(True, s[4..]), start + 4;
    } else if Head(s) == '"' {
      var str;
      str, p := ParseString(text, start);
      match str
      case Parsed(t, rest) => r := Parsed(Str(t), rest);
      case Failed(at) => r := Failed(at);
      case Undefined => r := Undefined;
    } else if Head(s) == '-' || IsDigit(Head(s)) {
      var item;
      item, p := ParseNumber(text, start);
      r := Parsed(item, text[p..]);
    } else if Head(s) == '[' {
      r, p := ParseArray(text, start);
    } else if Head(s) == '{' {
      r, p := ParseObject(text, start);
    } else {
      r := Failed(s);
    }
  }

  /** parse_array. */
  method ParseArray(text: bytes, start: nat) returns (r: Parse<Json>, p: nat)
    requires start < |text| && text[start] == '['
    ensures r == ParseArraySpec(text[start..])
    ensures r.Parsed? ==> start < p <= |text| && r.rest == text[p..]
    decreases |text| - start, 1
  {
    assert text[start..][1..] == text[start + 1..];
    p := SkipFrom(text, start + 1);
    if Head(text[p..]) == ']' {
      r, p := Parsed(Arr([]), text[p..][1..]), p + 1;
      return;
    }
    var elements;
    elements, p := ParseList(text, p);
    match elements
    case Parsed(items, rest) => r := Parsed(Arr(items), rest);
    case Failed(at) => r := Failed(at);
    case Undefined => r := Undefined;
  }

  /** The loop of parse_array. */
  method ParseList(text: bytes, start: nat) returns (r: Parse<seq<Json>>, p: nat)
    requires start <= |text|
    ensures r == ParseElements(text[start..])
    ensures r.Parsed? ==> start < p <= |text| && r.rest == text[p..]
    decreases |text| - start, 3
  {
    hide ParseValueSpec, Skip;
    var item;
    item, p := ParseValue(text, start);
    if !item.Parsed? {
      r := if item.Failed? then Failed(item.at) else Undefined;
      return;
    }
    p := SkipFrom(text, p);
    var items := [item.value];
    while p < |text| && text[p] == ','
      invariant start < p <= |text|
      invariant ParseElements(text[start..]) == Append(items, AfterElement(text[p..]))
      decreases |text| - p
    {
      assert text[p..][1..] == text[p + 1..];
      p := SkipFrom(text, p + 1);
      item, p := ParseValue(text, p);
      if !item.Parsed? {
        r := if item.Failed? then Failed(item.at) else Undefined;
        return;
      }
      p := SkipFrom(text, p);
      AppendTwice(items, [item.value], AfterElement(text[p..]));
      items := items + [item.value];
    }
    assert items + [] == items;
    if p < |text| && text[p] == ']' {
      r, p := Parsed(items, text[p..][1..]), p + 1;
    } else {
      r := Failed(text[p..]);
    }
  }

  /** parse_object. */
  method ParseObject(text: bytes, start: nat) returns (r: Parse<Json>, p: nat)
    requires start < |text| && text[start] == '{'
    ensures r == ParseObjectSpec(text[start..])
    ensures r.Parsed? ==> start < p <= |text| && r.rest == text[p..]
    decreases |text| - start, 1
  {
    assert text[start..][1..] == text[start + 1..];
    p := SkipFrom(text, start + 1);
    if Head(text[p..]) == '}' {
      r, p := Parsed(Obj([]), text[p..][1..]), p + 1;
      return;
    }
    var found;
    found, p := ParsePairs(text, p);
    match found
    case Parsed(members, rest) => r := Parsed(Obj(members), rest);
    case Failed(at) => r := Failed(at);
    case Undefined => r := Undefined;
  }

  /** The loop of parse_object. */
  method ParsePairs(text: bytes, start: nat) returns (r: Parse<seq<Member>>, p: nat)
    requires start <= |text|
    ensures r == ParseMembers(text[start..])
    ensures r.Parsed? ==> start < p <= |text| && r.rest == text[p..]
    decreases |text| - start, 4
  {
    hide ParseMember, Skip;
    var member;
    member, p := ParsePair(text, start);
    if !member.Parsed? {
      r := if member.Failed? then Failed(member.at) else Undefined;
      return;
    }
    p := SkipFrom(text, p);
    var members := [member.value];
    while p < |text| && text[p] == ','
      invariant start < p <= |text|
      invariant ParseMembers(text[start..]) == Append(members, AfterMember(text[p..]))
      decreases |text| - p
    {
      assert text[p..][1..] == text[p + 1..];
      p := SkipFrom(text, p + 1);
      member, p := ParsePair(text, p);
      if !member.Parsed? {
        r := if member.Failed? then Failed(member.at) else Undefined;
        return;
      }
      p := SkipFrom(text, p);
      AppendTwice(members, [member.value], AfterMember(text[p..]));
      members := members + [member.value];
    }
    assert members + [] == members;
    if p < |text| && text[p] == '}' {
      r, p := Parsed(members, text[p..][1..]), p + 1;
    } else {
      r := Failed(text[p..]);
    }
  }

  method ParsePair(text: bytes, start: nat) returns (r: Parse<Member>, p: nat)
    requires start <= |text|
    ensures r == ParseMember(text[start..])
    ensures r.Parsed? ==> start < p <= |text| && r.rest == text[p..]
    decreases |text| - start, 3
  {
    hide ParseStringSpec, ParseValueSpec;
    var key, item;
    key, p := ParseString(text, start);
    if !key.Parsed? {
      r := if key.Failed? then Failed(key.at) else Undefined;
      return;
    }
    p := SkipFrom(text, p);
    if Head(text[p..]) != ':' {
      r := Failed(text[p..]);
      return;
    }
    assert text[p..][1..] == text[p + 1..];
    p := SkipFrom(text, p + 1);
    item, p := ParseValue(text, p);
    match item
    case Parsed(v, rest) => r := Parsed(Member(key.value, v), rest);
    case Failed(at) => r := Failed(at);
    case Undefined => r := Undefined;
  }

  /** cJSON_Parse. */
  method Parse(text: bytes) returns (r: Parse<Json>)
    ensures r == ParseText(text)
  {
    var p := SkipFrom(text, 0);
    assert text[0..] == text;
    r, p := ParseValue(text, p);
  }

  // ---------- Parsing undoes printing ----------

  /** Every integer prints as its own value: unsigned ones below 2^63, and none of the
      magnitude 2^63 that the parser's conversion cannot hold. */
  predicate PrintsItsIntegers(t: Json) {
    match t
    case Int(sign, v) => -INT64_MAX <= v && (sign == -1 || v >= 0)
    case Arr(items) => forall i :: 0 <= i < |items| ==> PrintsItsIntegers(items[i])
    case Obj(members) => forall i :: 0 <= i < |members| ==> PrintsItsIntegers(members[i].value)
    case _ => true
  }

  /** The same tree with each integer tagged by the sign of its value. */
  function Retagged(t: Json): Json
    decreases t
  {
    match t
    case Int(_, v) => Int(if v < 0 then -1 else 1, v)
    case Arr(items) => Arr(RetaggedItems(items))
    case Obj(members) => Obj(RetaggedMembers(members))
    case _ => t
  }

  function RetaggedItems(items: seq<Json>): (r: seq<Json>)
    ensures |r| == |items|
    decreases items
  {
    if items == [] then [] else [Retagged(items[0])] + RetaggedItems(items[1..])
  }

  function RetaggedMembers(members: seq<Member>): (r: seq<Member>)
    ensures |r| == |members|
    decreases members
  {
    if members == [] then []
    else [Member(members[0].key, Retagged(members[0].value))] + RetaggedMembers(members[1..])
  }

  /** Text that cannot extend a number just before it. */
  predicate EndsNumber(post: bytes) {
    !IsDigit(Head(post)) && Head(post) != '.' && Head(post) != 'e' && Head(post) != 'E'
  }

  lemma WholeReadsBack(n: nat, post: bytes)
    requires !IsDigit(Head(post))
    ensures ReadWhole(Decimal(n) + post) == (n, post)
  {
    DecimalLeadingDigit(n);
    DecimalReadsBack(n, post);
    if n == 0 {
      assert (Decimal(n) + post)[1..] == post;
    }
  }

  lemma IntRoundTrip(sign: int, v: int, post: bytes)
    requires sign == -1 || 0 <= v
    requires v <= INT64_MAX
    requires EndsNumber(post)
    ensures Head(PrintInt(sign, v) + post) == '-' || IsDigit(Head(PrintInt(sign, v) + post))
    ensures ParseNumberSpec(PrintInt(sign, v) + post) == (Int(if v < 0 then -1 else 1, v), post)
  {
    hide Decimal, ReadWhole;
    if v < 0 {
      assert ("-" + Decimal(-v) + post)[1..] == Decimal(-v) + post;
      WholeReadsBack(-v, post);
    } else {
      WholeReadsBack(v, post);
    }
  }

  /** print_int loses exactly the values tagged unsigned that do not fit 63 bits. */
  lemma IntRoundTripsIff(sign: int, v: int)
    requires sign == 1 || sign == -1
    requires -INT64_MAX <= v <= INT64_MAX
    ensures var s := PrintInt(sign, v);
      (Head(s) == '-' || IsDigit(Head(s))) &&
      ((ParseNumberSpec(s).0.Int? && ParseNumberSpec(s).0.value == v) <==> (sign == -1 || v >= 0))
  {
    assert PrintInt(sign, v) + [] == PrintInt(sign, v);
    if sign == -1 || v >= 0 {
      IntRoundTrip(sign, v, []);
    } else {
      IntRoundTrip(sign, v % 0x1_0000_0000, []);
    }
  }

  /** -1 tagged unsigned is printed as 2^32 - 1, and read back as that. */
  lemma NegativeUnsignedGoesWrong()
    ensures ParseNumberSpec(PrintInt(1, -1)) == (Int(1, 0xFFFF_FFFF), [])
  {
    hide Decimal, ParseNumberSpec;
    var v := 0xFFFF_FFFF;
    assert PrintInt(1, -1) == PrintInt(-1, v);
    hide PrintInt;
    IntRoundTrip(-1, v, []);
    assert PrintInt(1, -1) + [] == PrintInt(1, -1);
  }

  predicate Blank(w: bytes) {
    forall i :: 0 <= i < |w| ==> '\0' < w[i] <= ' '
  }

  lemma {:induction false} SkipBlank(w: bytes, s: bytes)
    requires Blank(w) && Head(s) > ' '
    ensures Skip(w + s) == s
  {
    if w == [] {
      assert w + s == s;
    } else {
      assert (w + s)[1..] == w[1..] + s;
      SkipBlank(w[1..], s);
    }
  }

  lemma PrintHead(t: Json, depth: nat, fmt: bool, post: bytes)
    requires Printable(t)
    ensures Head(Print(t, depth, fmt) + post) > ' '
    ensures Head(Print(t, depth, fmt) + post) != ']'
  {
  }

  /** Parsing the printed form of a tree, in either mode and at any depth, gives the tree
      back and stops right after it. */
  lemma {:induction false} RoundTrip(t: Json, depth: nat, fmt: bool, post: bytes)
    requires Printable(t) && PrintsItsIntegers(t) && EndsNumber(post)
    ensures ParseValueSpec(Print(t, depth, fmt) + post) == Parsed(Retagged(t), post)
    decreases t, 1
  {
    match t
    case Arr(items) =>
      ArrayRoundTrip(items, depth, fmt, post);
      hide ParseArraySpec, JoinItems, PrintAll, Retagged, Printable, PrintsItsIntegers;
      Dispatch(Print(t, depth, fmt) + post);
    case Obj(members) =>
      ObjectRoundTrip(members, depth, fmt, post);
      hide ParseObjectSpec, JoinMembers, PrintKeys, PrintValues, Retagged, Printable, PrintsItsIntegers;
      Dispatch(Print(t, depth, fmt) + post);
    case _ => LeafRoundTrip(t, depth, fmt, post);
  }

  lemma KeywordRoundTrip(t: Json, word: bytes, post: bytes)
    requires (t == Null && word == "null") || (t == True && word == "true") || (t == False && word == "false")
    ensures ParseValueSpec(word + post) == Parsed(t, post)
  {
    hide ParseArraySpec, ParseObjectSpec, ParseNumberSpec, ParseStringSpec;
    var s := word + post;
    assert s[0] == word[0] && s[..|word|] == word && s[|word|..] == post;
  }

  lemma LeafRoundTrip(t: Json, depth: nat, fmt: bool, post: bytes)
    requires Printable(t) && PrintsItsIntegers(t) && EndsNumber(post) && !t.Arr? && !t.Obj?
    ensures ParseValueSpec(Print(t, depth, fmt) + post) == Parsed(Retagged(t), post)
  {
    hide ParseValueSpec;
    if t.Int? {
      IntRoundTrip(t.sign, t.value, post);
      hide PrintInt, ParseNumberSpec;
      Dispatch(Print(t, depth, fmt) + post);
    } else if t.Str? {
      StringRoundTrip(t.text, post);
      hide ParseStringSpec, Escape;
      Dispatch(Print(t, depth, fmt) + post);
    } else if t == Null {
      KeywordRoundTrip(t, "null", post);
    } else if t == True {
      KeywordRoundTrip(t, "true", post);
    } else if t == False {
      KeywordRoundTrip(t, "false", post);
    }
  }

  /** parse_value picks the parser by the first byte, outside the keywords. */
  lemma Dispatch(s: bytes)
    ensures Head(s) == '[' ==> ParseValueSpec(s) == ParseArraySpec(s)
    ensures Head(s) == '{' ==> ParseValueSpec(s) == ParseObjectSpec(s)
    ensures Head(s) == '"' && ParseStringSpec(s).Parsed? ==>
      ParseValueSpec(s) == Parsed(Str(ParseStringSpec(s).value), ParseStringSpec(s).rest)
    ensures Head(s) == '-' || IsDigit(Head(s)) ==>
      ParseValueSpec(s) == Parsed(ParseNumberSpec(s).0, ParseNumberSpec(s).1)
  {
    hide ParseArraySpec, ParseObjectSpec, ParseNumberSpec, ParseStringSpec;
  }

  lemma ArrayRoundTrip(items: seq<Json>, depth: nat, fmt: bool, post: bytes)
    requires Printable(Arr(items)) && PrintsItsIntegers(Arr(items))
    ensures ParseArraySpec(Print(Arr(items), depth, fmt) + post) == Parsed(Retagged(Arr(items)), post)
    decreases items, 2
  {
    var entries := PrintAll(items, depth + 1, fmt);
    var inner := JoinItems(entries, fmt) + ("]" + post);
    assert (Print(Arr(items), depth, fmt) + post)[1..] == inner;
    if items == [] {
      assert inner == "]" + post && inner[1..] == post;
    } else {
      ItemsHead(items, depth + 1, fmt, "]" + post);
      SkipBlank([], inner);
      assert [] + inner == inner;
      ElementsRoundTrip(items, depth + 1, fmt, post);
    }
  }

  /** What follows entry 0 in the text of an array. */
  function AfterItem(entries: seq<bytes>, fmt: bool, end: bytes): bytes
    requires entries != []
  {
    If(|entries| > 1, "," + If(fmt, " ")) + (JoinItems(entries[1..], fmt) + end)
  }

  lemma FirstItem(entries: seq<bytes>, fmt: bool, end: bytes)
    requires entries != []
    ensures JoinItems(entries, fmt) + end == entries[0] + AfterItem(entries, fmt, end)
  {
  }

  lemma ItemsHead(items: seq<Json>, depth: nat, fmt: bool, end: bytes)
    requires items != [] && Printable(Arr(items))
    ensures var s := JoinItems(PrintAll(items, depth, fmt), fmt) + end; Head(s) > ' ' && Head(s) != ']'
  {
    var entries := PrintAll(items, depth, fmt);
    FirstItem(entries, fmt, end);
    PrintHead(items[0], depth, fmt, AfterItem(entries, fmt, end));
  }

  /** Past one entry the parser is at the next one, or past the closing bracket. */
  lemma AfterItemReadsBack(entries: seq<bytes>, fmt: bool, post: bytes)
    requires entries != []
    requires |entries| > 1 ==> Head(JoinItems(entries[1..], fmt) + ("]" + post)) > ' '
    ensures EndsNumber(AfterItem(entries, fmt, "]" + post))
    ensures AfterElement(Skip(AfterItem(entries, fmt, "]" + post)))
         == if |entries| == 1 then Parsed([], post) else ParseElements(JoinItems(entries[1..], fmt) + ("]" + post))
  {
    var next := JoinItems(entries[1..], fmt) + ("]" + post);
    var tail := AfterItem(entries, fmt, "]" + post);
    if |entries| == 1 {
      assert tail == "]" + post && tail[1..] == post;
    } else {
      assert tail[1..] == If(fmt, " ") + next;
      hide JoinItems, ParseElements;
      SkipBlank(If(fmt, " "), next);
    }
  }

  lemma {:induction false} ElementsRoundTrip(items: seq<Json>, depth: nat, fmt: bool, post: bytes)
    requires items != [] && Printable(Arr(items)) && PrintsItsIntegers(Arr(items))
    ensures ParseElements(JoinItems(PrintAll(items, depth, fmt), fmt) + ("]" + post)) == Parsed(RetaggedItems(items), post)
    decreases items, 1
  {
    var entries := PrintAll(items, depth, fmt);
    var tail := AfterItem(entries, fmt, "]" + post);
    FirstItem(entries, fmt, "]" + post);
    if |items| > 1 {
      ItemsHead(items[1..], depth, fmt, "]" + post);
    }
    AfterItemReadsBack(entries, fmt, post);
    RoundTrip(items[0], depth, fmt, tail);
    if |items| > 1 {
      ElementsRoundTrip(items[1..], depth, fmt, post);
    }
    hide JoinItems, AfterItem, ParseValueSpec, AfterElement, Print;
  }

  lemma ObjectRoundTrip(members: seq<Member>, depth: nat, fmt: bool, post: bytes)
    requires Printable(Obj(members)) && PrintsItsIntegers(Obj(members))
    ensures ParseObjectSpec(Print(Obj(members), depth, fmt) + post) == Parsed(Retagged(Obj(members)), post)
    decreases members, 3
  {
    assert Print(Obj(members), depth, fmt)
        == LayoutObject(PrintKeys(members), PrintValues(members, depth + 1, fmt), depth, fmt);
    assert Retagged(Obj(members)) == Obj(RetaggedMembers(members));
    hide Print, Retagged, LayoutObject, ParseObjectSpec, PrintKeys, PrintValues;
    if members == [] {
      NoMembers(depth, fmt, post);
    } else {
      SomeMembers(members, depth, fmt, post);
    }
  }

  lemma NoMembers(depth: nat, fmt: bool, post: bytes)
    ensures var s := LayoutObject(PrintKeys([]), PrintValues([], depth + 1, fmt), depth, fmt) + post;
      Head(s) == '{' && ParseObjectSpec(s) == Parsed(Obj([]), post)
  {
    assert PrintKeys([]) == [] && PrintValues([], depth + 1, fmt) == [] && JoinMembers([], [], depth + 1, fmt) == [];
    hide LayoutObject, ParseObjectSpec, If, Tabs, Blank;
    Indents(depth, fmt);
    ObjectText([], [], depth, fmt, post);
    EmptyObject(LayoutObject([], [], depth, fmt) + post, If(fmt, "\n"), If(fmt, Tabs(depth)), post);
  }

  lemma SomeMembers(members: seq<Member>, depth: nat, fmt: bool, post: bytes)
    requires members != [] && Printable(Obj(members)) && PrintsItsIntegers(Obj(members))
    ensures var s := LayoutObject(PrintKeys(members), PrintValues(members, depth + 1, fmt), depth, fmt) + post;
      Head(s) == '{' && ParseObjectSpec(s) == Parsed(Obj(RetaggedMembers(members)), post)
    decreases members, 2
  {
    hide LayoutObject, JoinMembers, FromKey, ParseMembers, ParseObjectSpec, PrintKeys, PrintValues, If, Tabs, Skip, Blank;
    var indent, nl, tabs := If(fmt, Tabs(depth)), If(fmt, "\n"), If(fmt, Tabs(depth + 1));
    Indents(depth, fmt);
    MembersRoundTrip(members, depth + 1, fmt, indent, post);
    KeyHead(members);
    var names, entries := PrintKeys(members), PrintValues(members, depth + 1, fmt);
    hide Printable, PrintsItsIntegers, RetaggedMembers;
    ObjectText(names, entries, depth, fmt, post);
    var end := indent + ("}" + post);
    MembersHead(names, entries, depth + 1, fmt, end);
    FullObject(LayoutObject(names, entries, depth, fmt) + post, nl, tabs, FromKey(names, entries, depth + 1, fmt, end),
               RetaggedMembers(members), post);
  }

  lemma Indents(depth: nat, fmt: bool)
    ensures var indent, nl, tabs := If(fmt, Tabs(depth)), If(fmt, "\n"), If(fmt, Tabs(depth + 1));
      Blank(nl) && Blank(tabs) && Blank(indent) && Blank(nl + tabs) && Blank(nl + indent)
  {
  }

  lemma KeyHead(members: seq<Member>)
    requires members != []
    ensures PrintKeys(members)[0] == Quoted(members[0].key) && Quoted(members[0].key)[0] == '"'
  {
  }

  lemma FullObject(s: bytes, nl: bytes, tabs: bytes, key: bytes, members: seq<Member>, post: bytes)
    requires Blank(nl + tabs) && Head(s) == '{' && s[1..] == nl + (tabs + key)
    requires Head(key) == '"' && ParseMembers(key) == Parsed(members, post)
    ensures ParseObjectSpec(s) == Parsed(Obj(members), post)
  {
    hide ParseMembers;
    Regroup(nl, tabs, key);
    SkipBlank(nl + tabs, key);
  }

  lemma EmptyObject(s: bytes, nl: bytes, indent: bytes, post: bytes)
    requires Blank(nl + indent)
    requires Head(s) == '{' && s[1..] == nl + ([] + (indent + ("}" + post)))
    ensures ParseObjectSpec(s) == Parsed(Obj([]), post)
  {
    hide ParseMembers;
    assert [] + (indent + ("}" + post)) == indent + ("}" + post);
    Regroup(nl, indent, "}" + post);
    SkipBlank(nl + indent, "}" + post);
    assert ("}" + post)[1..] == post;
  }

  /** The text of a printed object after its opening brace. */
  lemma ObjectText(names: seq<bytes>, entries: seq<bytes>, depth: nat, fmt: bool, post: bytes)
    requires |names| == |entries|
    ensures var s := LayoutObject(names, entries, depth, fmt) + post;
      Head(s) == '{' &&
      s[1..] == If(fmt, "\n") + (JoinMembers(names, entries, depth + 1, fmt) + (If(fmt, Tabs(depth)) + ("}" + post)))
  {
    var nl, body, indent := If(fmt, "\n"), JoinMembers(names, entries, depth + 1, fmt), If(fmt, Tabs(depth));
    hide JoinMembers, Tabs, If;
    Nested("{", nl, body, indent, "}", post);
    var s := "{" + (nl + (body + (indent + ("}" + post))));
    assert s[1..] == nl + (body + (indent + ("}" + post)));
  }

  /** The text of an object's members from the first key on, past its indentation. */
  function FromKey(names: seq<bytes>, entries: seq<bytes>, depth: nat, fmt: bool, end: bytes): bytes
    requires |names| == |entries| > 0
  {
    names[0] + (":" + If(fmt, "\t") + (entries[0] + AfterMemberText(names, entries, depth, fmt, end)))
  }

  function AfterMemberText(names: seq<bytes>, entries: seq<bytes>, depth: nat, fmt: bool, end: bytes): bytes
    requires |names| == |entries| > 0
  {
    If(|names| > 1, ",") + If(fmt, "\n") + (JoinMembers(names[1..], entries[1..], depth, fmt) + end)
  }

  lemma MembersHead(names: seq<bytes>, entries: seq<bytes>, depth: nat, fmt: bool, end: bytes)
    requires |names| == |entries| > 0
    requires names[0] != [] && names[0][0] == '"'
    ensures JoinMembers(names, entries, depth, fmt) + end == If(fmt, Tabs(depth)) + FromKey(names, entries, depth, fmt, end)
    ensures Head(FromKey(names, entries, depth, fmt, end)) == '"'
  {
    var gap, sep, rest := ":" + If(fmt, "\t"), If(|names| > 1, ",") + If(fmt, "\n"), JoinMembers(names[1..], entries[1..], depth, fmt);
    hide JoinMembers, If, Tabs;
    Nested(If(fmt, Tabs(depth)), names[0], gap, entries[0], sep + rest, end);
    Regroup(sep, rest, end);
  }

  /** Past one member the parser is at the next key, or past the closing brace. */
  lemma AfterMemberReadsBack(names: seq<bytes>, entries: seq<bytes>, depth: nat, fmt: bool, indent: bytes, post: bytes)
    requires |names| == |entries| > 0 && Blank(indent)
    requires |names| > 1 ==> names[1..][0] != [] && names[1..][0][0] == '"'
    ensures EndsNumber(AfterMemberText(names, entries, depth, fmt, indent + ("}" + post)))
    ensures AfterMember(Skip(AfterMemberText(names, entries, depth, fmt, indent + ("}" + post))))
         == if |names| == 1 then Parsed([], post)
            else ParseMembers(FromKey(names[1..], entries[1..], depth, fmt, indent + ("}" + post)))
  {
    var end, nl := indent + ("}" + post), If(fmt, "\n");
    var text := AfterMemberText(names, entries, depth, fmt, end);
    MemberSeparator(names, entries, depth, fmt, end);
    Indents(depth, fmt);
    hide AfterMemberText, JoinMembers, FromKey, AfterMember, ParseMembers, Skip, Blank, EndsNumber, If, Tabs;
    if |names| == 1 {
      LastMember(text, nl, indent, post);
    } else {
      MembersHead(names[1..], entries[1..], depth, fmt, end);
      NextMember(text, nl, If(fmt, Tabs(depth)), FromKey(names[1..], entries[1..], depth, fmt, end));
    }
  }

  /** What stands between a member and what follows it. */
  lemma MemberSeparator(names: seq<bytes>, entries: seq<bytes>, depth: nat, fmt: bool, end: bytes)
    requires |names| == |entries| > 0
    ensures var text, nl := AfterMemberText(names, entries, depth, fmt, end), If(fmt, "\n");
      text == if |names| == 1 then nl + end else "," + (nl + (JoinMembers(names[1..], entries[1..], depth, fmt) + end))
  {
    var nl, rest := If(fmt, "\n"), JoinMembers(names[1..], entries[1..], depth, fmt) + end;
    assert AfterMemberText(names, entries, depth, fmt, end) == (If(|names| > 1, ",") + nl) + rest;
    if |names| == 1 {
      assert rest == end && [] + nl == nl;
    } else {
      hide JoinMembers, AfterMemberText;
      Regroup(",", nl, rest);
    }
  }

  lemma LastMember(text: bytes, nl: bytes, indent: bytes, post: bytes)
    requires Blank(nl) && Blank(indent) && text == nl + (indent + ("}" + post))
    ensures EndsNumber(text) && AfterMember(Skip(text)) == Parsed([], post)
  {
    Regroup(nl, indent, "}" + post);
    assert Blank(nl + indent);
    SkipBlank(nl + indent, "}" + post);
    assert ("}" + post)[1..] == post;
    if nl + indent == [] {
      assert text == "}" + post;
    } else {
      assert text[0] == (nl + indent)[0];
    }
  }

  lemma NextMember(text: bytes, nl: bytes, tabs: bytes, key: bytes)
    requires Blank(nl) && Blank(tabs) && text == "," + (nl + (tabs + key)) && Head(key) > ' '
    ensures EndsNumber(text) && AfterMember(Skip(text)) == ParseMembers(key)
  {
    hide ParseMembers;
    assert text[1..] == nl + (tabs + key);
    Regroup(nl, tabs, key);
    assert Blank(nl + tabs);
    SkipBlank(nl + tabs, key);
  }

  /** One printed member parses back as itself. */
  lemma MemberRoundTrip(member: Member, entry: bytes, fmt: bool, tail: bytes)
    requires NulFree(member.key)
    requires Head(entry + tail) > ' '
    requires ParseValueSpec(entry + tail) == Parsed(Retagged(member.value), tail)
    ensures ParseMember(Quoted(member.key) + (":" + If(fmt, "\t") + (entry + tail)))
         == Parsed(Member(member.key, Retagged(member.value)), tail)
  {
    hide ParseValueSpec, Quoted, Retagged;
    var colon := ":" + If(fmt, "\t") + (entry + tail);
    StringRoundTrip(member.key, colon);
    hide ParseStringSpec;
    assert colon[1..] == If(fmt, "\t") + (entry + tail);
    SkipBlank(If(fmt, "\t"), entry + tail);
  }

  lemma {:induction false} MembersRoundTrip(members: seq<Member>, depth: nat, fmt: bool, indent: bytes, post: bytes)
    requires members != [] && Blank(indent)
    requires Printable(Obj(members)) && PrintsItsIntegers(Obj(members))
    ensures ParseMembers(FromKey(PrintKeys(members), PrintValues(members, depth, fmt), depth, fmt, indent + ("}" + post)))
         == Parsed(RetaggedMembers(members), post)
    decreases members, 1
  {
    var names, entries := PrintKeys(members), PrintValues(members, depth, fmt);
    var value, tail := members[0].value, AfterMemberText(names, entries, depth, fmt, indent + ("}" + post));
    assert names[1..] == PrintKeys(members[1..]) && entries[1..] == PrintValues(members[1..], depth, fmt);
    assert names[0] == Quoted(members[0].key) && entries[0] == Print(value, depth, fmt);
    hide JoinMembers, AfterMemberText, AfterMember, Print, ParseValueSpec, ParseMember, ParseMembers, Skip, PrintKeys, PrintValues, Blank, EndsNumber, FromKey;
    if |members| > 1 {
      KeyHead(members[1..]);
      MembersRoundTrip(members[1..], depth, fmt, indent, post);
    }
    hide Printable, PrintsItsIntegers, Quoted;
    AfterMemberReadsBack(names, entries, depth, fmt, indent, post);
    FirstMember(members, depth, fmt, tail);
    MembersStep(FromKey(names, entries, depth, fmt, indent + ("}" + post)), Member(members[0].key, Retagged(value)), tail)
      by { KeyText(names, entries, depth, fmt, indent + ("}" + post)); }
    hide Retagged;
  }

  lemma KeyText(names: seq<bytes>, entries: seq<bytes>, depth: nat, fmt: bool, end: bytes)
    requires |names| == |entries| > 0
    ensures FromKey(names, entries, depth, fmt, end)
         == names[0] + (":" + If(fmt, "\t") + (entries[0] + AfterMemberText(names, entries, depth, fmt, end)))
  {
  }

  lemma FirstMember(members: seq<Member>, depth: nat, fmt: bool, tail: bytes)
    requires members != [] && Printable(Obj(members)) && PrintsItsIntegers(Obj(members)) && EndsNumber(tail)
    ensures var m := members[0];
      ParseMember(Quoted(m.key) + (":" + If(fmt, "\t") + (Print(m.value, depth, fmt) + tail)))
      == Parsed(Member(m.key, Retagged(m.value)), tail)
    decreases members, 0
  {
    var m := members[0];
    hide Print, ParseValueSpec, ParseMember, Quoted, EndsNumber;
    RoundTrip(m.value, depth, fmt, tail);
    PrintHead(m.value, depth, fmt, tail);
    MemberRoundTrip(m, Print(m.value, depth, fmt), fmt, tail);
  }

  lemma MembersStep(s: bytes, m: Member, tail: bytes)
    requires ParseMember(s) == Parsed(m, tail)
    ensures ParseMembers(s) == Append([m], AfterMember(Skip(tail)))
  {
    hide ParseMember, AfterMember, Skip;
  }

  /** cJSON_Parse undoes cJSON_Print and cJSON_PrintUnformatted. */
  lemma ParseUndoesPrint(t: Json, fmt: bool)
    requires Printable(t) && PrintsItsIntegers(t)
    ensures ParseText(Print(t, 0, fmt)) == Parsed(Retagged(t), [])
  {
    var s := Print(t, 0, fmt);
    assert s + [] == s;
    PrintHead(t, 0, fmt, []);
    RoundTrip(t, 0, fmt, []);
  }
}
