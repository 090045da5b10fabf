/** Values of util/cJSON.c and the two-mode printer: what it prints, and that the space it
    allocates for it is enough. */
module JsonValue {
  import opened Bytes
  import opened JsonString

  /** A parsed or constructed item. The sign tag of an integer only selects its printed form.
      Double is what the parser makes of a fraction or an exponent: mantissa * 10^exponent. */
  datatype Json =
    | Null
    | False
    | True
    | Int(sign: int, value: int)
    | Double(mantissa: int, exponent: int)
    | Str(text: bytes)
    | Arr(items: seq<Json>)
    | Obj(members: seq<Member>)

  datatype Member = Member(key: bytes, value: Json)

  // ---------- Printing ----------

  const UINT_MAX: int := 0xFFFF_FFFF
  const INT64_MIN: int := -0x8000_0000_0000_0000
  const INT64_MAX: int := 0x7FFF_FFFF_FFFF_FFFF

  /** What the printer is called on: stored integers, C strings, no floating-point numbers. */
  predicate Printable(t: Json) {
    match t
    case Int(sign, v) => (sign == 1 || sign == -1) && INT64_MIN <= v <= INT64_MAX
    case Double(_, _) => false
    case Str(text) => NulFree(text)
    case Arr(items) => forall i :: 0 <= i < |items| ==> Printable(items[i])
    case Obj(members) => forall i :: 0 <= i < |members| ==> NulFree(members[i].key) && Printable(members[i].value)
    case _ => true
  }

  /** print_int: "%d"/"%lld" for the signed tag; for the unsigned one "%u" of the value cut to
      32 bits when it is at most UINT_MAX, "%lu" otherwise. */
  function PrintInt(sign: int, v: int): bytes {
    if sign == -1 then SignedDecimal(v)
    else if v <= UINT_MAX then Decimal(v % 0x1_0000_0000)
    else Decimal(v)
  }

  function Tabs(n: nat): (r: bytes)
    ensures |r| == n
  {
    seq(n, _ => '\t')
  }

  function If(b: bool, s: bytes): bytes {
    if b then s else []
  }

  /** The text between the brackets of an array whose items print as `entries`. */
  function JoinItems(entries: seq<bytes>, fmt: bool): bytes {
    if entries == [] then []
    else entries[0] + If(|entries| > 1, "," + If(fmt, " ")) + JoinItems(entries[1..], fmt)
  }

  /** The text between the braces of an object. */
  function JoinMembers(names: seq<bytes>, entries: seq<bytes>, depth: nat, fmt: bool): bytes
    requires |names| == |entries|
  {
    if names == [] then []
    else
      If(fmt, Tabs(depth))
      + (names[0] + (":" + If(fmt, "\t") + (entries[0] + (If(|names| > 1, ",") + If(fmt, "\n")
      + JoinMembers(names[1..], entries[1..], depth, fmt)))))
  }

  function LayoutArray(entries: seq<bytes>, fmt: bool): bytes {
    "[" + JoinItems(entries, fmt) + "]"
  }

  function LayoutObject(names: seq<bytes>, entries: seq<bytes>, depth: nat, fmt: bool): bytes
    requires |names| == |entries|
  {
    "{" + (If(fmt, "\n") + (JoinMembers(names, entries, depth + 1, fmt) + (If(fmt, Tabs(depth)) + "}")))
  }

  function Print(t: Json, depth: nat, fmt: bool): bytes
    requires Printable(t)
    decreases t
  {
    match t
    case Null => "null"
    case False => "false"
    case True => "true"
    case Int(sign, v) => PrintInt(sign, v)
    case Str(text) => Quoted(text)
    case Arr(items) => LayoutArray(PrintAll(items, depth + 1, fmt), fmt)
    case Obj(members) => LayoutObject(PrintKeys(members), PrintValues(members, depth + 1, fmt), depth, fmt)
  }

  function PrintAll(items: seq<Json>, depth: nat, fmt: bool): (r: seq<bytes>)
    requires forall i :: 0 <= i < |items| ==> Printable(items[i])
    ensures |r| == |items|
    decreases items
  {
    if items == [] then [] else [Print(items[0], depth, fmt)] + PrintAll(items[1..], depth, fmt)
  }

  function PrintKeys(members: seq<Member>): (r: seq<bytes>)
    ensures |r| == |members|
  {
    if members == [] then [] else [Quoted(members[0].key)] + PrintKeys(members[1..])
  }

  function PrintValues(members: seq<Member>, depth: nat, fmt: bool): (r: seq<bytes>)
    requires forall i :: 0 <= i < |members| ==> Printable(members[i].value)
    ensures |r| == |members|
    decreases members
  {
    if members == [] then [] else [Print(members[0].value, depth, fmt)] + PrintValues(members[1..], depth, fmt)
  }

  /** Each member is its name, a colon and its value, on a line of its own in the layout with
      blanks, and with a comma between members. */
  lemma TwoMembers(m: bytes, v: bytes, n: bytes, w: bytes, depth: nat, fmt: bool)
    ensures var tabs := If(fmt, Tabs(depth));
      JoinMembers([m, n], [v, w], depth, fmt) ==
      tabs + m + ":" + If(fmt, "\t") + v + "," + If(fmt, "\n") + tabs + n + ":" + If(fmt, "\t") + w + If(fmt, "\n")
  {
    assert [m, n][1..] == [n] && [v, w][1..] == [w] && [n][1..] == [] && [w][1..] == [];
    assert JoinMembers([], [], depth, fmt) == [];
    var tabs, gap, nl := If(fmt, Tabs(depth)), If(fmt, "\t"), If(fmt, "\n");
    var last := JoinMembers([n], [w], depth, fmt);
    assert last == tabs + (n + (":" + gap + (w + ([] + nl + []))));
    assert JoinMembers([m, n], [v, w], depth, fmt) == tabs + (m + (":" + gap + (v + ("," + nl + last))));
    hide JoinMembers, If, Tabs;
    Flat(tabs, n, gap, w, nl, []);
    assert [] + nl == nl && nl + [] == nl;
    Flat(tabs, m, gap, v, "," + nl, last);
    Flattened(tabs, m, gap, v, nl, n, w);
  }

  lemma Flat(tabs: bytes, n: bytes, gap: bytes, w: bytes, sep: bytes, rest: bytes)
    ensures tabs + (n + (":" + gap + (w + (sep + rest)))) == tabs + n + ":" + gap + w + sep + rest
  {
  }

  lemma Flattened(tabs: bytes, m: bytes, gap: bytes, v: bytes, nl: bytes, n: bytes, w: bytes)
    ensures (tabs + m + ":" + gap + v + ("," + nl)) + (tabs + n + ":" + gap + w + nl)
         == tabs + m + ":" + gap + v + "," + nl + tabs + n + ":" + gap + w + nl
  {
    var a := tabs + m + ":" + gap + v;
    assert a + ("," + nl) == a + "," + nl;
    Append6(a + "," + nl, tabs, n, ":", gap, w, nl);
  }

  lemma Append6(a: bytes, b: bytes, c: bytes, d: bytes, e: bytes, f: bytes, g: bytes)
    ensures a + (b + c + d + e + f + g) == a + b + c + d + e + f + g
  {
  }

  /** An object of two members as it is printed. */
  lemma PrintedObject(k: bytes, v: Json, l: bytes, w: Json, depth: nat, fmt: bool)
    requires NulFree(k) && NulFree(l) && Printable(v) && Printable(w)
    ensures var t := Obj([Member(k, v), Member(l, w)]);
      var nl, tabs, gap := If(fmt, "\n"), If(fmt, Tabs(depth + 1)), If(fmt, "\t");
      && Printable(t)
      && Print(t, depth, fmt) == "{" + (nl + ((tabs + Quoted(k) + ":" + gap + Print(v, depth + 1, fmt) + "," + nl
           + tabs + Quoted(l) + ":" + gap + Print(w, depth + 1, fmt) + nl) + (If(fmt, Tabs(depth)) + "}")))
  {
    var members := [Member(k, v), Member(l, w)];
    assert members[1..] == [Member(l, w)] && members[1..][1..] == [];
    assert PrintKeys(members) == [Quoted(k), Quoted(l)];
    assert PrintValues(members, depth + 1, fmt) == [Print(v, depth + 1, fmt), Print(w, depth + 1, fmt)];
    TwoMembers(Quoted(k), Print(v, depth + 1, fmt), Quoted(l), Print(w, depth + 1, fmt), depth + 1, fmt);
    hide JoinMembers, If, Tabs, Quoted;
  }

  /** An array of two items as it is printed, whatever they are. */
  lemma PrintedItems(v: Json, w: Json, depth: nat, fmt: bool)
    requires Printable(v) && Printable(w)
    ensures var t := Arr([v, w]);
      Printable(t) && Print(t, depth, fmt) == "[" + (Print(v, depth + 1, fmt) + ("," + If(fmt, " ")) + Print(w, depth + 1, fmt)) + "]"
  {
    var items, a, b := [v, w], Print(v, depth + 1, fmt), Print(w, depth + 1, fmt);
    assert items[1..] == [w] && [w][1..] == [];
    assert PrintAll(items, depth + 1, fmt) == [a, b];
    TwoItems(a, b, fmt);
    hide JoinItems, If;
  }

  lemma TwoItems(a: bytes, b: bytes, fmt: bool)
    ensures JoinItems([a, b], fmt) == a + ("," + If(fmt, " ")) + b
  {
    assert [a, b][1..] == [b] && [b][1..] == [];
    assert JoinItems([b], fmt) == b + [] + [] == b;
    hide If;
  }

  /** The 22 bytes of print_int hold every 64-bit value and the NUL. */
  lemma PrintIntFits(sign: int, v: int)
    requires INT64_MIN <= v <= INT64_MAX
    ensures |PrintInt(sign, v)| + 1 <= 22
  {
    assert Pow10(5) == 100_000;
    assert Pow10(10) == 10_000_000_000;
    assert Pow10(15) == 1_000_000_000_000_000;
    assert Pow10(19) == 10_000_000_000_000_000_000;
    if v < 0 {
      DecimalLength(-v, 19);
    } else {
      DecimalLength(v, 19);
    }
    DecimalLength(v % 0x1_0000_0000, 19);
  }

  // ---------- Sizing the output buffers ----------

  /** The length print_array accumulates before it allocates. */
  function ArrayBudget(entries: seq<bytes>, fmt: bool): nat {
    if entries == [] then 5 else |entries[0]| + 2 + (if fmt then 1 else 0) + ArrayBudget(entries[1..], fmt)
  }

  /** The length print_object accumulates, `depth` being its own depth plus one. */
  function ObjectBudget(names: seq<bytes>, entries: seq<bytes>, depth: nat, fmt: bool): nat
    requires |names| == |entries|
  {
    if names == [] then 7 + (if fmt then depth else 0)
    else
      |entries[0]| + |names[0]| + 2 + (if fmt then 2 + depth else 0)
      + ObjectBudget(names[1..], entries[1..], depth, fmt)
  }

  lemma {:induction false} ArrayFits(entries: seq<bytes>, fmt: bool)
    ensures ArrayBudget(entries, fmt) ==
      |JoinItems(entries, fmt)| + 5 + if entries == [] then 0 else |entries| + if fmt then 2 else 1
  {
    if entries != [] {
      ArrayFits(entries[1..], fmt);
    }
  }

  lemma {:induction false} ObjectFits(names: seq<bytes>, entries: seq<bytes>, depth: nat, fmt: bool)
    requires |names| == |entries|
    ensures ObjectBudget(names, entries, depth, fmt) ==
      |JoinMembers(names, entries, depth, fmt)| + 7 + (if fmt then depth else 0) + if names == [] then 0 else 1
  {
    if names != [] {
      ObjectFits(names[1..], entries[1..], depth, fmt);
    }
  }

  /** What print_array and print_object write, the final NUL included, fits what they allocate;
      and how much is left over: an array keeps a byte and more for each item, and an object five
      or six in all. */
  lemma AllocationSuffices(names: seq<bytes>, entries: seq<bytes>, depth: nat, fmt: bool)
    requires |names| == |entries|
    ensures |LayoutArray(entries, fmt)| + 1 <= ArrayBudget(entries, fmt)
    ensures ArrayBudget(entries, fmt) - |LayoutArray(entries, fmt)| ==
      if entries == [] then 3 else |entries| + if fmt then 5 else 4
    ensures |LayoutObject(names, entries, depth, fmt)| + 1 <= ObjectBudget(names, entries, depth + 1, fmt)
    ensures ObjectBudget(names, entries, depth + 1, fmt) - |LayoutObject(names, entries, depth, fmt)| ==
      if names == [] then 5 else 6
  {
    ArrayFits(entries, fmt);
    ObjectFits(names, entries, depth + 1, fmt);
  }

  method SizeArray(entries: seq<bytes>, fmt: bool) returns (len: nat)
    ensures len == ArrayBudget(entries, fmt)
  {
    len := 5;
    var i := 0;
    while i < |entries|
      invariant 0 <= i <= |entries|
      invariant len + ArrayBudget(entries[i..], fmt) == 5 + ArrayBudget(entries, fmt)
    {
      assert entries[i..][1..] == entries[i + 1..];
      len := len + |entries[i]| + 2 + (if fmt then 1 else 0);
      i := i + 1;
    }
  }

  method SizeObject(names: seq<bytes>, entries: seq<bytes>, depth: nat, fmt: bool) returns (len: nat)
    requires |names| == |entries|
    ensures len == ObjectBudget(names, entries, depth, fmt)
  {
    len := 7;
    if fmt {
      len := len + depth;
    }
    var i := 0;
    while i < |names|
      invariant 0 <= i <= |names|
      invariant len + ObjectBudget(names[i..], entries[i..], depth, fmt)
             == 7 + (if fmt then depth else 0) + ObjectBudget(names, entries, depth, fmt)
    {
      assert names[i..][1..] == names[i + 1..] && entries[i..][1..] == entries[i + 1..];
      len := len + |entries[i]| + |names[i]| + 2 + (if fmt then 2 + depth else 0);
      i := i + 1;
    }
  }

  /** strcpy: the piece and a NUL; the cursor is left on the NUL. */
  method StrCpy(out: array<byte>, at: nat, piece: bytes) returns (next: nat)
    requires at + |piece| < out.Length
    modifies out
    ensures next == at + |piece|
    ensures out[..next] == old(out[..at]) + piece
  {
    next := Put(out, at, piece);
    ghost var done := out[..next];
    out[next] := '\0';
    assert out[..next] == done;
  }

  /** What the composing loop of print_array writes for entry `i`. */
  function ItemText(entries: seq<bytes>, i: nat, fmt: bool): bytes
    requires i < |entries|
  {
    entries[i] + If(i != |entries| - 1, "," + If(fmt, " "))
  }

  lemma JoinItemsAt(entries: seq<bytes>, i: nat, fmt: bool)
    requires i < |entries|
    ensures JoinItems(entries[i..], fmt) == ItemText(entries, i, fmt) + JoinItems(entries[i + 1..], fmt)
  {
    assert entries[i..][1..] == entries[i + 1..];
  }

  method PutItem(out: array<byte>, at: nat, entries: seq<bytes>, i: nat, fmt: bool) returns (next: nat)
    requires i < |entries| && at + |ItemText(entries, i, fmt)| < out.Length
    modifies out
    ensures next == at + |ItemText(entries, i, fmt)|
    ensures out[..next] == old(out[..at]) + ItemText(entries, i, fmt)
  {
    ghost var done := out[..at];
    next := StrCpy(out, at, entries[i]);
    if i != |entries| - 1 {
      next := StrCpy(out, next, "," + If(fmt, " "));
    }
    assert done + entries[i] + If(i != |entries| - 1, "," + If(fmt, " ")) == done + ItemText(entries, i, fmt);
  }

  lemma Regroup(done: bytes, piece: bytes, rest: bytes)
    ensures done + (piece + rest) == (done + piece) + rest
  {
  }

  lemma Nested(a: bytes, b: bytes, c: bytes, d: bytes, e: bytes, end: bytes)
    ensures (a + (b + (c + (d + e)))) + end == a + (b + (c + (d + (e + end))))
  {
    Regroup(d, e, end);
    Regroup(c, d + e, end);
    Regroup(b, c + (d + e), end);
    Regroup(a, b + (c + (d + e)), end);
  }

  /** The composing loop of print_array. */
  method FillItems(out: array<byte>, at: nat, entries: seq<bytes>, fmt: bool) returns (p: nat)
    requires at + |JoinItems(entries, fmt)| < out.Length
    modifies out
    ensures p == at + |JoinItems(entries, fmt)|
    ensures out[..p] == old(out[..at]) + JoinItems(entries, fmt)
  {
    ghost var all := out[..at] + JoinItems(entries, fmt);
    p := at;
    var i := 0;
    assert entries[0..] == entries;
    while i < |entries|
      invariant 0 <= i <= |entries|
      invariant p + |JoinItems(entries[i..], fmt)| < out.Length
      invariant out[..p] + JoinItems(entries[i..], fmt) == all
    {
      hide JoinItems, ItemText;
      JoinItemsAt(entries, i, fmt);
      Regroup(out[..p], ItemText(entries, i, fmt), JoinItems(entries[i + 1..], fmt));
      p := PutItem(out, p, entries, i, fmt);
      i := i + 1;
    }
    assert JoinItems(entries[|entries|..], fmt) == [];
  }

  /** The tail of print_array: size, allocate, compose; every write is within the allocation. */
  method ComposeArray(entries: seq<bytes>, fmt: bool) returns (text: bytes)
    ensures text == LayoutArray(entries, fmt)
  {
    hide JoinItems, JoinMembers;
    AllocationSuffices(entries, entries, 0, fmt);
    var len := SizeArray(entries, fmt);
    var out := new byte[len];
    var p := StrCpy(out, 0, "[");
    p := FillItems(out, p, entries, fmt);
    p := StrCpy(out, p, "]");
    text := out[..p];
  }

  /** What the composing loop of print_object writes for member `i`. */
  function MemberText(names: seq<bytes>, entries: seq<bytes>, i: nat, depth: nat, fmt: bool): bytes
    requires i < |names| == |entries|
  {
    If(fmt, Tabs(depth))
    + (names[i] + (":" + If(fmt, "\t") + (entries[i] + (If(i != |names| - 1, ",") + If(fmt, "\n")))))
  }

  lemma JoinMembersAt(names: seq<bytes>, entries: seq<bytes>, i: nat, depth: nat, fmt: bool)
    requires i < |names| == |entries|
    ensures JoinMembers(names[i..], entries[i..], depth, fmt)
         == MemberText(names, entries, i, depth, fmt) + JoinMembers(names[i + 1..], entries[i + 1..], depth, fmt)
  {
    assert names[i..][1..] == names[i + 1..] && entries[i..][1..] == entries[i + 1..];
    Nested(If(fmt, Tabs(depth)), names[i], ":" + If(fmt, "\t"), entries[i],
           If(i != |names| - 1, ",") + If(fmt, "\n"), JoinMembers(names[i + 1..], entries[i + 1..], depth, fmt));
  }

  method StrCpyTwo(out: array<byte>, at: nat, a: bytes, b: bytes) returns (next: nat)
    requires at + |a| + |b| < out.Length
    modifies out
    ensures next == at + |a| + |b|
    ensures out[..next] == old(out[..at]) + (a + b)
  {
    next := StrCpy(out, at, a);
    next := StrCpy(out, next, b);
    Regroup(old(out[..at]), a, b);
  }

  method PutMember(out: array<byte>, at: nat, names: seq<bytes>, entries: seq<bytes>, i: nat, depth: nat, fmt: bool)
    returns (next: nat)
    requires i < |names| == |entries| && at + |MemberText(names, entries, i, depth, fmt)| < out.Length
    modifies out
    ensures next == at + |MemberText(names, entries, i, depth, fmt)|
    ensures out[..next] == old(out[..at]) + MemberText(names, entries, i, depth, fmt)
  {
    var lead, gap := If(fmt, Tabs(depth)) + names[i], ":" + If(fmt, "\t");
    var tail := If(i != |names| - 1, ",") + If(fmt, "\n");
    Regroup(lead, gap, entries[i] + tail);
    Regroup(If(fmt, Tabs(depth)), names[i], gap + (entries[i] + tail));
    assert MemberText(names, entries, i, depth, fmt) == (lead + gap) + (entries[i] + tail);
    hide MemberText, If, Tabs;
    next := StrCpyTwo(out, at, lead, gap);
    next := StrCpyTwo(out, next, entries[i], tail);
    Regroup(old(out[..at]), lead + gap, entries[i] + tail);
  }

  /** The composing loop of print_object. */
  method FillMembers(out: array<byte>, at: nat, names: seq<bytes>, entries: seq<bytes>, depth: nat, fmt: bool)
    returns (p: nat)
    requires |names| == |entries|
    requires at + |JoinMembers(names, entries, depth, fmt)| < out.Length
    modifies out
    ensures p == at + |JoinMembers(names, entries, depth, fmt)|
    ensures out[..p] == old(out[..at]) + JoinMembers(names, entries, depth, fmt)
  {
    ghost var all := out[..at] + JoinMembers(names, entries, depth, fmt);
    p := at;
    var i := 0;
    assert names[0..] == names && entries[0..] == entries;
    while i < |names|
      invariant 0 <= i <= |names|
      invariant p + |JoinMembers(names[i..], entries[i..], depth, fmt)| < out.Length
      invariant out[..p] + JoinMembers(names[i..], entries[i..], depth, fmt) == all
    {
      hide JoinMembers, MemberText;
      JoinMembersAt(names, entries, i, depth, fmt);
      Regroup(out[..p], MemberText(names, entries, i, depth, fmt), JoinMembers(names[i + 1..], entries[i + 1..], depth, fmt));
      p := PutMember(out, p, names, entries, i, depth, fmt);
      i := i + 1;
    }
    assert JoinMembers(names[|names|..], entries[|names|..], depth, fmt) == [];
  }

  lemma ObjectLayout(names: seq<bytes>, entries: seq<bytes>, depth: nat, fmt: bool, open: bytes, close: bytes)
    requires |names| == |entries|
    requires open == "{" + If(fmt, "\n") && close == If(fmt, Tabs(depth)) + "}"
    ensures LayoutObject(names, entries, depth, fmt) == open + JoinMembers(names, entries, depth + 1, fmt) + close
    ensures |LayoutObject(names, entries, depth, fmt)| < ObjectBudget(names, entries, depth + 1, fmt)
  {
    ObjectFits(names, entries, depth + 1, fmt);
    var body := JoinMembers(names, entries, depth + 1, fmt);
    hide JoinMembers, ObjectBudget;
    Regroup("{", If(fmt, "\n"), body + close);
    Regroup(open, body, close);
  }

  method FillObject(out: array<byte>, open: bytes, names: seq<bytes>, entries: seq<bytes>, depth: nat, fmt: bool, close: bytes)
    returns (text: bytes)
    requires |names| == |entries|
    requires |open| + |JoinMembers(names, entries, depth, fmt)| + |close| < out.Length
    modifies out
    ensures text == open + JoinMembers(names, entries, depth, fmt) + close
  {
    hide JoinMembers;
    var p := StrCpy(out, 0, open);
    assert out[..p] == open;
    p := FillMembers(out, p, names, entries, depth, fmt);
    p := StrCpy(out, p, close);
    text := out[..p];
  }

  /** The tail of print_object. */
  method ComposeObject(names: seq<bytes>, entries: seq<bytes>, depth: nat, fmt: bool) returns (text: bytes)
    requires |names| == |entries|
    ensures text == LayoutObject(names, entries, depth, fmt)
  {
    hide JoinMembers, ObjectBudget, LayoutObject;
    var len := SizeObject(names, entries, depth + 1, fmt);
    var out := new byte[len];
    var open, close := "{" + If(fmt, "\n"), If(fmt, Tabs(depth)) + "}";
    ObjectLayout(names, entries, depth, fmt, open, close);
    text := FillObject(out, open, names, entries, depth + 1, fmt, close);
  }

  /** print_value. */
  method PrintValue(t: Json, depth: nat, fmt: bool) returns (text: bytes)
    requires Printable(t)
    ensures text == Print(t, depth, fmt)
    decreases t, 1
  {
    match t
    case Null => text := "null";
    case False => text := "false";
    case True => text := "true";
    case Int(sign, v) => text := PrintInt(sign, v);
    case Str(s) =>
      var out := PrintString(s);
      text := out[..out.Length - 1];
    case Arr(items) =>
      var entries := PrintItems(items, depth + 1, fmt);
      text := ComposeArray(entries, fmt);
    case Obj(members) =>
      var names, entries := PrintMembers(members, depth + 1, fmt);
      text := ComposeObject(names, entries, depth, fmt);
  }

  method PrintItems(items: seq<Json>, depth: nat, fmt: bool) returns (entries: seq<bytes>)
    requires forall i :: 0 <= i < |items| ==> Printable(items[i])
    ensures entries == PrintAll(items, depth, fmt)
    decreases items, 0
  {
    entries := [];
    var i := 0;
    while i < |items|
      invariant 0 <= i <= |items|
      invariant entries + PrintAll(items[i..], depth, fmt) == PrintAll(items, depth, fmt)
    {
      assert items[i..][1..] == items[i + 1..];
      var ret := PrintValue(items[i], depth, fmt);
      entries := entries + [ret];
      i := i + 1;
    }
  }

  method PrintMembers(members: seq<Member>, depth: nat, fmt: bool) returns (names: seq<bytes>, entries: seq<bytes>)
    requires forall i :: 0 <= i < |members| ==> NulFree(members[i].key) && Printable(members[i].value)
    ensures names == PrintKeys(members) && entries == PrintValues(members, depth, fmt)
    decreases members, 0
  {
    hide Printable, Quoted, NulFree, Print;
    names, entries := [], [];
    var i := 0;
    while i < |members|
      invariant 0 <= i <= |members|
      invariant names + PrintKeys(members[i..]) == PrintKeys(members)
      invariant entries + PrintValues(members[i..], depth, fmt) == PrintValues(members, depth, fmt)
    {
      assert members[i..][1..] == members[i + 1..];
      var out := PrintString(members[i].key);
      var ret := PrintValue(members[i].value, depth, fmt);
      names, entries := names + [out[..out.Length - 1]], entries + [ret];
      i := i + 1;
    }
  }
}
