/** The child lists of util/cJSON.c: doubly linked nodes, edited in place. The list of an array
    or object node is represented by the sequence of its nodes. */
module ListEdits {
  import opened Bytes

  /** The links and the name of a cJSON item. */
  class Node {
    var next: Node?
    var prev: Node?
    var name: Option<bytes>      // string

    constructor ()
      ensures next == null && prev == null && name == None
    {
      next, prev, name := null, null, None;
    }
  }

  // ---------- The sequences the list edits stand for ----------

  /** An int index as the walking loops take it: a negative one stops at the head. */
  function Clamp(which: int): nat {
    if which < 0 then 0 else which
  }

  function ItemAt<T>(items: seq<T>, which: int): Option<T> {
    if Clamp(which) < |items| then Some(items[Clamp(which)]) else None
  }

  function Without<T>(items: seq<T>, which: int): seq<T> {
    if Clamp(which) < |items| then items[..Clamp(which)] + items[Clamp(which) + 1..] else items
  }

  function With<T>(items: seq<T>, which: int, item: T): seq<T> {
    if Clamp(which) < |items| then items[Clamp(which) := item] else items
  }

  /** cJSON_strcasecmp finds no difference. */
  predicate SameName(a: bytes, b: bytes) {
    |a| == |b| && forall i :: 0 <= i < |a| ==> Lower(a[i]) == Lower(b[i])
  }

  predicate Named(n: Node, name: bytes)
    reads n
  {
    n.name.Some? && SameName(n.name.value, name)
  }

  /** Two names are the same exactly when they have the same length and differ only in the case
      of Latin letters. */
  lemma SameNameIff(a: bytes, b: bytes)
    ensures SameName(a, b) <==>
      |a| == |b| && forall i :: 0 <= i < |a| ==>
        a[i] == b[i] || ('a' <= a[i] <= 'z' && a[i] as int == b[i] as int + 32) || ('a' <= b[i] <= 'z' && b[i] as int == a[i] as int + 32)
  {
    if |a| == |b| {
      forall i | 0 <= i < |a|
        ensures Lower(a[i]) == Lower(b[i]) <==>
          a[i] == b[i] || ('a' <= a[i] <= 'z' && a[i] as int == b[i] as int + 32) || ('a' <= b[i] <= 'z' && b[i] as int == a[i] as int + 32)
      {
      }
      hide Lower;
    }
  }

  /** What the edits do to a list, one with the other: an item that is exchanged is the one found
      at its index, and only there; one that is taken out again leaves the list it was put in;
      and a negative index means the head. */
  lemma EditsAgree<T>(items: seq<T>, which: int, item: T, other: int)
    requires 0 <= which < |items|
    ensures ItemAt(With(items, which, item), which) == Some(item)
    ensures 0 <= other && other != which ==> ItemAt(With(items, which, item), other) == ItemAt(items, other)
    ensures Without(With(items, which, item), which) == Without(items, which)
    ensures |Without(items, which)| == |items| - 1
    ensures 0 <= other < which ==> ItemAt(Without(items, which), other) == ItemAt(items, other)
    ensures which <= other ==> ItemAt(Without(items, which), other) == ItemAt(items, other + 1)
    ensures Without(items + [item], |items|) == items && Without([item] + items, 0) == items
    ensures other < 0 ==>
      ItemAt(items, other) == Some(items[0]) && Without(items, other) == items[1..] && With(items, other, item) == [item] + items[1..]
    ensures other >= |items| ==>
      ItemAt(items, other) == None && Without(items, other) == items && With(items, other, item) == items
  {
  }

  // ---------- The list ----------

  ghost predicate Distinct(s: seq<Node>) {
    forall i, j :: 0 <= i < j < |s| ==> s[i] != s[j]
  }

  function NextOf(s: seq<Node>, i: nat): Node?
    requires i < |s|
  {
    if i + 1 < |s| then s[i + 1] else null
  }

  function PrevOf(s: seq<Node>, i: nat): Node?
    requires i < |s|
  {
    if i == 0 then null else s[i - 1]
  }

  /** The links are those of the sequence: next and prev are inverse, and the first prev and the
      last next are null. */
  ghost predicate Linked(s: seq<Node>)
    reads s
  {
    forall i {:trigger NextOf(s, i)} {:trigger PrevOf(s, i)} ::
      0 <= i < |s| ==> s[i].next == NextOf(s, i) && s[i].prev == PrevOf(s, i)
  }

  /** Appending re-links the last node only. */
  lemma LinkedAppend(s: seq<Node>, item: Node)
    requires forall i :: 0 <= i < |s| ==> s[i].prev == PrevOf(s, i) && s[i].next == (if i == |s| - 1 then item else NextOf(s, i))
    requires item.next == null && item.prev == if s == [] then null else s[|s| - 1]
    ensures Linked(s + [item])
  {
    var t := s + [item];
    forall i | 0 <= i < |t| ensures t[i].next == NextOf(t, i) && t[i].prev == PrevOf(t, i) {
      if i < |s| {
        assert t[i] == s[i];
      }
    }
  }

  /** Dropping node `k` re-links its two neighbours only. */
  lemma LinkedWithout(s: seq<Node>, k: nat)
    requires k < |s|
    requires forall i :: 0 <= i < |s| && i != k ==>
      s[i].next == (if i + 1 == k then NextOf(s, k) else NextOf(s, i)) && s[i].prev == (if i == k + 1 then PrevOf(s, k) else PrevOf(s, i))
    ensures Linked(s[..k] + s[k + 1..])
  {
    var t := s[..k] + s[k + 1..];
    forall i | 0 <= i < |t| ensures t[i].next == NextOf(t, i) && t[i].prev == PrevOf(t, i) {
      var j := if i < k then i else i + 1;
      assert t[i] == s[j];
    }
  }

  /** Exchanging node `k` re-links its two neighbours only. */
  lemma LinkedWith(s: seq<Node>, k: nat, item: Node)
    requires k < |s| && item.next == NextOf(s, k) && item.prev == PrevOf(s, k)
    requires forall i :: 0 <= i < |s| && i != k ==>
      s[i].next == (if i + 1 == k then item else NextOf(s, i)) && s[i].prev == (if i == k + 1 then item else PrevOf(s, i))
    ensures Linked(s[k := item])
  {
    var t := s[k := item];
    forall i | 0 <= i < |t| ensures t[i].next == NextOf(t, i) && t[i].prev == PrevOf(t, i) {
      if i != k {
        assert t[i] == s[i];
      }
    }
  }

  lemma DistinctWithout(s: seq<Node>, k: nat)
    requires Distinct(s) && k < |s|
    ensures Distinct(s[..k] + s[k + 1..]) && s[k] !in s[..k] + s[k + 1..]
  {
    var t := s[..k] + s[k + 1..];
    assert forall i :: 0 <= i < |t| ==> t[i] == s[if i < k then i else i + 1];
  }

  lemma DistinctWith(s: seq<Node>, k: nat, item: Node)
    requires Distinct(s) && k < |s| && item !in s
    ensures Distinct(s[k := item]) && s[k] !in s[k := item]
  {
  }

  /** A node is nowhere else in its list. */
  predicate OnlyAt(s: seq<Node>, k: int) {
    0 <= k < |s| ==> forall i :: 0 <= i < |s| && i != k ==> s[i] != s[k]
  }

  lemma DistinctOnly(s: seq<Node>, k: int)
    requires Distinct(s)
    ensures OnlyAt(s, k - 1) && OnlyAt(s, k) && OnlyAt(s, k + 1)
  {
  }

  /** The neighbours of node `k` are other nodes of the list, and different ones. */
  lemma Neighbours(s: seq<Node>, k: nat)
    requires Distinct(s) && Linked(s) && k < |s|
    ensures s[k].prev == PrevOf(s, k) && s[k].next == NextOf(s, k)
    ensures k == 0 <==> s[k] == s[0]
    ensures s[k].prev != null ==> s[k].prev in s && s[k].prev != s[k] && s[k].prev != s[k].next
    ensures s[k].next != null ==> s[k].next in s && s[k].next != s[k]
    ensures OnlyAt(s, k - 1) && OnlyAt(s, k) && OnlyAt(s, k + 1)
  {
    DistinctOnly(s, k);
  }

  class ItemList {
    var child: Node?
    ghost var spine: seq<Node>

    ghost predicate Valid()
      reads this, spine
    {
      child == (if spine == [] then null else spine[0]) && Distinct(spine) && Linked(spine)
    }

    constructor ()
      ensures Valid() && spine == []
    {
      child, spine := null, [];
    }

    /** cJSON_GetArraySize. */
    method GetArraySize() returns (i: nat)
      requires Valid()
      ensures i == |spine|
    {
      i := 0;
      var c := child;
      while c != null
        invariant i <= |spine| && c == (if i < |spine| then spine[i] else null)
        decreases |spine| - i
      {
        assert c.next == NextOf(spine, i);
        i := i + 1;
        c := c.next;
      }
    }

    /** The loop all indexed operations start with. */
    method Walk(which: int) returns (c: Node?)
      requires Valid()
      ensures c == if Clamp(which) < |spine| then spine[Clamp(which)] else null
    {
      c := child;
      var left := which;
      ghost var i := 0;
      while c != null && left > 0
        invariant i <= |spine| && c == (if i < |spine| then spine[i] else null)
        invariant i <= Clamp(which) && (left > 0 ==> i + left == which) && (left <= 0 ==> i == Clamp(which))
        decreases |spine| - i
      {
        left := left - 1;
        assert c.next == NextOf(spine, i);
        c := c.next;
        i := i + 1;
      }
    }

    /** cJSON_GetArrayItem. */
    method GetArrayItem(item: int) returns (c: Node?)
      requires Valid()
      ensures c == if ItemAt(spine, item).Some? then ItemAt(spine, item).value else null
    {
      c := Walk(item);
    }

    /** cJSON_GetObjectItem, and the search that starts the other operations by name: the first
        item of that name, whose index is also given. */
    method GetObjectItem(name: bytes) returns (c: Node?, i: nat)
      requires Valid()
      ensures i <= |spine| && c == (if i < |spine| then spine[i] else null)
      ensures forall k :: 0 <= k < i ==> !Named(spine[k], name)
      ensures c != null ==> Named(c, name)
    {
      c, i := child, 0;
      while c != null && !Named(c, name)
        invariant i <= |spine| && c == (if i < |spine| then spine[i] else null)
        invariant forall k :: 0 <= k < i ==> !Named(spine[k], name)
        decreases |spine| - i
      {
        assert c.next == NextOf(spine, i);
        i := i + 1;
        c := c.next;
      }
    }

    /** The loop of cJSON_AddItemToArray. */
    method WalkToLast() returns (c: Node)
      requires Valid() && spine != []
      ensures c == spine[|spine| - 1]
    {
      c := child;
      ghost var i := 0;
      while c.next != null
        invariant 0 <= i < |spine| && c == spine[i] && c.next == NextOf(spine, i)
        decreases |spine| - i
      {
        c := c.next;
        assert c.next == NextOf(spine, i + 1);
        i := i + 1;
      }
    }

    /** cJSON_AddItemToArray. */
    method AddItemToArray(item: Node?)
      requires Valid()
      requires item != null ==> item !in spine && item.next == null && item.prev == null
      modifies this, spine`next, spine`prev, item
      ensures Valid() && spine == if item == null then old(spine) else old(spine) + [item]
      ensures item != null ==> item.name == old(item.name)
      ensures forall n :: n in old(spine) ==> n.name == old(n.name)
    {
      if item == null {
        return;
      }
      ghost var before := spine;
      if child == null {
        child := item;
      } else {
        var c := WalkToLast();
        c.next := item;
        item.prev := c;
      }
      spine := before + [item];
      LinkedAppend(before, item);
    }

    /** cJSON_AddItemToArrayHead. */
    method AddItemToArrayHead(item: Node?)
      requires Valid()
      requires item != null ==> item !in spine && item.next == null && item.prev == null
      modifies this, spine`next, spine`prev, item
      ensures Valid() && spine == if item == null then old(spine) else [item] + old(spine)
      ensures item != null ==> item.name == old(item.name)
      ensures forall n :: n in old(spine) ==> n.name == old(n.name)
    {
      if item == null {
        return;
      }
      ghost var before := spine;
      var c := child;
      if c == null {
        child := item;
      } else {
        assert c.prev == PrevOf(before, 0);
        item.prev := c.prev;
        item.next := c;
        c.prev := item;
        child := item;
      }
      spine := [item] + before;
      forall i | 0 <= i < |spine| ensures spine[i].next == NextOf(spine, i) && spine[i].prev == PrevOf(spine, i) {
        if i > 0 {
          assert spine[i] == before[i - 1];
          assert old(before[i - 1].prev == PrevOf(before, i - 1) && before[i - 1].next == NextOf(before, i - 1));
        }
      }
    }

    /** cJSON_AddItemToObject. */
    method AddItemToObject(name: bytes, item: Node?)
      requires Valid()
      requires item != null ==> item !in spine && item.next == null && item.prev == null
      modifies this, spine`next, spine`prev, item
      ensures Valid() && spine == if item == null then old(spine) else old(spine) + [item]
      ensures item != null ==> item.name == Some(name)
      ensures forall n :: n in old(spine) ==> n.name == old(n.name)
    {
      if item == null {
        return;
      }
      item.name := Some(name);
      AddItemToArray(item);
    }

    /** cJSON_DetachItemFromArray. */
    method DetachItemFromArray(which: int) returns (c: Node?)
      requires Valid()
      modifies this, spine`next, spine`prev
      ensures Valid() && spine == Without(old(spine), which)
      ensures c == if ItemAt(old(spine), which).Some? then ItemAt(old(spine), which).value else null
      ensures forall n :: n in old(spine) ==> n.name == old(n.name)
      ensures c != null ==> c.next == null && c.prev == null && c !in spine
    {
      c := Walk(which);
      if c == null {
        return;
      }
      ghost var k, before := Clamp(which), spine;
      assert c == before[k] && c.prev == PrevOf(before, k) && c.next == NextOf(before, k);
      DistinctOnly(before, k);
      DistinctWithout(before, k);
      hide Distinct;
      if c.prev != null {
        assert c.prev == before[k - 1];
        c.prev.next := c.next;
      }
      if c.next != null {
        assert c.next == before[k + 1];
        c.next.prev := c.prev;
      }
      if c == child {
        child := c.next;
      }
      c.prev, c.next := null, null;
      spine := before[..k] + before[k + 1..];
      LinkedWithout(before, k);
    }

    /** cJSON_DetachItemFromObject: the first item of the name. */
    method DetachItemFromObject(name: bytes) returns (c: Node?, i: nat)
      requires Valid()
      modifies this, spine`next, spine`prev
      ensures Valid() && i <= |old(spine)| && (forall k :: 0 <= k < i ==> !old(Named(spine[k], name)))
      ensures i == |old(spine)| ==> c == null && spine == old(spine)
      ensures i < |old(spine)| ==> c == old(spine)[i] && old(Named(spine[i], name)) && spine == Without(old(spine), i)
      ensures forall n :: n in old(spine) ==> n.name == old(n.name)
      ensures c != null ==> c.next == null && c.prev == null && c !in spine
    {
      c, i := GetObjectItem(name);
      if c != null {
        c := DetachItemFromArray(i);
      }
    }

    /** cJSON_ReplaceItemInArray; the item replaced is left without links. */
    method ReplaceItemInArray(which: int, newitem: Node)
      requires Valid() && newitem !in spine
      modifies this, spine`next, spine`prev, newitem
      ensures Valid() && spine == With(old(spine), which, newitem)
      ensures forall n :: n in old(spine) ==> n.name == old(n.name)
      ensures newitem.name == old(newitem.name)
      ensures Clamp(which) < |old(spine)| ==>
        (var c := old(spine)[Clamp(which)]; c.next == null && c.prev == null && c !in spine)
    {
      var c := Walk(which);
      if c == null {
        return;
      }
      ReplaceNode(c, newitem, Clamp(which));
    }

    method ReplaceNode(c: Node, newitem: Node, ghost k: nat)
      requires Valid() && k < |spine| && c == spine[k] && newitem !in spine
      modifies this, spine`next, spine`prev, newitem
      ensures Valid() && spine == old(spine)[k := newitem] && newitem.name == old(newitem.name)
      ensures c.next == null && c.prev == null && c !in spine
    {
      ghost var before := spine;
      DistinctWith(before, k, newitem);
      Neighbours(before, k);
      hide Distinct;
      Exchange(c, newitem);
      spine := before[k := newitem];
      forall i | 0 <= i < |before| && i != k
        ensures before[i].next == (if i + 1 == k then newitem else NextOf(before, i))
        ensures before[i].prev == (if i == k + 1 then newitem else PrevOf(before, i))
      {
        assert old(before[i].next == NextOf(before, i) && before[i].prev == PrevOf(before, i));
      }
      LinkedWith(before, k, newitem);
    }

    /** The links of ReplaceItemInArray: the new item takes the place of `c` between its
        neighbours. */
    method Exchange(c: Node, newitem: Node)
      requires c in spine && newitem !in spine && (child == c <==> c.prev == null)
      requires (c.prev != null ==> c.prev in spine && c.prev != c) && (c.next != null ==> c.next in spine && c.next != c)
      requires c.prev != null ==> c.prev != c.next
      modifies `child, spine`next, spine`prev, newitem`next, newitem`prev
      ensures newitem.next == old(c.next) && newitem.prev == old(c.prev) && newitem.name == old(newitem.name)
      ensures c.next == null && c.prev == null && child == if old(c.prev) == null then newitem else old(child)
      ensures forall n :: n in spine && n != c ==> n.next == if n == old(c.prev) then newitem else old(n.next)
      ensures forall n :: n in spine && n != c ==> n.prev == if n == old(c.next) then newitem else old(n.prev)
    {
      newitem.next := c.next;
      newitem.prev := c.prev;
      if newitem.next != null {
        newitem.next.prev := newitem;
      }
      if c == child {
        child := newitem;
      } else {
        newitem.prev.next := newitem;
      }
      c.next, c.prev := null, null;
    }

    /** cJSON_ReplaceItemInObject: the first item of the name; the new one takes the name as it
        is given. */
    method ReplaceItemInObject(name: bytes, newitem: Node) returns (i: nat)
      requires Valid() && newitem !in spine
      modifies this, spine`next, spine`prev, newitem
      ensures Valid() && i <= |old(spine)| && (forall k :: 0 <= k < i ==> !old(Named(spine[k], name)))
      ensures i == |old(spine)| ==> spine == old(spine) && newitem.name == old(newitem.name)
      ensures forall n :: n in old(spine) ==> n.name == old(n.name)
      ensures i < |old(spine)| ==>
        old(Named(spine[i], name)) && spine == With(old(spine), i, newitem) && newitem.name == Some(name)
    {
      var c: Node?;
      c, i := GetObjectItem(name);
      if c != null {
        newitem.name := Some(name);
        ReplaceItemInArray(i, newitem);
      }
    }
  }
}
