/** The index cache of util/CJsonObject.cpp over an array's child list: wrappers handed out by
    operator[](unsigned) and which of them each edit throws away. */
module ArrayCache {
  import opened Bytes
  import opened ListEdits

  /** Widths of int and unsigned int. */
  const INT_LIMIT: int := 0x8000_0000
  const UINT_LIMIT: int := 0x1_0000_0000

  function ToInt(u: nat): int {
    if u < INT_LIMIT then u else u - UINT_LIMIT
  }

  function ToUnsigned(i: int): nat
    requires -INT_LIMIT <= i < INT_LIMIT
  {
    if i < 0 then i + UINT_LIMIT else i
  }

  // ---------- Lists with a cache ----------

  type Cache<T> = map<nat, Option<T>>

  /** The items of an array, and for each cached index what its wrapper refers to. */
  datatype Cached<T> = Cached(items: seq<T>, cache: Cache<T>)

  /** What the wrapper of index `k` should refer to. */
  function Referent<T>(items: seq<T>, k: nat): Option<T> {
    if k < |items| then Some(items[k]) else None
  }

  /** Every cached wrapper refers to the item now at its index, or to nothing past the end. */
  ghost predicate Agrees<T>(v: Cached<T>) {
    forall k :: k in v.cache ==> v.cache[k] == Referent(v.items, k)
  }

  /** A list of distinct items that an int can count. */
  ghost predicate Proper<T>(items: seq<T>) {
    |items| < INT_LIMIT && forall i, j :: 0 <= i < j < |items| ==> items[i] != items[j]
  }

  function Below<T>(cache: Cache<T>, from: nat): Cache<T> {
    map k | k in cache && k < from :: cache[k]
  }

  /** operator[](unsigned). */
  function Indexed<T>(v: Cached<T>, k: nat): Cached<T> {
    if k in v.cache then v else v.(cache := v.cache[k := ItemAt(v.items, ToInt(k))])
  }

  /** Add and AddAsFirst of an object, and of a scalar, which leave the cache alone. */
  function Appended<T>(v: Cached<T>, item: T): Cached<T> {
    Cached(v.items + [item], Below(v.cache, |v.items|))
  }

  function Prepended<T>(v: Cached<T>, item: T): Cached<T> {
    Cached([item] + v.items, map[])
  }

  function ScalarAppended<T>(v: Cached<T>, item: T): Cached<T> {
    v.(items := v.items + [item])
  }

  function ScalarPrepended<T>(v: Cached<T>, item: T): Cached<T> {
    v.(items := [item] + v.items)
  }

  function Deleted<T>(v: Cached<T>, i: int): Cached<T>
    requires -INT_LIMIT <= i < INT_LIMIT
  {
    Cached(Without(v.items, i), Below(v.cache, ToUnsigned(i)))
  }

  /** Replace with an object, and with a scalar, which drops the wrapper even when there is no
      such item. */
  function Replaced<T>(v: Cached<T>, i: int, item: T): Cached<T>
    requires -INT_LIMIT <= i < INT_LIMIT
  {
    if ItemAt(v.items, i).None? then v else Cached(With(v.items, i, item), v.cache - {ToUnsigned(i)})
  }

  function ScalarReplaced<T>(v: Cached<T>, i: int, item: T): Cached<T>
    requires -INT_LIMIT <= i < INT_LIMIT
  {
    Cached(With(v.items, i, item), v.cache - {ToUnsigned(i)})
  }

  // ---------- When the cache stays right ----------

  /** Looking an index up caches the right item exactly when the index fits an int, was cached
      already, or the array is empty: a larger one is converted to a negative number, which
      means the head. */
  lemma IndexedIff<T>(v: Cached<T>, k: nat)
    requires Agrees(v) && Proper(v.items) && k < UINT_LIMIT
    ensures Agrees(Indexed(v, k)) <==> k in v.cache || k < INT_LIMIT || v.items == []
  {
    var w := Indexed(v, k);
    assert k in w.cache;
    if k !in v.cache && (k < INT_LIMIT || v.items == []) {
      assert w.cache[k] == Referent(v.items, k);
    } else if k !in v.cache {
      assert w.cache[k] == Some(v.items[0]) && Referent(v.items, k) == None;
    }
  }

  lemma AppendKeeps<T>(v: Cached<T>, item: T)
    requires Agrees(v)
    ensures Agrees(Appended(v, item))
  {
    var w := Appended(v, item);
    forall k | k in w.cache ensures w.cache[k] == Referent(w.items, k) {
      assert v.cache[k] == Referent(v.items, k);
    }
  }

  /** Appending a scalar keeps the cache right exactly when the index past the end was never
      looked up. */
  lemma ScalarAppendIff<T>(v: Cached<T>, item: T)
    requires Agrees(v)
    ensures Agrees(ScalarAppended(v, item)) <==> |v.items| !in v.cache
  {
    var w, n := ScalarAppended(v, item), |v.items|;
    if n in v.cache {
      assert v.cache[n] == Referent(v.items, n) == None && Referent(w.items, n) == Some(item);
    } else {
      forall k | k in w.cache ensures w.cache[k] == Referent(w.items, k) {
        assert v.cache[k] == Referent(v.items, k);
      }
    }
  }

  /** Prepending a scalar keeps the cache right exactly when nothing up to the old end was
      looked up. */
  lemma ScalarPrependIff<T>(v: Cached<T>, item: T)
    requires Agrees(v) && Proper(v.items) && item !in v.items
    ensures Agrees(ScalarPrepended(v, item)) <==> forall k :: k in v.cache ==> k > |v.items|
  {
    var w := ScalarPrepended(v, item);
    if k :| k in v.cache && k <= |v.items| {
      assert v.cache[k] == Referent(v.items, k);
      assert w.items[k] == if k == 0 then item else v.items[k - 1];
      assert w.cache[k] != Referent(w.items, k);
    } else {
      forall k | k in w.cache ensures w.cache[k] == Referent(w.items, k) {
        assert v.cache[k] == Referent(v.items, k);
      }
    }
  }

  /** Deleting keeps the cache right exactly when the index is not negative, or nothing is
      deleted, or no wrapper refers to an item: a negative index deletes the head, and the
      conversion to unsigned makes it throw no wrapper away. */
  lemma DeleteIff<T>(v: Cached<T>, i: int)
    requires Agrees(v) && Proper(v.items) && -INT_LIMIT <= i < INT_LIMIT
    ensures Agrees(Deleted(v, i)) <==> i >= 0 || v.items == [] || forall k :: k in v.cache ==> k >= |v.items|
  {
    var w := Deleted(v, i);
    if i < 0 && v.items != [] {
      assert w.items == v.items[1..];
      if k :| k in v.cache && k < |v.items| {
        assert v.cache[k] == Referent(v.items, k);
        assert k in w.cache && w.cache[k] != Referent(w.items, k);
      } else {
        forall k | k in w.cache ensures w.cache[k] == Referent(w.items, k) {
          assert v.cache[k] == Referent(v.items, k);
        }
      }
    } else {
      forall k | k in w.cache ensures w.cache[k] == Referent(w.items, k) {
        assert v.cache[k] == Referent(v.items, k);
      }
    }
  }

  /** Replacing keeps the cache right exactly when the index is not negative, or there is no
      item, or the head, which a negative index replaces, has no wrapper. */
  lemma ReplaceIff<T>(v: Cached<T>, i: int, item: T)
    requires Agrees(v) && Proper(v.items) && -INT_LIMIT <= i < INT_LIMIT && item !in v.items
    ensures Agrees(Replaced(v, i, item)) <==> i >= 0 || v.items == [] || 0 !in v.cache
    ensures Agrees(ScalarReplaced(v, i, item)) <==> i >= 0 || v.items == [] || 0 !in v.cache
  {
    var w := ScalarReplaced(v, i, item);
    if i < 0 && v.items != [] && 0 in v.cache {
      assert v.cache[0] == Referent(v.items, 0) == Some(v.items[0]);
      assert 0 in w.cache && w.cache[0] != Referent(w.items, 0);
    } else {
      forall k | k in w.cache ensures w.cache[k] == Referent(w.items, k) {
        assert v.cache[k] == Referent(v.items, k);
      }
    }
  }

  // ---------- Inputs on which it does not ----------

  /** The first item looked up, and then deleted by the index -1. */
  lemma DeleteGoesWrong()
    ensures var v := Cached([10, 20], map[0 := Some(10)]);
      Agrees(v) && Deleted(v, -1) == Cached([20], map[0 := Some(10)]) && !Agrees(Deleted(v, -1))
  {
    var v := Cached([10, 20], map[0 := Some(10)]);
    assert Without(v.items, -1) == [20];
    assert Deleted(v, -1).cache == v.cache;
    assert 0 in Deleted(v, -1).cache && Referent([20], 0) == Some(20);
  }

  /** The first index of an empty array looked up, and then a scalar added there. */
  lemma ScalarAppendGoesWrong()
    ensures var v: Cached<int> := Cached([], map[0 := None]);
      Agrees(v) && ScalarAppended(v, 10) == Cached([10], map[0 := None]) && !Agrees(ScalarAppended(v, 10))
  {
    var v: Cached<int> := Cached([], map[0 := None]);
    assert 0 in ScalarAppended(v, 10).cache;
  }

  /** The first item looked up, and then replaced by the index -1. */
  lemma ReplaceGoesWrong()
    ensures var v := Cached([10], map[0 := Some(10)]);
      Agrees(v) && Replaced(v, -1, 20) == Cached([20], map[0 := Some(10)]) && !Agrees(Replaced(v, -1, 20))
  {
    var v := Cached([10], map[0 := Some(10)]);
    assert Replaced(v, -1, 20).items == [20] && Replaced(v, -1, 20).cache == v.cache;
    assert 0 in v.cache && Referent([20], 0) == Some(20);
  }

  // ---------- Runs ----------

  datatype Op<T> =
    | Index(k: nat)
    | AddLast(item: T)
    | AddFirst(item: T)
    | Delete(i: int)
    | Replace(i: int, item: T)

  function Apply<T>(v: Cached<T>, op: Op<T>): Cached<T>
    requires op.Delete? || op.Replace? ==> -INT_LIMIT <= op.i < INT_LIMIT
  {
    match op
    case Index(k) => Indexed(v, k)
    case AddLast(item) => Appended(v, item)
    case AddFirst(item) => Prepended(v, item)
    case Delete(i) => Deleted(v, i)
    case Replace(i, item) => Replaced(v, i, item)
  }

  /** Indexes that are ints and not negative, new items that are new, and an array an int can
      count. */
  ghost predicate Allowed<T>(v: Cached<T>, op: Op<T>) {
    match op
    case Index(k) => k < INT_LIMIT
    case AddLast(item) => item !in v.items && |v.items| + 1 < INT_LIMIT
    case AddFirst(item) => item !in v.items && |v.items| + 1 < INT_LIMIT
    case Delete(i) => 0 <= i < INT_LIMIT
    case Replace(i, item) => 0 <= i < INT_LIMIT && item !in v.items
  }

  lemma OpKeeps<T>(v: Cached<T>, op: Op<T>)
    requires Agrees(v) && Proper(v.items) && Allowed(v, op)
    ensures Agrees(Apply(v, op)) && Proper(Apply(v, op).items)
  {
    match op
    case Index(k) => IndexedIff(v, k);
    case AddLast(item) => AppendKeeps(v, item);
    case AddFirst(item) =>
    case Delete(i) =>
      DeleteIff(v, i);
      if i < |v.items| {
        assert forall j :: 0 <= j < |Without(v.items, i)| ==> Without(v.items, i)[j] == v.items[if j < i then j else j + 1];
      }
    case Replace(i, item) => ReplaceIff(v, i, item);
  }

  ghost predicate IsRun<T>(v: Cached<T>, ops: seq<Op<T>>)
    decreases |ops|
  {
    ops == [] || (Allowed(v, ops[0]) && IsRun(Apply(v, ops[0]), ops[1..]))
  }

  ghost function Final<T>(v: Cached<T>, ops: seq<Op<T>>): Cached<T>
    requires IsRun(v, ops)
    decreases |ops|
  {
    if ops == [] then v else Final(Apply(v, ops[0]), ops[1..])
  }

  /** Over any sequence of look-ups, additions of objects, deletions and replacements with
      ordinary indexes, the cache agrees with the list. */
  lemma {:induction false} CacheAgrees<T>(v: Cached<T>, ops: seq<Op<T>>)
    requires Agrees(v) && Proper(v.items) && IsRun(v, ops)
    ensures Agrees(Final(v, ops)) && Proper(Final(v, ops).items)
    decreases |ops|
  {
    if ops != [] {
      OpKeeps(v, ops[0]);
      CacheAgrees(Apply(v, ops[0]), ops[1..]);
    }
  }

  /** Operations that neither exchange item `k` nor move it. */
  predicate Spares<T>(op: Op<T>, k: nat) {
    match op
    case Index(_) => true
    case AddLast(_) => true
    case AddFirst(_) => false
    case Delete(i) => i > k
    case Replace(i, _) => i != k
  }

  /** The cache forgets no more than it has to: over any such sequence of operations that never
      exchanges item `k` nor moves it, its wrapper stays the one that was handed out. */
  lemma {:induction false} WrapperStays<T>(v: Cached<T>, ops: seq<Op<T>>, k: nat)
    requires IsRun(v, ops) && k < |v.items| && k in v.cache
    requires forall i :: 0 <= i < |ops| ==> Spares(ops[i], k)
    ensures var w := Final(v, ops);
      k < |w.items| && w.items[k] == v.items[k] && k in w.cache && w.cache[k] == v.cache[k]
    decreases |ops|
  {
    if ops != [] {
      assert Spares(ops[0], k);
      assert forall i :: 0 <= i < |ops[1..]| ==> Spares(ops[1..][i], k) by {
        assert forall i :: 0 <= i < |ops[1..]| ==> ops[1..][i] == ops[i + 1];
      }
      WrapperStays(Apply(v, ops[0]), ops[1..], k);
    }
  }

  // ---------- The code ----------

  /** m_pJsonData and m_pExternJsonDataRef: neither is set, one is set but holds no array, or one
      holds an array. */
  datatype Root = NoData | OtherType | ArrayData

  class JsonArray {
    var root: Root
    const list: ItemList
    var cache: Cache<Node>       // m_mapJsonArrayRef

    ghost predicate Valid()
      reads this, list, list.spine
    {
      list.Valid() && |list.spine| < INT_LIMIT && (root != ArrayData ==> list.spine == [])
    }

    ghost function View(): Cached<Node>
      reads this, list
    {
      Cached(list.spine, cache)
    }

    constructor ()
      ensures Valid() && root == NoData && View() == Cached([], map[]) && fresh(list)
    {
      root, cache := NoData, map[];
      list := new ItemList();
    }

    method Lookup(k: nat) returns (ref: Option<Node>)
      requires Valid() && k < UINT_LIMIT
      modifies `cache
      ensures Valid() && View() == Indexed(old(View()), k) && ref == cache[k]
    {
      if k !in cache {
        var item: Node? := null;
        if root == ArrayData {
          item := list.GetArrayItem(ToInt(k));
        }
        var found: Option<Node> := None;
        if item != null {
          found := Some(item);
        }
        cache := cache[k := found];
      }
      ref := cache[k];
    }

    /** The loops that erase every wrapper from an index on. */
    method EraseFrom(from: nat)
      modifies `cache
      ensures cache == Below(old(cache), from)
    {
      var keys := cache.Keys;
      while keys != {}
        invariant keys <= cache.Keys <= old(cache).Keys
        invariant forall k :: k in cache ==> cache[k] == old(cache)[k] && (k in keys || k < from)
        invariant forall k :: k in old(cache) && k < from ==> k in cache
        decreases |keys|
      {
        var k :| k in keys;
        if k >= from {
          cache := cache - {k};
        }
        keys := keys - {k};
      }
    }

    /** The checks that start the additions; an object without data becomes an array. */
    method FocusForAdd() returns (ok: bool)
      requires Valid()
      modifies `root
      ensures Valid() && ok == (old(root) != OtherType)
      ensures root == if old(root) == OtherType then OtherType else ArrayData
    {
      if root == NoData {
        root := ArrayData;
      }
      ok := root == ArrayData;
    }

    /** Add(const CJsonObject&); `parsed` is what cJSON_Parse makes of its text. */
    method AddObject(parsed: Node?) returns (ok: bool)
      requires Valid() && |list.spine| + 1 < INT_LIMIT
      requires parsed != null ==> parsed !in list.spine && parsed.next == null && parsed.prev == null
      modifies this, list, list.spine, parsed
      ensures Valid() && ok == (old(root) != OtherType && parsed != null)
      ensures View() == if ok then Appended(old(View()), parsed) else old(View())
    {
      ok := FocusForAdd();
      if !ok || parsed == null {
        return false;
      }
      var before := list.GetArraySize();
      list.AddItemToArray(parsed);
      var after := list.GetArraySize();
      if after == before {
        return false;
      }
      EraseFrom(after - 1);
    }

    /** AddAsFirst(const CJsonObject&). */
    method AddObjectAsFirst(parsed: Node?) returns (ok: bool)
      requires Valid() && |list.spine| + 1 < INT_LIMIT
      requires parsed != null ==> parsed !in list.spine && parsed.next == null && parsed.prev == null
      modifies this, list, list.spine, parsed
      ensures Valid() && ok == (old(root) != OtherType && parsed != null)
      ensures View() == if ok then Prepended(old(View()), parsed) else old(View())
    {
      ok := FocusForAdd();
      if !ok || parsed == null {
        return false;
      }
      var before := list.GetArraySize();
      list.AddItemToArrayHead(parsed);
      var after := list.GetArraySize();
      if after == before {
        return false;
      }
      EraseFrom(0);
    }

    /** Add of a string, a number, a boolean or null, as the node made for it. */
    method AddScalar(item: Node) returns (ok: bool)
      requires Valid() && |list.spine| + 1 < INT_LIMIT
      requires item !in list.spine && item.next == null && item.prev == null
      modifies this, list, list.spine, item
      ensures Valid() && ok == (old(root) != OtherType)
      ensures View() == if ok then ScalarAppended(old(View()), item) else old(View())
    {
      ok := FocusForAdd();
      if ok {
        list.AddItemToArray(item);
      }
    }

    /** AddAsFirst of a scalar. */
    method AddScalarAsFirst(item: Node) returns (ok: bool)
      requires Valid() && |list.spine| + 1 < INT_LIMIT
      requires item !in list.spine && item.next == null && item.prev == null
      modifies this, list, list.spine, item
      ensures Valid() && ok == (old(root) != OtherType)
      ensures View() == if ok then ScalarPrepended(old(View()), item) else old(View())
    {
      ok := FocusForAdd();
      if ok {
        list.AddItemToArrayHead(item);
      }
    }

    /** Delete(int). */
    method DeleteAt(i: int) returns (ok: bool)
      requires Valid() && -INT_LIMIT <= i < INT_LIMIT
      modifies this, list, list.spine
      ensures Valid() && ok == (root == ArrayData) && root == old(root)
      ensures View() == if ok then Deleted(old(View()), i) else old(View())
    {
      ok := root == ArrayData;
      if ok {
        var _ := list.DetachItemFromArray(i);
        EraseFrom(ToUnsigned(i));
      }
    }

    /** Replace(int, const CJsonObject&). */
    method ReplaceObject(i: int, parsed: Node?) returns (ok: bool)
      requires Valid() && -INT_LIMIT <= i < INT_LIMIT && (parsed != null ==> parsed !in list.spine)
      modifies this, list, list.spine, parsed
      ensures Valid() && root == old(root)
      ensures ok == (root == ArrayData && parsed != null && ItemAt(old(list.spine), i).Some?)
      ensures View() == if ok then Replaced(old(View()), i, parsed) else old(View())
    {
      if root != ArrayData || parsed == null {
        return false;
      }
      list.ReplaceItemInArray(i, parsed);
      var c := list.GetArrayItem(i);
      if c == null {
        return false;
      }
      cache := cache - {ToUnsigned(i)};
      ok := true;
    }

    /** Replace with a scalar. */
    method ReplaceScalar(i: int, item: Node) returns (ok: bool)
      requires Valid() && -INT_LIMIT <= i < INT_LIMIT && item !in list.spine
      modifies this, list, list.spine, item
      ensures Valid() && root == old(root)
      ensures ok == (root == ArrayData && ItemAt(old(list.spine), i).Some?)
      ensures View() == if root == ArrayData then ScalarReplaced(old(View()), i, item) else old(View())
    {
      if root != ArrayData {
        return false;
      }
      cache := cache - {ToUnsigned(i)};
      list.ReplaceItemInArray(i, item);
      var c := list.GetArrayItem(i);
      ok := c != null;
    }
  }
}
