/** base/ThreadSafeQueue.hpp: a linked queue with one lock for each end, as the interleaving
    of single memory accesses by any number of pushing and popping threads. A mutex is the
    slot of the one thread that holds it. */
module TwoLockQueue {
  import opened Bytes

  type Tid = nat
  type NodeId = nat
  type Value = int

  datatype Node = Node(val: Option<Value>, next: Option<NodeId>)

  /** How a pop hands over the value: tryPop()/waitAndPop() read it from the detached node after
      unlocking; the overloads taking a reference move it out before detaching. */
  datatype Kind = ByPointer | ByReference

  /** The next access of the thread that holds tailMutex_. */
  datatype TailPc =
    | PushVal          // tail_->val_ = newVal
    | PushNext         // tail_->next_ = std::move(p)
    | PushTail         // tail_ = newTail
    | PushUnlock

  datatype TailUser =
    | Pusher(tid: Tid, v: Value, p: NodeId, pc: TailPc)
    | Getter           // the holder of headMutex_, inside getTail

  /** The next access of the thread that holds headMutex_. */
  datatype HeadPc =
    | LockTail         // getTail
    | ReadTail         // getTail: return tail_
    | UnlockTail(seen: NodeId)
    | Compare(seen: NodeId)          // head_.get() == seen ?
    | ReadVal                        // x = std::move(*head_->val_)
    | TakeHead(x: Option<Value>)     // oldHead = std::move(head_)
    | Advance(x: Option<Value>, node: NodeId)  // head_ = std::move(oldHead->next_)
    | UnlockHead(popped: Detached)
    | UnlockEmpty      // found empty: tryPop gives up, the condition variable's wait unlocks

  datatype HeadUser = Popper(tid: Tid, kind: Kind, pc: HeadPc)

  /** A node taken off the queue and the value moved out of it, if any. `taken` is history: the
      value the queue lost by the head store. */
  datatype Detached = Detached(x: Option<Value>, node: NodeId, taken: Value)

  datatype Pending = Pending(v: Value, p: NodeId)

  datatype State = State(
    heap: map<NodeId, Node>,          // allocated nodes
    head: Option<NodeId>,             // head_; null while a popper moves it
    tail: NodeId,
    headUser: Option<HeadUser>,
    tailUser: Option<TailUser>,
    pushing: map<Tid, Pending>,       // threads about to lock tailMutex_, with what they allocated
    returning: map<Tid, Detached>,    // threads that have unlocked headMutex_ with a node
    chain: seq<NodeId>,               // history: the nodes from the head to the tail
    pushed: seq<Value>,               // history: values in the order of the tail_ stores
    popped: seq<Value>)               // history: values in the order of the head_ stores

  datatype Step =
    | Allocate(t: Tid, v: Value, p: NodeId)  // push, up to its lock; malloc chooses p
    | PushLocks(t: Tid)
    | PushGoes                               // the tail holder's next access
    | PopLocks(t: Tid, kind: Kind)           // any pop, or the retest of a waiting one
    | PopGoes                                // the head holder's next access
    | Return(t: Tid)                         // read the value if needed, free the node

  predicate IsIdle(s: State, t: Tid) {
    && t !in s.pushing && t !in s.returning
    && (s.headUser.Some? ==> s.headUser.value.tid != t)
    && (s.tailUser.Some? && s.tailUser.value.Pusher? ==> s.tailUser.value.tid != t)
  }

  predicate Enabled(s: State, step: Step) {
    match step
    case Allocate(t, _, p) => IsIdle(s, t) && p !in s.heap
    case PushLocks(t) => t in s.pushing && s.tailUser.None?
    case PushGoes => s.tailUser.Some? && s.tailUser.value.Pusher?
    case PopLocks(t, _) => IsIdle(s, t) && s.headUser.None?
    case PopGoes => s.headUser.Some? && (s.headUser.value.pc.LockTail? ==> s.tailUser.None?)
    case Return(t) => t in s.returning
  }

  /** The accesses of the step reach no missing pointer, freed node or absent value, and
      freeing a node does not free others through its next_. */
  predicate Safe(s: State, step: Step)
    requires Enabled(s, step)
  {
    match step
    case PushGoes =>
      s.tailUser.value.pc.PushVal? || s.tailUser.value.pc.PushNext? ==> s.tail in s.heap && s.heap[s.tail].next.None?
    case PopGoes =>
      (match s.headUser.value.pc
       case Compare(_) => s.head.Some?
       case ReadVal => s.head.Some? && s.head.value in s.heap && s.heap[s.head.value].val.Some?
       case TakeHead(_) => s.head.Some?
       case Advance(_, node) => node in s.heap && s.heap[node].next.Some? && s.heap[node].val.Some? && s.chain != []
       case _ => true)
    case Return(t) =>
      var d := s.returning[t];
      d.node in s.heap && s.heap[d.node].val.Some? && s.heap[d.node].next.None?
    case _ => true
  }

  function PushAccess(s: State, u: TailUser): State
    requires u.Pusher? && (u.pc.PushVal? || u.pc.PushNext? ==> s.tail in s.heap)
  {
    match u.pc
    case PushVal => s.(heap := s.heap[s.tail := s.heap[s.tail].(val := Some(u.v))], tailUser := Some(u.(pc := PushNext)))
    case PushNext => s.(heap := s.heap[s.tail := s.heap[s.tail].(next := Some(u.p))], tailUser := Some(u.(pc := PushTail)))
    case PushTail => s.(tail := u.p, chain := s.chain + [u.p], pushed := s.pushed + [u.v], tailUser := Some(u.(pc := PushUnlock)))
    case PushUnlock => s.(tailUser := None)
  }

  function PopAccess(s: State, u: HeadUser): State
    requires s.headUser == Some(u) && Enabled(s, PopGoes) && Safe(s, PopGoes)
  {
    match u.pc
    case LockTail => s.(tailUser := Some(Getter), headUser := Some(u.(pc := ReadTail)))
    case ReadTail => s.(headUser := Some(u.(pc := UnlockTail(s.tail))))
    case UnlockTail(seen) => s.(tailUser := None, headUser := Some(u.(pc := Compare(seen))))
    case Compare(seen) =>
      s.(headUser := Some(u.(pc :=
        if s.head.value == seen then UnlockEmpty else if u.kind.ByReference? then ReadVal else TakeHead(None))))
    case ReadVal => s.(headUser := Some(u.(pc := TakeHead(s.heap[s.head.value].val))))
    case TakeHead(x) => s.(head := None, headUser := Some(u.(pc := Advance(x, s.head.value))))
    case Advance(x, node) =>
      var val := s.heap[node].val.value;
      s.(head := s.heap[node].next, heap := s.heap[node := s.heap[node].(next := None)],
         chain := s.chain[1..], popped := s.popped + [val],
         headUser := Some(u.(pc := UnlockHead(Detached(x, node, val)))))
    case UnlockHead(d) => s.(headUser := None, returning := s.returning[u.tid := d])
    case UnlockEmpty => s.(headUser := None)
  }

  function Apply(s: State, step: Step): State
    requires Enabled(s, step) && Safe(s, step)
  {
    match step
    case Allocate(t, v, p) => s.(heap := s.heap[p := Node(None, None)], pushing := s.pushing[t := Pending(v, p)])
    case PushLocks(t) =>
      s.(tailUser := Some(Pusher(t, s.pushing[t].v, s.pushing[t].p, PushVal)), pushing := s.pushing - {t})
    case PushGoes => PushAccess(s, s.tailUser.value)
    case PopLocks(t, kind) => s.(headUser := Some(Popper(t, kind, LockTail)))
    case PopGoes => PopAccess(s, s.headUser.value)
    case Return(t) => s.(heap := s.heap - {s.returning[t].node}, returning := s.returning - {t})
  }

  /** What a popping thread that has unlocked hands to its caller. */
  function Result(s: State, t: Tid): Value
    requires t in s.returning && Safe(s, Return(t))
  {
    var d := s.returning[t];
    if d.x.Some? then d.x.value else s.heap[d.node].val.value
  }

  // ---------- The invariant ----------

  /** What the last node of the list holds, as far as the pusher has got. */
  function LastNode(u: Option<TailUser>): Node {
    if u.Some? && u.value.Pusher? && u.value.pc.PushNext? then Node(Some(u.value.v), None)
    else if u.Some? && u.value.Pusher? && u.value.pc.PushTail? then Node(Some(u.value.v), Some(u.value.p))
    else Node(None, None)
  }

  /** The list is linked from the head to the tail; every node but the last holds a value. */
  predicate ListOk(s: State) {
    && s.chain != []
    && (forall i :: 0 <= i < |s.chain| ==> s.chain[i] in s.heap)
    && (forall i, j :: 0 <= i < j < |s.chain| ==> s.chain[i] != s.chain[j])
    && (forall i :: 0 <= i < |s.chain| - 1 ==>
          s.heap[s.chain[i]].val.Some? && s.heap[s.chain[i]].next == Some(s.chain[i + 1]))
    && s.tail == s.chain[|s.chain| - 1]
    && s.heap[s.tail] == LastNode(s.tailUser)
    && s.head == (if s.headUser.Some? && s.headUser.value.pc.Advance? then None else Some(s.chain[0]))
  }

  /** A node off the list that only its owner reaches. */
  predicate Private(s: State, p: NodeId, val: Option<Value>) {
    p in s.heap && p !in s.chain && s.heap[p] == Node(val, None)
  }

  /** The node a pusher with the tail lock has not linked yet, or a popper with the head lock
      has already detached. */
  function TailPrivate(u: Option<TailUser>): set<NodeId> {
    if u.Some? && u.value.Pusher? && !u.value.pc.PushUnlock? then {u.value.p} else {}
  }

  function HeadPrivate(u: Option<HeadUser>): set<NodeId> {
    if u.Some? && u.value.pc.UnlockHead? then {u.value.pc.popped.node} else {}
  }

  predicate DetachedOk(s: State, d: Detached) {
    Private(s, d.node, Some(d.taken)) && (d.x.Some? ==> d.x.value == d.taken)
  }

  predicate PrivateOk(s: State) {
    && (forall t :: t in s.pushing ==> Private(s, s.pushing[t].p, None))
    && (forall t :: t in s.returning ==> DetachedOk(s, s.returning[t]))
    && (forall p :: p in TailPrivate(s.tailUser) ==> Private(s, p, None))
    && (forall t :: t in s.pushing ==> s.pushing[t].p !in TailPrivate(s.tailUser))
    && (forall t, u :: t in s.pushing && u in s.pushing && t != u ==> s.pushing[t].p != s.pushing[u].p)
    && (forall t, u :: t in s.returning && u in s.returning && t != u ==> s.returning[t].node != s.returning[u].node)
    && (forall t :: t in s.returning ==> s.returning[t].node !in HeadPrivate(s.headUser))
  }

  /** What the popper with the head lock knows. */
  predicate PopperOk(s: State)
    requires s.chain != []
  {
    && (s.tailUser == Some(Getter) <==>
         s.headUser.Some? && (s.headUser.value.pc.ReadTail? || s.headUser.value.pc.UnlockTail?))
    && (s.headUser.Some? ==>
      match s.headUser.value.pc
      case UnlockTail(seen) => seen in s.chain
      case Compare(seen) => seen in s.chain
      case ReadVal => |s.chain| > 1
      case TakeHead(x) => |s.chain| > 1 && s.chain[0] in s.heap && (x.Some? ==> s.heap[s.chain[0]].val == x)
      case Advance(x, node) => |s.chain| > 1 && node == s.chain[0] && node in s.heap && (x.Some? ==> s.heap[node].val == x)
      case UnlockHead(d) => DetachedOk(s, d)
      case _ => true)
  }

  /** The values on the list, from the head. */
  function Values(heap: map<NodeId, Node>, chain: seq<NodeId>): seq<Value>
    requires forall i :: 0 <= i < |chain| ==> chain[i] in heap
    requires forall i :: 0 <= i < |chain| - 1 ==> heap[chain[i]].val.Some?
  {
    if |chain| <= 1 then [] else [heap[chain[0]].val.value] + Values(heap, chain[1..])
  }

  /** First in, first out: what was pushed is what was popped and then what is on the list. */
  predicate Fifo(s: State)
    requires ListOk(s)
  {
    s.pushed == s.popped + Values(s.heap, s.chain)
  }

  predicate Inv(s: State) {
    ListOk(s) && PrivateOk(s) && PopperOk(s) && Fifo(s)
  }

  /** The constructed queue: one node without a value, nobody in it. */
  predicate Init(s: State) {
    && s.head == Some(s.tail) && s.heap == map[s.tail := Node(None, None)]
    && s.headUser.None? && s.tailUser.None? && s.pushing == map[] && s.returning == map[]
    && s.chain == [s.tail] && s.pushed == [] && s.popped == []
  }

  lemma InitInv(s: State)
    requires Init(s)
    ensures Inv(s)
  {
  }

  /** No step of any interleaving dereferences null, a freed node or a missing value. */
  lemma InvSafe(s: State, step: Step)
    requires Inv(s) && Enabled(s, step)
    ensures Safe(s, step)
  {
    if step.PopGoes? && s.headUser.value.pc.Advance? {
      assert s.heap[s.chain[0]].next == Some(s.chain[1]);
    }
  }

  lemma {:induction false} ValuesFrame(heap: map<NodeId, Node>, heap2: map<NodeId, Node>, chain: seq<NodeId>)
    requires forall i :: 0 <= i < |chain| ==> chain[i] in heap && chain[i] in heap2
    requires forall i :: 0 <= i < |chain| - 1 ==> heap[chain[i]].val.Some? && heap2[chain[i]].val == heap[chain[i]].val
    ensures Values(heap, chain) == Values(heap2, chain)
  {
    if |chain| > 1 {
      ValuesFrame(heap, heap2, chain[1..]);
    }
  }

  lemma {:induction false} ValuesAppend(heap: map<NodeId, Node>, chain: seq<NodeId>, p: NodeId)
    requires chain != [] && p in heap
    requires forall i :: 0 <= i < |chain| ==> chain[i] in heap && heap[chain[i]].val.Some?
    ensures Values(heap, chain + [p]) == Values(heap, chain) + [heap[chain[|chain| - 1]].val.value]
  {
    assert (chain + [p])[1..] == chain[1..] + [p];
    if |chain| == 1 {
      assert chain + [p] == [chain[0], p];
      assert [chain[0], p][1..] == [p];
    } else {
      ValuesAppend(heap, chain[1..], p);
    }
  }

  // ---------- Every step keeps it ----------

  predicate SameNodes(s: State, s2: State, nodes: seq<NodeId>) {
    forall i :: 0 <= i < |nodes| && nodes[i] in s.heap ==> nodes[i] in s2.heap && s2.heap[nodes[i]] == s.heap[nodes[i]]
  }

  /** The list is as it was when none of its nodes changes. */
  lemma ListFrame(s: State, s2: State)
    requires ListOk(s) && Fifo(s)
    requires s2.chain == s.chain && s2.tail == s.tail && SameNodes(s, s2, s.chain)
    requires s2.pushed == s.pushed && s2.popped == s.popped
    requires LastNode(s2.tailUser) == LastNode(s.tailUser)
    requires s2.head == if s2.headUser.Some? && s2.headUser.value.pc.Advance? then None else Some(s.chain[0])
    ensures ListOk(s2) && Fifo(s2)
  {
    ValuesFrame(s.heap, s2.heap, s.chain);
  }

  /** Private nodes stay so when the step neither links nor frees nor changes them, apart from
      the one that leaves the tail holder. */
  lemma PrivateFrame(s: State, s2: State)
    requires PrivateOk(s)
    requires s2.pushing == s.pushing && s2.returning == s.returning
    requires TailPrivate(s2.tailUser) <= TailPrivate(s.tailUser)
    requires HeadPrivate(s2.headUser) <= HeadPrivate(s.headUser)
    requires forall q, val :: Private(s, q, val) && (q in TailPrivate(s.tailUser) ==> q in TailPrivate(s2.tailUser))
               ==> Private(s2, q, val)
    ensures PrivateOk(s2)
  {
    forall t | t in s.returning ensures DetachedOk(s2, s.returning[t]) {
      var d := s.returning[t];
      assert DetachedOk(s, d);
      assert d.node in TailPrivate(s.tailUser) ==> Private(s, d.node, None);
    }
  }

  lemma AllocatePrivate(s: State, t: Tid, v: Value, p: NodeId)
    requires PrivateOk(s) && Enabled(s, Allocate(t, v, p)) && p !in s.chain
    ensures PrivateOk(Apply(s, Allocate(t, v, p)))
  {
    var s2 := Apply(s, Allocate(t, v, p));
    assert forall q, val :: Private(s, q, val) ==> Private(s2, q, val) && q != p;
    assert Private(s2, p, None);
    hide Private;
    assert forall u :: u in s2.pushing ==> u == t || (u in s.pushing && s2.pushing[u] == s.pushing[u]);
  }

  lemma AllocateKeepsInv(s: State, t: Tid, v: Value, p: NodeId)
    requires Inv(s) && Enabled(s, Allocate(t, v, p))
    ensures Inv(Apply(s, Allocate(t, v, p)))
  {
    var s2 := Apply(s, Allocate(t, v, p));
    assert p !in s.chain;
    AllocatePrivate(s, t, v, p);
    hide PrivateOk;
    ListFrame(s, s2);
    hide ListOk, Fifo;
    assert s2.headUser == s.headUser && s2.tailUser == s.tailUser && s2.chain == s.chain;
  }

  lemma LockKeepsInv(s: State, step: Step)
    requires Inv(s) && Enabled(s, step) && (step.PushLocks? || step.PopLocks?)
    ensures Inv(Apply(s, step))
  {
    var s2 := Apply(s, step);
    ListFrame(s, s2);
    assert forall q, val :: Private(s, q, val) <==> Private(s2, q, val);
    if step.PushLocks? {
      assert TailPrivate(s2.tailUser) == {s.pushing[step.t].p};
    }
    hide ListOk, Fifo, Private;
  }

  lemma PushUnlockKeepsInv(s: State)
    requires Inv(s) && Enabled(s, PushGoes) && s.tailUser.value.pc.PushUnlock?
    ensures Inv(Apply(s, PushGoes))
  {
    var s2 := Apply(s, PushGoes);
    ListFrame(s, s2);
    PrivateFrame(s, s2);
    hide ListOk, Fifo, PrivateOk;
  }

  /** The stores into the last node. */
  lemma LinkKeepsInv(s: State)
    requires Inv(s) && Enabled(s, PushGoes) && (s.tailUser.value.pc.PushVal? || s.tailUser.value.pc.PushNext?)
    ensures Safe(s, PushGoes) && Inv(Apply(s, PushGoes))
  {
    LinkKeepsList(s);
    var s2 := Apply(s, PushGoes);
    assert s.tail in s.chain && s2.headUser == s.headUser;
    hide ListOk, Fifo;
    assert TailPrivate(s2.tailUser) == TailPrivate(s.tailUser);
    PrivateFrame(s, s2);
    hide PrivateOk;
  }

  lemma LinkKeepsList(s: State)
    requires Inv(s) && Enabled(s, PushGoes) && (s.tailUser.value.pc.PushVal? || s.tailUser.value.pc.PushNext?)
    ensures Safe(s, PushGoes) && ListOk(Apply(s, PushGoes)) && Fifo(Apply(s, PushGoes))
  {
    hide PrivateOk, PopperOk;
    var s2 := Apply(s, PushGoes);
    assert s.tail in s.chain;
    assert forall i :: 0 <= i < |s.chain| - 1 ==> s2.heap[s.chain[i]] == s.heap[s.chain[i]];
    assert ListOk(s2) by {
      hide Fifo;
    }
    ValuesFrame(s.heap, s2.heap, s.chain);
  }

  /** The tail_ store appends to the queue. */
  lemma AppendKeepsList(s: State)
    requires Inv(s) && Enabled(s, PushGoes) && s.tailUser.value.pc.PushTail?
    ensures ListOk(Apply(s, PushGoes)) && Fifo(Apply(s, PushGoes))
  {
    var s2, p := Apply(s, PushGoes), s.tailUser.value.p;
    assert p in TailPrivate(s.tailUser);
    assert Private(s, p, None);
    hide PrivateOk, PopperOk;
    assert s2.chain[0] == s.chain[0] && s.heap[s.tail] == Node(Some(s.tailUser.value.v), Some(p));
    assert ListOk(s2);
    hide ListOk;
    ValuesAppend(s.heap, s.chain, p);
    assert s.popped + (Values(s.heap, s.chain) + [s.tailUser.value.v]) == s2.pushed;
  }

  lemma AppendKeepsInv(s: State)
    requires Inv(s) && Enabled(s, PushGoes) && s.tailUser.value.pc.PushTail?
    ensures Inv(Apply(s, PushGoes))
  {
    var s2, p := Apply(s, PushGoes), s.tailUser.value.p;
    AppendKeepsList(s);
    assert s2.chain[0] == s.chain[0];
    hide ListOk, Fifo;
    assert TailPrivate(s.tailUser) == {p} && TailPrivate(s2.tailUser) == {};
    assert forall q, val :: Private(s, q, val) && q != p ==> Private(s2, q, val);
    PrivateFrame(s, s2);
    hide PrivateOk;
    assert s2.headUser == s.headUser;
  }

  /** The head_ store removes from the front. */
  lemma AdvanceKeepsList(s: State)
    requires Inv(s) && Enabled(s, PopGoes) && s.headUser.value.pc.Advance?
    ensures Safe(s, PopGoes) && ListOk(Apply(s, PopGoes)) && Fifo(Apply(s, PopGoes))
  {
    InvSafe(s, PopGoes);
    var s2, node := Apply(s, PopGoes), s.chain[0];
    assert s.heap[node].next == Some(s.chain[1]);
    hide PrivateOk;
    assert forall i :: 0 <= i < |s2.chain| ==> s2.chain[i] == s.chain[i + 1] && s2.heap[s2.chain[i]] == s.heap[s2.chain[i]];
    assert ListOk(s2);
    ValuesFrame(s.heap, s2.heap, s2.chain);
    assert s2.popped + Values(s.heap, s2.chain) == s.popped + ([s.heap[node].val.value] + Values(s.heap, s.chain[1..]));
    hide ListOk;
  }

  lemma AdvanceKeepsInv(s: State)
    requires Inv(s) && Enabled(s, PopGoes) && s.headUser.value.pc.Advance?
    ensures Safe(s, PopGoes) && Inv(Apply(s, PopGoes))
  {
    AdvanceKeepsList(s);
    var s2, node := Apply(s, PopGoes), s.chain[0];
    assert node in s.chain && forall q :: q in s2.chain ==> q in s.chain && q != node;
    hide ListOk, Fifo, Values;
    assert Private(s2, node, s.heap[node].val);
    assert forall q, val :: Private(s, q, val) ==> Private(s2, q, val) && q != node;
    hide Private;
    assert forall t :: t in s.returning ==> DetachedOk(s, s.returning[t]);
  }

  /** The accesses of a pop that store neither head_ nor the heap leave the nodes alone. */
  lemma PopControlFrames(s: State)
    requires Inv(s) && Enabled(s, PopGoes) && !s.headUser.value.pc.Advance? && !s.headUser.value.pc.UnlockHead?
    ensures Safe(s, PopGoes)
    ensures ListOk(Apply(s, PopGoes)) && Fifo(Apply(s, PopGoes)) && PrivateOk(Apply(s, PopGoes))
  {
    InvSafe(s, PopGoes);
    var s2 := Apply(s, PopGoes);
    assert s2.heap == s.heap && s2.chain == s.chain && s2.tail == s.tail;
    assert TailPrivate(s2.tailUser) == TailPrivate(s.tailUser) && HeadPrivate(s2.headUser) == {};
    assert forall q, val :: Private(s, q, val) ==> Private(s2, q, val);
    PrivateFrame(s, s2);
    hide PrivateOk;
    ListFrame(s, s2);
  }

  /** What the popper knows after such an access. */
  lemma PopControlKnows(s: State)
    requires Inv(s) && Enabled(s, PopGoes) && !s.headUser.value.pc.Advance? && !s.headUser.value.pc.UnlockHead?
    ensures Safe(s, PopGoes) && Apply(s, PopGoes).chain == s.chain && PopperOk(Apply(s, PopGoes))
  {
    InvSafe(s, PopGoes);
    assert s.chain[|s.chain| - 1] == s.tail && s.tail in s.chain && s.chain[0] in s.heap && s.head == Some(s.chain[0]);
    hide PrivateOk, Fifo, ListOk, DetachedOk;
  }

  lemma PopControlKeepsInv(s: State)
    requires Inv(s) && Enabled(s, PopGoes) && !s.headUser.value.pc.Advance? && !s.headUser.value.pc.UnlockHead?
    ensures Safe(s, PopGoes) && Inv(Apply(s, PopGoes))
  {
    PopControlFrames(s);
    PopControlKnows(s);
    hide PrivateOk, Fifo, ListOk, PopperOk, Apply;
  }

  lemma UnlockHeadKeepsInv(s: State)
    requires Inv(s) && Enabled(s, PopGoes) && s.headUser.value.pc.UnlockHead?
    ensures Safe(s, PopGoes) && Inv(Apply(s, PopGoes))
  {
    var s2 := Apply(s, PopGoes);
    assert HeadPrivate(s.headUser) == {s.headUser.value.pc.popped.node};
    ListFrame(s, s2);
    assert forall q, val :: Private(s, q, val) <==> Private(s2, q, val);
    hide ListOk, Fifo, Private;
  }

  lemma ReturnKeepsInv(s: State, t: Tid)
    requires Inv(s) && t in s.returning
    ensures Safe(s, Return(t)) && Inv(Apply(s, Return(t)))
  {
    var s2, node := Apply(s, Return(t)), s.returning[t].node;
    assert DetachedOk(s, s.returning[t]);
    ListFrame(s, s2);
    assert forall q, val :: Private(s, q, val) && q != node ==> Private(s2, q, val);
    hide ListOk, Fifo, Private;
    assert forall q :: q in TailPrivate(s.tailUser) ==> Private(s, q, None);
  }

  lemma StepKeepsInv(s: State, step: Step)
    requires Inv(s) && Enabled(s, step)
    ensures Safe(s, step) && Inv(Apply(s, step))
  {
    hide Inv, Apply;
    match step
    case Allocate(t, v, p) => AllocateKeepsInv(s, t, v, p);
    case Return(t) => ReturnKeepsInv(s, t);
    case PushGoes =>
      if s.tailUser.value.pc.PushTail? {
        AppendKeepsInv(s);
      } else if s.tailUser.value.pc.PushUnlock? {
        PushUnlockKeepsInv(s);
      } else {
        LinkKeepsInv(s);
      }
    case PopGoes =>
      if s.headUser.value.pc.Advance? {
        AdvanceKeepsInv(s);
      } else if s.headUser.value.pc.UnlockHead? {
        UnlockHeadKeepsInv(s);
      } else {
        PopControlKeepsInv(s);
      }
    case _ => LockKeepsInv(s, step);
  }

  /** An interleaving: each step is enabled and makes only safe accesses. */
  predicate IsRun(s: State, steps: seq<Step>)
    decreases |steps|
  {
    steps == [] || (Enabled(s, steps[0]) && Safe(s, steps[0]) && IsRun(Apply(s, steps[0]), steps[1..]))
  }

  function Final(s: State, steps: seq<Step>): State
    requires IsRun(s, steps)
    decreases |steps|
  {
    if steps == [] then s else Final(Apply(s, steps[0]), steps[1..])
  }

  lemma {:induction false} RunKeepsInv(s: State, steps: seq<Step>)
    requires Inv(s) && IsRun(s, steps)
    ensures Inv(Final(s, steps))
    decreases |steps|
  {
    hide Inv, Apply, Safe, Enabled;
    if steps != [] {
      StepKeepsInv(s, steps[0]);
      RunKeepsInv(Apply(s, steps[0]), steps[1..]);
    }
  }

  /** Every interleaving is linearizable to a FIFO queue, its next step is memory-safe whatever
      it is, and a pop returns the value that its head store took off the queue. */
  lemma Linearizable(s: State, steps: seq<Step>)
    requires Init(s) && IsRun(s, steps)
    ensures var f := Final(s, steps);
      && ListOk(f) && f.pushed == f.popped + Values(f.heap, f.chain)
      && (forall step :: Enabled(f, step) ==> Safe(f, step))
      && (forall t :: t in f.returning ==> Result(f, t) == f.returning[t].taken)
  {
    InitInv(s);
    RunKeepsInv(s, steps);
    var f := Final(s, steps);
    forall step | Enabled(f, step) ensures Safe(f, step) {
      InvSafe(f, step);
    }
    forall t | t in f.returning ensures Result(f, t) == f.returning[t].taken {
      InvSafe(f, Return(t));
      assert DetachedOk(f, f.returning[t]);
    }
  }

  /** The popper with the head lock has read a tail other than its head. */
  predicate SawElement(s: State) {
    s.headUser.Some? && s.headUser.value.pc.Compare? && s.head.Some? && s.head.value != s.headUser.value.pc.seen
  }

  /** What it saw stays true whatever the others do: the queue keeps an element for it. */
  lemma SawElementIsStable(s: State, step: Step)
    requires Inv(s) && SawElement(s) && Enabled(s, step) && !step.PopGoes?
    ensures Safe(s, step) && Inv(Apply(s, step)) && SawElement(Apply(s, step))
    ensures Values(Apply(s, step).heap, Apply(s, step).chain) != []
  {
    StepKeepsInv(s, step);
    var s2 := Apply(s, step);
    assert s2.headUser == s.headUser && s2.head == s.head;
    assert s2.headUser.value.pc.seen in s2.chain;
    assert |s2.chain| > 1;
  }

  /** A pop finds the queue empty only if it was empty when the tail was read. */
  lemma EmptyReportIsRight(s: State)
    requires Inv(s) && Enabled(s, PopGoes) && s.headUser.value.pc.ReadTail?
    ensures s.head == Some(s.tail) <==> Values(s.heap, s.chain) == []
  {
    if |s.chain| > 1 {
      assert s.chain[0] != s.chain[|s.chain| - 1];
    }
  }
}
