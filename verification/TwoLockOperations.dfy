/** What the operations of base/ThreadSafeQueue.hpp do for the threads that call them, whatever
    the others do in between: a push appends its value, and a pop either finds the list it read
    empty and gives up or returns the first value of it. */
module TwoLockOperations {
  import opened Bytes
  import opened TwoLockQueue

  function Listed(s: State): seq<Value>
    requires ListOk(s)
  {
    Values(s.heap, s.chain)
  }

  // ---------- Runs of others ----------

  /** The accesses made under headMutex_; one thread holds it at a time. */
  function PopAccesses(steps: seq<Step>): nat {
    if steps == [] then 0 else (if steps[0].PopGoes? then 1 else 0) + PopAccesses(steps[1..])
  }

  lemma {:induction false} RunSplits(s: State, front: seq<Step>, last: Step)
    requires IsRun(s, front) && Enabled(Final(s, front), last) && Safe(Final(s, front), last)
    ensures IsRun(s, front + [last]) && Final(s, front + [last]) == Apply(Final(s, front), last)
    decreases |front|
  {
    hide Apply, Enabled, Safe;
    if front == [] {
      assert [] + [last] == [last] && [last][1..] == [];
      assert IsRun(Apply(s, last), []);
    } else {
      assert (front + [last])[1..] == front[1..] + [last];
      RunSplits(Apply(s, front[0]), front[1..], last);
    }
  }

  /** The steps of others store neither head_ nor what has been popped. */
  lemma OthersFrame(s: State, step: Step)
    requires Enabled(s, step) && Safe(s, step) && !step.PopGoes? && s.chain != []
    ensures var s2 := Apply(s, step);
      && s2.popped == s.popped && s2.chain != [] && s2.chain[0] == s.chain[0] && s.pushed <= s2.pushed
      && (!step.PushGoes? ==> s2.pushed == s.pushed)
  {
  }

  /** Values that are pushed while a pop is under way come after those it has seen. */
  lemma OthersOnlyPush(s: State, step: Step)
    requires Inv(s) && Enabled(s, step) && !step.PopGoes?
    ensures Safe(s, step) && Inv(Apply(s, step))
    ensures var s2 := Apply(s, step);
      && s2.popped == s.popped && s2.chain[0] == s.chain[0] && Listed(s) <= Listed(s2)
      && (step.PushGoes? || Listed(s2) == Listed(s))
  {
    StepKeepsInv(s, step);
    var s2 := Apply(s, step);
    OthersFrame(s, step);
    hide ListOk, PrivateOk, PopperOk, Values, Apply, Safe, Enabled;
    assert s.pushed == s.popped + Listed(s) && s2.pushed == s2.popped + Listed(s2);
    Cancel(s.popped, Listed(s), Listed(s2));
  }

  lemma Cancel(a: seq<Value>, b: seq<Value>, c: seq<Value>)
    ensures a + b <= a + c ==> b <= c
    ensures a + b == a + c ==> b == c
  {
    assert (a + b)[|a|..] == b && (a + c)[|a|..] == c;
    if a + b <= a + c {
      assert (a + c)[..|a + b|] == a + b;
      assert c[..|b|] == (a + c)[..|a + b|][|a|..];
    }
  }

  // ---------- A pop ----------

  /** A pop of `t` that has made `n` accesses since it came to read the tail, when the list held
      `vs` and `base` had been popped: where it is, and what it knows. */
  predicate Popping(s: State, t: Tid, kind: Kind, vs: seq<Value>, base: seq<Value>, n: nat)
    requires ListOk(s)
  {
    && s.headUser.Some? && s.headUser.value.tid == t && s.headUser.value.kind == kind
    && var pc := s.headUser.value.pc;
       if n == 0 then pc.ReadTail? && s.popped == base && Listed(s) == vs
       else if n <= 2 then
         (if n == 1 then pc.UnlockTail? else pc.Compare?)
         && (pc.seen == s.chain[0] <==> vs == []) && s.popped == base && vs <= Listed(s)
       else if vs == [] then n == 3 && pc.UnlockEmpty? && s.popped == base
       else
         var k, x := if kind.ByReference? then n - 1 else n, if kind.ByReference? then Some(vs[0]) else None;
         if k == 2 then pc.ReadVal? && s.popped == base && vs <= Listed(s)
         else if k == 3 then pc == TakeHead(x) && s.popped == base && vs <= Listed(s)
         else if k == 4 then pc.Advance? && pc.x == x && s.popped == base && vs <= Listed(s)
         else k == 5 && pc.UnlockHead? && pc.popped.x == x && pc.popped.taken == vs[0] && s.popped == base + [vs[0]]
  }

  /** The accesses of a pop from the reading of the tail on, the last of which unlocks. */
  function PopLength(kind: Kind, vs: seq<Value>): nat {
    if vs == [] then 4 else if kind.ByReference? then 7 else 6
  }

  lemma OthersKeepPopping(s: State, step: Step, t: Tid, kind: Kind, vs: seq<Value>, base: seq<Value>, n: nat)
    requires Inv(s) && Popping(s, t, kind, vs, base, n) && Enabled(s, step) && !step.PopGoes?
    ensures Safe(s, step) && Inv(Apply(s, step)) && Popping(Apply(s, step), t, kind, vs, base, n)
  {
    OthersOnlyPush(s, step);
    assert Apply(s, step).headUser == s.headUser;
    assert n == 0 ==> !step.PushGoes? by {
      assert n == 0 ==> s.tailUser == Some(Getter);
    }
    hide ListOk, PrivateOk, PopperOk, Values, Fifo, Apply, Safe, Listed, Enabled;
    SamePopping(s, Apply(s, step), t, kind, vs, base, n);
  }

  /** What a pop is at depends on its own place, the first node and the list. */
  lemma SamePopping(s: State, s2: State, t: Tid, kind: Kind, vs: seq<Value>, base: seq<Value>, n: nat)
    requires ListOk(s) && ListOk(s2) && Popping(s, t, kind, vs, base, n)
    requires s2.headUser == s.headUser && s2.popped == s.popped && s2.chain[0] == s.chain[0]
    requires Listed(s) <= Listed(s2) && (n == 0 ==> Listed(s2) == Listed(s))
    ensures Popping(s2, t, kind, vs, base, n)
  {
    hide Values;
  }

  lemma FirstListed(s: State)
    requires ListOk(s)
    ensures Listed(s) == [] <==> |s.chain| == 1
    ensures Listed(s) != [] ==> s.heap[s.chain[0]].val == Some(Listed(s)[0])
    ensures s.tail == s.chain[0] <==> |s.chain| == 1
  {
    if |s.chain| > 1 {
      assert s.chain[0] != s.chain[|s.chain| - 1];
    }
  }

  /** The accesses that neither store head_ nor unlock. */
  lemma PopLooks(s: State)
    requires Inv(s) && Enabled(s, PopGoes) && !s.headUser.value.pc.Advance? && !s.headUser.value.pc.UnlockHead?
    ensures Safe(s, PopGoes) && Inv(Apply(s, PopGoes))
    ensures var s2 := Apply(s, PopGoes);
      s2.heap == s.heap && s2.chain == s.chain && s2.popped == s.popped && s2.pushed == s.pushed && Listed(s2) == Listed(s)
    ensures s.head == Some(s.chain[0])
  {
    StepKeepsInv(s, PopGoes);
    PopLooksFrame(s);
    assert s.head == Some(s.chain[0]);
    hide PrivateOk, PopperOk, Values, Fifo, ListOk, Apply, Safe, Enabled;
  }

  lemma PopLooksFrame(s: State)
    requires Enabled(s, PopGoes) && Safe(s, PopGoes) && !s.headUser.value.pc.Advance? && !s.headUser.value.pc.UnlockHead?
    ensures var s2 := Apply(s, PopGoes);
      s2.heap == s.heap && s2.chain == s.chain && s2.popped == s.popped && s2.pushed == s.pushed
  {
  }

  /** Reading the tail and comparing it with the head. */
  lemma PoppingCompares(s: State, t: Tid, kind: Kind, vs: seq<Value>, base: seq<Value>, n: nat)
    requires Inv(s) && Popping(s, t, kind, vs, base, n) && n <= 2
    ensures Enabled(s, PopGoes) && Safe(s, PopGoes) && Inv(Apply(s, PopGoes))
    ensures Popping(Apply(s, PopGoes), t, kind, vs, base, n + 1)
  {
    PopLooks(s);
    FirstListed(s);
    hide ListOk, PrivateOk, PopperOk, Values, Fifo, Listed;
  }

  /** Reading the value and taking the head. */
  lemma PoppingTakes(s: State, t: Tid, kind: Kind, vs: seq<Value>, base: seq<Value>, n: nat)
    requires Inv(s) && Popping(s, t, kind, vs, base, n) && vs != []
    requires s.headUser.value.pc.ReadVal? || s.headUser.value.pc.TakeHead?
    ensures Enabled(s, PopGoes) && Safe(s, PopGoes) && Inv(Apply(s, PopGoes))
    ensures Popping(Apply(s, PopGoes), t, kind, vs, base, n + 1)
  {
    PopLooks(s);
    FirstListed(s);
    hide ListOk, PrivateOk, PopperOk, Values, Fifo, Listed;
  }

  /** The head store. */
  lemma PoppingAdvances(s: State, t: Tid, kind: Kind, vs: seq<Value>, base: seq<Value>, n: nat)
    requires Inv(s) && Popping(s, t, kind, vs, base, n) && vs != [] && s.headUser.value.pc.Advance?
    ensures Enabled(s, PopGoes) && Safe(s, PopGoes) && Inv(Apply(s, PopGoes))
    ensures Popping(Apply(s, PopGoes), t, kind, vs, base, n + 1)
  {
    StepKeepsInv(s, PopGoes);
    FirstListed(s);
    assert s.headUser.value.pc.node == s.chain[0];
    hide ListOk, PrivateOk, PopperOk, Values, Fifo, Listed;
  }

  lemma PoppingGoesOn(s: State, t: Tid, kind: Kind, vs: seq<Value>, base: seq<Value>, n: nat)
    requires Inv(s) && Popping(s, t, kind, vs, base, n) && n + 1 < PopLength(kind, vs)
    ensures Enabled(s, PopGoes) && Safe(s, PopGoes) && Inv(Apply(s, PopGoes))
    ensures Popping(Apply(s, PopGoes), t, kind, vs, base, n + 1)
  {
    hide Inv, Apply, Listed, Enabled, Safe;
    if n <= 2 {
      PoppingCompares(s, t, kind, vs, base, n);
    } else if s.headUser.value.pc.Advance? {
      PoppingAdvances(s, t, kind, vs, base, n);
    } else {
      PoppingTakes(s, t, kind, vs, base, n);
    }
  }

  lemma {:induction false} PoppingRuns(s: State, steps: seq<Step>, t: Tid, kind: Kind, vs: seq<Value>, base: seq<Value>, n: nat)
    requires Inv(s) && Popping(s, t, kind, vs, base, n) && IsRun(s, steps)
    requires n + PopAccesses(steps) < PopLength(kind, vs)
    ensures Inv(Final(s, steps)) && Popping(Final(s, steps), t, kind, vs, base, n + PopAccesses(steps))
    decreases |steps|
  {
    hide Inv, Apply, Popping, Enabled, Safe, PopLength;
    if steps != [] {
      if steps[0].PopGoes? {
        PoppingGoesOn(s, t, kind, vs, base, n);
        PoppingRuns(Apply(s, steps[0]), steps[1..], t, kind, vs, base, n + 1);
      } else {
        OthersKeepPopping(s, steps[0], t, kind, vs, base, n);
        PoppingRuns(Apply(s, steps[0]), steps[1..], t, kind, vs, base, n);
      }
    }
  }

  /** Reading the tail tells a pop whether the list is empty, and it acts on that: three
      accesses later it is about to give up exactly when the list it read held nothing. */
  lemma GivesUpIffEmpty(s: State, steps: seq<Step>, t: Tid, kind: Kind)
    requires Inv(s) && s.headUser == Some(Popper(t, kind, ReadTail)) && IsRun(s, steps) && PopAccesses(steps) == 3
    ensures var f := Final(s, steps);
      && f.headUser.Some? && f.headUser.value.tid == t && f.headUser.value.kind == kind
      && (f.headUser.value.pc.UnlockEmpty? <==> Values(s.heap, s.chain) == [])
      && (Values(s.heap, s.chain) != [] ==> f.headUser.value.pc == if kind.ByReference? then ReadVal else TakeHead(None))
  {
    PoppingRuns(s, steps, t, kind, Values(s.heap, s.chain), s.popped, 0);
    hide Inv, IsRun, Final, Values;
  }

  /** After the accesses that follow, the pop has returned: with nothing if the list was empty
      when its tail was read, and else with the first value on it, which is off the queue. */
  lemma PopReturnsFirst(s: State, steps: seq<Step>, t: Tid, kind: Kind)
    requires Inv(s) && s.headUser == Some(Popper(t, kind, ReadTail)) && IsRun(s, steps)
    requires PopAccesses(steps) == if Values(s.heap, s.chain) == [] then 3 else if kind.ByReference? then 6 else 5
    ensures var f, vs := Final(s, steps), Values(s.heap, s.chain);
      && Enabled(f, PopGoes) && Safe(f, PopGoes)
      && var g := Apply(f, PopGoes);
         && g.headUser.None? && g.popped == s.popped + vs[..if vs == [] then 0 else 1]
         && (vs == [] ==> g.returning == f.returning)
         && (vs != [] ==> t in g.returning && Safe(g, Return(t)) && Result(g, t) == vs[0])
  {
    hide IsRun, Final, Enabled, Safe, Apply, Values;
    var vs, f := Values(s.heap, s.chain), Final(s, steps);
    PoppingRuns(s, steps, t, kind, vs, s.popped, 0);
    Unlocks(f, t, kind, vs, s.popped, PopAccesses(steps));
  }

  lemma Unlocks(f: State, t: Tid, kind: Kind, vs: seq<Value>, base: seq<Value>, n: nat)
    requires Inv(f) && Popping(f, t, kind, vs, base, n) && n + 1 == PopLength(kind, vs)
    ensures Enabled(f, PopGoes) && Safe(f, PopGoes)
    ensures var g := Apply(f, PopGoes);
      && g.headUser.None? && g.popped == base + vs[..if vs == [] then 0 else 1]
      && (vs == [] ==> g.returning == f.returning)
      && (vs != [] ==> t in g.returning && Safe(g, Return(t)) && Result(g, t) == vs[0])
  {
    StepKeepsInv(f, PopGoes);
    var g := Apply(f, PopGoes);
    hide ListOk, PopperOk, Values, Fifo;
    if vs != [] {
      InvSafe(g, Return(t));
      assert DetachedOk(g, g.returning[t]);
      assert vs[..1] == [vs[0]];
    } else {
      assert base + [] == base;
    }
  }

  /** A pop that locks reads the tail with its second access, so the above is about every pop. */
  lemma EveryPopReadsTail(s: State, t: Tid, kind: Kind, steps: seq<Step>)
    requires Inv(s) && Enabled(s, PopLocks(t, kind))
    requires IsRun(Apply(s, PopLocks(t, kind)), steps) && PopAccesses(steps) == 1
    ensures var f := Final(Apply(s, PopLocks(t, kind)), steps);
      Inv(f) && f.headUser == Some(Popper(t, kind, ReadTail))
  {
    StepKeepsInv(s, PopLocks(t, kind));
    ReadsTail(Apply(s, PopLocks(t, kind)), t, kind, steps);
  }

  lemma {:induction false} ReadsTail(s: State, t: Tid, kind: Kind, steps: seq<Step>)
    requires Inv(s) && IsRun(s, steps) && PopAccesses(steps) <= 1
    requires s.headUser == Some(Popper(t, kind, if PopAccesses(steps) == 1 then LockTail else ReadTail))
    ensures Inv(Final(s, steps)) && Final(s, steps).headUser == Some(Popper(t, kind, ReadTail))
    decreases |steps|
  {
    hide Inv;
    if steps != [] {
      StepKeepsInv(s, steps[0]);
      ReadsTail(Apply(s, steps[0]), t, kind, steps[1..]);
    }
  }

  // ---------- A push ----------

  /** A push of `v` by `t` that has made `n` steps since it allocated its node. */
  predicate Pushing(s: State, t: Tid, v: Value, p: NodeId, n: nat) {
    if n == 0 then t in s.pushing && s.pushing[t] == Pending(v, p)
    else
      n <= 4 && s.tailUser ==
        Some(Pusher(t, v, p, if n == 1 then PushVal else if n == 2 then PushNext else if n == 3 then PushTail else PushUnlock))
  }

  /** Whether a step is the next one of the push of `t`. */
  predicate IsPushOf(s: State, step: Step, t: Tid) {
    step == PushLocks(t) || (step.PushGoes? && s.tailUser.Some? && s.tailUser.value.Pusher? && s.tailUser.value.tid == t)
  }

  function PushSteps(s: State, steps: seq<Step>, t: Tid): nat
    requires IsRun(s, steps)
    decreases |steps|
  {
    if steps == [] then 0
    else (if IsPushOf(s, steps[0], t) then 1 else 0) + PushSteps(Apply(s, steps[0]), steps[1..], t)
  }

  /** Threads that are at one place at a time. */
  predicate OnePlace(s: State) {
    && (forall t :: t in s.pushing ==> s.tailUser.Some? && s.tailUser.value.Pusher? ==> s.tailUser.value.tid != t)
    && (forall t :: t in s.pushing ==> t !in s.returning && (s.headUser.Some? ==> s.headUser.value.tid != t))
    && (forall t :: t in s.returning ==> s.headUser.Some? ==> s.headUser.value.tid != t)
    && (s.tailUser.Some? && s.tailUser.value.Pusher? ==> s.tailUser.value.tid !in s.returning)
    && (s.tailUser.Some? && s.tailUser.value.Pusher? && s.headUser.Some? ==> s.tailUser.value.tid != s.headUser.value.tid)
  }

  lemma StepKeepsOnePlace(s: State, step: Step)
    requires OnePlace(s) && Enabled(s, step) && Safe(s, step)
    ensures OnePlace(Apply(s, step))
  {
  }

  lemma PushingGoesOn(s: State, step: Step, t: Tid, v: Value, p: NodeId, n: nat)
    requires Inv(s) && OnePlace(s) && Pushing(s, t, v, p, n) && Enabled(s, step) && Safe(s, step)
    requires IsPushOf(s, step, t) ==> n < 4
    ensures Pushing(Apply(s, step), t, v, p, if IsPushOf(s, step, t) then n + 1 else n)
  {
    hide ListOk, PrivateOk, Fifo;
    if n == 0 {
      assert !step.PushGoes? ==> (IsPushOf(s, step, t) <==> step == PushLocks(t));
    } else {
      assert s.tailUser.value == Pusher(t, v, p, s.tailUser.value.pc);
      if step.PushGoes? {
        assert Apply(s, step) == PushAccess(s, s.tailUser.value);
      } else {
        assert Apply(s, step).tailUser == s.tailUser;
      }
    }
  }

  lemma {:induction false} PushingRuns(s: State, steps: seq<Step>, t: Tid, v: Value, p: NodeId, n: nat)
    requires Inv(s) && OnePlace(s) && Pushing(s, t, v, p, n) && IsRun(s, steps) && n + PushSteps(s, steps, t) <= 4
    ensures OnePlace(Final(s, steps)) && Pushing(Final(s, steps), t, v, p, n + PushSteps(s, steps, t))
    decreases |steps|
  {
    hide Inv, OnePlace, Pushing, Apply, Enabled, Safe, IsPushOf;
    if steps != [] {
      StepKeepsInv(s, steps[0]);
      StepKeepsOnePlace(s, steps[0]);
      PushingGoesOn(s, steps[0], t, v, p, n);
      PushingRuns(Apply(s, steps[0]), steps[1..], t, v, p, if IsPushOf(s, steps[0], t) then n + 1 else n);
    }
  }

  /** A push adds its value at the end of the list with its fourth step, and no other value. */
  lemma PushAppends(s: State, t: Tid, v: Value, p: NodeId, steps: seq<Step>)
    requires Inv(s) && OnePlace(s) && Enabled(s, Allocate(t, v, p))
    requires IsRun(Apply(s, Allocate(t, v, p)), steps) && PushSteps(Apply(s, Allocate(t, v, p)), steps, t) == 3
    ensures var f := Final(Apply(s, Allocate(t, v, p)), steps);
      && Inv(f) && OnePlace(f) && Enabled(f, PushGoes) && Safe(f, PushGoes)
      && var g := Apply(f, PushGoes);
         ListOk(g) && Values(g.heap, g.chain) == Values(f.heap, f.chain) + [v] && g.pushed == f.pushed + [v]
  {
    var step := Allocate(t, v, p);
    var s1 := Apply(s, step);
    StepKeepsInv(s, step);
    StepKeepsOnePlace(s, step);
    RunKeepsInv(s1, steps);
    PushingRuns(s1, steps, t, v, p, 0);
    hide IsRun, Final, PushSteps;
    Appends(Final(s1, steps), t, v, p);
  }

  lemma Appends(f: State, t: Tid, v: Value, p: NodeId)
    requires Inv(f) && Pushing(f, t, v, p, 3)
    ensures Enabled(f, PushGoes) && Safe(f, PushGoes)
    ensures var g := Apply(f, PushGoes);
      ListOk(g) && Values(g.heap, g.chain) == Values(f.heap, f.chain) + [v] && g.pushed == f.pushed + [v]
  {
    StepKeepsInv(f, PushGoes);
    var g := Apply(f, PushGoes);
    hide ListOk, PrivateOk, PopperOk, Values;
    assert f.popped + (Listed(f) + [v]) == f.popped + Listed(g);
    Cancel(f.popped, Listed(f) + [v], Listed(g));
  }

  // ---------- Progress ----------

  predicate Busy(s: State) {
    s.headUser.Some? || s.tailUser.Some? || s.pushing != map[] || s.returning != map[]
  }

  /** No deadlock: as long as an operation is under way, some thread in one can move. */
  lemma NoDeadlock(s: State) returns (step: Step)
    requires Inv(s) && Busy(s)
    ensures Enabled(s, step) && !step.Allocate? && !step.PopLocks?
  {
    hide ListOk, PrivateOk, Fifo;
    if s.headUser.Some? && (s.headUser.value.pc.LockTail? ==> s.tailUser.None?) {
      step := PopGoes;
    } else if s.tailUser.Some? {
      step := PushGoes;
    } else if s.pushing != map[] {
      var t :| t in s.pushing;
      step := PushLocks(t);
    } else {
      var t :| t in s.returning;
      step := Return(t);
    }
  }

  /** What holds of every state a run reaches, and so is there for the results above. */
  lemma {:induction false} RunKeepsOnePlace(s: State, steps: seq<Step>)
    requires OnePlace(s) && IsRun(s, steps)
    ensures OnePlace(Final(s, steps))
    decreases |steps|
  {
    hide OnePlace, Apply, Enabled, Safe;
    if steps != [] {
      StepKeepsOnePlace(s, steps[0]);
      RunKeepsOnePlace(Apply(s, steps[0]), steps[1..]);
    }
  }

  lemma ReachedStates(s: State, steps: seq<Step>)
    requires Init(s) && IsRun(s, steps)
    ensures Inv(Final(s, steps)) && OnePlace(Final(s, steps))
  {
    InitInv(s);
    RunKeepsInv(s, steps);
    RunKeepsOnePlace(s, steps);
  }

  lemma Then(i: State, steps: seq<Step>, s: State, step: Step) returns (more: seq<Step>, s2: State)
    requires IsRun(i, steps) && Final(i, steps) == s && Inv(s) && Enabled(s, step)
    ensures more == steps + [step] && IsRun(i, more) && Final(i, more) == s2
    ensures Safe(s, step) && s2 == Apply(s, step) && Inv(s2)
  {
    hide IsRun, Final, Inv, Apply, Safe, Enabled;
    StepKeepsInv(s, step);
    RunSplits(i, steps, step);
    more, s2 := steps + [step], Apply(s, step);
  }

  /** What a push leaves alone. */
  lemma PushFrame(s: State, t: Tid, v: Value, p: NodeId, n: nat)
    requires Inv(s) && Pushing(s, t, v, p, n) && 0 < n <= 4
    ensures Enabled(s, PushGoes) && Safe(s, PushGoes)
    ensures var s2 := Apply(s, PushGoes);
      && s2.headUser == s.headUser && s2.pushing == s.pushing && s2.returning == s.returning && s2.popped == s.popped
      && s2.pushed == (if n == 3 then s.pushed + [v] else s.pushed)
      && (if n < 4 then Pushing(s2, t, v, p, n + 1) else s2.tailUser.None?)
  {
    StepKeepsInv(s, PushGoes);
    hide ListOk, PrivateOk, PopperOk, Fifo, Safe;
    assert Apply(s, PushGoes) == PushAccess(s, s.tailUser.value);
    hide Apply;
  }

  predicate Quiet(s: State) {
    s.headUser.None? && s.pushing == map[] && s.returning == map[] && s.popped == []
  }

  lemma PushesAlone(i: State, t: Tid, v: Value, p: NodeId) returns (steps: seq<Step>, s: State)
    requires Init(i) && p != i.tail
    ensures IsRun(i, steps) && Final(i, steps) == s && Inv(s)
    ensures Quiet(s) && s.tailUser.None? && s.pushed == [v]
  {
    InitInv(i);
    InitRun(i);
    steps, s := Then(i, [], i, Allocate(t, v, p));
    StartsPush(i, t, v, p);
    hide IsRun, Final, Inv, Safe, Apply;
    steps, s := Then(i, steps, s, PushLocks(t));
    var n := 1;
    while n < 4
      invariant IsRun(i, steps) && Final(i, steps) == s && Inv(s) && Quiet(s)
      invariant 0 < n <= 4 && Pushing(s, t, v, p, n) && s.pushed == if n == 4 then [v] else []
    {
      PushFrame(s, t, v, p, n);
      steps, s := Then(i, steps, s, PushGoes);
      n := n + 1;
    }
    PushFrame(s, t, v, p, n);
    steps, s := Then(i, steps, s, PushGoes);
  }

  lemma StartsPush(i: State, t: Tid, v: Value, p: NodeId)
    requires Init(i) && p != i.tail
    ensures Enabled(i, Allocate(t, v, p))
    ensures var s := Apply(i, Allocate(t, v, p));
      && Enabled(s, PushLocks(t))
      && var u := Apply(s, PushLocks(t)); Pushing(u, t, v, p, 1) && Quiet(u) && u.pushed == []
  {
  }

  lemma InitRun(i: State)
    ensures IsRun(i, []) && Final(i, []) == i
  {
  }

  /** One thread pushes a value into a new queue and pops it again: there is such a run, and the
      pop hands over that value, by pointer or by reference. */
  lemma PushThenPop(i: State, t: Tid, v: Value, p: NodeId, kind: Kind) returns (steps: seq<Step>)
    requires Init(i) && p != i.tail
    ensures IsRun(i, steps)
    ensures var f := Final(i, steps);
      f.pushed == [v] && f.popped == [v] && t in f.returning && Safe(f, Return(t)) && Result(f, t) == v
  {
    var s;
    steps, s := PushesAlone(i, t, v, p);
    hide IsRun, Final, Safe;
    steps, s := Then(i, steps, s, PopLocks(t, kind));
    steps, s := Then(i, steps, s, PopGoes);
    assert Listed(s) == [v] && s.headUser == Some(Popper(t, kind, ReadTail));
    var n, vs := 0, [v];
    while n + 1 < PopLength(kind, vs)
      invariant IsRun(i, steps) && Final(i, steps) == s && Inv(s)
      invariant n < PopLength(kind, vs) && Popping(s, t, kind, vs, [], n) && s.pushed == [v]
    {
      PoppingGoesOn(s, t, kind, vs, [], n);
      var pushed := s.pushed;
      PopsPushNothing(s);
      steps, s := Then(i, steps, s, PopGoes);
      n := n + 1;
    }
    Unlocks(s, t, kind, vs, [], n);
    PopsPushNothing(s);
    steps, s := Then(i, steps, s, PopGoes);
    assert vs[..1] == [v];
  }

  lemma PopsPushNothing(s: State)
    requires Enabled(s, PopGoes) && Safe(s, PopGoes)
    ensures Apply(s, PopGoes).pushed == s.pushed
  {
  }

  // ---------- Memory ----------

  /** A node that is still needed: on the list, or in the hands of a thread. */
  predicate Held(s: State, q: NodeId) {
    || q in s.chain || q in TailPrivate(s.tailUser) || q in HeadPrivate(s.headUser)
    || (exists t :: t in s.pushing && s.pushing[t].p == q)
    || (exists t :: t in s.returning && s.returning[t].node == q)
  }

  ghost predicate NoLeak(s: State) {
    forall q :: q in s.heap ==> Held(s, q)
  }

  lemma AllocateLeaks(s: State, step: Step, q: NodeId)
    requires Inv(s) && Enabled(s, step) && Safe(s, step) && step.Allocate? && q in Apply(s, step).heap
    requires q in s.heap ==> Held(s, q)
    ensures Held(Apply(s, step), q)
  {
    hide Inv, Safe;
    var s2 := Apply(s, step);
    assert step.t in s2.pushing && s2.pushing[step.t].p == step.p;
    assert forall t :: t in s.pushing ==> t in s2.pushing && s2.pushing[t] == s.pushing[t];
  }

  lemma LockLeaks(s: State, step: Step, q: NodeId)
    requires Enabled(s, step) && (step.PushLocks? || step.PopLocks?) && q in s.heap && Held(s, q)
    ensures Held(Apply(s, step), q)
  {
    var s2 := Apply(s, step);
    if step.PushLocks? {
      assert TailPrivate(s2.tailUser) == {s.pushing[step.t].p};
      assert forall t :: t in s.pushing && t != step.t ==> t in s2.pushing && s2.pushing[t] == s.pushing[t];
    }
  }

  lemma PushLeaks(s: State, q: NodeId)
    requires Inv(s) && Enabled(s, PushGoes) && Safe(s, PushGoes) && q in Apply(s, PushGoes).heap && Held(s, q)
    ensures Held(Apply(s, PushGoes), q)
  {
    hide PrivateOk, PopperOk, Fifo;
  }

  lemma PopLeaks(s: State, q: NodeId)
    requires Inv(s) && OnePlace(s) && Enabled(s, PopGoes) && Safe(s, PopGoes) && q in Apply(s, PopGoes).heap && Held(s, q)
    ensures Held(Apply(s, PopGoes), q)
  {
    hide ListOk, PrivateOk, Fifo;
    var s2, pc := Apply(s, PopGoes), s.headUser.value.pc;
    if pc.UnlockHead? {
      UnlockLeaks(s, q);
    } else if pc.Advance? {
      assert q in s.chain ==> q == s.chain[0] || q in s2.chain by {
        assert s.chain == [s.chain[0]] + s2.chain;
      }
    }
  }

  lemma UnlockLeaks(s: State, q: NodeId)
    requires OnePlace(s) && Enabled(s, PopGoes) && Safe(s, PopGoes) && Held(s, q)
    requires s.headUser.value.pc.UnlockHead?
    ensures Held(Apply(s, PopGoes), q)
  {
    var s2, tid := Apply(s, PopGoes), s.headUser.value.tid;
    assert tid !in s.returning;
    assert s2.returning[tid] == s.headUser.value.pc.popped;
    assert forall t :: t in s.returning ==> t in s2.returning && s2.returning[t] == s.returning[t];
  }

  lemma ReturnLeaks(s: State, t: Tid, q: NodeId)
    requires Enabled(s, Return(t)) && Safe(s, Return(t)) && q in Apply(s, Return(t)).heap && Held(s, q)
    ensures Held(Apply(s, Return(t)), q)
  {
    var s2 := Apply(s, Return(t));
    assert forall u :: u in s.returning && u != t ==> u in s2.returning && s2.returning[u] == s.returning[u];
  }

  lemma StepKeepsNoLeak(s: State, step: Step)
    requires Inv(s) && OnePlace(s) && NoLeak(s) && Enabled(s, step) && Safe(s, step)
    ensures NoLeak(Apply(s, step))
  {
    forall q | q in Apply(s, step).heap ensures Held(Apply(s, step), q) {
      if !step.Allocate? {
        HeapShrinks(s, step, q);
      }
      hide Inv, Apply, Safe, Enabled, OnePlace, Held;
      match step
      case Allocate(_, _, _) => AllocateLeaks(s, step, q);
      case PushGoes => PushLeaks(s, q);
      case PopGoes => PopLeaks(s, q);
      case Return(t) => ReturnLeaks(s, t, q);
      case _ => LockLeaks(s, step, q);
    }
  }

  /** Only an allocation adds a node. */
  lemma HeapShrinks(s: State, step: Step, q: NodeId)
    requires Inv(s) && Enabled(s, step) && Safe(s, step) && q in Apply(s, step).heap && !step.Allocate?
    ensures q in s.heap
  {
    hide PrivateOk, Fifo;
  }

  lemma {:induction false} RunKeepsNoLeak(s: State, steps: seq<Step>)
    requires Inv(s) && OnePlace(s) && NoLeak(s) && IsRun(s, steps)
    ensures NoLeak(Final(s, steps))
    decreases |steps|
  {
    hide Inv, OnePlace, NoLeak, Apply, Enabled, Safe;
    if steps != [] {
      StepKeepsInv(s, steps[0]);
      StepKeepsOnePlace(s, steps[0]);
      StepKeepsNoLeak(s, steps[0]);
      RunKeepsNoLeak(Apply(s, steps[0]), steps[1..]);
    }
  }

  /** Nodes are freed exactly when they leave the queue: at any time the allocated ones are
      those on the list and those in the hands of threads, and with no operation under way they
      are one more than the values. */
  lemma NothingLeaks(s: State, steps: seq<Step>)
    requires Init(s) && IsRun(s, steps)
    ensures var f := Final(s, steps);
      && NoLeak(f)
      && (!Busy(f) ==> f.heap.Keys == (set q | q in f.chain) && |f.chain| == |f.pushed| - |f.popped| + 1)
  {
    ReachedStates(s, steps);
    InitInv(s);
    RunKeepsNoLeak(s, steps);
    var f := Final(s, steps);
    hide IsRun, Final;
    ListedLength(f.heap, f.chain);
    if !Busy(f) {
      assert forall q :: q in f.heap ==> q in f.chain by {
        forall q | q in f.heap ensures q in f.chain {
          assert Held(f, q);
        }
      }
    }
  }

  lemma {:induction false} ListedLength(heap: map<NodeId, Node>, chain: seq<NodeId>)
    requires forall i :: 0 <= i < |chain| ==> chain[i] in heap
    requires forall i :: 0 <= i < |chain| - 1 ==> heap[chain[i]].val.Some?
    ensures |Values(heap, chain)| == if chain == [] then 0 else |chain| - 1
    decreases |chain|
  {
    if |chain| > 1 {
      ListedLength(heap, chain[1..]);
    }
  }
}
