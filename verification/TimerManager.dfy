/** Timers of net/Timer.h and their manager in net/TimerManager.cpp: a queue by expiration and
    sequence number, cancellation by a flag, and one timerfd armed for the first of them. The
    user's callbacks are whatever they add, cancel, and take in time. */
module TimerManager {
  import opened Bytes

  /** A timer; it repeats when its interval is positive. Its key in the maps below is its
      sequence number. */
  datatype Timer = Timer(expiration: int, interval: int, deleted: bool)

  predicate Repeats(t: Timer) {
    t.interval > 0
  }

  type Timers = map<int, Timer>

  /** Where the loop is: outside handleRead, or inside it with the batch it is running. */
  datatype Phase = Idle | Running(expired: seq<int>, next: nat, now: int)

  /** The manager, the clock, the timerfd, and the callbacks run so far. */
  datatype State = State(
    timers: Timers,
    queue: seq<int>,         // timers_, in the order it pops
    phase: Phase,
    clock: int,
    armed: Option<int>,      // the deadline the timerfd is set to
    fired: bool,             // it has expired and has not been read
    ran: seq<int>)

  datatype Step =
    | Elapse(t: int)                                  // time passes
    | Add(id: int, when: int, interval: int)        // addTimerInLoop of a new timer
    | Cancel(id: int)                               // cancelInLoop
    | Fire                                            // handleRead up to its callbacks
    | RunNext                                         // the next callback, unless cancelled
    | Finish                                          // reset

  predicate Enabled(s: State, step: Step) {
    match step
    case Elapse(t) => t >= s.clock
    case Add(k, _, _) => k !in s.timers
    case Cancel(_) => true
    case Fire => s.phase.Idle? && s.fired
    case RunNext => s.phase.Running? && s.phase.next < |s.phase.expired|
    case Finish => s.phase.Running? && s.phase.next >= |s.phase.expired|
  }

  // ---------- The queue ----------

  /** TimerCmp: `a` is popped before `b`. */
  predicate Before(timers: Timers, a: int, b: int)
    requires a in timers && b in timers
  {
    timers[a].expiration < timers[b].expiration || (timers[a].expiration == timers[b].expiration && a < b)
  }

  predicate Known(timers: Timers, q: seq<int>) {
    forall i :: 0 <= i < |q| ==> q[i] in timers
  }

  predicate Sorted(timers: Timers, q: seq<int>)
    requires Known(timers, q)
  {
    forall i, j :: 0 <= i < j < |q| ==> Before(timers, q[i], q[j])
  }

  /** priority_queue::push. */
  function Pushed(timers: Timers, q: seq<int>, k: int): (r: seq<int>)
    requires k in timers && Known(timers, q)
    ensures Known(timers, r)
  {
    if q == [] || Before(timers, k, q[0]) then [k] + q else [q[0]] + Pushed(timers, q[1..], k)
  }

  /** getExpired: the timers to run, and what stays queued. */
  function Split(timers: Timers, q: seq<int>, now: int): (r: (seq<int>, seq<int>))
    requires Known(timers, q)
    ensures Known(timers, r.0) && Known(timers, r.1)
  {
    if q == [] || timers[q[0]].expiration > now then ([], q)
    else
      var (expired, rest) := Split(timers, q[1..], now);
      (if timers[q[0]].deleted then expired else [q[0]] + expired, rest)
  }

  /** The first loop of reset: repeating timers that are not cancelled go back. */
  function Requeued(timers: Timers, q: seq<int>, expired: seq<int>, now: int): (r: (Timers, seq<int>))
    requires Known(timers, q) && Known(timers, expired)
    ensures r.0.Keys == timers.Keys && Known(r.0, r.1)
    decreases |expired|
  {
    if expired == [] then (timers, q)
    else
      var k := expired[0];
      var t := timers[k];
      if Repeats(t) && !t.deleted then
        var restarted := timers[k := t.(expiration := now + t.interval)];
        Requeued(restarted, Pushed(restarted, q, k), expired[1..], now)
      else Requeued(timers, q, expired[1..], now)
  }

  /** The second loop of reset, up to the timer it arms. */
  function Purged(timers: Timers, q: seq<int>): (r: seq<int>)
    requires Known(timers, q)
    ensures Known(timers, r)
  {
    if q != [] && timers[q[0]].deleted then Purged(timers, q[1..]) else q
  }

  // ---------- The timerfd ----------

  /** resetTimerFd: a deadline ahead arms the timer, the present disarms it, and timerfd_settime
      refuses one in the past. The first two discard an expiration that was not read. */
  function Rearmed(s: State, expiration: int): State {
    if expiration > s.clock then s.(armed := Some(expiration), fired := false)
    else if expiration == s.clock then s.(armed := None, fired := false)
    else s
  }

  // ---------- The steps ----------

  function Added(s: State, k: int, when: int, interval: int): State
    requires k !in s.timers && Known(s.timers, s.queue)
  {
    var timers := s.timers[k := Timer(when, interval, false)];
    var earliest := s.queue == [] || s.timers[s.queue[0]].expiration > when;
    var t := s.(timers := timers, queue := Pushed(timers, s.queue, k));
    if earliest then Rearmed(t, when) else t
  }

  function Apply(s: State, step: Step): State
    requires Enabled(s, step) && WellFormed(s)
  {
    match step
    case Elapse(t) =>
      if s.armed.Some? && s.armed.value <= t then s.(clock := t, armed := None, fired := true) else s.(clock := t)
    case Add(k, when, interval) => Added(s, k, when, interval)
    case Cancel(k) => if k in s.timers then s.(timers := s.timers[k := s.timers[k].(deleted := true)]) else s
    case Fire =>
      var (expired, rest) := Split(s.timers, s.queue, s.clock);
      s.(fired := false, queue := rest, phase := Running(expired, 0, s.clock))
    case RunNext =>
      var k := s.phase.expired[s.phase.next];
      s.(phase := s.phase.(next := s.phase.next + 1), ran := if s.timers[k].deleted then s.ran else s.ran + [k])
    case Finish =>
      var (timers, q) := Requeued(s.timers, s.queue, s.phase.expired, s.phase.now);
      var t := s.(timers := timers, queue := Purged(timers, q), phase := Idle);
      if t.queue == [] then t else Rearmed(t, timers[t.queue[0]].expiration)
  }

  predicate WellFormed(s: State) {
    Known(s.timers, s.queue) && (s.phase.Running? ==> Known(s.timers, s.phase.expired))
  }

  // ---------- getExpired ----------

  lemma SortedTail(timers: Timers, q: seq<int>)
    requires Known(timers, q) && Sorted(timers, q) && q != []
    ensures Sorted(timers, q[1..]) && q[0] !in q[1..]
  {
  }

  /** getExpired takes every timer that is due and leaves every other; it returns exactly the
      due ones that are not cancelled, in the order of expiration and sequence number. */
  lemma {:induction false} ExpiredExactly(timers: Timers, q: seq<int>, now: int)
    requires Known(timers, q) && Sorted(timers, q)
    ensures var (expired, rest) := Split(timers, q, now);
      && (forall k :: k in expired <==> k in q && timers[k].expiration <= now && !timers[k].deleted)
      && (forall k :: k in rest <==> k in q && timers[k].expiration > now)
      && Sorted(timers, expired) && Sorted(timers, rest)
    decreases |q|
  {
    if q != [] && timers[q[0]].expiration <= now {
      SortedTail(timers, q);
      ExpiredExactly(timers, q[1..], now);
      assert q == [q[0]] + q[1..];
      var (expired, rest) := Split(timers, q[1..], now);
      forall k | k in expired ensures Before(timers, q[0], k) {
        assert k in q[1..];
      }
    } else if q != [] {
      forall k | k in q ensures timers[k].expiration > now {
      }
    }
  }

  // ---------- Pushing ----------

  lemma {:induction false} PushedSorted(timers: Timers, q: seq<int>, k: int)
    requires k in timers && Known(timers, q) && Sorted(timers, q) && k !in q
    ensures var r := Pushed(timers, q, k);
      Sorted(timers, r) && forall x :: x in r <==> x in q || x == k
    decreases |q|
  {
    if q != [] && !Before(timers, k, q[0]) {
      SortedTail(timers, q);
      PushedSorted(timers, q[1..], k);
      assert q == [q[0]] + q[1..];
      var r := Pushed(timers, q[1..], k);
      forall x | x in r ensures Before(timers, q[0], x) {
        if x != k { assert x in q[1..]; }
      }
    } else if q != [] {
      forall x | x in q ensures Before(timers, k, x) {
      }
    }
  }

  /** Keys outside a queue do not matter to it. */
  lemma OtherKeysFree(timers: Timers, others: Timers, q: seq<int>)
    requires Known(timers, q) && Sorted(timers, q) && Known(others, q)
    requires forall k :: k in q ==> others[k].expiration == timers[k].expiration
    ensures Sorted(others, q)
  {
  }

  predicate Distinct(q: seq<int>) {
    forall i, j :: 0 <= i < j < |q| ==> q[i] != q[j]
  }

  lemma SortedDistinct(timers: Timers, q: seq<int>)
    requires Known(timers, q) && Sorted(timers, q)
    ensures Distinct(q)
  {
  }

  /** A timer after reset: one interval on from the batch's time if it is in the batch, repeats
      and is not cancelled, and as it was otherwise. */
  function Restarted(timers: Timers, expired: seq<int>, now: int, k: int): Timer
    requires k in timers
  {
    var t := timers[k];
    if k in expired && Repeats(t) && !t.deleted then t.(expiration := now + t.interval) else t
  }

  /** reset: the batch's repeating timers that are not cancelled are queued again, one interval
      after the batch's time; no other timer changes, and none that is queued. */
  lemma {:induction false} RequeuedExactly(timers: Timers, q: seq<int>, expired: seq<int>, now: int)
    requires Known(timers, q) && Known(timers, expired) && Sorted(timers, q)
    requires Distinct(expired) && forall k :: k in expired ==> k !in q
    ensures var (after, r) := Requeued(timers, q, expired, now);
      && Sorted(after, r)
      && (forall k :: k in r <==> k in q || (k in expired && Repeats(timers[k]) && !timers[k].deleted))
      && (forall k :: k in timers ==> after[k] == Restarted(timers, expired, now, k))
    decreases |expired|
  {
    if expired != [] {
      var k, t := expired[0], timers[expired[0]];
      assert expired == [k] + expired[1..];
      assert k !in expired[1..];
      if Repeats(t) && !t.deleted {
        var restarted := timers[k := t.(expiration := now + t.interval)];
        OtherKeysFree(timers, restarted, q);
        PushedSorted(restarted, q, k);
        RequeuedExactly(restarted, Pushed(restarted, q, k), expired[1..], now);
      } else {
        RequeuedExactly(timers, q, expired[1..], now);
      }
    }
  }

  lemma {:induction false} PurgedExactly(timers: Timers, q: seq<int>)
    requires Known(timers, q) && Sorted(timers, q)
    ensures var r := Purged(timers, q);
      && Sorted(timers, r)
      && (forall k :: k in r ==> k in q)
      && (forall k :: k in q && k !in r ==> timers[k].deleted)
      && (r != [] ==> !timers[r[0]].deleted)
    decreases |q|
  {
    if q != [] && timers[q[0]].deleted {
      SortedTail(timers, q);
      assert q == [q[0]] + q[1..];
      PurgedExactly(timers, q[1..]);
    }
  }

  // ---------- What every step keeps ----------

  /** The batch being run, and what of it has not been looked at yet. */
  function Batch(s: State): seq<int> {
    if s.phase.Running? then s.phase.expired else []
  }

  function Left(s: State): seq<int> {
    if s.phase.Running? && 0 <= s.phase.next <= |s.phase.expired| then s.phase.expired[s.phase.next..] else []
  }

  /** The queue is in order, and no timer of the running batch is in it. */
  predicate QueueOk(s: State) {
    && WellFormed(s) && Sorted(s.timers, s.queue)
    && Distinct(Batch(s)) && (forall k :: k in Batch(s) ==> k !in s.queue)
    && (s.phase.Running? ==> s.phase.next <= |s.phase.expired|)
    && (forall k :: k in s.ran ==> k in s.timers)
  }

  function Count(s: State, k: int): nat {
    multiset(s.ran)[k]
  }

  /** A one-shot timer that waits has not run, and none has run twice. */
  predicate OneShotOk(s: State, k: int)
    requires k in s.timers
  {
    !Repeats(s.timers[k]) ==> Count(s, k) <= 1 && (k in s.queue || k in Left(s) ==> Count(s, k) == 0)
  }

  /** A timer that is not cancelled waits in the queue, is in the batch that is running, or is
      one-shot and has run. */
  predicate LiveOk(s: State, k: int)
    requires k in s.timers
  {
    !s.timers[k].deleted ==>
      k in s.queue || k in Left(s) || (Repeats(s.timers[k]) && k in Batch(s)) || (!Repeats(s.timers[k]) && Count(s, k) == 1)
  }

  ghost predicate Inv(s: State) {
    QueueOk(s) && forall k :: k in s.timers ==> OneShotOk(s, k) && LiveOk(s, k)
  }

  lemma QueueAdd(s: State, k: int, when: int, interval: int)
    requires QueueOk(s) && k !in s.timers
    ensures QueueOk(Added(s, k, when, interval))
  {
    var timers := s.timers[k := Timer(when, interval, false)];
    assert k !in s.queue && k !in Batch(s);
    OtherKeysFree(s.timers, timers, s.queue);
    PushedSorted(timers, s.queue, k);
    hide Sorted, Pushed, Distinct;
  }

  lemma QueueCancel(s: State, k: int)
    requires QueueOk(s) && k in s.timers
    ensures QueueOk(s.(timers := s.timers[k := s.timers[k].(deleted := true)]))
  {
    OtherKeysFree(s.timers, s.timers[k := s.timers[k].(deleted := true)], s.queue);
    hide Sorted, Distinct;
  }

  lemma QueueFire(s: State)
    requires QueueOk(s) && Enabled(s, Fire)
    ensures QueueOk(Apply(s, Fire))
  {
    ExpiredExactly(s.timers, s.queue, s.clock);
    SortedDistinct(s.timers, Split(s.timers, s.queue, s.clock).0);
    hide Sorted, Split, Distinct;
  }

  lemma QueueStep(s: State, step: Step)
    requires QueueOk(s) && Enabled(s, step)
    ensures QueueOk(Apply(s, step))
  {
    hide Sorted, Split, Distinct, Pushed, Requeued, Purged;
    match step
    case Elapse(t) =>
    case Add(k, when, interval) => QueueAdd(s, k, when, interval);
    case Cancel(k) =>
      if k in s.timers {
        QueueCancel(s, k);
      }
    case Fire => QueueFire(s);
    case RunNext =>
    case Finish => FinishStep(s);
  }

  /** What reset leaves in the queue. */
  lemma FinishStep(s: State)
    requires QueueOk(s) && Enabled(s, Finish)
    ensures var t := Apply(s, Finish);
      && QueueOk(t) && t.timers.Keys == s.timers.Keys
      && (forall k :: k in s.timers ==> t.timers[k] == Restarted(s.timers, Batch(s), s.phase.now, k))
      && (forall k :: k in t.queue ==> k in s.queue || (k in Batch(s) && Repeats(s.timers[k])))
      && (forall k :: k in s.timers && !s.timers[k].deleted && (k in s.queue || (k in Batch(s) && Repeats(s.timers[k]))) ==> k in t.queue)
      && (t.queue != [] ==> !t.timers[t.queue[0]].deleted)
  {
    var (timers, q) := Requeued(s.timers, s.queue, s.phase.expired, s.phase.now);
    RequeuedExactly(s.timers, s.queue, s.phase.expired, s.phase.now);
    PurgedExactly(timers, q);
  }

  lemma FireStep(s: State)
    requires QueueOk(s) && Enabled(s, Fire)
    ensures var t := Apply(s, Fire);
      && (forall k :: k in Left(t) ==> k in s.queue) && (forall k :: k in t.queue ==> k in s.queue)
      && (forall k :: k in s.queue && !s.timers[k].deleted ==> k in t.queue || k in Left(t))
      && Left(t) == Batch(t)
  {
    ExpiredExactly(s.timers, s.queue, s.clock);
  }

  lemma AddStep(s: State, k: int, when: int, interval: int)
    requires QueueOk(s) && k !in s.timers
    ensures var t := Added(s, k, when, interval);
      && (forall x :: x in t.queue <==> x in s.queue || x == k)
      && t.timers == s.timers[k := Timer(when, interval, false)] && t.phase == s.phase && t.ran == s.ran
      && Count(t, k) == 0
  {
    var timers := s.timers[k := Timer(when, interval, false)];
    assert k !in s.queue;
    OtherKeysFree(s.timers, timers, s.queue);
    PushedSorted(timers, s.queue, k);
  }

  lemma RunStep(s: State)
    requires QueueOk(s) && Enabled(s, RunNext)
    ensures var t, k := Apply(s, RunNext), s.phase.expired[s.phase.next];
      && k in Left(s) && k !in Left(t) && k in Batch(t) && k !in s.queue
      && (forall x :: x in Left(s) && x != k ==> x in Left(t)) && (forall x :: x in Left(t) ==> x in Left(s))
      && (forall x :: Count(t, x) == Count(s, x) + if x == k && !s.timers[k].deleted then 1 else 0)
  {
    assert Left(s) == [Left(s)[0]] + Left(Apply(s, RunNext));
  }

  lemma TimerAdded(s: State, step: Step, k: int)
    requires Inv(s) && Enabled(s, step) && step.Add? && k in Apply(s, step).timers
    ensures OneShotOk(Apply(s, step), k) && LiveOk(Apply(s, step), k)
  {
    AddStep(s, step.id, step.when, step.interval);
    var t := Apply(s, step);
    if k != step.id {
      assert OneShotOk(s, k) && LiveOk(s, k);
    }
    assert Left(t) == Left(s) && Batch(t) == Batch(s);
    assert k == step.id ==> k !in Left(s);
    hide Apply, Added, Pushed, Sorted, Known, Distinct, Left, Batch;
  }

  lemma TimerFired(s: State, k: int)
    requires Inv(s) && Enabled(s, Fire) && k in s.timers
    ensures OneShotOk(Apply(s, Fire), k) && LiveOk(Apply(s, Fire), k)
  {
    FireStep(s);
    assert OneShotOk(s, k) && LiveOk(s, k);
    hide Sorted, Split, Known, Distinct;
  }

  lemma TimerRun(s: State, k: int)
    requires Inv(s) && Enabled(s, RunNext) && k in s.timers
    ensures OneShotOk(Apply(s, RunNext), k) && LiveOk(Apply(s, RunNext), k)
  {
    RunStep(s);
    assert OneShotOk(s, k) && LiveOk(s, k);
    hide Sorted, Left, Known, Distinct, Count;
  }

  lemma TimerFinished(s: State, k: int)
    requires Inv(s) && Enabled(s, Finish) && k in s.timers
    ensures OneShotOk(Apply(s, Finish), k) && LiveOk(Apply(s, Finish), k)
  {
    FinishStep(s);
    assert OneShotOk(s, k) && LiveOk(s, k);
    assert Left(s) == [] && Left(Apply(s, Finish)) == [] && s.ran == Apply(s, Finish).ran;
    hide Apply, Sorted, Known, Distinct;
  }

  lemma TimerStep(s: State, step: Step, k: int)
    requires Inv(s) && Enabled(s, step) && k in Apply(s, step).timers
    ensures OneShotOk(Apply(s, step), k) && LiveOk(Apply(s, step), k)
  {
    if step.Add? {
      TimerAdded(s, step, k);
    } else if step.Fire? {
      TimerFired(s, k);
    } else if step.RunNext? {
      TimerRun(s, k);
    } else if step.Finish? {
      FinishStep(s);
      TimerFinished(s, k);
    } else {
      assert OneShotOk(s, k) && LiveOk(s, k);
      hide Sorted, Distinct, Count, Pushed, Split, Requeued, Purged;
    }
  }

  lemma StepKeepsInv(s: State, step: Step)
    requires Inv(s) && Enabled(s, step)
    ensures Inv(Apply(s, step))
  {
    QueueStep(s, step);
    forall k | k in Apply(s, step).timers ensures OneShotOk(Apply(s, step), k) && LiveOk(Apply(s, step), k) {
      TimerStep(s, step, k);
    }
  }

  /** No timer's key changes while the timer is in the queue. */
  lemma KeysAreStable(s: State, step: Step, k: int)
    requires QueueOk(s) && Enabled(s, step) && k in s.queue
    ensures k in Apply(s, step).timers && Apply(s, step).timers[k].expiration == s.timers[k].expiration
  {
    if step.Finish? {
      FinishStep(s);
    }
  }

  // ---------- Runs ----------

  predicate IsRun(s: State, steps: seq<Step>)
    decreases |steps|
  {
    steps == [] || (WellFormed(s) && Enabled(s, steps[0]) && IsRun(Apply(s, steps[0]), steps[1..]))
  }

  function Final(s: State, steps: seq<Step>): State
    requires IsRun(s, steps)
    decreases |steps|
  {
    if steps == [] then s else Final(Apply(s, steps[0]), steps[1..])
  }

  /** A new manager. */
  predicate Init(s: State) {
    s.timers == map[] && s.queue == [] && s.phase.Idle? && s.armed.None? && !s.fired && s.ran == []
  }

  lemma {:induction false} RunKeepsInv(s: State, steps: seq<Step>)
    requires Inv(s) && IsRun(s, steps)
    ensures Inv(Final(s, steps))
    decreases |steps|
  {
    hide Inv, Apply;
    if steps != [] {
      StepKeepsInv(s, steps[0]);
      RunKeepsInv(Apply(s, steps[0]), steps[1..]);
    }
  }

  /** A one-shot timer runs at most once, and a timer that is not cancelled is never lost: it
      waits, is about to run, or (one-shot) has run. */
  lemma TimersAreConserved(s: State, steps: seq<Step>, k: int)
    requires Init(s) && IsRun(s, steps) && k in Final(s, steps).timers
    ensures OneShotOk(Final(s, steps), k) && LiveOk(Final(s, steps), k)
  {
    assert Inv(s);
    RunKeepsInv(s, steps);
  }

  lemma CancelStep(s: State, step: Step, k: int)
    requires QueueOk(s) && Enabled(s, step) && k in s.timers && s.timers[k].deleted
    ensures var t := Apply(s, step);
      k in t.timers && t.timers[k].deleted && Count(t, k) == Count(s, k)
  {
    if step.RunNext? {
      RunStep(s);
    } else if step.Finish? {
      FinishStep(s);
    }
    hide Sorted, Distinct, Pushed, Split, Requeued, Purged, Left;
  }

  /** A cancelled timer never runs again, even when it is cancelled by a callback of the batch
      it is in. */
  lemma {:induction false} CancelledNeverRuns(s: State, steps: seq<Step>, k: int)
    requires Inv(s) && IsRun(s, steps) && k in s.timers && s.timers[k].deleted
    ensures Count(Final(s, steps), k) == Count(s, k)
    decreases |steps|
  {
    hide Apply, Count;
    if steps != [] {
      StepKeepsInv(s, steps[0]);
      CancelStep(s, steps[0], k);
      CancelledNeverRuns(Apply(s, steps[0]), steps[1..], k);
    }
  }

  // ---------- The armed deadline ----------

  /** The first timer of the queue is one the manager knows. */
  predicate TopKnown(s: State) {
    s.queue != [] ==> s.queue[0] in s.timers
  }

  /** Outside handleRead, a queue that is not empty has the timerfd set to its first deadline,
      or expired and unread. */
  predicate Armed(s: State)
    requires TopKnown(s)
  {
    s.phase.Idle? && s.queue != [] ==> s.fired || s.armed == Some(s.timers[s.queue[0]].expiration)
  }

  /** The timerfd expires on time. */
  predicate ClockOk(s: State) {
    s.armed.Some? ==> s.armed.value > s.clock
  }

  /** resetTimerFd at this state works: the deadline is ahead, or it is past and an unread
      expiration will have the queue looked at anyway. */
  predicate Takes(s: State, expiration: int) {
    expiration > s.clock || (expiration < s.clock && s.fired)
  }

  /** The deadline a step sets. */
  function Deadline(s: State, step: Step): Option<int>
    requires WellFormed(s) && Enabled(s, step)
  {
    match step
    case Add(k, when, interval) =>
      if s.phase.Idle? && (s.queue == [] || s.timers[s.queue[0]].expiration > when) then Some(when) else None
    case Finish =>
      var (timers, q) := Requeued(s.timers, s.queue, s.phase.expired, s.phase.now);
      var rest := Purged(timers, q);
      if rest == [] then None else Some(timers[rest[0]].expiration)
    case Elapse(_) => None
    case Cancel(_) => None
    case Fire => None
    case RunNext => None
  }

  lemma TopAfterAdd(s: State, k: int, when: int, interval: int)
    requires QueueOk(s) && k !in s.timers
    ensures var t := Added(s, k, when, interval);
      && t.queue != [] && TopKnown(t)
      && (t.timers[t.queue[0]].expiration ==
          if s.queue == [] || s.timers[s.queue[0]].expiration > when then when else s.timers[s.queue[0]].expiration)
  {
  }

  /** Exactly when the armed deadline follows the queue: each deadline that is set must lie
      ahead when it is set (or an expiration must be pending). The code has no other guard, so a
      repeating timer whose batch takes longer than its interval is not armed again. */
  lemma ArmedIff(s: State, step: Step)
    requires QueueOk(s) && ClockOk(s) && Armed(s) && Enabled(s, step)
    ensures QueueOk(Apply(s, step)) && ClockOk(Apply(s, step))
    ensures var d := Deadline(s, step);
      Armed(Apply(s, step)) <==> d.None? || Takes(s, d.value)
  {
    QueueStep(s, step);
    match step
    case Elapse(t) =>
    case Add(k, when, interval) => TopAfterAdd(s, k, when, interval);
    case Cancel(k) =>
    case Fire =>
    case RunNext =>
    case Finish =>
  }

  /** Every deadline a run sets lies ahead. */
  predicate Timely(s: State, steps: seq<Step>)
    requires IsRun(s, steps)
    decreases |steps|
  {
    steps != [] ==>
      (var d := Deadline(s, steps[0]); d.Some? ==> d.value > s.clock) && Timely(Apply(s, steps[0]), steps[1..])
  }

  lemma {:induction false} RunStaysArmed(s: State, steps: seq<Step>)
    requires QueueOk(s) && ClockOk(s) && Armed(s) && IsRun(s, steps) && Timely(s, steps)
    ensures QueueOk(Final(s, steps)) && ClockOk(Final(s, steps)) && Armed(Final(s, steps))
    decreases |steps|
  {
    hide Apply, ClockOk, Deadline;
    if steps != [] {
      ArmedIff(s, steps[0]);
      RunStaysArmed(Apply(s, steps[0]), steps[1..]);
    }
  }

  /** The armed deadline tracks the queue over any run of adds, cancels and expiries whose
      deadlines lie ahead when they are set, timers added by callbacks included. */
  lemma DeadlineTracksQueue(s: State, steps: seq<Step>)
    requires Init(s) && IsRun(s, steps) && Timely(s, steps)
    ensures var f := Final(s, steps);
      f.phase.Idle? && f.queue != [] ==>
        Known(f.timers, f.queue) && (f.fired || f.armed == Some(f.timers[f.queue[0]].expiration))
  {
    RunStaysArmed(s, steps);
  }

  /** When the first deadline comes, handleRead is due. */
  lemma DueTimerFires(s: State, t: int)
    requires QueueOk(s) && Armed(s) && s.phase.Idle? && s.queue != []
    requires t >= s.clock && t >= s.timers[s.queue[0]].expiration
    ensures Enabled(Apply(s, Elapse(t)), Fire)
  {
  }

  /** When a repeating timer of the batch comes first after reset, the timerfd follows it exactly
      when the batch took less than its interval, or took more and an expiration is pending. */
  lemma RepeatRearmedIff(s: State)
    requires QueueOk(s) && ClockOk(s) && Enabled(s, Finish)
    requires var q := Apply(s, Finish).queue; q != [] && q[0] in Batch(s)
    ensures var t := Apply(s, Finish); TopKnown(t)
    ensures var t := Apply(s, Finish); var interval := s.timers[t.queue[0]].interval;
      Armed(t) <==> s.clock - s.phase.now < interval || (s.clock - s.phase.now > interval && s.fired)
  {
    FinishStep(s);
    ArmedIff(s, Finish);
    hide Requeued, Purged, Sorted, Distinct;
    var k := Apply(s, Finish).queue[0];
    assert k !in s.queue && Repeats(s.timers[k]) && !s.timers[k].deleted;
  }

  /** A batch that takes as long as the interval of any live repeating timer in it is not armed
      for, whatever else is queued: the first deadline is then not ahead. */
  lemma SlowBatchIsNotRearmed(s: State, k: int)
    requires QueueOk(s) && ClockOk(s) && Enabled(s, Finish) && !s.fired
    requires k in Batch(s) && Repeats(s.timers[k]) && !s.timers[k].deleted
    requires s.clock - s.phase.now >= s.timers[k].interval
    ensures var t := Apply(s, Finish); k in t.queue && TopKnown(t) && !Armed(t)
  {
    FinishStep(s);
    ArmedIff(s, Finish);
    FirstIsEarliest(Apply(s, Finish), k);
    hide Requeued, Purged, Sorted, Distinct;
  }

  lemma FirstIsEarliest(s: State, k: int)
    requires QueueOk(s) && k in s.queue
    ensures s.timers[s.queue[0]].expiration <= s.timers[k].expiration
  {
    if k != s.queue[0] {
      var i :| 0 <= i < |s.queue| && s.queue[i] == k;
      assert Before(s.timers, s.queue[0], s.queue[i]);
    }
  }

  lemma RunCons(s: State, step: Step, rest: seq<Step>)
    requires WellFormed(s) && Enabled(s, step) && IsRun(Apply(s, step), rest)
    ensures IsRun(s, [step] + rest) && Final(s, [step] + rest) == Final(Apply(s, step), rest)
  {
    assert ([step] + rest)[1..] == rest;
  }

  /** A repeating timer that has come due, and whose callback takes `work`. */
  function Repeating(start: int, interval: int, work: int): seq<Step> {
    [Add(0, start + 1, interval)] + ([Elapse(start + 1)] + ([Fire] + ([RunNext] + ([Elapse(start + 1 + work)] + ([Finish] + [])))))
  }

  /** Such a timer is armed again exactly when its callback takes less than its interval;
      otherwise it stays queued with nothing set to wake the loop for it. */
  lemma SlowCallbackIsNotRearmed(start: int, interval: int, work: int) returns (f: State)
    requires interval > 0 && work >= 0
    ensures var s := State(map[], [], Idle, start, None, false, []);
      Init(s) && IsRun(s, Repeating(start, interval, work)) && f == Final(s, Repeating(start, interval, work))
    ensures f.queue == [0] && f.phase.Idle? && !f.fired && 0 in f.timers
    ensures f.armed == Some(f.timers[0].expiration) <==> work < interval
    ensures f.armed.None? <==> work >= interval
  {
    var due := start + 1;
    var s0 := State(map[], [], Idle, start, None, false, []);
    var timers: Timers := map[0 := Timer(due, interval, false)];
    var s1 := State(timers, [0], Idle, start, Some(due), false, []);
    var s2 := s1.(clock := due, armed := None, fired := true);
    var s3 := s2.(queue := [], phase := Running([0], 0, due), fired := false);
    var s4 := s3.(phase := Running([0], 1, due), ran := [0]);
    var s5 := s4.(clock := due + work);
    FirstSteps(start, interval);
    f := SlowReset(s5, due, interval, work);
    assert IsRun(f, []) && Final(f, []) == f;
    assert Apply(s3, RunNext) == s4 && Apply(s4, Elapse(due + work)) == s5;
    hide Final, IsRun;
    RunCons(s5, Finish, []);
    RunCons(s4, Elapse(due + work), [Finish] + []);
    RunCons(s3, RunNext, [Elapse(due + work)] + ([Finish] + []));
    RunCons(s2, Fire, [RunNext] + ([Elapse(due + work)] + ([Finish] + [])));
    RunCons(s1, Elapse(due), [Fire] + ([RunNext] + ([Elapse(due + work)] + ([Finish] + []))));
    RunCons(s0, Add(0, due, interval), [Elapse(due)] + ([Fire] + ([RunNext] + ([Elapse(due + work)] + ([Finish] + [])))));
  }

  lemma FirstSteps(start: int, interval: int)
    ensures var due := start + 1;
      var s0 := State(map[], [], Idle, start, None, false, []);
      var s1 := State(map[0 := Timer(due, interval, false)], [0], Idle, start, Some(due), false, []);
      var s2 := s1.(clock := due, armed := None, fired := true);
      && WellFormed(s0) && Apply(s0, Add(0, due, interval)) == s1 && WellFormed(s1)
      && Apply(s1, Elapse(due)) == s2 && WellFormed(s2)
      && Apply(s2, Fire) == s2.(queue := [], phase := Running([0], 0, due), fired := false)
  {
    var due := start + 1;
    var timers: Timers := map[0 := Timer(due, interval, false)];
    assert map[][0 := Timer(due, interval, false)] == timers;
    assert Pushed(timers, [], 0) == [0];
    assert [0][1..] == [];
    assert Split(timers, [0], due) == ([0], []);
  }

  lemma SlowReset(s: State, due: int, interval: int, work: int) returns (f: State)
    requires interval > 0 && work >= 0
    requires s == State(map[0 := Timer(due, interval, false)], [], Running([0], 1, due), due + work, None, false, [0])
    ensures WellFormed(s) && f == Apply(s, Finish) && WellFormed(f)
    ensures f.queue == [0] && f.phase.Idle? && !f.fired && 0 in f.timers
    ensures f.armed == Some(f.timers[0].expiration) <==> work < interval
    ensures f.armed.None? <==> work >= interval
  {
    var restarted := s.timers[0 := Timer(due + interval, interval, false)];
    assert [0][1..] == [];
    assert Pushed(restarted, [], 0) == [0];
    assert Requeued(restarted, [0], [], due) == (restarted, [0]);
    assert Requeued(s.timers, [], [0], due) == Requeued(restarted, [0], [0][1..], due);
    f := Apply(s, Finish);
  }

  // ---------- The code ----------

  /** The manager with the clock and the timerfd it reads. A priority_queue is kept as the
      sequence it pops. handleRead is the three methods BeginRead, RunNextTimer and Reset; the
      other methods may be called between them, which is what a callback can do. */
  class Manager {
    var timers: Timers
    var queue: seq<int>
    var phase: Phase
    var clock: int
    var armed: Option<int>
    var fired: bool
    ghost var ran: seq<int>

    ghost function View(): State
      reads this
    {
      State(timers, queue, phase, clock, armed, fired, ran)
    }

    constructor (clock: int)
      ensures Init(View()) && this.clock == clock
    {
      timers, queue, phase, this.clock := map[], [], Idle, clock;
      armed, fired, ran := None, false, [];
    }

    method ResetTimerFd(expiration: int)
      modifies `armed, `fired
      ensures View() == Rearmed(old(View()), expiration)
    {
      var nsec := expiration - clock;
      if nsec > 0 {
        armed, fired := Some(expiration), false;
      } else if nsec == 0 {
        armed, fired := None, false;
      }
    }

    method Insert(k: int) returns (earliestChanged: bool)
      requires k in timers && Known(timers, queue)
      modifies `queue
      ensures queue == Pushed(timers, old(queue), k)
      ensures earliestChanged <==> old(queue) == [] || timers[old(queue)[0]].expiration > timers[k].expiration
    {
      earliestChanged := false;
      if queue != [] {
        if timers[queue[0]].expiration > timers[k].expiration {
          earliestChanged := true;
        }
        queue := Pushed(timers, queue, k);
      } else {
        queue := Pushed(timers, queue, k);
        earliestChanged := true;
      }
    }

    method AddTimerInLoop(k: int, when: int, interval: int)
      requires WellFormed(View()) && k !in timers
      modifies this
      ensures View() == Apply(old(View()), Add(k, when, interval))
    {
      timers := timers[k := Timer(when, interval, false)];
      var earliestChanged := Insert(k);
      if earliestChanged {
        ResetTimerFd(timers[k].expiration);
      }
    }

    method CancelInLoop(k: int)
      requires WellFormed(View())
      modifies `timers
      ensures View() == Apply(old(View()), Cancel(k))
    {
      if k in timers {
        timers := timers[k := timers[k].(deleted := true)];
      }
    }

    method GetExpired(now: int) returns (expired: seq<int>)
      requires Known(timers, queue)
      modifies `queue
      ensures (expired, queue) == Split(timers, old(queue), now)
    {
      expired := [];
      ghost var due := Split(timers, queue, now).0;
      assert expired + due == due;
      while queue != [] && timers[queue[0]].expiration <= now
        invariant Known(timers, queue)
        invariant var rest := Split(timers, queue, now);
          Split(timers, old(queue), now) == (expired + rest.0, rest.1)
        decreases |queue|
      {
        ghost var rest := Split(timers, queue[1..], now).0;
        if !timers[queue[0]].deleted {
          assert (expired + [queue[0]]) + rest == expired + ([queue[0]] + rest);
          expired := expired + [queue[0]];
        }
        queue := queue[1..];
      }
      assert expired + [] == expired;
    }

    /** handleRead up to its callbacks: the timerfd is read and the batch taken. */
    method BeginRead()
      requires WellFormed(View()) && Enabled(View(), Fire)
      modifies this
      ensures View() == Apply(old(View()), Fire)
    {
      fired := false;
      var now := clock;
      var expired := GetExpired(now);
      phase := Running(expired, 0, now);
    }

    /** One pass of handleRead's loop over the batch. */
    method RunNextTimer()
      requires WellFormed(View()) && Enabled(View(), RunNext)
      modifies `phase, `ran
      ensures View() == Apply(old(View()), RunNext)
    {
      var key := phase.expired[phase.next];
      if !timers[key].deleted {
        ran := ran + [key];
      }
      phase := phase.(next := phase.next + 1);
    }

    method Requeue(expired: seq<int>, now: int)
      requires Known(timers, queue) && Known(timers, expired)
      modifies `timers, `queue
      ensures (timers, queue) == Requeued(old(timers), old(queue), expired, now)
    {
      var i := 0;
      while i < |expired|
        invariant 0 <= i <= |expired|
        invariant Known(timers, queue) && Known(timers, expired)
        invariant Requeued(timers, queue, expired[i..], now) == Requeued(old(timers), old(queue), expired, now)
      {
        var key := expired[i];
        assert expired[i..][0] == key && expired[i..][1..] == expired[i + 1..];
        if Repeats(timers[key]) && !timers[key].deleted {
          timers := timers[key := timers[key].(expiration := now + timers[key].interval)];
          var _ := Insert(key);
        }
        i := i + 1;
      }
      assert expired[i..] == [];
    }

    /** TimerManager::reset, at the end of handleRead. */
    method Reset()
      requires WellFormed(View()) && Enabled(View(), Finish)
      modifies this
      ensures View() == Apply(old(View()), Finish)
    {
      Requeue(phase.expired, phase.now);
      phase := Idle;
      ghost var requeued := queue;
      label purging:
      while queue != [] && timers[queue[0]].deleted
        invariant Known(timers, queue) && Known(timers, requeued)
        invariant Purged(timers, queue) == Purged(timers, requeued)
        invariant View() == old@purging(View()).(queue := queue)
        decreases |queue|
      {
        queue := queue[1..];
      }
      if queue != [] {
        ResetTimerFd(timers[queue[0]].expiration);
      }
    }
  }
}
