/** The wakeup protocol of net/EventLoop.cpp: one loop thread, any number of other threads,
    a mutex-protected functor vector and an eventfd, as interleaved atomic steps. */
module EventLoop {

  type Functor = nat
  type Tid = nat

  /** The largest value an eventfd holds; a write at that value fails and changes nothing. */
  const EVENTFD_MAX: nat := 0xFFFF_FFFF_FFFF_FFFE

  /** Where the loop thread is. */
  datatype LoopPc =
    | Outside                        // not inside loop()
    | Checking                       // about to evaluate `while (!quit_)`
    | Polling                        // about to block in epoll_->poll
    | Handling(wakeActive: bool)     // calling back active channels; the wakeup channel may still be among them
    | Calling                        // in runFunctors before the swap
    | Running                        // in runFunctors after the swap

  datatype State = State(
    pc: LoopPc,
    quit: bool,
    calling: bool,                   // callingFunctors_
    functors: seq<Functor>,          // functors_
    batch: seq<Functor>,             // the swapped-out vector, from the next functor on
    counter: nat,                    // the eventfd
    owing: set<Tid>,                 // other threads between their push (or quit_ store) and their write
    owes: bool,                      // the loop thread is there
    queued: seq<Functor>,            // every functor ever pushed, in order
    executed: seq<Functor>)          // every functor ever run, in order

  datatype Step =
    | Enter                          // loop(): quit_ = false
    | Check                          // the loop condition
    | PollReturns(wakeActive: bool)  // the wakeup channel is reported only if the counter is positive
    | HandleRead                     // the wakeup channel's read callback
    | EndHandling                    // callingFunctors_ = true
    | Swap                           // functors.swap(functors_), under the mutex
    | RunNext                        // functor()
    | EndRunning                     // callingFunctors_ = false
    | LoopQueues(f: Functor)         // queueInLoop from the loop thread: the push
    | LoopWrites                     // ... and its wakeup()
    | LoopQuits                      // quit() from the loop thread
    | OtherQueues(t: Tid, f: Functor)  // queueInLoop from another thread: the push
    | OtherQuits(t: Tid)             // quit() from another thread: the store
    | OtherWrites(t: Tid)            // the wakeup() of either

  /** The loop thread runs user code: channel callbacks, functors, or code outside loop(). */
  predicate UserCodeRuns(s: State) {
    s.pc.Outside? || s.pc.Handling? || s.pc.Running?
  }

  predicate Enabled(s: State, step: Step) {
    match step
    case Enter => s.pc.Outside? && !s.owes
    case Check => s.pc.Checking?
    case PollReturns(wakeActive) => s.pc.Polling? && (wakeActive ==> s.counter > 0)
    case HandleRead => s.pc.Handling? && s.pc.wakeActive
    case EndHandling => s.pc.Handling? && !s.pc.wakeActive && !s.owes
    case Swap => s.pc.Calling?
    case RunNext => s.pc.Running? && !s.owes && s.batch != []
    case EndRunning => s.pc.Running? && !s.owes && s.batch == []
    case LoopQueues(_) => UserCodeRuns(s) && !s.owes
    case LoopWrites => s.owes
    case LoopQuits => UserCodeRuns(s) && !s.owes
    case OtherQueues(t, _) => t !in s.owing
    case OtherQuits(t) => t !in s.owing
    case OtherWrites(t) => t in s.owing
  }

  function WriteEventfd(counter: nat): nat {
    if counter < EVENTFD_MAX then counter + 1 else counter
  }

  function Apply(s: State, step: Step): State
    requires Enabled(s, step)
  {
    match step
    case Enter => s.(pc := Checking, quit := false)
    case Check => s.(pc := if s.quit then Outside else Polling)
    case PollReturns(wakeActive) => s.(pc := Handling(wakeActive))
    case HandleRead => s.(pc := Handling(false), counter := 0)
    case EndHandling => s.(pc := Calling, calling := true)
    case Swap => s.(pc := Running, batch := s.functors, functors := [])
    case RunNext => s.(executed := s.executed + [s.batch[0]], batch := s.batch[1..])
    case EndRunning => s.(pc := Checking, calling := false)
    case LoopQueues(f) => s.(functors := s.functors + [f], queued := s.queued + [f], owes := s.calling)
    case LoopWrites => s.(counter := WriteEventfd(s.counter), owes := false)
    case LoopQuits => s.(quit := true)
    case OtherQueues(t, f) => s.(functors := s.functors + [f], queued := s.queued + [f], owing := s.owing + {t})
    case OtherQuits(t) => s.(quit := true, owing := s.owing + {t})
    case OtherWrites(t) => s.(counter := WriteEventfd(s.counter), owing := s.owing - {t})
  }

  predicate IsRun(s: State, steps: seq<Step>)
    decreases |steps|
  {
    steps == [] || (Enabled(s, steps[0]) && IsRun(Apply(s, steps[0]), steps[1..]))
  }

  function Final(s: State, steps: seq<Step>): State
    requires IsRun(s, steps)
    decreases |steps|
  {
    if steps == [] then s else Final(Apply(s, steps[0]), steps[1..])
  }

  /** A wakeup has been delivered or is on its way. */
  predicate WakeupComing(s: State) {
    s.counter > 0 || s.owing != {} || s.owes
  }

  /** The loop blocks for ever on work it should do: it is at the poll with a functor queued
      or quit_ set, the eventfd is zero, and nobody is about to write it. */
  predicate LostWakeup(s: State) {
    s.pc.Polling? && (s.functors != [] || s.quit) && !WakeupComing(s)
  }

  /** What makes loop() safe to enter. */
  predicate EntryOk(s: State) {
    s.functors == [] || WakeupComing(s)
  }

  /** A thread that has just been constructed an EventLoop: nothing queued, nothing written. */
  predicate Fresh(s: State) {
    s.pc.Outside? && !s.calling && s.functors == [] && s.batch == [] && s.counter == 0 && s.owing == {} && !s.owes
    && s.queued == [] && s.executed == []
  }

  /** What holds between any two steps. */
  predicate Inv(s: State) {
    && (s.calling <==> s.pc.Calling? || s.pc.Running?)
    && (s.owes ==> s.pc.Running?)
    && (s.batch != [] ==> s.pc.Running?)
    && (s.pc.Checking? || s.pc.Polling? || s.pc.Running? ==> s.functors == [] || WakeupComing(s))
    && (s.pc.Polling? && s.quit ==> s.counter > 0 || s.owing != {})
  }

  /** Every functor ever pushed has run, is in the swapped-out batch, or is still queued, and
      in that order. */
  predicate Conserved(s: State) {
    s.queued == s.executed + s.batch + s.functors
  }

  lemma StepKeepsInv(s: State, step: Step)
    requires Inv(s) && Enabled(s, step)
    requires step.Enter? ==> EntryOk(s)
    ensures Inv(Apply(s, step))
  {
    if step.OtherQueues? || step.OtherQuits? {
      assert step.t in Apply(s, step).owing;
    }
  }

  lemma StepConserves(s: State, step: Step)
    requires Inv(s) && Conserved(s) && Enabled(s, step)
    ensures Conserved(Apply(s, step))
  {
    if step.Swap? {
      assert s.executed + [] + s.functors == s.executed + s.functors + [];
    } else if step.RunNext? {
      assert s.batch == [s.batch[0]] + s.batch[1..];
    }
  }

  /** Every time the run enters loop(), it is safe to. */
  predicate EntersSafely(s: State, steps: seq<Step>)
    requires IsRun(s, steps)
    decreases |steps|
  {
    steps == [] ||
    ((steps[0].Enter? ==> EntryOk(s)) && EntersSafely(Apply(s, steps[0]), steps[1..]))
  }

  lemma {:induction false} RunKeepsInv(s: State, steps: seq<Step>)
    requires Inv(s) && IsRun(s, steps) && EntersSafely(s, steps)
    ensures Inv(Final(s, steps))
    ensures Conserved(s) ==> Conserved(Final(s, steps))
    decreases |steps|
  {
    if steps != [] {
      StepKeepsInv(s, steps[0]);
      if Conserved(s) {
        StepConserves(s, steps[0]);
      }
      RunKeepsInv(Apply(s, steps[0]), steps[1..]);
    }
  }

  /** No lost wakeup: in every interleaving that enters loop() safely, the loop never blocks
      with work queued, or quit_ set, and no wakeup coming. */
  lemma NoLostWakeup(s: State, steps: seq<Step>)
    requires Fresh(s) && IsRun(s, steps) && EntersSafely(s, steps)
    ensures !LostWakeup(Final(s, steps))
    ensures Conserved(Final(s, steps))
  {
    RunKeepsInv(s, steps);
  }

  /** A thread that called loop() and stays in it: no Enter step is left. */
  predicate OneLoop(steps: seq<Step>) {
    forall i :: 0 <= i < |steps| ==> !steps[i].Enter?
  }

  lemma {:induction false} OneLoopEntersSafely(s: State, steps: seq<Step>)
    requires IsRun(s, steps) && OneLoop(steps)
    ensures EntersSafely(s, steps)
    decreases |steps|
  {
    if steps != [] {
      assert !steps[0].Enter?;
      assert forall i :: 0 <= i < |steps[1..]| ==> steps[1..][i] == steps[i + 1];
      OneLoopEntersSafely(Apply(s, steps[0]), steps[1..]);
    }
  }

  /** Exactly when calling loop() is safe: the queue is empty or a wakeup is coming. The loop
      thread itself can break this, by queueing a functor before it calls loop(). */
  lemma EntryIsSafeIff(s: State)
    requires Inv(s) && Enabled(s, Enter)
    ensures EntryOk(s)
        <==> forall steps :: IsRun(Apply(s, Enter), steps) && OneLoop(steps) ==> !LostWakeup(Final(Apply(s, Enter), steps))
  {
    var entered := Apply(s, Enter);
    if EntryOk(s) {
      StepKeepsInv(s, Enter);
      forall steps | IsRun(entered, steps) && OneLoop(steps)
        ensures !LostWakeup(Final(entered, steps))
      {
        OneLoopEntersSafely(entered, steps);
        RunKeepsInv(entered, steps);
      }
    } else {
      var steps := [Check];
      assert steps[1..] == [];
      assert IsRun(entered, steps) && LostWakeup(Final(entered, steps));
    }
  }

  /** The loop thread queueing before loop() does lose the wakeup. */
  lemma QueueBeforeLoopIsLost(s: State, f: Functor)
    requires Fresh(s)
    ensures var steps := [LoopQueues(f), Enter, Check]; IsRun(s, steps) && LostWakeup(Final(s, steps))
  {
    var queued := Apply(s, LoopQueues(f));
    var entered := Apply(queued, Enter);
    Extend(entered, Check, []);
    Extend(queued, Enter, [Check]);
    Extend(s, LoopQueues(f), [Enter, Check]);
  }

  /** A run is its first step and the rest. */
  lemma Extend(s: State, step: Step, rest: seq<Step>)
    requires Enabled(s, step) && IsRun(Apply(s, step), rest)
    ensures IsRun(s, [step] + rest) && Final(s, [step] + rest) == Final(Apply(s, step), rest)
    ensures !step.Enter? && OneLoop(rest) ==> OneLoop([step] + rest)
  {
    assert ([step] + rest)[1..] == rest;
  }

  /** The steps lead back to the loop condition with exactly the functors `todo` run. */
  predicate Runs(s: State, steps: seq<Step>, todo: seq<Functor>) {
    IsRun(s, steps) && OneLoop(steps)
    && Final(s, steps).pc.Checking? && Final(s, steps).executed == s.executed + todo
  }

  /** A functor queued while the loop is blocked is run: once its writer has written, poll can
      return with the wakeup channel, and the next pass of the loop runs everything queued. */
  lemma QueuedFunctorsRun(s: State)
    requires Inv(s) && s.pc.Polling? && s.functors != [] && s.owing == {}
    ensures exists steps :: Runs(s, steps, s.functors)
  {
    var s1 := Apply(s, PollReturns(true));
    var s2 := Apply(s1, HandleRead);
    var s3 := Apply(s2, EndHandling);
    var s4 := Apply(s3, Swap);
    var drain := DrainBatch(s4);
    Extend(s3, Swap, drain);
    Extend(s2, EndHandling, [Swap] + drain);
    Extend(s1, HandleRead, [EndHandling] + ([Swap] + drain));
    Extend(s, PollReturns(true), [HandleRead] + ([EndHandling] + ([Swap] + drain)));
    assert Runs(s, [PollReturns(true)] + ([HandleRead] + ([EndHandling] + ([Swap] + drain))), s.functors);
  }

  lemma {:induction false} DrainBatch(s: State) returns (steps: seq<Step>)
    requires s.pc.Running? && !s.owes
    ensures Runs(s, steps, s.batch)
    decreases |s.batch|
  {
    if s.batch == [] {
      steps := [EndRunning];
      Extend(s, EndRunning, []);
      assert s.executed + s.batch == s.executed;
    } else {
      var rest := DrainBatch(Apply(s, RunNext));
      Extend(s, RunNext, rest);
      steps := [RunNext] + rest;
      assert s.executed + [s.batch[0]] + s.batch[1..] == s.executed + s.batch;
    }
  }

  // ---------- The code ----------

  /** The loop object, in the pieces between which other threads run. `mine` says whether the
      calling thread is the loop's own (isInLoopThread); `t` is the caller otherwise. */
  class Loop {
    var pc: LoopPc
    var quit: bool
    var calling: bool
    var functors: seq<Functor>
    var batch: seq<Functor>      // the local vector of runFunctors
    var counter: nat
    ghost var owing: set<Tid>
    ghost var owes: bool
    ghost var queued: seq<Functor>
    ghost var executed: seq<Functor>

    ghost function View(): State
      reads this
    {
      State(pc, quit, calling, functors, batch, counter, owing, owes, queued, executed)
    }

    constructor ()
      ensures Fresh(View())
    {
      pc, quit, calling, functors, batch, counter := Outside, false, false, [], [], 0;
      owing, owes, queued, executed := {}, false, [], [];
    }

    /** loop(), up to its first test. */
    method EnterLoop()
      requires Enabled(View(), Enter)
      modifies this
      ensures View() == Apply(old(View()), Enter)
    {
      quit := false;
      pc := Checking;
    }

    /** `while (!quit_)`. */
    method TestQuit()
      requires Enabled(View(), Check)
      modifies `pc
      ensures View() == Apply(old(View()), Check)
    {
      if !quit {
        pc := Polling;
      } else {
        pc := Outside;
      }
    }

    /** The push of queueInLoop and whether its wakeup() follows. */
    method PushFunctor(f: Functor, mine: bool, t: Tid) returns (wakes: bool)
      requires Enabled(View(), if mine then LoopQueues(f) else OtherQueues(t, f))
      modifies this
      ensures View() == Apply(old(View()), if mine then LoopQueues(f) else OtherQueues(t, f))
      ensures wakes == if mine then owes else t in owing
    {
      functors := functors + [f];
      queued := queued + [f];
      wakes := !mine || calling;
      if mine {
        owes := wakes;
      } else {
        owing := owing + {t};
      }
    }

    /** The store of quit() and whether its wakeup() follows. */
    method SetQuit(mine: bool, t: Tid) returns (wakes: bool)
      requires Enabled(View(), if mine then LoopQuits else OtherQuits(t))
      modifies this
      ensures View() == Apply(old(View()), if mine then LoopQuits else OtherQuits(t))
      ensures wakes == !mine
    {
      quit := true;
      wakes := !mine;
      if wakes {
        owing := owing + {t};
      }
    }

    /** wakeup(): a full eventfd refuses the write, which is only logged. */
    method Wakeup(mine: bool, t: Tid)
      requires Enabled(View(), if mine then LoopWrites else OtherWrites(t))
      modifies this
      ensures View() == Apply(old(View()), if mine then LoopWrites else OtherWrites(t))
    {
      if counter < EVENTFD_MAX {
        counter := counter + 1;
      }
      if mine {
        owes := false;
      } else {
        owing := owing - {t};
      }
    }

    /** The wakeup channel's read callback empties the eventfd. */
    method ReadWakeup()
      requires Enabled(View(), HandleRead)
      modifies this
      ensures View() == Apply(old(View()), HandleRead)
    {
      counter := 0;
      pc := Handling(false);
    }

    /** runFunctors, up to its critical section and through it. */
    method BeginFunctors()
      requires Enabled(View(), EndHandling)
      modifies this
      ensures View() == Apply(old(View()), EndHandling)
    {
      calling := true;
      pc := Calling;
    }

    method SwapFunctors()
      requires Enabled(View(), Swap)
      modifies this
      ensures View() == Apply(old(View()), Swap)
    {
      batch, functors := functors, [];
      pc := Running;
    }

    /** One pass of the loop that runs the batch, and the end of it. */
    method RunFunctor()
      requires Enabled(View(), RunNext)
      modifies this
      ensures View() == Apply(old(View()), RunNext)
    {
      executed := executed + [batch[0]];
      batch := batch[1..];
    }

    method EndFunctors()
      requires Enabled(View(), EndRunning)
      modifies this
      ensures View() == Apply(old(View()), EndRunning)
    {
      calling := false;
      pc := Checking;
    }
  }
}
