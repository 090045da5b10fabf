/** quit() and the eventfd of net/EventLoop.cpp: a loop that is told to stop polls at most once
    more, whatever the other threads do, and no wakeup is spent twice. */
module LoopControl {
  import opened EventLoop

  // ---------- quit() ----------

  function Polls(steps: seq<Step>): nat {
    if steps == [] then 0 else (if steps[0].PollReturns? then 1 else 0) + Polls(steps[1..])
  }

  predicate IsQuit(step: Step) {
    step.LoopQuits? || step.OtherQuits?
  }

  lemma {:induction false} QuitStays(s: State, steps: seq<Step>)
    requires Inv(s) && s.quit && IsRun(s, steps) && OneLoop(steps)
    ensures Final(s, steps).quit && Polls(steps) <= if s.pc.Polling? then 1 else 0
    ensures s.pc.Outside? ==> Final(s, steps).pc.Outside?
    decreases |steps|
  {
    if steps != [] {
      StepKeepsInv(s, steps[0]);
      assert forall i :: 0 <= i < |steps[1..]| ==> steps[1..][i] == steps[i + 1];
      QuitStays(Apply(s, steps[0]), steps[1..]);
    }
  }

  /** After quit() from any thread the loop polls at most once more, and not even once unless
      it was at the poll. */
  lemma QuitStopsPolling(s: State, step: Step, rest: seq<Step>)
    requires Inv(s) && IsQuit(step) && Enabled(s, step) && IsRun(Apply(s, step), rest) && OneLoop(rest)
    ensures Polls(rest) <= if s.pc.Polling? then 1 else 0
    ensures Final(Apply(s, step), rest).quit
  {
    StepKeepsInv(s, step);
    QuitStays(Apply(s, step), rest);
  }

  /** The steps lead out of loop() with `todo` run. */
  predicate Leaves(s: State, steps: seq<Step>, todo: seq<Functor>) {
    IsRun(s, steps) && OneLoop(steps) && Final(s, steps).pc.Outside? && Final(s, steps).executed == s.executed + todo
  }

  lemma {:induction false} AppendStep(s: State, steps: seq<Step>, step: Step)
    requires IsRun(s, steps) && Enabled(Final(s, steps), step)
    ensures IsRun(s, steps + [step]) && Final(s, steps + [step]) == Apply(Final(s, steps), step)
    ensures OneLoop(steps) && !step.Enter? ==> OneLoop(steps + [step])
    decreases |steps|
  {
    if steps == [] {
      assert [] + [step] == [step] && [step][1..] == [];
    } else {
      assert (steps + [step])[1..] == steps[1..] + [step];
      assert forall i :: 0 <= i < |steps[1..]| ==> steps[1..][i] == steps[i + 1];
      AppendStep(Apply(s, steps[0]), steps[1..], step);
    }
  }

  lemma {:induction false} RunStaysQuit(s: State, steps: seq<Step>)
    requires s.quit && IsRun(s, steps) && OneLoop(steps)
    ensures Final(s, steps).quit
    decreases |steps|
  {
    if steps != [] {
      assert forall i :: 0 <= i < |steps[1..]| ==> steps[1..][i] == steps[i + 1];
      RunStaysQuit(Apply(s, steps[0]), steps[1..]);
    }
  }

  /** A loop that is blocked when quit() has been called, and its wakeup written, comes out of
      the poll, runs what is queued and leaves. */
  lemma QuitEndsLoop(s: State)
    requires Inv(s) && s.pc.Polling? && s.quit && s.owing == {}
    ensures exists steps :: Leaves(s, steps, s.functors)
  {
    var s1 := Apply(s, PollReturns(true));
    var s2 := Apply(s1, HandleRead);
    var s3 := Apply(s2, EndHandling);
    var s4 := Apply(s3, Swap);
    var drain := DrainBatch(s4);
    Extend(s3, Swap, drain);
    Extend(s2, EndHandling, [Swap] + drain);
    Extend(s1, HandleRead, [EndHandling] + ([Swap] + drain));
    Extend(s, PollReturns(true), [HandleRead] + ([EndHandling] + ([Swap] + drain)));
    var pass := [PollReturns(true)] + ([HandleRead] + ([EndHandling] + ([Swap] + drain)));
    RunStaysQuit(s, pass);
    AppendStep(s, pass, Check);
    assert Leaves(s, pass + [Check], s.functors);
  }

  /** loop() forgets an earlier quit(): it polls, and takes another quit() to end. */
  lemma EntryForgetsQuit(s: State)
    requires s.pc.Outside? && !s.owes
    ensures IsRun(s, [Enter, Check]) && Final(s, [Enter, Check]).pc.Polling? && !Final(s, [Enter, Check]).quit
  {
    var t := Apply(s, Enter);
    Extend(t, Check, []);
    Extend(s, Enter, [Check]);
    assert [Enter] + ([Check] + []) == [Enter, Check];
  }

  // ---------- The eventfd ----------

  function Writes(steps: seq<Step>): nat {
    if steps == [] then 0 else (if steps[0].LoopWrites? || steps[0].OtherWrites? then 1 else 0) + Writes(steps[1..])
  }

  function Reads(steps: seq<Step>): nat {
    if steps == [] then 0 else (if steps[0].HandleRead? then 1 else 0) + Reads(steps[1..])
  }

  /** The wakeup channel is reported only while there is something to read. */
  predicate ReadPending(s: State) {
    s.pc.Handling? && s.pc.wakeActive ==> s.counter > 0
  }

  lemma {:induction false} ReadsArePaid(s: State, steps: seq<Step>)
    requires ReadPending(s) && IsRun(s, steps)
    ensures ReadPending(Final(s, steps))
    ensures Reads(steps) + (if Final(s, steps).counter > 0 then 1 else 0) <= Writes(steps) + if s.counter > 0 then 1 else 0
    decreases |steps|
  {
    if steps != [] {
      ReadsArePaid(Apply(s, steps[0]), steps[1..]);
    }
  }

  /** No wakeup is spent twice: each time the loop is woken through the eventfd somebody has
      written to it since the last time. */
  lemma WakeupsArePaid(s: State, steps: seq<Step>)
    requires Fresh(s) && IsRun(s, steps)
    ensures Reads(steps) <= Writes(steps)
  {
    ReadsArePaid(s, steps);
  }

  /** With nothing written since the last read, the loop is not woken by the eventfd. */
  lemma QuietLoopBlocks(s: State, rest: seq<Step>)
    requires Enabled(s, HandleRead) && IsRun(Apply(s, HandleRead), rest) && Writes(rest) == 0
    ensures Reads(rest) == 0 && !Enabled(Final(Apply(s, HandleRead), rest), PollReturns(true))
  {
    ReadsArePaid(Apply(s, HandleRead), rest);
  }
}
