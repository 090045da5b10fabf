/** What the operations of net/TimerManager.cpp do to each timer: a cancel stops one timer and
    no other, a due timer runs once and in order, never early, and a repeating one comes back
    an interval later. */
module TimerEffects {
  import opened Bytes
  import opened TimerManager

  // ---------- Cancelling ----------

  /** A cancel changes one flag and nothing else; of a timer not known, nothing. */
  lemma CancelIsLocal(s: State, k: int)
    requires WellFormed(s)
    ensures var t := Apply(s, Cancel(k));
      && t == s.(timers := t.timers) && t.timers.Keys == s.timers.Keys
      && (k in s.timers ==> t.timers[k] == Timer(s.timers[k].expiration, s.timers[k].interval, true))
      && (forall j :: j in s.timers && j != k ==> t.timers[j] == s.timers[j])
  {
  }

  /** From the moment it is cancelled a timer runs no more, whatever happens next. */
  lemma CancelStops(s: State, k: int, rest: seq<Step>)
    requires Inv(s) && k in s.timers && IsRun(s, [Cancel(k)] + rest)
    ensures Count(Final(s, [Cancel(k)] + rest), k) == Count(s, k)
  {
    var steps := [Cancel(k)] + rest;
    assert steps[0] == Cancel(k) && steps[1..] == rest;
    CancelIsLocal(s, k);
    StepKeepsInv(s, Cancel(k));
    CancelledNeverRuns(Apply(s, Cancel(k)), rest, k);
    hide Inv;
  }

  /** A step that matters to timers: taking a batch, running one of it, and putting the batch
      away treat every other timer as they would have without the cancel. */
  lemma CancelSparesOthers(s: State, k: int, step: Step, j: int)
    requires Inv(s) && k in s.timers && j in s.timers && j != k
    requires Enabled(s, step) && (step.Fire? || step.RunNext? || step.Finish?)
    ensures WellFormed(Apply(s, Cancel(k))) && Enabled(Apply(s, Cancel(k)), step)
    ensures var t, u := Apply(s, step), Apply(Apply(s, Cancel(k)), step);
      && j in t.timers && j in u.timers && u.timers[j] == t.timers[j]
      && (j in Batch(u) <==> j in Batch(t))
      && Count(u, j) == Count(t, j)
      && (!s.timers[j].deleted ==> (j in u.queue <==> j in t.queue))
  {
    var c := Apply(s, Cancel(k));
    StepKeepsInv(s, Cancel(k));
    hide Inv, Pushed, Requeued, Purged;
    assert QueueOk(s) && QueueOk(c) by { InvQueue(s); InvQueue(c); }
    match step {
      case Fire => CancelThenFire(s, k, j);
      case RunNext => CancelThenRun(s, k, j);
      case Finish => CancelThenFinish(s, k, j);
    }
  }

  lemma InvQueue(s: State)
    requires Inv(s)
    ensures QueueOk(s)
  {
  }

  lemma CancelThenFire(s: State, k: int, j: int)
    requires QueueOk(s) && QueueOk(Apply(s, Cancel(k))) && k in s.timers && j in s.timers && j != k && Enabled(s, Fire)
    ensures var t, u := Apply(s, Fire), Apply(Apply(s, Cancel(k)), Fire);
      && u.timers[j] == t.timers[j] && (j in Batch(u) <==> j in Batch(t)) && (j in u.queue <==> j in t.queue) && u.ran == t.ran
  {
    var c := Apply(s, Cancel(k));
    ExpiredExactly(s.timers, s.queue, s.clock);
    ExpiredExactly(c.timers, c.queue, c.clock);
    hide Split, Sorted, Distinct;
  }

  lemma CancelThenRun(s: State, k: int, j: int)
    requires QueueOk(s) && QueueOk(Apply(s, Cancel(k))) && k in s.timers && j in s.timers && j != k && Enabled(s, RunNext)
    ensures var t, u := Apply(s, RunNext), Apply(Apply(s, Cancel(k)), RunNext);
      u.timers[j] == t.timers[j] && Batch(u) == Batch(t) && u.queue == t.queue && Count(u, j) == Count(t, j)
  {
    RunStep(s);
    RunStep(Apply(s, Cancel(k)));
  }

  lemma CancelThenFinish(s: State, k: int, j: int)
    requires QueueOk(s) && QueueOk(Apply(s, Cancel(k))) && k in s.timers && j in s.timers && j != k && Enabled(s, Finish)
    ensures var t, u := Apply(s, Finish), Apply(Apply(s, Cancel(k)), Finish);
      && j in t.timers && j in u.timers && u.timers[j] == t.timers[j] && u.ran == t.ran
      && Batch(u) == [] == Batch(t)
      && (!s.timers[j].deleted ==> (j in u.queue <==> j in t.queue))
  {
    var c := Apply(s, Cancel(k));
    assert c.queue == s.queue && Batch(c) == Batch(s) && c.timers.Keys == s.timers.Keys && c.timers[j] == s.timers[j];
    FinishFor(s, j);
    FinishFor(c, j);
    hide QueueOk, Batch, Apply;
  }

  /** What reset does to one timer. */
  lemma FinishFor(s: State, j: int)
    requires QueueOk(s) && Enabled(s, Finish) && j in s.timers
    ensures var t := Apply(s, Finish);
      && j in t.timers && t.timers[j] == Restarted(s.timers, Batch(s), s.phase.now, j) && t.ran == s.ran && Batch(t) == []
      && (!s.timers[j].deleted ==> (j in t.queue <==> j in s.queue || (j in Batch(s) && Repeats(s.timers[j]))))
  {
    FinishStep(s);
    hide Requeued, Purged, Sorted, Distinct;
  }

  // ---------- The batch ----------

  /** handleRead runs what is due in the order of expiration, and of two timers that expire
      together the one added first. */
  lemma BatchInOrder(s: State, i: nat, j: nat)
    requires QueueOk(s) && Enabled(s, Fire)
    requires var batch := Apply(s, Fire).phase.expired; i < j < |batch|
    ensures var batch := Apply(s, Fire).phase.expired;
      && batch[i] in s.timers && batch[j] in s.timers
      && var a, b := s.timers[batch[i]].expiration, s.timers[batch[j]].expiration;
         a < b || (a == b && batch[i] < batch[j])
  {
    ExpiredExactly(s.timers, s.queue, s.clock);
    var batch := Apply(s, Fire).phase.expired;
    assert Before(s.timers, batch[i], batch[j]);
  }

  /** The run is inside one call of handleRead. */
  predicate InBatch(steps: seq<Step>) {
    forall i :: 0 <= i < |steps| ==> !steps[i].Finish?
  }

  predicate Cancelled(s: State, k: int) {
    k in s.timers && s.timers[k].deleted
  }

  lemma BatchStep(s: State, step: Step)
    requires QueueOk(s) && s.phase.Running? && Enabled(s, step) && !step.Finish?
    ensures var t := Apply(s, step);
      && QueueOk(t) && t.phase.Running? && t.phase.expired == s.phase.expired && t.phase.now == s.phase.now
      && (forall k :: Cancelled(s, k) ==> Cancelled(t, k))
      && (forall k :: k in s.timers ==> k in t.timers && t.timers[k].expiration == s.timers[k].expiration)
      && t.phase.next == s.phase.next + (if step.RunNext? then 1 else 0)
      && t.clock >= s.clock
  {
    QueueStep(s, step);
  }

  /** How often a timer has run, by how far the loop over the batch is. */
  lemma BatchCounts(s: State, step: Step, k: int, at: nat)
    requires QueueOk(s) && s.phase.Running? && Enabled(s, step) && !step.Finish?
    requires at < |s.phase.expired| && s.phase.expired[at] == k && !Cancelled(Apply(s, step), k)
    ensures Count(Apply(s, step), k) == Count(s, k) + if step.RunNext? && s.phase.next == at then 1 else 0
  {
    if step.RunNext? {
      RunStep(s);
      assert k in Batch(s) && k in s.timers;
      if s.phase.next != at {
        assert s.phase.expired[s.phase.next] != k;
      }
    }
  }

  lemma {:induction false} BatchRuns(s: State, steps: seq<Step>, k: int, at: nat)
    requires QueueOk(s) && s.phase.Running? && IsRun(s, steps) && InBatch(steps)
    requires at < |s.phase.expired| && s.phase.expired[at] == k && !Cancelled(Final(s, steps), k)
    ensures var f := Final(s, steps);
      && f.phase.Running? && f.phase.expired == s.phase.expired && !Cancelled(s, k)
      && s.phase.next <= f.phase.next
      && Count(f, k) == Count(s, k) + if s.phase.next <= at < f.phase.next then 1 else 0
    decreases |steps|
  {
    hide Apply, QueueOk, Count, Cancelled;
    if steps != [] {
      var t := Apply(s, steps[0]);
      BatchStep(s, steps[0]);
      assert InBatch(steps[1..]);
      BatchRuns(t, steps[1..], k, at);
      BatchCounts(s, steps[0], k, at);
    }
  }

  /** A timer that does not run in a batch: its count stays. */
  lemma {:induction false} OthersStay(s: State, steps: seq<Step>, k: int)
    requires QueueOk(s) && s.phase.Running? && IsRun(s, steps) && InBatch(steps) && k !in s.phase.expired
    ensures Count(Final(s, steps), k) == Count(s, k)
    decreases |steps|
  {
    hide QueueOk;
    if steps != [] {
      BatchStep(s, steps[0]);
      assert InBatch(steps[1..]);
      if steps[0].RunNext? {
        RunStep(s);
      }
      OthersStay(Apply(s, steps[0]), steps[1..], k);
    }
  }

  /** When handleRead has been through its batch, every queued timer that was due and has not
      been cancelled has run once more, and no other has. */
  lemma DueTimersRun(s: State, steps: seq<Step>, k: int)
    requires Inv(s) && Enabled(s, Fire) && k in s.queue
    requires IsRun(Apply(s, Fire), steps) && InBatch(steps)
    requires var f := Final(Apply(s, Fire), steps);
      f.phase.Running? && f.phase.next == |f.phase.expired| && !Cancelled(f, k)
    ensures Count(Final(Apply(s, Fire), steps), k) == Count(s, k) + if s.timers[k].expiration <= s.clock then 1 else 0
  {
    var t := Apply(s, Fire);
    InvQueue(s);
    ExpiredExactly(s.timers, s.queue, s.clock);
    QueueStep(s, Fire);
    hide Inv, Split, Sorted, Distinct, IsRun, Final;
    if s.timers[k].deleted {
      StaysCancelled(t, steps, k);
    } else if k in t.phase.expired {
      var at :| 0 <= at < |t.phase.expired| && t.phase.expired[at] == k;
      BatchRuns(t, steps, k, at);
    } else {
      OthersStay(t, steps, k);
    }
  }

  lemma {:induction false} StaysCancelled(s: State, steps: seq<Step>, k: int)
    requires QueueOk(s) && s.phase.Running? && IsRun(s, steps) && InBatch(steps) && Cancelled(s, k)
    ensures Cancelled(Final(s, steps), k)
    decreases |steps|
  {
    hide QueueOk, Cancelled, Apply;
    if steps != [] {
      BatchStep(s, steps[0]);
      assert InBatch(steps[1..]);
      StaysCancelled(Apply(s, steps[0]), steps[1..], k);
    }
  }

  // ---------- Never early ----------

  /** What is being run was due when the batch was taken. */
  predicate OnTime(s: State)
    requires WellFormed(s)
  {
    s.phase.Running? ==>
      s.phase.now <= s.clock && forall i :: 0 <= i < |s.phase.expired| ==> s.timers[s.phase.expired[i]].expiration <= s.phase.now
  }

  lemma StepKeepsOnTime(s: State, step: Step)
    requires QueueOk(s) && OnTime(s) && Enabled(s, step)
    ensures QueueOk(Apply(s, step)) && OnTime(Apply(s, step))
  {
    QueueStep(s, step);
    var t := Apply(s, step);
    if step.Fire? {
      ExpiredExactly(s.timers, s.queue, s.clock);
      assert forall i :: 0 <= i < |t.phase.expired| ==> t.phase.expired[i] in t.phase.expired;
    } else if s.phase.Running? && !step.Finish? {
      assert forall k :: k in s.timers ==> k in t.timers && t.timers[k].expiration == s.timers[k].expiration;
      assert forall i :: 0 <= i < |s.phase.expired| ==> s.phase.expired[i] in s.timers;
    }
    hide Sorted, Distinct, Split, Pushed, Requeued, Purged;
  }

  lemma {:induction false} RunKeepsOnTime(s: State, steps: seq<Step>)
    requires QueueOk(s) && OnTime(s) && IsRun(s, steps)
    ensures QueueOk(Final(s, steps)) && OnTime(Final(s, steps))
    decreases |steps|
  {
    hide QueueOk, Apply;
    if steps != [] {
      StepKeepsOnTime(s, steps[0]);
      RunKeepsOnTime(Apply(s, steps[0]), steps[1..]);
    }
  }

  /** No callback runs before its timer's expiration, and none of a cancelled timer runs. */
  lemma NeverEarly(s: State, steps: seq<Step>)
    requires Init(s) && IsRun(s, steps) && Enabled(Final(s, steps), RunNext)
    ensures var f := Final(s, steps);
      var k := f.phase.expired[f.phase.next];
      && k in f.timers && f.timers[k].expiration <= f.clock
      && WellFormed(f) && Apply(f, RunNext).ran == if f.timers[k].deleted then f.ran else f.ran + [k]
  {
    RunKeepsOnTime(s, steps);
  }

  /** Time wakes the loop for the first timer of the queue exactly when that timer is due. */
  lemma FiresIffDue(s: State, t: int)
    requires QueueOk(s) && Armed(s) && s.phase.Idle? && s.queue != [] && !s.fired && t >= s.clock
    ensures var u := Apply(s, Elapse(t));
      u.clock == t && (Enabled(u, Fire) <==> s.timers[s.queue[0]].expiration <= t)
  {
  }

  // ---------- New timers, and timers that repeat ----------

  /** A timer that is added waits with its own expiration, interval and a clear flag; the other
      timers are as they were. */
  lemma AddedWaits(s: State, k: int, when: int, interval: int)
    requires QueueOk(s) && k !in s.timers
    ensures var t := Apply(s, Add(k, when, interval));
      && t.timers == s.timers[k := Timer(when, interval, false)] && t.ran == s.ran && t.clock == s.clock
      && (forall j :: j in t.queue <==> j in s.queue || j == k)
  {
    AddStep(s, k, when, interval);
  }

  /** After a batch, a repeating timer of it waits for one interval from the batch's time, a
      one-shot timer of it does not wait, and every timer that waited still does. */
  lemma BatchComesBack(s: State, k: int)
    requires QueueOk(s) && Enabled(s, Finish) && k in s.timers && !s.timers[k].deleted
    ensures var t := Apply(s, Finish); k in t.timers
    ensures var t := Apply(s, Finish);
      if k in Batch(s) && s.timers[k].interval > 0
      then k in t.queue && t.timers[k] == Timer(s.phase.now + s.timers[k].interval, s.timers[k].interval, false)
      else (k in t.queue <==> k in s.queue) && t.timers[k] == s.timers[k]
  {
    FinishStep(s);
    hide Requeued, Purged, Sorted, Distinct;
  }

  /** The first of a queue is due when any of it is. */
  lemma FirstIsDue(s: State, k: int, t: int)
    requires QueueOk(s) && k in s.queue && s.timers[k].expiration <= t
    ensures s.timers[s.queue[0]].expiration <= t
  {
    FirstIsEarliest(s, k);
  }

  /** From the first call to the callback: a timer that is added ahead of time to a manager that
      is waiting runs once when its time has come, unless it is cancelled. */
  lemma AddedTimerRuns(s: State, k: int, when: int, interval: int, t: int, steps: seq<Step>)
    requires Inv(s) && ClockOk(s) && Armed(s) && s.phase.Idle?
    requires k !in s.timers && s.clock < when <= t
    ensures var u := Apply(s, Add(k, when, interval));
      WellFormed(u) && Enabled(u, Elapse(t)) && WellFormed(Apply(u, Elapse(t)))
    ensures var w := Apply(Apply(s, Add(k, when, interval)), Elapse(t));
      && Enabled(w, Fire) && WellFormed(w)
      && (IsRun(Apply(w, Fire), steps) && InBatch(steps) ==>
          var f := Final(Apply(w, Fire), steps);
          f.phase.Running? && f.phase.next == |f.phase.expired| && !Cancelled(f, k) ==> Count(f, k) == 1)
  {
    var u := Apply(s, Add(k, when, interval));
    var w := Apply(u, Elapse(t));
    InvQueue(s);
    AddedWaits(s, k, when, interval);
    AddStep(s, k, when, interval);
    StepKeepsInv(s, Add(k, when, interval));
    ArmedIff(s, Add(k, when, interval));
    StepKeepsInv(u, Elapse(t));
    InvQueue(u);
    hide Inv, Pushed, Sorted, Distinct, Final, IsRun;
    FirstIsDue(u, k, t);
    DueTimerFires(u, t);
    if IsRun(Apply(w, Fire), steps) && InBatch(steps) {
      var f := Final(Apply(w, Fire), steps);
      if f.phase.Running? && f.phase.next == |f.phase.expired| && !Cancelled(f, k) {
        DueTimersRun(w, steps, k);
      }
    }
  }
}
