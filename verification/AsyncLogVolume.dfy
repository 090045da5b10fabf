/** How much base/AsyncLogThread.cpp takes before it throws anything away, in bytes, and what one
    round of its back end writes. */
module AsyncLogVolume {
  import opened Bytes
  import opened AsyncLog

  /** An append queues the current buffer exactly when the message does not fit what is left of
      its 4,000,000 bytes, and only the current buffer. */
  lemma QueuesIffFull(s: State, m: bytes)
    requires |s.current.data| <= 4_000_000 && (s.next.Some? ==> s.next.value == EMPTY)
    ensures var t := AppendTo(s, m);
      if |s.current.data| + |m| < 4_000_000
      then t.buffers == s.buffers && t.current.data == s.current.data + m
      else t.buffers == s.buffers + [s.current] && t.current.data == m[..if |m| < 4_000_000 then |m| else 4_000_000]
  {
    assert m[..|m|] == m;
    assert EMPTY.data + m[..if Avail(EMPTY) <= |m| then Avail(EMPTY) else |m|]
        == m[..if Avail(EMPTY) <= |m| then Avail(EMPTY) else |m|];
  }

  function One<T>(b: Option<T>): nat {
    if b.Some? then 1 else 0
  }

  /** The buffers there are, in the hands of either end. */
  function Buffers(s: State): nat {
    |s.buffers| + 1 + One(s.next) + One(s.spare1) + One(s.spare2) + |s.batch|
  }

  /** Buffers are moved and not made: only an append that finds the current buffer full and no
      spare makes one, only a cut and the end of a round throw some away, and after a round both
      spares are back. */
  lemma BuffersAreMoved(s: State, step: Step)
    requires SparesOk(s) && Enabled(s, step)
    ensures AssertsHold(s, step)
    ensures var t := Apply(s, step);
      match step
      case Append(m) => Buffers(t) == Buffers(s) + if |s.current.data| + |m| < 4_000_000 || s.next.Some? then 0 else 1
      case Swap => Buffers(t) == Buffers(s) && t.batch == s.buffers + [s.current] && t.buffers == []
      case Trim => Buffers(t) == Buffers(s) - if |s.batch| > 25 then |s.batch| - 2 else 0
      case Write => Buffers(t) == Buffers(s)
      case Recycle => Buffers(t) == |t.buffers| + 3 + One(s.next) && t.spare1.Some? && t.spare2.Some? && t.batch == []
  {
  }

  // ---------- Bytes between two swaps ----------

  /** The bytes appended since the last swap, or since the start. */
  function Since(steps: seq<Step>): nat {
    if steps == [] then 0
    else
      var last := steps[|steps| - 1];
      if last.Swap? then 0 else Since(steps[..|steps| - 1]) + if last.Append? then |last.m| else 0
  }

  /** A queued buffer and the message after it were 4,000,000 bytes together, and no byte counts
      for more than two of them. */
  predicate Bulk(s: State, since: nat) {
    4_000_000 * |s.buffers| + |s.current.data| <= 2 * since
  }

  lemma StepKeepsBulk(s: State, step: Step, since: nat)
    requires SparesOk(s) && Enabled(s, step) && Bulk(s, since)
    ensures AssertsHold(s, step)
    ensures Bulk(Apply(s, step), if step.Swap? then 0 else since + if step.Append? then |step.m| else 0)
  {
    if step.Append? {
      QueuesIffFull(s, step.m);
    }
  }

  lemma {:induction false} RunSplits(s: State, front: seq<Step>, last: Step)
    requires IsRun(s, front + [last])
    ensures IsRun(s, front) && Enabled(Final(s, front), last) && AssertsHold(Final(s, front), last)
    ensures Final(s, front + [last]) == Apply(Final(s, front), last)
    decreases |front|
  {
    hide Apply, Enabled, AssertsHold;
    if front == [] {
      assert [] + [last] == [last] && [last][1..] == [];
    } else {
      assert (front + [last])[1..] == front[1..] + [last];
      RunSplits(Apply(s, front[0]), front[1..], last);
    }
  }

  lemma {:induction false} RunKeepsBulk(s: State, steps: seq<Step>)
    requires Init(s) && IsRun(s, steps)
    ensures SparesOk(Final(s, steps)) && Bulk(Final(s, steps), Since(steps))
    decreases |steps|
  {
    if steps != [] {
      var front, last := steps[..|steps| - 1], steps[|steps| - 1];
      assert front + [last] == steps;
      RunSplits(s, front, last);
      RunKeepsBulk(s, front);
      StepKeepsSpares(Final(s, front), last);
      StepKeepsBulk(Final(s, front), last, Since(front));
    }
  }

  /** In every interleaving, the buffers queued are at most one for each 2,000,000 bytes appended
      since the last swap, and none at all while those are fewer than 4,000,000. */
  lemma QueuedBounded(s: State, steps: seq<Step>)
    requires Init(s) && IsRun(s, steps)
    ensures 2_000_000 * |Final(s, steps).buffers| <= Since(steps)
    ensures Since(steps) < 4_000_000 ==> Final(s, steps).buffers == []
  {
    RunKeepsBulk(s, steps);
    RunKeepsFill(s, steps);
  }

  /** Below 4,000,000 bytes everything is in the current buffer. */
  predicate Fill(s: State, since: nat) {
    since < 4_000_000 ==> s.buffers == [] && |s.current.data| == since
  }

  lemma {:induction false} RunKeepsFill(s: State, steps: seq<Step>)
    requires Init(s) && IsRun(s, steps)
    ensures Fill(Final(s, steps), Since(steps))
    decreases |steps|
  {
    if steps != [] {
      var front, last := steps[..|steps| - 1], steps[|steps| - 1];
      assert front + [last] == steps;
      RunSplits(s, front, last);
      RunKeepsFill(s, front);
      RunKeepsBulk(s, front);
      if last.Append? {
        QueuesIffFull(Final(s, front), last.m);
      }
    }
  }

  /** Fewer than 50,000,000 bytes are appended between any two swaps. */
  predicate Moderate(steps: seq<Step>) {
    forall k :: 0 <= k <= |steps| ==> Since(steps[..k]) < 50_000_000
  }

  /** A batch that has been swapped in is within the limit of 25. */
  predicate SmallBatch(s: State) {
    s.pc.Swapped? ==> |s.batch| <= 25
  }

  lemma SwapTakesFew(s: State, steps: seq<Step>)
    requires Init(s) && IsRun(s, steps) && Since(steps) < 50_000_000 && Enabled(Final(s, steps), Swap)
    ensures AssertsHold(Final(s, steps), Swap) && SmallBatch(Apply(Final(s, steps), Swap))
  {
    RunKeepsBulk(s, steps);
    SparesOkPassesAsserts(Final(s, steps), Swap);
  }

  lemma {:induction false} RunKeepsSmall(s: State, steps: seq<Step>)
    requires Init(s) && IsRun(s, steps) && Moderate(steps)
    ensures SmallBatch(Final(s, steps))
    decreases |steps|
  {
    if steps != [] {
      var n := |steps| - 1;
      var front, last := steps[..n], steps[n];
      assert front + [last] == steps;
      RunSplits(s, front, last);
      assert Moderate(front) by {
        forall k | 0 <= k <= n ensures Since(front[..k]) < 50_000_000 {
          assert front[..k] == steps[..k];
        }
      }
      RunKeepsSmall(s, front);
      if last.Swap? {
        assert front == steps[..n];
        SwapTakesFew(s, front);
      }
    }
  }

  lemma {:induction false} FitsAppend(s: State, front: seq<Step>, last: Step)
    requires IsRun(s, front) && IsRun(s, front + [last]) && BatchesFit(s, front)
    requires last.Trim? ==> |Final(s, front).batch| <= 25
    ensures BatchesFit(s, front + [last])
    decreases |front|
  {
    hide Apply;
    if front == [] {
      assert [] + [last] == [last] && [last][1..] == [];
    } else {
      assert (front + [last])[1..] == front[1..] + [last];
      FitsAppend(Apply(s, front[0]), front[1..], last);
    }
  }

  lemma {:induction false} ModerateFits(s: State, steps: seq<Step>)
    requires Init(s) && IsRun(s, steps) && Moderate(steps)
    ensures BatchesFit(s, steps)
    decreases |steps|
  {
    if steps != [] {
      var n := |steps| - 1;
      var front, last := steps[..n], steps[n];
      assert front + [last] == steps;
      RunSplits(s, front, last);
      assert Moderate(front) by {
        forall k | 0 <= k <= n ensures Since(front[..k]) < 50_000_000 {
          assert front[..k] == steps[..k];
        }
      }
      ModerateFits(s, front);
      RunKeepsSmall(s, front);
      FitsAppend(s, front, last);
    }
  }

  /** As long as fewer than 50,000,000 bytes come between two swaps, and no message is longer
      than a buffer, nothing is lost: the file and the buffers hold what was appended, in order
      and to the byte. */
  lemma ModerateLogIsKept(s: State, steps: seq<Step>)
    requires Init(s) && IsRun(s, steps) && Moderate(steps)
    requires forall i :: 0 <= i < |steps| && steps[i].Append? ==> |steps[i].m| <= 4_000_000
    ensures var f := Final(s, steps);
      Log(f) == AddedIn(steps) && f.file + Contents(Unfiled(f)) == Flatten(AddedIn(steps))
  {
    hide Log, BatchesFit, Moderate, AllWhole;
    ModerateFits(s, steps);
    LogConservation(s, steps);
  }

  // ---------- One round of the back end ----------

  /** The rest of a round whose next buffer is the `k`th of `n`. */
  function Writes(k: nat, n: nat): seq<Step>
    requires k <= n
    decreases n - k
  {
    if k == n then [Recycle] else [Write] + Writes(k + 1, n)
  }

  lemma {:induction false} WritesBatch(s: State)
    requires SparesOk(s) && s.pc.Writing?
    ensures var steps := Writes(s.pc.next, |s.batch|);
      && IsRun(s, steps)
      && var f := Final(s, steps);
         && f.pc.Top? && SparesOk(f) && f.file == s.file + Contents(s.batch[s.pc.next..])
         && f.buffers == s.buffers && f.current == s.current
    decreases |s.batch| - s.pc.next
  {
    var k := s.pc.next;
    if k == |s.batch| {
      StepKeepsSpares(s, Recycle);
      assert [Recycle][1..] == [];
      assert s.batch[k..] == [] && s.file + [] == s.file;
    } else {
      StepKeepsSpares(s, Write);
      var t := Apply(s, Write);
      WritesBatch(t);
      assert ([Write] + Writes(k + 1, |s.batch|))[1..] == Writes(k + 1, |s.batch|);
      assert s.batch[k..] == [s.batch[k]] + s.batch[k + 1..];
      assert s.file + (s.batch[k].data + Contents(s.batch[k + 1..])) == (s.file + s.batch[k].data) + Contents(s.batch[k + 1..]);
    }
  }

  /** A round of the back end that is not interrupted: up to 25 buffers, the current one
      included, go to the file in order; of more than 25 only the first two do. */
  lemma RoundFiles(s: State)
    requires SparesOk(s) && s.pc.Top?
    ensures var all := s.buffers + [s.current];
      var kept := if |all| <= 25 then all else all[..2];
      var steps := [Swap, Trim] + Writes(0, |kept|);
      && IsRun(s, steps)
      && var f := Final(s, steps);
         f.pc.Top? && f.file == s.file + Contents(kept) && f.buffers == [] && f.current == EMPTY
  {
    var all := s.buffers + [s.current];
    var kept := if |all| <= 25 then all else all[..2];
    StepKeepsSpares(s, Swap);
    var t := Apply(s, Swap);
    StepKeepsSpares(t, Trim);
    var u := Apply(t, Trim);
    assert u.batch == kept && kept[0..] == kept;
    WritesBatch(u);
    var steps := [Swap, Trim] + Writes(0, |kept|);
    assert steps[1..] == [Trim] + Writes(0, |kept|);
    assert steps[1..][1..] == Writes(0, |kept|);
  }
}
