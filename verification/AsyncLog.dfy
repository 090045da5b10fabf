/** Double buffering in base/AsyncLogThread.cpp. The front end's append and the back end's swap
    are critical sections of one mutex; everything else the back end does is on buffers it
    owns. Any interleaving is a sequence of the steps below. */
module AsyncLog {
  import opened Bytes

  const LARGE_BUFFER: nat := 4000 * 1000
  const MAX_BATCH: nat := 25

  /** A FixedBuffer<kLargeBuffer>: what is before cur_, and as history the messages appended
      since the last reset. */
  datatype Buffer = Buffer(data: bytes, messages: seq<bytes>)

  const EMPTY: Buffer := Buffer([], [])

  /** FixedBuffer::avail. */
  function Avail(b: Buffer): nat {
    if |b.data| <= LARGE_BUFFER then LARGE_BUFFER - |b.data| else 0
  }

  /** FixedBuffer::append: all of it when it is shorter than the room left, else what fits. */
  function FixedAppend(b: Buffer, m: bytes): Buffer {
    var fits := if Avail(b) <= |m| then Avail(b) else |m|;
    Buffer(b.data + m[..fits], b.messages + [m])
  }

  /** Where the back end is in its loop. */
  datatype Pc = Top | Swapped | Writing(next: nat)

  datatype State = State(
    current: Buffer,            // currentBuffer_
    next: Option<Buffer>,       // nextBuffer_
    buffers: seq<Buffer>,       // buffers_
    spare1: Option<Buffer>,     // newBuffer1
    spare2: Option<Buffer>,     // newBuffer2
    batch: seq<Buffer>,         // buffersToWrite
    file: bytes,                // the log file
    pc: Pc,
    filed: seq<bytes>)          // history: the messages in the file

  datatype Step =
    | Append(m: bytes)          // the front end, whole critical section
    | Swap                      // the back end's critical section, after the wait or its timeout
    | Trim                      // erase all but two of a batch over the limit
    | Write                     // output.append of the next buffer of the batch
    | Recycle                   // resize, refill the spares, clear

  predicate Enabled(s: State, step: Step) {
    match step
    case Append(_) => true
    case Swap => s.pc.Top?
    case Trim => s.pc.Swapped?
    case Write => s.pc.Writing? && s.pc.next < |s.batch|
    case Recycle => s.pc.Writing? && s.pc.next == |s.batch|
  }

  /** The asserts of threadFunc that the step passes, and the pointers it dereferences. */
  predicate AssertsHold(s: State, step: Step) {
    match step
    case Append(_) => true
    case Swap => s.spare1 == Some(EMPTY) && s.spare2 == Some(EMPTY) && s.batch == []
    case Trim => s.batch != []
    case Write => true
    case Recycle =>
      var kept := if |s.batch| > 2 then 2 else |s.batch|;
      (s.spare1.None? ==> kept > 0) &&
      (s.spare2.None? ==> kept > (if s.spare1.None? then 1 else 0))
  }

  function Apply(s: State, step: Step): State
    requires Enabled(s, step) && AssertsHold(s, step)
  {
    match step
    case Append(m) => AppendTo(s, m)
    case Swap =>
      s.(batch := s.buffers + [s.current], buffers := [], current := s.spare1.value, spare1 := None,
         next := if s.next.None? then s.spare2 else s.next,
         spare2 := if s.next.None? then None else s.spare2,
         pc := Swapped)
    case Trim => s.(batch := if |s.batch| > MAX_BATCH then s.batch[..2] else s.batch, pc := Writing(0))
    case Write =>
      var b := s.batch[s.pc.next];
      s.(file := s.file + b.data, filed := s.filed + b.messages, pc := Writing(s.pc.next + 1))
    case Recycle =>
      s.(batch := [], spare1 := Some(if s.spare1.Some? then s.spare1.value else EMPTY),
         spare2 := Some(if s.spare2.Some? then s.spare2.value else EMPTY), pc := Top)
  }

  /** AsyncLogThread::append. */
  function AppendTo(s: State, m: bytes): State {
    if Avail(s.current) > |m| then s.(current := FixedAppend(s.current, m))
    else
      s.(buffers := s.buffers + [s.current],
         current := FixedAppend(if s.next.Some? then s.next.value else EMPTY, m),
         next := None)
  }

  // ---------- The spare-buffer protocol ----------

  /** nextBuffer_ being taken means a buffer was queued since the last swap, so the batch that
      must refill both spares has two buffers. */
  predicate SparesOk(s: State) {
    && |s.current.data| <= LARGE_BUFFER
    && (s.next.Some? ==> s.next.value == EMPTY)
    && (s.next.None? ==> s.buffers != [])
    && (s.spare2.Some? ==> s.spare2.value == EMPTY)
    && (s.pc.Top? ==> s.spare1 == Some(EMPTY) && s.spare2.Some? && s.batch == [])
    && (!s.pc.Top? ==> s.spare1.None? && s.batch != [] && (s.spare2.None? ==> |s.batch| > 1))
    && (s.pc.Writing? ==> s.pc.next <= |s.batch|)
  }

  lemma SparesOkPassesAsserts(s: State, step: Step)
    requires SparesOk(s) && Enabled(s, step)
    ensures AssertsHold(s, step)
  {
  }

  lemma StepKeepsSpares(s: State, step: Step)
    requires SparesOk(s) && Enabled(s, step)
    ensures AssertsHold(s, step) && SparesOk(Apply(s, step))
  {
  }

  /** What the constructor and the start of threadFunc leave. */
  predicate Init(s: State) {
    && s.current == EMPTY && s.next == Some(EMPTY) && s.buffers == []
    && s.spare1 == Some(EMPTY) && s.spare2 == Some(EMPTY) && s.batch == []
    && s.file == [] && s.filed == [] && s.pc.Top?
  }

  predicate IsRun(s: State, steps: seq<Step>)
    decreases |steps|
  {
    steps == [] || (Enabled(s, steps[0]) && AssertsHold(s, steps[0]) && IsRun(Apply(s, steps[0]), steps[1..]))
  }

  function Final(s: State, steps: seq<Step>): State
    requires IsRun(s, steps)
    decreases |steps|
  {
    if steps == [] then s else Final(Apply(s, steps[0]), steps[1..])
  }

  lemma {:induction false} RunKeepsSpares(s: State, steps: seq<Step>)
    requires SparesOk(s) && IsRun(s, steps)
    ensures SparesOk(Final(s, steps))
    decreases |steps|
  {
    if steps != [] {
      StepKeepsSpares(s, steps[0]);
      RunKeepsSpares(Apply(s, steps[0]), steps[1..]);
    }
  }

  /** Every assert of threadFunc holds in every interleaving, and every pointer it moves from
      is set. */
  lemma AssertsAlwaysHold(s: State, steps: seq<Step>, step: Step)
    requires Init(s) && IsRun(s, steps) && Enabled(Final(s, steps), step)
    ensures AssertsHold(Final(s, steps), step)
  {
    RunKeepsSpares(s, steps);
    SparesOkPassesAsserts(Final(s, steps), step);
  }

  // ---------- Conservation of the log ----------

  /** The buffers that hold what is logged but not filed, oldest first. */
  function Unfiled(s: State): seq<Buffer> {
    (if s.pc.Writing? && s.pc.next <= |s.batch| then s.batch[s.pc.next..] else s.batch) + s.buffers + [s.current]
  }

  function Messages(bs: seq<Buffer>): seq<bytes> {
    if bs == [] then [] else bs[0].messages + Messages(bs[1..])
  }

  function Contents(bs: seq<Buffer>): bytes {
    if bs == [] then [] else bs[0].data + Contents(bs[1..])
  }

  function Flatten(ms: seq<bytes>): bytes {
    if ms == [] then [] else ms[0] + Flatten(ms[1..])
  }

  /** Everything logged and not lost, in order. */
  function Log(s: State): seq<bytes> {
    s.filed + Messages(Unfiled(s))
  }

  /** No message is split over two buffers: a buffer's bytes are its messages, whole. */
  predicate Whole(b: Buffer) {
    b.data == Flatten(b.messages)
  }

  predicate AllWhole(s: State) {
    && s.file == Flatten(s.filed)
    && (forall i :: 0 <= i < |s.batch| ==> Whole(s.batch[i]))
    && (forall i :: 0 <= i < |s.buffers| ==> Whole(s.buffers[i]))
    && Whole(s.current)
  }

  /** The messages a step throws away: those of a batch over the limit after its first two
      buffers. */
  function Lost(s: State, step: Step): seq<bytes> {
    if step.Trim? && |s.batch| > MAX_BATCH then Messages(s.batch[2..]) else []
  }

  function Added(step: Step): seq<bytes> {
    if step.Append? then [step.m] else []
  }

  lemma {:induction false} FlattenAppend(a: seq<bytes>, b: seq<bytes>)
    ensures Flatten(a + b) == Flatten(a) + Flatten(b)
  {
    if a == [] {
      assert a + b == b;
    } else {
      assert (a + b)[1..] == a[1..] + b;
      FlattenAppend(a[1..], b);
    }
  }

  lemma {:induction false} MessagesAppend(a: seq<Buffer>, b: seq<Buffer>)
    ensures Messages(a + b) == Messages(a) + Messages(b)
  {
    if a == [] {
      assert a + b == b;
    } else {
      assert (a + b)[1..] == a[1..] + b;
      MessagesAppend(a[1..], b);
    }
  }

  lemma MessagesOne(b: Buffer)
    ensures Messages([b]) == b.messages
  {
    assert [b][1..] == [];
  }

  /** FixedBuffer::append into an empty buffer keeps a message whole exactly when it is no
      longer than the buffer. */
  lemma EmptyBufferTakesIff(m: bytes)
    ensures Whole(FixedAppend(EMPTY, m)) <==> |m| <= LARGE_BUFFER
  {
    var b := FixedAppend(EMPTY, m);
    assert EMPTY.messages + [m] == [m] && [m][1..] == [];
    assert Flatten([m]) == m;
    if |m| <= LARGE_BUFFER {
      assert m[..|m|] == m;
    }
  }

  lemma RoomKeepsWhole(b: Buffer, m: bytes)
    requires Whole(b) && Avail(b) > |m|
    ensures Whole(FixedAppend(b, m))
  {
    FlattenAppend(b.messages, [m]);
    assert [m][1..] == [];
    assert m[..|m|] == m;
  }

  lemma StepKeepsWhole(s: State, step: Step)
    requires SparesOk(s) && AllWhole(s) && Enabled(s, step)
    requires step.Append? ==> |step.m| <= LARGE_BUFFER
    ensures AssertsHold(s, step) && AllWhole(Apply(s, step))
  {
    if step.Append? {
      EmptyBufferTakesIff(step.m);
      if Avail(s.current) > |step.m| {
        RoomKeepsWhole(s.current, step.m);
      }
    } else if step.Write? {
      FlattenAppend(s.filed, s.batch[s.pc.next].messages);
    }
  }

  /** One step: an append adds its message at the end, a trim cuts its lost messages out of
      the middle, and nothing else changes the log. */
  lemma StepLog(s: State, step: Step)
    requires SparesOk(s) && Enabled(s, step)
    ensures AssertsHold(s, step)
    ensures step.Append? ==> Log(Apply(s, step)) == Log(s) + [step.m]
    ensures !step.Append? && Lost(s, step) == [] ==> Log(Apply(s, step)) == Log(s)
    ensures step.Trim? ==>
      var front, back := s.filed + Messages(s.batch[..if |s.batch| > MAX_BATCH then 2 else |s.batch|]), Messages(s.buffers + [s.current]);
      Log(s) == front + Lost(s, step) + back && Log(Apply(s, step)) == front + back
  {
    match step
    case Append(m) => AppendLog(s, m);
    case Swap => SwapLog(s);
    case Trim => TrimLog(s);
    case Write => WriteLog(s);
    case Recycle =>
      assert Unfiled(s) == Unfiled(Apply(s, Recycle));
  }

  lemma SwapLog(s: State)
    requires SparesOk(s) && s.pc.Top?
    ensures Log(Apply(s, Swap)) == Log(s)
  {
    assert Unfiled(s) == s.buffers + [s.current];
    assert Unfiled(Apply(s, Swap)) == (s.buffers + [s.current]) + [EMPTY];
    MessagesAppend(s.buffers + [s.current], [EMPTY]);
    MessagesOne(EMPTY);
  }

  lemma WriteLog(s: State)
    requires SparesOk(s) && Enabled(s, Write)
    ensures Log(Apply(s, Write)) == Log(s)
  {
    var b, s2 := s.batch[s.pc.next], Apply(s, Write);
    assert Unfiled(s) == [b] + Unfiled(s2);
    MessagesAppend([b], Unfiled(s2));
    MessagesOne(b);
  }

  lemma AppendLog(s: State, m: bytes)
    ensures Log(AppendTo(s, m)) == Log(s) + [m]
    requires s.next.Some? ==> s.next.value == EMPTY
  {
    var s2 := AppendTo(s, m);
    var older := (if s.pc.Writing? && s.pc.next <= |s.batch| then s.batch[s.pc.next..] else s.batch) + s.buffers;
    MessagesAppend(older, [s.current]);
    MessagesOne(s.current);
    MessagesOne(s2.current);
    if Avail(s.current) > |m| {
      MessagesAppend(older, [s2.current]);
    } else {
      assert Unfiled(s2) == (older + [s.current]) + [s2.current];
      MessagesAppend(older + [s.current], [s2.current]);
    }
  }

  lemma TrimLog(s: State)
    requires s.pc.Swapped? && s.batch != []
    ensures var n := if |s.batch| > MAX_BATCH then 2 else |s.batch|;
      var front, back := s.filed + Messages(s.batch[..n]), Messages(s.buffers + [s.current]);
      Log(s) == front + Lost(s, Trim) + back && Log(Apply(s, Trim)) == front + back
  {
    var n := if |s.batch| > MAX_BATCH then 2 else |s.batch|;
    var rest := s.buffers + [s.current];
    assert s.batch == s.batch[..n] + s.batch[n..];
    MessagesAppend(s.batch[..n], s.batch[n..]);
    assert Unfiled(s) == s.batch + rest;
    MessagesAppend(s.batch, rest);
    assert Unfiled(Apply(s, Trim)) == s.batch[..n] + rest;
    MessagesAppend(s.batch[..n], rest);
  }

  /** All messages a run appends, and all it loses. */
  function AddedIn(steps: seq<Step>): seq<bytes> {
    if steps == [] then [] else Added(steps[0]) + AddedIn(steps[1..])
  }

  function LostIn(s: State, steps: seq<Step>): seq<bytes>
    requires IsRun(s, steps)
    decreases |steps|
  {
    if steps == [] then [] else Lost(s, steps[0]) + LostIn(Apply(s, steps[0]), steps[1..])
  }

  predicate NoOversize(steps: seq<Step>) {
    forall i :: 0 <= i < |steps| && steps[i].Append? ==> |steps[i].m| <= LARGE_BUFFER
  }

  // ---------- The order of what is kept and what is lost ----------

  /** `whole` is `kept` and `lost` put together, each in its own order. */
  predicate Merges(whole: seq<bytes>, kept: seq<bytes>, lost: seq<bytes>) {
    if whole == [] then kept == [] && lost == []
    else
      || (kept != [] && kept[0] == whole[0] && Merges(whole[1..], kept[1..], lost))
      || (lost != [] && lost[0] == whole[0] && Merges(whole[1..], kept, lost[1..]))
  }

  lemma {:induction false} MergesKept(whole: seq<bytes>, kept: seq<bytes>, lost: seq<bytes>, more: seq<bytes>)
    requires Merges(whole, kept, lost)
    ensures Merges(whole + more, kept + more, lost)
    decreases |whole|
  {
    if whole == [] {
      assert whole + more == more && kept + more == more;
      OnlyKept(more);
    } else {
      assert (whole + more)[1..] == whole[1..] + more;
      if kept != [] && kept[0] == whole[0] && Merges(whole[1..], kept[1..], lost) {
        assert (kept + more)[1..] == kept[1..] + more;
        MergesKept(whole[1..], kept[1..], lost, more);
      } else {
        MergesKept(whole[1..], kept, lost[1..], more);
      }
    }
  }

  lemma {:induction false} MergesLost(whole: seq<bytes>, kept: seq<bytes>, lost: seq<bytes>, more: seq<bytes>)
    requires Merges(whole, kept, lost)
    ensures Merges(whole + more, kept, lost + more)
    decreases |whole|
  {
    if whole == [] {
      assert whole + more == more && lost + more == more;
      OnlyLost(more);
    } else {
      assert (whole + more)[1..] == whole[1..] + more;
      if kept != [] && kept[0] == whole[0] && Merges(whole[1..], kept[1..], lost) {
        MergesLost(whole[1..], kept[1..], lost, more);
      } else {
        assert (lost + more)[1..] == lost[1..] + more;
        MergesLost(whole[1..], kept, lost[1..], more);
      }
    }
  }

  lemma {:induction false} OnlyKept(s: seq<bytes>)
    ensures Merges(s, s, [])
  {
    if s != [] {
      OnlyKept(s[1..]);
    }
  }

  lemma {:induction false} OnlyLost(s: seq<bytes>)
    ensures Merges(s, [], s)
  {
    if s != [] {
      OnlyLost(s[1..]);
    }
  }

  lemma {:induction false} MergesCounts(whole: seq<bytes>, kept: seq<bytes>, lost: seq<bytes>)
    requires Merges(whole, kept, lost)
    ensures multiset(whole) == multiset(kept) + multiset(lost)
    decreases |whole|
  {
    if whole != [] {
      assert whole == [whole[0]] + whole[1..];
      if kept != [] && kept[0] == whole[0] && Merges(whole[1..], kept[1..], lost) {
        assert kept == [kept[0]] + kept[1..];
        MergesCounts(whole[1..], kept[1..], lost);
      } else {
        assert lost == [lost[0]] + lost[1..];
        MergesCounts(whole[1..], kept, lost[1..]);
      }
    }
  }

  /** What can no longer be lost, and what a later cut may still lose: a batch that has not
      been looked at, and the buffers after it. */
  function Settled(s: State): seq<bytes> {
    s.filed + (if s.pc.Writing? && s.pc.next <= |s.batch| then Messages(s.batch[s.pc.next..]) else [])
  }

  function Unsettled(s: State): seq<bytes> {
    (if s.pc.Writing? then [] else Messages(s.batch)) + Messages(s.buffers + [s.current])
  }

  lemma LogSplits(s: State)
    requires SparesOk(s)
    ensures Log(s) == Settled(s) + Unsettled(s)
  {
    var front, rest := if s.pc.Writing? then s.batch[s.pc.next..] else s.batch, s.buffers + [s.current];
    assert Unfiled(s) == front + rest;
    MessagesAppend(front, rest);
    hide Messages;
    if s.pc.Writing? {
      assert s.filed + (Messages(front) + Messages(rest)) == (s.filed + Messages(front)) + ([] + Messages(rest));
    }
  }

  /** An append grows what may be lost, a cut settles the first two buffers of the batch and
      loses the others, and every other step moves nothing between the two. */
  lemma StepSettles(s: State, step: Step) returns (settled: seq<bytes>)
    requires SparesOk(s) && Enabled(s, step)
    ensures AssertsHold(s, step)
    ensures var t := Apply(s, step);
      Settled(t) == Settled(s) + settled && Unsettled(s) + Added(step) == settled + (Lost(s, step) + Unsettled(t))
  {
    settled := [];
    if step.Append? {
      AppendUnsettled(s, step.m);
      assert Settled(Apply(s, step)) == Settled(s);
      hide Settled, Unsettled;
      assert Unsettled(s) + Added(step) == [] + ([] + Unsettled(Apply(s, step)));
      assert Settled(s) + [] == Settled(s);
    } else if step.Swap? {
      SwapSettles(s);
    } else if step.Trim? {
      settled := CutSettles(s);
    } else if step.Write? {
      WriteSettles(s);
    } else {
      RecycleSettles(s);
    }
  }

  lemma AppendUnsettled(s: State, m: bytes)
    requires s.next.Some? ==> s.next.value == EMPTY
    ensures Unsettled(AppendTo(s, m)) == Unsettled(s) + [m]
  {
    var t := AppendTo(s, m);
    MessagesAppend(s.buffers, [s.current]);
    MessagesOne(s.current);
    MessagesOne(t.current);
    if Avail(s.current) > |m| {
      MessagesAppend(s.buffers, [t.current]);
    } else {
      MessagesAppend(s.buffers + [s.current], [t.current]);
    }
    hide Messages;
  }

  lemma SwapSettles(s: State)
    requires SparesOk(s) && s.pc.Top?
    ensures var t := Apply(s, Swap);
      Settled(t) == Settled(s) + [] && Unsettled(s) + [] == [] + ([] + Unsettled(t))
  {
    MessagesOne(EMPTY);
    assert [] + [EMPTY] == [EMPTY];
  }

  lemma CutSettles(s: State) returns (settled: seq<bytes>)
    requires SparesOk(s) && s.pc.Swapped?
    ensures var t := Apply(s, Trim);
      Settled(t) == Settled(s) + settled && Unsettled(s) + [] == settled + (Lost(s, Trim) + Unsettled(t))
  {
    var n := if |s.batch| > MAX_BATCH then 2 else |s.batch|;
    settled := Messages(s.batch[..n]);
    assert s.batch == s.batch[..n] + s.batch[n..];
    MessagesAppend(s.batch[..n], s.batch[n..]);
    assert Apply(s, Trim).batch == s.batch[..n] && s.batch[..n][0..] == s.batch[..n];
    assert Lost(s, Trim) == Messages(s.batch[n..]);
    hide Messages;
    var lost, rest := Lost(s, Trim), Messages(s.buffers + [s.current]);
    assert ((settled + lost) + rest) + [] == settled + (lost + ([] + rest));
  }

  lemma WriteSettles(s: State)
    requires SparesOk(s) && Enabled(s, Write)
    ensures var t := Apply(s, Write);
      Settled(t) == Settled(s) + [] && Unsettled(s) + [] == [] + ([] + Unsettled(t))
  {
    var b, left := s.batch[s.pc.next], s.batch[s.pc.next + 1..];
    assert s.batch[s.pc.next..] == [b] + left;
    MessagesAppend([b], left);
    MessagesOne(b);
    hide Messages;
  }

  lemma RecycleSettles(s: State)
    requires SparesOk(s) && Enabled(s, Recycle)
    ensures var t := Apply(s, Recycle);
      Settled(t) == Settled(s) + [] && Unsettled(s) + [] == [] + ([] + Unsettled(t))
  {
    assert s.batch[s.pc.next..] == [];
  }

  /** A run from a state in which `all` has been settled: its losses are merged into it. */
  lemma {:induction false} RunMerges(s: State, steps: seq<Step>, all: seq<bytes>, lost: seq<bytes>) returns (end: seq<bytes>)
    requires SparesOk(s) && IsRun(s, steps) && Merges(all, Settled(s), lost)
    ensures Merges(end, Settled(Final(s, steps)), lost + LostIn(s, steps))
    ensures all + (Unsettled(s) + AddedIn(steps)) == end + Unsettled(Final(s, steps))
    decreases |steps|
  {
    hide Apply, SparesOk, Settled, Unsettled, Lost, Added, Merges;
    if steps == [] {
      end := all;
      assert lost + [] == lost && Unsettled(s) + [] == Unsettled(s);
    } else {
      var t := Apply(s, steps[0]);
      StepKeepsSpares(s, steps[0]);
      var settled := StepSettles(s, steps[0]);
      var l := Lost(s, steps[0]);
      MergesKept(all, Settled(s), lost, settled);
      MergesLost(all + settled, Settled(t), lost, l);
      end := RunMerges(t, steps[1..], (all + settled) + l, lost + l);
      Reassociate(all, settled, l, Unsettled(t), AddedIn(steps[1..]), Unsettled(s), Added(steps[0]));
      assert (lost + l) + LostIn(t, steps[1..]) == lost + (l + LostIn(t, steps[1..]));
    }
  }

  lemma Reassociate(all: seq<bytes>, settled: seq<bytes>, lost: seq<bytes>, left: seq<bytes>, later: seq<bytes>,
                    open: seq<bytes>, added: seq<bytes>)
    requires open + added == settled + (lost + left)
    ensures all + (open + (added + later)) == ((all + settled) + lost) + (left + later)
  {
    assert open + (added + later) == (open + added) + later;
    assert (settled + (lost + left)) + later == settled + (lost + (left + later));
  }

  /** No batch is over the limit when it is looked at. */
  predicate BatchesFit(s: State, steps: seq<Step>)
    requires IsRun(s, steps)
    decreases |steps|
  {
    steps != [] ==>
      (steps[0].Trim? ==> |s.batch| <= MAX_BATCH) && BatchesFit(Apply(s, steps[0]), steps[1..])
  }

  /** No two buffers in a row are without a message. */
  predicate Dense(bs: seq<Buffer>) {
    forall i :: 0 <= i < |bs| - 1 ==> bs[i].messages != [] || bs[i + 1].messages != []
  }

  predicate DenseOk(s: State) {
    Dense(s.buffers + [s.current]) && (s.pc.Swapped? ==> Dense(s.batch))
  }

  lemma StepKeepsDense(s: State, step: Step)
    requires DenseOk(s) && Enabled(s, step) && AssertsHold(s, step)
    ensures DenseOk(Apply(s, step))
  {
    var before, t := s.buffers + [s.current], Apply(s, step);
    if step.Append? {
      var after := t.buffers + [t.current];
      assert t.current.messages != [];
      forall i | 0 <= i < |after| - 1 ensures after[i].messages != [] || after[i + 1].messages != [] {
        if i + 1 < |after| - 1 {
          assert after[i] == before[i] && after[i + 1] == before[i + 1];
        }
      }
    }
  }

  /** A cut throws away at least two buffers, and so at least one message. */
  lemma CutLoses(s: State)
    requires DenseOk(s) && s.pc.Swapped? && |s.batch| > MAX_BATCH
    ensures Lost(s, Trim) != []
  {
    var gone := s.batch[2..];
    assert gone[0] == s.batch[2] && gone[1..][0] == s.batch[3];
    assert Messages(gone) == gone[0].messages + (gone[1..][0].messages + Messages(gone[1..][1..]));
    assert s.batch[2].messages != [] || s.batch[3].messages != [];
  }

  /** A run loses nothing exactly when every batch fits. */
  lemma {:induction false} NothingLostIff(s: State, steps: seq<Step>)
    requires DenseOk(s) && IsRun(s, steps)
    ensures LostIn(s, steps) == [] <==> BatchesFit(s, steps)
    decreases |steps|
  {
    hide Apply, DenseOk, Lost;
    if steps != [] {
      StepKeepsDense(s, steps[0]);
      NothingLostIff(Apply(s, steps[0]), steps[1..]);
      LosesIff(s, steps[0]);
    }
  }

  lemma LosesIff(s: State, step: Step)
    requires DenseOk(s) && Enabled(s, step)
    ensures Lost(s, step) == [] <==> (step.Trim? ==> |s.batch| <= MAX_BATCH)
  {
    if step.Trim? && |s.batch| > MAX_BATCH {
      CutLoses(s);
    }
  }

  /** With nothing lost, all was kept, in order. */
  lemma {:induction false} AllKept(whole: seq<bytes>, kept: seq<bytes>)
    requires Merges(whole, kept, [])
    ensures kept == whole
    decreases |whole|
  {
    if whole != [] {
      AllKept(whole[1..], kept[1..]);
      assert whole == [whole[0]] + whole[1..] && kept == [kept[0]] + kept[1..];
    }
  }

  lemma {:induction false} RunKeepsWhole(s: State, steps: seq<Step>)
    requires SparesOk(s) && AllWhole(s) && IsRun(s, steps) && NoOversize(steps)
    ensures AllWhole(Final(s, steps))
    decreases |steps|
  {
    if steps != [] {
      StepKeepsSpares(s, steps[0]);
      StepKeepsWhole(s, steps[0]);
      assert forall i :: 0 <= i < |steps[1..]| ==> steps[1..][i] == steps[i + 1];
      RunKeepsWhole(Apply(s, steps[0]), steps[1..]);
    }
  }

  lemma {:induction false} WholeContents(bs: seq<Buffer>)
    requires forall i :: 0 <= i < |bs| ==> Whole(bs[i])
    ensures Contents(bs) == Flatten(Messages(bs))
  {
    if bs != [] {
      WholeContents(bs[1..]);
      FlattenAppend(bs[0].messages, Messages(bs[1..]));
    }
  }

  /** What a run appends is what it keeps and what it loses, put together in order. */
  lemma LogMerges(s: State, steps: seq<Step>)
    requires Init(s) && IsRun(s, steps)
    ensures Merges(AddedIn(steps), Log(Final(s, steps)), LostIn(s, steps))
  {
    var f, lost := Final(s, steps), LostIn(s, steps);
    InitLog(s);
    hide Log, Apply, SparesOk, Init, Settled, Unsettled, Merges;
    RunKeepsSpares(s, steps);
    OnlyKept([]);
    var end := RunMerges(s, steps, [], []);
    assert [] + lost == lost;
    MergesKept(end, Settled(f), lost, Unsettled(f));
    LogSplits(f);
    assert [] + ([] + AddedIn(steps)) == AddedIn(steps);
  }

  /** Log conservation: in every interleaving without oversize messages, every message is whole
      in the file or in one buffer, and the file and the buffers, oldest first, hold in order
      what was appended less what the cuts threw away, which is in order too. That is everything
      exactly when no batch passed the limit. */
  lemma LogConservation(s: State, steps: seq<Step>)
    requires Init(s) && IsRun(s, steps) && NoOversize(steps)
    ensures var f := Final(s, steps);
      && AllWhole(f)
      && f.file + Contents(Unfiled(f)) == Flatten(Log(f))
      && Merges(AddedIn(steps), Log(f), LostIn(s, steps))
      && (Log(f) == AddedIn(steps) <==> BatchesFit(s, steps))
  {
    InitLog(s);
    hide Log, Apply, SparesOk, AllWhole, DenseOk, Init, Merges, BatchesFit;
    RunKeepsWhole(s, steps);
    FileAndBuffers(Final(s, steps));
    LogMerges(s, steps);
    NothingLostIff(s, steps);
    if BatchesFit(s, steps) {
      AllKept(AddedIn(steps), Log(Final(s, steps)));
    } else {
      MergesCounts(AddedIn(steps), Log(Final(s, steps)), LostIn(s, steps));
      assert |multiset(LostIn(s, steps))| != 0;
    }
  }

  /** No message is kept twice, or made up: counted, what is kept and what is lost are what was
      appended. */
  lemma NoMessageTwice(s: State, steps: seq<Step>)
    requires Init(s) && IsRun(s, steps) && NoOversize(steps)
    ensures multiset(AddedIn(steps)) == multiset(Log(Final(s, steps))) + multiset(LostIn(s, steps))
  {
    LogConservation(s, steps);
    MergesCounts(AddedIn(steps), Log(Final(s, steps)), LostIn(s, steps));
  }

  lemma InitLog(s: State)
    requires Init(s)
    ensures SparesOk(s) && AllWhole(s) && DenseOk(s) && Log(s) == [] && Settled(s) == [] && Unsettled(s) == []
  {
    assert Flatten(EMPTY.messages) == [];
    assert Unfiled(s) == [EMPTY];
    MessagesOne(EMPTY);
  }

  lemma FileAndBuffers(s: State)
    requires AllWhole(s)
    ensures s.file + Contents(Unfiled(s)) == Flatten(Log(s))
  {
    WholeContents(Unfiled(s));
    FlattenAppend(s.filed, Messages(Unfiled(s)));
  }

  // ---------- The code ----------

  /** The thread's fields, with the locals of threadFunc that live across its critical section.
      Each method is one step of the interleaving: it leaves exactly the state the step
      describes, and passes the source's asserts on the way. */
  class AsyncLogThread {
    var current: Option<Buffer>
    var next: Option<Buffer>
    var buffers: seq<Buffer>
    var spare1: Option<Buffer>
    var spare2: Option<Buffer>
    var batch: seq<Buffer>
    var file: bytes
    var pc: Pc
    ghost var filed: seq<bytes>

    ghost function View(): State
      requires current.Some?
      reads this
    {
      State(current.value, next, buffers, spare1, spare2, batch, file, pc, filed)
    }

    ghost predicate Valid()
      reads this
    {
      current.Some? && SparesOk(View())
    }

    constructor ()
      ensures Valid() && Init(View())
    {
      current, next, buffers := Some(EMPTY), Some(EMPTY), [];
      spare1, spare2, batch, file, pc := Some(EMPTY), Some(EMPTY), [], [], Top;
      filed := [];
    }

    method Append(m: bytes)
      requires Valid()
      modifies this
      ensures Valid() && View() == Apply(old(View()), Step.Append(m))
    {
      if Avail(current.value) > |m| {
        current := Some(FixedAppend(current.value, m));
      } else {
        buffers := buffers + [current.value];
        current := None;
        if next.Some? {
          current, next := next, None;
        } else {
          current := Some(EMPTY);
        }
        current := Some(FixedAppend(current.value, m));
      }
    }

    method SwapBuffers()
      requires Valid() && pc.Top?
      modifies this
      ensures Valid() && View() == Apply(old(View()), Swap)
    {
      assert spare1 == Some(EMPTY) && spare2 == Some(EMPTY) && batch == [];
      buffers := buffers + [current.value];
      current, spare1 := spare1, None;
      batch, buffers := buffers, batch;
      if next.None? {
        next, spare2 := spare2, None;
      }
      pc := Swapped;
    }

    method TrimBatch()
      requires Valid() && pc.Swapped?
      modifies this
      ensures Valid() && View() == Apply(old(View()), Trim)
    {
      assert batch != [];
      if |batch| > MAX_BATCH {
        batch := batch[..2];
      }
      pc := Writing(0);
    }

    method WriteNext()
      requires Valid() && pc.Writing? && pc.next < |batch|
      modifies this
      ensures Valid() && View() == Apply(old(View()), Write)
    {
      file := file + batch[pc.next].data;
      filed := filed + batch[pc.next].messages;
      pc := Writing(pc.next + 1);
    }

    method RecycleBuffers()
      requires Valid() && pc.Writing? && pc.next == |batch|
      modifies this
      ensures Valid() && View() == Apply(old(View()), Recycle)
    {
      if |batch| > 2 {
        batch := batch[..2];
      }
      if spare1.None? {
        assert batch != [];
        batch := batch[..|batch| - 1];
        spare1 := Some(EMPTY);
      }
      if spare2.None? {
        assert batch != [];
        batch := batch[..|batch| - 1];
        spare2 := Some(EMPTY);
      }
      batch, pc := [], Top;
    }
  }
}
