/** The life of a connection of net/TcpConnection.cpp: what its channel waits for in each state,
    what a send and a writable event put on the wire, and how it ends. */
module ConnectionLife {
  import opened Bytes
  import opened TcpConnection

  // ---------- Interests ----------

  /** Reads are waited for exactly while the connection is open, writes only then. */
  predicate Interested(s: Conn) {
    (s.reading <==> Open(s)) && (s.writing ==> Open(s))
  }

  lemma {:induction false} RunKeepsInterest(s: Conn, steps: seq<Step>)
    requires Inv(s) && Interested(s) && IsRun(s, steps)
    ensures Inv(Final(s, steps)) && Interested(Final(s, steps))
    decreases |steps|
  {
    if steps != [] {
      StepKeepsInv(s, steps[0]);
      RunKeepsInterest(Apply(s, steps[0]), steps[1..]);
    }
  }

  /** In every run the channel waits for reads exactly while the connection is open, and for
      writes exactly while it is open and output waits. */
  lemma InterestsFollowState(steps: seq<Step>)
    requires IsRun(FRESH, steps)
    ensures var s := Final(FRESH, steps);
      (s.reading <==> Open(s)) && (s.writing <==> Open(s) && s.output != [])
  {
    RunKeepsInterest(FRESH, steps);
  }

  /** A connection is open from connectEstablished on. */
  lemma EstablishOpens(s: Conn)
    requires Enabled(s, Establish)
    ensures var t := Apply(s, Establish); t.state == Connected && t.reading && t.wire == s.wire && t.output == s.output
  {
  }

  // ---------- What goes out, and when ----------

  /** A send on an idle connection writes what the socket takes at once and keeps the rest, to
      the byte; one that finds output waiting goes behind it. */
  lemma SendGoesOut(s: Conn, data: bytes, w: WriteResult)
    requires Inv(s) && s.state == Connected && Enabled(s, Send(data, w)) && w != Failed(true)
    ensures var t := Apply(s, Send(data, w));
      if s.output == []
      then var n := if w.Wrote? then w.n else 0; n <= |data| && t.wire == s.wire + data[..n] && t.output == data[n..]
      else t.wire == s.wire && t.output == s.output + data
  {
    assert s.wire + data[..0] == s.wire;
  }

  /** A writable socket takes the front of the output, as many bytes as it says. */
  lemma WritableTakes(s: Conn, n: nat)
    requires Inv(s) && s.writing && Enabled(s, Writable(Wrote(n)))
    ensures var t := Apply(s, Writable(Wrote(n)));
      n <= |s.output| && t.wire == s.wire + s.output[..n] && t.output == s.output[n..]
  {
    assert s.wire + s.output[..0] == s.wire;
  }

  // ---------- Ends ----------

  /** shutdown() on a connected connection: when the socket has taken a byte as often as bytes
      were waiting, everything that was accepted is out and the write side is shut down. */
  lemma ShutdownCompletes(s: Conn, steps: seq<Step>)
    requires Inv(s) && s.state == Connected && IsRun(Apply(s, Shutdown), steps) && OnlyProgress(steps) && |steps| >= |s.output|
    ensures var f := Final(Apply(s, Shutdown), steps);
      f.shuts == 1 && f.wire == s.accepted && f.state == Disconnecting
  {
    StepKeepsInv(s, Shutdown);
    ShutdownIsCarriedOut(Apply(s, Shutdown), steps);
  }

  /** A forced close of an open connection closes it with its next functor. */
  lemma ForceCloseCloses(s: Conn)
    requires Open(s)
    ensures var t := Apply(Apply(s, ForceClose), ForceCloseInLoop);
      t.state == Disconnected && !t.reading && !t.writing && t.wire == s.wire && t.shuts == s.shuts
  {
  }

  /** Closing and destroying end a connection; destroying leaves alone one that is closing. */
  lemma ClosedIsDisconnected(s: Conn)
    ensures Open(s) ==> Apply(s, Close).state == Disconnected && !Apply(s, Close).reading && !Apply(s, Close).writing
    ensures s.state == Connected ==> Apply(s, Destroy).state == Disconnected && !Apply(s, Destroy).reading
    ensures s.state != Connected ==> Apply(s, Destroy) == s
  {
  }

  /** Once disconnected, nothing more goes out or is accepted until the connection is reset. */
  lemma {:induction false} DisconnectedIsQuiet(s: Conn, steps: seq<Step>)
    requires s.state == Disconnected && !s.writing && IsRun(s, steps) && NoReset(steps)
    ensures var f := Final(s, steps);
      f.state == Disconnected && f.wire == s.wire && f.accepted == s.accepted && f.shuts == s.shuts
    decreases |steps|
  {
    if steps != [] {
      assert !steps[0].Reset?;
      assert forall i :: 0 <= i < |steps[1..]| ==> steps[1..][i] == steps[i + 1];
      DisconnectedIsQuiet(Apply(s, steps[0]), steps[1..]);
    }
  }

  lemma {:induction false} ClosingAcceptsNothing(s: Conn, steps: seq<Step>)
    requires (s.state == Disconnecting || s.state == Disconnected) && IsRun(s, steps) && NoReset(steps)
    ensures var f := Final(s, steps); (f.state == Disconnecting || f.state == Disconnected) && f.accepted == s.accepted
    decreases |steps|
  {
    if steps != [] {
      assert !steps[0].Reset?;
      assert forall i :: 0 <= i < |steps[1..]| ==> steps[1..][i] == steps[i + 1];
      ClosingAcceptsNothing(Apply(s, steps[0]), steps[1..]);
    }
  }

  /** From shutdown(), forceClose() or a close on, no send is accepted until the connection is
      reset: what goes out is at most what had been accepted by then. */
  lemma LastSendIsBeforeClosing(s: Conn, step: Step, steps: seq<Step>)
    requires Inv(s) && Open(s) && (step.Shutdown? || step.ForceClose? || step.Close?)
    requires IsRun(Apply(s, step), steps) && NoReset(steps)
    ensures var f := Final(Apply(s, step), steps);
      f.accepted == s.accepted && f.wire <= s.accepted
  {
    StepKeepsInv(s, step);
    ClosingAcceptsNothing(Apply(s, step), steps);
    RunKeepsInv(Apply(s, step), steps);
  }

  /** A reset connection is as good as new: every run from it is one from a new connection. */
  lemma ResetIsFresh(s: Conn, steps: seq<Step>)
    requires s.state == Disconnected && IsRun(Apply(s, Reset), steps)
    ensures IsRun(FRESH, steps) && Final(Apply(s, Reset), steps) == Final(FRESH, steps)
    ensures FRESH.state == Connecting && FRESH.wire == [] && FRESH.output == [] && !FRESH.reading && !FRESH.writing
  {
  }
}
