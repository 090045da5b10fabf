/** The send and shutdown state machine of net/TcpConnection.cpp, for a connection driven in its
    own loop thread and sending no file. The kernel is the results of write and the order of
    events. */
module TcpConnection {
  import opened Bytes
  import Buf = Buffer

  datatype StateE = Disconnected | Connecting | Connected | Disconnecting

  /** What write(2) returns: a byte count, or an error, which is fatal for EPIPE and ECONNRESET
      and otherwise (EWOULDBLOCK included) leaves the data to be sent later. */
  datatype WriteResult = Wrote(n: nat) | Failed(fatal: bool)

  /** A connection; the last four components are history: the bytes given to the socket, the
      bytes whose sending was not refused, how often the write side was shut down, and whether
      shutdown() was called in time. */
  datatype Conn = Conn(
    state: StateE,
    reading: bool,       // the channel's interest in reads
    writing: bool,       // ... and in writes
    output: bytes,       // outputBuffer_
    wire: bytes,
    accepted: bytes,
    shuts: nat,
    asked: bool)

  datatype Step =
    | Establish                          // connectEstablished
    | Send(data: bytes, w: WriteResult)  // send(Buffer*); w is used only if it writes directly
    | Writable(w: WriteResult)           // handleWrite
    | Shutdown                           // shutdown
    | ForceClose                         // forceClose
    | ForceCloseInLoop                   // its functor
    | Close                              // handleClose
    | Destroy                            // connectDestroyed
    | Reset                              // connectReset, for the next socket

  predicate Open(s: Conn) {
    s.state == Connected || s.state == Disconnecting
  }

  /** sendInLoop writes at once only when nothing is waiting. */
  predicate WritesDirectly(s: Conn) {
    !s.writing && s.output == []
  }

  /** The kernel writes no more than it is given, and the source's assertions about the state
      are its callers' promises. */
  predicate Enabled(s: Conn, step: Step) {
    match step
    case Establish => s.state == Connecting
    case Send(data, w) => s.state == Connected && WritesDirectly(s) && w.Wrote? ==> w.n <= |data|
    case Writable(w) => s.writing && w.Wrote? ==> w.n <= |s.output|
    case Close => Open(s)
    case Reset => s.state == Disconnected
    case Shutdown => true
    case ForceClose => true
    case ForceCloseInLoop => true
    case Destroy => true
  }

  /** sendInLoop, without a file. */
  function HandedOver(s: Conn, data: bytes, w: WriteResult): Conn
    requires WritesDirectly(s) && w.Wrote? ==> w.n <= |data|
  {
    if s.state == Disconnected then s
    else if WritesDirectly(s) then
      if w == Failed(true) then s
      else
        var n := if w.Wrote? then w.n else 0;
        s.(wire := s.wire + data[..n], output := data[n..], writing := n < |data|, accepted := s.accepted + data)
    else s.(output := s.output + data, writing := s.writing || data != [], accepted := s.accepted + data)
  }

  /** send(Buffer*) in the loop thread. */
  function Sent(s: Conn, data: bytes, w: WriteResult): Conn
    requires Enabled(s, Send(data, w))
  {
    if s.state == Connected then HandedOver(s, data, w) else s
  }

  /** shutdownInLoop. */
  function ShutInLoop(s: Conn): Conn {
    if s.writing then s else s.(shuts := s.shuts + 1)
  }

  function Written(s: Conn, w: WriteResult): Conn
    requires Enabled(s, Writable(w))
  {
    if !s.writing || s.output == [] || w.Failed? || w.n == 0 then s
    else
      var t := s.(wire := s.wire + s.output[..w.n], output := s.output[w.n..]);
      if t.output != [] then t
      else if t.state == Disconnecting then ShutInLoop(t.(writing := false))
      else t.(writing := false)
  }

  function Closed(s: Conn): Conn {
    s.(state := Disconnected, reading := false, writing := false)
  }

  function Apply(s: Conn, step: Step): Conn
    requires Enabled(s, step)
  {
    match step
    case Establish => s.(state := Connected, reading := true)
    case Send(data, w) => Sent(s, data, w)
    case Writable(w) => Written(s, w)
    case Shutdown => if s.state == Connected then ShutInLoop(s.(state := Disconnecting, asked := true)) else s
    case ForceClose => if Open(s) then s.(state := Disconnecting) else s
    case ForceCloseInLoop => if Open(s) then Closed(s) else s
    case Close => Closed(s)
    case Destroy => if s.state == Connected then Closed(s) else s
    case Reset => FRESH
  }

  /** A connection that has just been made, or taken from the pool. */
  const FRESH: Conn := Conn(Connecting, false, false, [], [], [], 0, false)

  // ---------- The code ----------

  class Connection {
    const outputBuffer: Buf.Buffer
    var state: StateE
    var reading: bool
    var writing: bool
    ghost var wire: bytes
    ghost var accepted: bytes
    var shuts: nat
    ghost var asked: bool

    ghost predicate Valid()
      reads this, outputBuffer, outputBuffer.data
    {
      outputBuffer.Valid()
    }

    ghost function View(): Conn
      requires Valid()
      reads this, outputBuffer, outputBuffer.data
    {
      Conn(state, reading, writing, outputBuffer.Contents(), wire, accepted, shuts, asked)
    }

    constructor ()
      ensures Valid() && fresh(outputBuffer) && fresh(outputBuffer.data) && View() == FRESH
    {
      outputBuffer := new Buf.Buffer(1024);
      state, reading, writing, shuts := Connecting, false, false, 0;
      wire, accepted, asked := [], [], false;
    }

    method ConnectEstablished()
      requires Valid() && Enabled(View(), Establish)
      modifies `state, `reading
      ensures Valid() && View() == Apply(old(View()), Establish)
    {
      state := Connected;
      reading := true;
    }

    /** send(Buffer*) in the loop thread: the buffer it is given is emptied. */
    method SendBuffer(buf: Buf.Buffer, w: WriteResult)
      requires Valid() && buf.Valid() && buf != outputBuffer && buf.data != outputBuffer.data
      requires Enabled(View(), Send(buf.Contents(), w))
      modifies this, outputBuffer, outputBuffer.data, buf
      ensures Valid() && (outputBuffer.data == old(outputBuffer.data) || fresh(outputBuffer.data))
      ensures View() == Apply(old(View()), Send(old(buf.Contents()), w))
      ensures buf.Valid() && buf.Contents() == if old(state) == Connected then [] else old(buf.Contents())
    {
      if state == Connected {
        SendInLoop(buf.data[buf.readerIndex..buf.writerIndex], w);
        buf.RetrieveAll();
      }
    }

    method SendInLoop(data: bytes, w: WriteResult)
      requires Valid() && (WritesDirectly(View()) && w.Wrote? ==> w.n <= |data|)
      modifies this, outputBuffer, outputBuffer.data
      ensures Valid() && (outputBuffer.data == old(outputBuffer.data) || fresh(outputBuffer.data))
      ensures View() == HandedOver(old(View()), data, w)
    {
      var nwrote, faultError := 0, false;
      if state == Disconnected {
        return;
      }
      if !writing && outputBuffer.ReadableBytes() == 0 {
        match w {
          case Wrote(n) => nwrote := n;
          case Failed(fatal) => faultError := fatal;
        }
      }
      var remaining := |data| - nwrote;
      ghost var before := outputBuffer.Contents();
      wire := wire + data[..nwrote];
      if !faultError {
        accepted := accepted + data;
      }
      if !faultError && remaining > 0 {
        outputBuffer.Append(data[nwrote..]);
        if !writing {
          writing := true;
        }
      }
      Ends(old(wire), before, data, nwrote);
    }

    method ShutdownInLoop()
      modifies `shuts
      ensures shuts == if writing then old(shuts) else old(shuts) + 1
    {
      if !writing {
        shuts := shuts + 1;
      }
    }

    method HandleWrite(w: WriteResult)
      requires Valid() && Enabled(View(), Writable(w))
      modifies this, outputBuffer
      ensures Valid() && View() == Apply(old(View()), Writable(w))
    {
      if writing {
        if outputBuffer.ReadableBytes() > 0 {
          if w.Wrote? && w.n > 0 {
            wire := wire + outputBuffer.Contents()[..w.n];
            outputBuffer.Retrieve(w.n);
            if outputBuffer.ReadableBytes() == 0 {
              writing := false;
              if state == Disconnecting {
                ShutdownInLoop();
              }
            }
          }
        }
      }
    }

    method ShutdownConnection()
      requires Valid()
      modifies this
      ensures Valid() && View() == Apply(old(View()), Shutdown)
    {
      if state == Connected {
        state, asked := Disconnecting, true;
        ShutdownInLoop();
      }
    }

    method ForceCloseConnection()
      requires Valid()
      modifies `state
      ensures Valid() && View() == Apply(old(View()), ForceClose)
    {
      if state == Connected || state == Disconnecting {
        state := Disconnecting;
      }
    }

    method HandleClose()
      requires Valid() && Enabled(View(), Close)
      modifies `state, `reading, `writing
      ensures Valid() && View() == Apply(old(View()), Close)
    {
      state := Disconnected;
      reading, writing := false, false;
    }

    method RunForceClose()
      requires Valid()
      modifies `state, `reading, `writing
      ensures Valid() && View() == Apply(old(View()), ForceCloseInLoop)
    {
      if state == Connected || state == Disconnecting {
        HandleClose();
      }
    }

    method ConnectDestroyed()
      requires Valid()
      modifies `state, `reading, `writing
      ensures Valid() && View() == Apply(old(View()), Destroy)
    {
      if state == Connected {
        state := Disconnected;
        reading, writing := false, false;
      }
    }

    method ConnectReset()
      requires Valid() && Enabled(View(), Reset)
      modifies this, outputBuffer
      ensures Valid() && View() == Apply(old(View()), Reset)
    {
      state := Connecting;
      reading, writing, shuts := false, false, 0;
      outputBuffer.RetrieveAll();
      wire, accepted, asked := [], [], false;
    }
  }

  lemma Ends(wire: bytes, output: bytes, data: bytes, n: nat)
    requires n <= |data|
    ensures data[..0] == [] && data[0..] == data && data[|data|..] == [] && wire + [] == wire
    ensures output == [] ==> output + data[n..] == data[n..]
    ensures data == [] ==> output + data == output
  {
  }

  // ---------- What every run keeps ----------

  predicate Inv(s: Conn) {
    && s.wire + s.output == s.accepted
    && (Open(s) ==> (s.writing <==> s.output != []))
    && (!Open(s) ==> !s.writing)
    && (s.state == Connecting ==> s == FRESH)
    && (s.state == Connected ==> s.shuts == 0 && !s.asked)
    && s.shuts <= 1
    && (s.shuts == 1 ==> s.output == [])
    && (s.asked && s.state == Disconnecting && s.output == [] ==> s.shuts == 1)
  }

  lemma Cut(wire: bytes, data: bytes, n: nat)
    requires n <= |data|
    ensures (wire + data[..n]) + data[n..] == wire + data
  {
    assert data[..n] + data[n..] == data;
  }

  lemma Later(wire: bytes, output: bytes, data: bytes)
    ensures wire + (output + data) == (wire + output) + data
  {
  }

  lemma SendKeepsInv(s: Conn, data: bytes, w: WriteResult)
    requires Inv(s) && Enabled(s, Send(data, w))
    ensures Inv(Sent(s, data, w))
  {
    if s.state == Connected {
      if WritesDirectly(s) {
        assert s.wire + [] == s.wire;
        Cut(s.wire, data, if w.Wrote? then w.n else 0);
      } else {
        Later(s.wire, s.output, data);
      }
    }
  }

  lemma WriteKeepsInv(s: Conn, w: WriteResult)
    requires Inv(s) && Enabled(s, Writable(w))
    ensures Inv(Written(s, w))
  {
    if s.writing && w.Wrote? {
      assert s.output[..w.n] + s.output[w.n..] == s.output;
      assert (s.wire + s.output[..w.n]) + s.output[w.n..] == s.wire + s.output;
    }
  }

  lemma StepKeepsInv(s: Conn, step: Step)
    requires Inv(s) && Enabled(s, step)
    ensures Inv(Apply(s, step))
  {
    if step.Send? {
      SendKeepsInv(s, step.data, step.w);
    } else if step.Writable? {
      WriteKeepsInv(s, step.w);
    }
  }

  predicate IsRun(s: Conn, steps: seq<Step>)
    decreases |steps|
  {
    steps == [] || (Enabled(s, steps[0]) && IsRun(Apply(s, steps[0]), steps[1..]))
  }

  function Final(s: Conn, steps: seq<Step>): Conn
    requires IsRun(s, steps)
    decreases |steps|
  {
    if steps == [] then s else Final(Apply(s, steps[0]), steps[1..])
  }

  lemma {:induction false} RunKeepsInv(s: Conn, steps: seq<Step>)
    requires Inv(s) && IsRun(s, steps)
    ensures Inv(Final(s, steps))
    decreases |steps|
  {
    if steps != [] {
      StepKeepsInv(s, steps[0]);
      RunKeepsInv(Apply(s, steps[0]), steps[1..]);
    }
  }

  /** Over every run of sends, partial writes, refusals, shutdowns and closes: the bytes on the
      wire followed by the output buffer are the accepted sends in order; an open connection
      waits for writability exactly while the output buffer holds something; the write side is
      shut down at most once, and then everything accepted is on the wire. */
  lemma SendStreamConserved(steps: seq<Step>)
    requires IsRun(FRESH, steps)
    ensures var s := Final(FRESH, steps);
      && s.wire + s.output == s.accepted
      && (Open(s) ==> (s.writing <==> s.output != []))
      && s.shuts <= 1
      && (s.shuts == 1 ==> s.wire == s.accepted)
  {
    RunKeepsInv(FRESH, steps);
    var s := Final(FRESH, steps);
    assert s.output == [] ==> s.wire + s.output == s.wire;
  }

  // ---------- Draining ----------

  /** The messages of a run of sends that no fatal error refused. */
  function Accepted(s: Conn, steps: seq<Step>): bytes
    requires IsRun(s, steps)
    decreases |steps|
  {
    if steps == [] then []
    else if steps[0].Send? && s.state == Connected && !(WritesDirectly(s) && steps[0].w == Failed(true)) then
      steps[0].data + Accepted(Apply(s, steps[0]), steps[1..])
    else Accepted(Apply(s, steps[0]), steps[1..])
  }

  predicate NoReset(steps: seq<Step>) {
    forall i :: 0 <= i < |steps| ==> !steps[i].Reset?
  }

  /** `accepted` is what it is said to be: the sends made while connected, less those a fatal
      error refused. */
  lemma {:induction false} AcceptedIsTheSends(s: Conn, steps: seq<Step>)
    requires IsRun(s, steps) && NoReset(steps)
    ensures Final(s, steps).accepted == s.accepted + Accepted(s, steps)
    decreases |steps|
  {
    if steps == [] {
      assert s.accepted + [] == s.accepted;
    } else {
      var t := Apply(s, steps[0]);
      assert forall i :: 0 <= i < |steps[1..]| ==> steps[1..][i] == steps[i + 1];
      AcceptedIsTheSends(t, steps[1..]);
      if steps[0].Send? {
        assert (s.accepted + steps[0].data) + Accepted(t, steps[1..]) == s.accepted + (steps[0].data + Accepted(t, steps[1..]));
      }
    }
  }

  /** Steps in which the socket takes at least one byte. */
  predicate OnlyProgress(steps: seq<Step>) {
    forall i :: 0 <= i < |steps| ==> steps[i].Writable? && steps[i].w.Wrote? && steps[i].w.n > 0
  }

  /** No shutdown is lost: once the socket has taken a byte as often as there are bytes waiting,
      everything is written and a requested shutdown has been made. */
  lemma {:induction false} ShutdownIsCarriedOut(s: Conn, steps: seq<Step>)
    requires Inv(s) && Open(s) && IsRun(s, steps) && OnlyProgress(steps) && |steps| >= |s.output|
    ensures var f := Final(s, steps);
      f.output == [] && f.wire == s.accepted && f.state == s.state
      && (s.asked ==> f.shuts == 1)
    decreases |steps|
  {
    if steps == [] {
      assert s.wire + [] == s.wire;
    } else {
      var t := Apply(s, steps[0]);
      StepKeepsInv(s, steps[0]);
      assert forall i :: 0 <= i < |steps[1..]| ==> steps[1..][i] == steps[i + 1];
      ShutdownIsCarriedOut(t, steps[1..]);
    }
  }
}
