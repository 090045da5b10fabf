/** Registration of connection channels in net/Epoll.cpp and net/Channel.h, and the pool that
    net/Epoll.cpp reuses connections from. The kernel's interest set and the open descriptors
    are part of the state. */
module Epoll {
  type Id = nat

  datatype Flag = In | Pri | Out | Et

  datatype Status = New | Added | Deleted

  /** The operations of epoll_ctl. */
  datatype Operation = Add | Mod | Del

  /** A connection's channel: its descriptor, the events it is interested in, and its status. */
  datatype Channel = Channel(fd: int, events: set<Flag>, status: Status)

  /** What the kernel holds for a descriptor. */
  datatype Interest = Interest(events: set<Flag>, id: Id)

  datatype State = State(
    channels: map<Id, Channel>,       // every connection made so far
    connections: map<int, Id>,        // connections_, without the entries moved from
    pool: seq<Id>,                    // connectionsPool
    kernel: map<int, Interest>,
    open: set<int>,
    fatal: bool)                      // an epoll_ctl that the source does not survive has failed

  datatype Step =
    | Create(fd: int, made: Id)       // createConnection; the object is made only if the pool is empty
    | Enable(id: Id, events: set<Flag>)
    | Disable(id: Id, events: set<Flag>)
    | DisableAll(id: Id)
    | Remove(id: Id)

  /** The connection is the one filed under its channel's descriptor. */
  predicate Active(s: State, id: Id) {
    id in s.channels && s.channels[id].fd in s.connections && s.connections[s.channels[id].fd] == id
  }

  /** accept gives a descriptor that was not open; only connections in use are touched; and
      Channel::remove asserts that no events are left. */
  predicate Enabled(s: State, step: Step) {
    match step
    case Create(fd, k) => fd !in s.open && k !in s.channels
    case Enable(id, _) => Active(s, id)
    case Disable(id, _) => Active(s, id)
    case DisableAll(id) => Active(s, id)
    case Remove(id) => Active(s, id) && s.channels[id].events == {}
  }

  // ---------- epoll_ctl ----------

  function CtlAdd(s: State, id: Id): State
    requires id in s.channels
  {
    var c := s.channels[id];
    if c.fd !in s.open || c.fd in s.kernel then s.(fatal := true)
    else s.(kernel := s.kernel[c.fd := Interest(c.events, id)])
  }

  function CtlMod(s: State, id: Id): State
    requires id in s.channels
  {
    var c := s.channels[id];
    if c.fd !in s.kernel then s.(fatal := true) else s.(kernel := s.kernel[c.fd := Interest(c.events, id)])
  }

  /** A failing removal is only logged. */
  function CtlDel(s: State, id: Id): State
    requires id in s.channels
  {
    s.(kernel := s.kernel - {s.channels[id].fd})
  }

  function WithStatus(s: State, id: Id, status: Status): State
    requires id in s.channels
  {
    s.(channels := s.channels[id := s.channels[id].(status := status)])
  }

  /** Epoll::updateChannel. */
  function Updated(s: State, id: Id): State
    requires id in s.channels
  {
    var c := s.channels[id];
    if c.status != Added then CtlAdd(WithStatus(s, id, Added), id)
    else if c.events == {} then WithStatus(CtlDel(s, id), id, Deleted)
    else CtlMod(s, id)
  }

  function WithEvents(s: State, id: Id, events: set<Flag>): State
    requires id in s.channels
  {
    Updated(s.(channels := s.channels[id := s.channels[id].(events := events)]), id)
  }

  /** Epoll::removeChannel: the connection goes to the pool and its descriptor is closed, which
      drops it from the kernel's set; the removal after that finds nothing. */
  function Removed(s: State, id: Id): State
    requires Active(s, id)
  {
    var fd := s.channels[id].fd;
    var t := s.(connections := s.connections - {fd}, pool := s.pool + [id], open := s.open - {fd}, kernel := s.kernel - {fd});
    WithStatus(t, id, New)
  }

  /** Epoll::createConnection, up to the call of connectEstablished. */
  function Created(s: State, fd: int, k: Id): State {
    var t := s.(open := s.open + {fd});
    if s.pool == [] then
      t.(channels := s.channels[k := Channel(fd, {}, New)], connections := s.connections[fd := k])
    else
      var id := s.pool[|s.pool| - 1];
      t.(channels := s.channels[id := Channel(fd, {}, New)], connections := s.connections[fd := id],
         pool := s.pool[..|s.pool| - 1])
  }

  function Apply(s: State, step: Step): State
    requires Enabled(s, step)
  {
    match step
    case Create(fd, k) => Created(s, fd, k)
    case Enable(id, events) => WithEvents(s, id, s.channels[id].events + events)
    case Disable(id, events) => WithEvents(s, id, s.channels[id].events - events)
    case DisableAll(id) => WithEvents(s, id, {})
    case Remove(id) => Removed(s, id)
  }

  // ---------- What every step keeps ----------

  /** The pool holds each of its connections once, and none is registered. */
  ghost predicate PoolIdle(s: State) {
    && (forall i, j :: 0 <= i < j < |s.pool| ==> s.pool[i] != s.pool[j])
    && (forall id :: id in s.pool ==> id in s.channels && s.channels[id].status == New)
  }

  /** Each connection is in use or in the pool, and only one of them. */
  ghost predicate OneHome(s: State) {
    forall id :: id in s.channels ==> (Active(s, id) <==> id !in s.pool)
  }

  /** Each descriptor in use is open and files the connection whose channel has it. */
  ghost predicate Filed(s: State) {
    forall fd :: fd in s.connections ==>
      fd in s.open && s.connections[fd] in s.channels && s.channels[s.connections[fd]].fd == fd
  }

  ghost predicate PoolOk(s: State) {
    PoolIdle(s) && OneHome(s) && Filed(s)
  }

  /** The status says whether the kernel watches the channel, and then it watches for exactly
      the channel's events; it watches nothing else. */
  ghost predicate Mirrors(s: State) {
    && (forall id :: Active(s, id) ==> (s.channels[id].status == Added <==> s.channels[id].fd in s.kernel))
    && (forall id :: Active(s, id) && s.channels[id].status == Added ==>
         s.kernel[s.channels[id].fd] == Interest(s.channels[id].events, id))
    && (forall fd :: fd in s.kernel ==> fd in s.connections)
  }

  ghost predicate Inv(s: State) {
    PoolOk(s) && Mirrors(s) && !s.fatal
  }

  /** The connection filed under a new descriptor is a new object or the last of the pool; it
      was not in use, and those in use stay as they were. */
  lemma NewlyActive(s: State, fd: int, k: Id)
    requires PoolOk(s) && Enabled(s, Create(fd, k))
    ensures var t := Created(s, fd, k);
      var id := t.connections[fd];
      && fd !in s.connections && !Active(s, id) && id == (if s.pool == [] then k else s.pool[|s.pool| - 1])
      && forall x :: Active(t, x) <==> Active(s, x) || x == id
  {
    var t := Created(s, fd, k);
    var id := t.connections[fd];
    assert fd !in s.connections;
    assert !Active(s, id);
    forall x ensures Active(t, x) <==> Active(s, x) || x == id {
    }
  }

  lemma CreateShrinksPool(s: State, fd: int, k: Id)
    requires PoolIdle(s) && Enabled(s, Create(fd, k))
    ensures var t := Created(s, fd, k);
      PoolIdle(t) && forall x :: x in t.pool <==> x in s.pool && x != t.connections[fd]
  {
    var t := Created(s, fd, k);
    if s.pool != [] {
      assert s.pool == t.pool + [t.connections[fd]];
    }
  }

  lemma CreateFiles(s: State, fd: int, k: Id)
    requires Filed(s) && Enabled(s, Create(fd, k)) && !Active(s, Created(s, fd, k).connections[fd])
    ensures Filed(Created(s, fd, k))
  {
    var t := Created(s, fd, k);
    var id := t.connections[fd];
    forall g | g in s.connections ensures s.connections[g] != id {
      assert Active(s, s.connections[g]);
    }
  }

  lemma CreateKeepsPool(s: State, fd: int, k: Id)
    requires PoolOk(s) && Enabled(s, Create(fd, k))
    ensures PoolOk(Created(s, fd, k))
  {
    NewlyActive(s, fd, k);
    CreateShrinksPool(s, fd, k);
    CreateFiles(s, fd, k);
    hide Active, Filed, PoolIdle;
  }

  lemma CreateKeeps(s: State, fd: int, k: Id)
    requires Inv(s) && Enabled(s, Create(fd, k))
    ensures Inv(Created(s, fd, k))
  {
    CreateKeepsPool(s, fd, k);
    NewlyActive(s, fd, k);
    var t := Created(s, fd, k);
    hide PoolOk;
    forall x | Active(s, x) ensures t.channels[x] == s.channels[x] {
    }
  }

  /** An update touches one channel's events and status, and the kernel's entry for its
      descriptor. */
  lemma UpdateFrame(s: State, id: Id, events: set<Flag>)
    requires Filed(s) && Active(s, id)
    ensures var t, fd := WithEvents(s, id, events), s.channels[id].fd;
      && t.connections == s.connections && t.pool == s.pool && t.open == s.open
      && t.channels.Keys == s.channels.Keys && t.channels[id].fd == fd
      && (forall x :: x in s.channels && x != id ==> t.channels[x] == s.channels[x])
      && (forall x :: Active(t, x) == Active(s, x))
      && (forall x :: Active(s, x) && x != id ==> s.channels[x].fd != fd)
      && (forall g :: g != fd ==> (g in t.kernel <==> g in s.kernel) && (g in s.kernel ==> t.kernel[g] == s.kernel[g]))
  {
  }

  lemma UpdateKeepsPool(s: State, id: Id, events: set<Flag>)
    requires PoolOk(s) && Active(s, id)
    ensures PoolOk(WithEvents(s, id, events))
  {
    UpdateFrame(s, id, events);
    assert id !in s.pool;
    hide WithEvents, Active;
  }

  lemma UpdateKeepsMirror(s: State, id: Id, events: set<Flag>)
    requires Filed(s) && Mirrors(s) && !s.fatal && Active(s, id)
    ensures Mirrors(WithEvents(s, id, events)) && !WithEvents(s, id, events).fatal
  {
    UpdateFrame(s, id, events);
    var t, fd := WithEvents(s, id, events), s.channels[id].fd;
    assert fd in s.open && fd in s.connections;
    assert !t.fatal && (t.channels[id].status == Added <==> fd in t.kernel);
    assert fd in t.kernel ==> t.kernel[fd] == Interest(t.channels[id].events, id);
    hide WithEvents, Active, Filed;
  }

  lemma UpdateKeeps(s: State, id: Id, events: set<Flag>)
    requires Inv(s) && Active(s, id)
    ensures Inv(WithEvents(s, id, events))
  {
    hide Mirrors, WithEvents, PoolIdle, OneHome;
    UpdateKeepsPool(s, id, events);
    UpdateKeepsMirror(s, id, events);
  }

  lemma RemoveKeeps(s: State, id: Id)
    requires Inv(s) && Active(s, id)
    ensures Inv(Removed(s, id))
  {
    var t := Removed(s, id);
    var fd := s.channels[id].fd;
    assert id !in s.pool;
    forall x | x in t.channels ensures Active(t, x) <==> x !in t.pool {
      if x != id {
        assert Active(s, x) ==> s.channels[x].fd != fd;
      }
    }
  }

  lemma StepKeepsInv(s: State, step: Step)
    requires Inv(s) && Enabled(s, step)
    ensures Inv(Apply(s, step))
  {
    match step
    case Create(fd, k) => CreateKeeps(s, fd, k);
    case Enable(id, events) => UpdateKeeps(s, id, s.channels[id].events + events);
    case Disable(id, events) => UpdateKeeps(s, id, s.channels[id].events - events);
    case DisableAll(id) => UpdateKeeps(s, id, {});
    case Remove(id) => RemoveKeeps(s, id);
  }

  predicate IsRun(s: State, steps: seq<Step>)
    decreases |steps|
  {
    steps == [] || (Enabled(s, steps[0]) && IsRun(Apply(s, steps[0]), steps[1..]))
  }

  function Final(s: State, steps: seq<Step>): State
    requires IsRun(s, steps)
    decreases |steps|
  {
    if steps == [] then s else Final(Apply(s, steps[0]), steps[1..])
  }

  lemma {:induction false} RunKeepsInv(s: State, steps: seq<Step>)
    requires Inv(s) && IsRun(s, steps)
    ensures Inv(Final(s, steps))
    decreases |steps|
  {
    hide Inv, Apply;
    if steps != [] {
      StepKeepsInv(s, steps[0]);
      RunKeepsInv(Apply(s, steps[0]), steps[1..]);
    }
  }

  /** Over every run from an empty poller: the kernel's set mirrors the channels in use, every
      connection is either filed under its descriptor or in the pool, and no registration
      fails. */
  lemma KernelMirrorsChannels(steps: seq<Step>)
    requires IsRun(EMPTY, steps)
    ensures var s := Final(EMPTY, steps); PoolOk(s) && Mirrors(s) && !s.fatal
  {
    RunKeepsInv(EMPTY, steps);
  }

  const EMPTY: State := State(map[], map[], [], map[], {}, false)

  /** The removal that removeChannel issues after closing the descriptor fails exactly when the
      status is Added. With no events left that takes an update that found no events and a
      status other than Added, which registers the channel again. */
  lemma ClearingTwiceRegisters(s: State, id: Id)
    requires Inv(s) && Active(s, id)
    ensures WithEvents(s, id, {}).channels[id].status == Added <==> s.channels[id].status != Added
  {
  }

  /** Enabling events adds them to those of the channel, and the kernel then watches for exactly
      these; no other connection is touched. */
  lemma EnableWatches(s: State, id: Id, events: set<Flag>)
    requires Inv(s) && Active(s, id) && events != {}
    ensures var t, fd := Apply(s, Enable(id, events)), s.channels[id].fd;
      && id in t.channels && t.channels[id] == Channel(fd, s.channels[id].events + events, Added)
      && fd in t.kernel && t.kernel[fd] == Interest(s.channels[id].events + events, id)
      && (forall x :: x in s.channels && x != id ==> x in t.channels && t.channels[x] == s.channels[x])
      && (forall g :: g != fd ==> (g in t.kernel <==> g in s.kernel) && (g in s.kernel ==> t.kernel[g] == s.kernel[g]))
  {
    UpdateFrame(s, id, s.channels[id].events + events);
    UpdateKeeps(s, id, s.channels[id].events + events);
    assert s.channels[id].events + events != {};
  }

  /** Disabling events takes them away; with none left, a channel the kernel watched is no longer
      watched. */
  lemma DisableUnwatches(s: State, id: Id, events: set<Flag>)
    requires Inv(s) && Active(s, id) && s.channels[id].status == Added
    ensures var t, fd, left := Apply(s, Disable(id, events)), s.channels[id].fd, s.channels[id].events - events;
      && id in t.channels && t.channels[id] == Channel(fd, left, if left == {} then Deleted else Added)
      && (left == {} ==> fd !in t.kernel)
      && (left != {} ==> fd in t.kernel && t.kernel[fd] == Interest(left, id))
    ensures var t, fd := Apply(s, DisableAll(id)), s.channels[id].fd;
      id in t.channels && t.channels[id] == Channel(fd, {}, Deleted) && fd !in t.kernel
  {
  }

  /** A connection that is removed gives up its descriptor, and is the next to be reused: it then
      has the new descriptor, no events and no registration. */
  lemma RemovedIsReused(s: State, id: Id, fd: int, made: Id)
    requires Inv(s) && Enabled(s, Remove(id))
    requires fd !in Apply(s, Remove(id)).open && made !in s.channels
    ensures var t, old_fd := Apply(s, Remove(id)), s.channels[id].fd;
      && old_fd !in t.open && old_fd !in t.kernel && old_fd !in t.connections && id in t.pool
      && Enabled(t, Create(fd, made))
      && var u := Apply(t, Create(fd, made));
         && Active(u, id) && u.channels[id] == Channel(fd, {}, New) && fd in u.open && fd !in u.kernel && u.pool == s.pool
         && u.channels.Keys == s.channels.Keys
  {
    var t := Apply(s, Remove(id));
    RemoveKeeps(s, id);
    assert t.pool[|t.pool| - 1] == id && t.pool[..|t.pool| - 1] == s.pool;
  }

  // ---------- The code ----------

  class Poller {
    var channels: map<Id, Channel>
    var connections: map<int, Id>
    var pool: seq<Id>
    var kernel: map<int, Interest>
    var open: set<int>
    var fatal: bool

    function View(): State
      reads this
    {
      State(channels, connections, pool, kernel, open, fatal)
    }

    constructor ()
      ensures View() == EMPTY
    {
      channels, connections, pool := map[], map[], [];
      kernel, open, fatal := map[], {}, false;
    }

    method SetStatus(id: Id, status: Status)
      requires id in channels
      modifies `channels
      ensures View() == WithStatus(old(View()), id, status)
    {
      channels := channels[id := channels[id].(status := status)];
    }

    method Ctl(operation: Operation, id: Id)
      requires id in channels
      modifies `kernel, `fatal
      ensures View() ==
        var s := old(View());
        match operation case Add => CtlAdd(s, id) case Mod => CtlMod(s, id) case Del => CtlDel(s, id)
    {
      var c := channels[id];
      if operation == Add {
        if c.fd !in open || c.fd in kernel {
          fatal := true;
        } else {
          kernel := kernel[c.fd := Interest(c.events, id)];
        }
      } else if operation == Mod {
        if c.fd !in kernel {
          fatal := true;
        } else {
          kernel := kernel[c.fd := Interest(c.events, id)];
        }
      } else {
        kernel := kernel - {c.fd};
      }
    }

    /** Epoll::updateChannel. */
    method UpdateChannel(id: Id)
      requires id in channels
      modifies this
      ensures View() == Updated(old(View()), id)
    {
      var status := channels[id].status;
      if status == New || status == Deleted {
        SetStatus(id, Added);
        Ctl(Add, id);
      } else {
        if channels[id].events == {} {
          Ctl(Del, id);
          SetStatus(id, Deleted);
        } else {
          Ctl(Mod, id);
        }
      }
    }

    /** Channel::enableEvents. */
    method EnableEvents(id: Id, events: set<Flag>)
      requires Enabled(View(), Enable(id, events))
      modifies this
      ensures View() == Apply(old(View()), Enable(id, events))
    {
      channels := channels[id := channels[id].(events := channels[id].events + events)];
      UpdateChannel(id);
    }

    /** Channel::disableEvents. */
    method DisableEvents(id: Id, events: set<Flag>)
      requires Enabled(View(), Disable(id, events))
      modifies this
      ensures View() == Apply(old(View()), Disable(id, events))
    {
      channels := channels[id := channels[id].(events := channels[id].events - events)];
      UpdateChannel(id);
    }

    /** Channel::disableAll. */
    method DisableAllEvents(id: Id)
      requires Enabled(View(), DisableAll(id))
      modifies this
      ensures View() == Apply(old(View()), DisableAll(id))
    {
      channels := channels[id := channels[id].(events := {})];
      UpdateChannel(id);
    }

    /** Epoll::removeChannel. */
    method RemoveChannel(id: Id)
      requires Enabled(View(), Remove(id))
      modifies this
      ensures View() == Apply(old(View()), Remove(id))
    {
      var fd := channels[id].fd;
      var status := channels[id].status;
      pool := pool + [id];
      connections := connections - {fd};
      open, kernel := open - {fd}, kernel - {fd};
      if status == Added {
        Ctl(Del, id);
      }
      SetStatus(id, New);
    }

    /** createConnection; `made` names the object that is made if the pool is empty. */
    method CreateConnection(fd: int, made: Id)
      requires Enabled(View(), Create(fd, made))
      modifies this
      ensures View() == Apply(old(View()), Create(fd, made))
    {
      open := open + {fd};
      if pool != [] {
        var id := pool[|pool| - 1];
        channels := channels[id := Channel(fd, {}, New)];
        connections := connections[fd := id];
        pool := pool[..|pool| - 1];
      } else {
        channels := channels[made := Channel(fd, {}, New)];
        connections := connections[fd := made];
      }
    }
  }
}
