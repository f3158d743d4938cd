/** The descriptors of open_pty, src/session.rs:533-796: master, slave and three dups of
    the slave, with an owner that changes along the way and an exit at every call that
    can fail.  The result of each system call is given in advance as `Calls`. */
module PtyDescriptors {
  datatype Fd = Master | Slave | Dup0 | Dup1 | Dup2

  datatype Event = Open(fd: Fd) | Use(fd: Fd) | Close(fd: Fd) | Spawned | Killed | Reaped

  datatype Status = Never | IsOpen | WasClosed | Broken

  /** What a log of calls makes of one descriptor; Broken is a double open, a double
      close, or a use of something not open. */
  function StatusOf(log: seq<Event>, fd: Fd): Status {
    if log == [] then Never
    else
      var before := StatusOf(log[..|log| - 1], fd);
      match log[|log| - 1]
      case Open(f) => if f != fd then before else if before == Never then IsOpen else Broken
      case Use(f) => if f != fd || before == IsOpen then before else Broken
      case Close(f) => if f != fd then before else if before == IsOpen then WasClosed else Broken
      case _ => before
  }

  function Count(log: seq<Event>, e: Event): nat {
    if log == [] then 0
    else Count(log[..|log| - 1], e) + if log[|log| - 1] == e then 1 else 0
  }

  lemma {:induction false} StatusCounts(log: seq<Event>, fd: Fd)
    ensures StatusOf(log, fd) == Never ==> Count(log, Open(fd)) == 0 && Count(log, Close(fd)) == 0
    ensures StatusOf(log, fd) == IsOpen ==> Count(log, Open(fd)) == 1 && Count(log, Close(fd)) == 0
    ensures StatusOf(log, fd) == WasClosed ==> Count(log, Open(fd)) == 1 && Count(log, Close(fd)) == 1
  {
    if log != [] { StatusCounts(log[..|log| - 1], fd); }
  }

  /** Every descriptor was opened at most once and closed exactly as often, and none was
      touched before or after. */
  ghost predicate Linear(log: seq<Event>) {
    forall fd: Fd :: StatusOf(log, fd) == Never || StatusOf(log, fd) == WasClosed
  }

  /** What linearity says about the calls themselves. */
  lemma LinearMeans(log: seq<Event>, fd: Fd, i: nat)
    requires Linear(log) && i < |log| && log[i] == Use(fd)
    ensures Count(log, Open(fd)) == 1 && Count(log, Close(fd)) == 1
    ensures Count(log[..i], Open(fd)) == 1 && Count(log[..i], Close(fd)) == 0
  {
    StatusCounts(log, fd);
    StatusCounts(log[..i], fd);
    if StatusOf(log[..i + 1], fd) == Broken { BrokenStays(log, fd, i + 1); }
    assert log[..i + 1][..i] == log[..i];
    if StatusOf(log, fd) == Never { NeverWas(log, fd, i + 1); }
  }

  lemma {:induction false} BrokenStays(log: seq<Event>, fd: Fd, n: nat)
    requires n <= |log| && StatusOf(log[..n], fd) == Broken
    ensures StatusOf(log, fd) == Broken
    decreases |log|
  {
    if n == |log| {
      assert log[..n] == log;
    } else {
      assert log[..|log| - 1][..n] == log[..n];
      BrokenStays(log[..|log| - 1], fd, n);
    }
  }

  lemma {:induction false} NeverWas(log: seq<Event>, fd: Fd, n: nat)
    requires n <= |log| && StatusOf(log, fd) == Never
    ensures StatusOf(log[..n], fd) == Never
    decreases |log|
  {
    if n == |log| {
      assert log[..n] == log;
    } else {
      assert log[..|log| - 1][..n] == log[..n];
      NeverWas(log[..|log| - 1], fd, n);
    }
  }

  ghost predicate AllOpen(log: seq<Event>) { forall fd: Fd :: StatusOf(log, fd) == IsOpen }

  /** The child was started while all five descriptors were open. */
  ghost predicate SpawnedLive(log: seq<Event>) {
    exists i :: 0 <= i < |log| && log[i] == Spawned && AllOpen(log[..i])
  }

  lemma SpawnedLiveGrows(log: seq<Event>, e: Event)
    ensures SpawnedLive(log) ==> SpawnedLive(log + [e])
    ensures e == Spawned && AllOpen(log) ==> SpawnedLive(log + [e])
  {
    var more := log + [e];
    if SpawnedLive(log) {
      var i :| 0 <= i < |log| && log[i] == Spawned && AllOpen(log[..i]);
      assert more[i] == Spawned && more[..i] == log[..i];
    }
    assert more[|log|] == e && more[..|log|] == log;
  }

  /** Nothing happened to the child in between. */
  ghost predicate SameChild(before: seq<Event>, after: seq<Event>) {
    && Count(after, Spawned) == Count(before, Spawned)
    && Count(after, Killed) == Count(before, Killed)
    && Count(after, Reaped) == Count(before, Reaped)
    && (SpawnedLive(before) ==> SpawnedLive(after))
  }

  /** The process's descriptor table as one session sees it. */
  class Kernel {
    var log: seq<Event>

    constructor ()
      ensures log == []
    {
      log := [];
    }

    ghost function Status(fd: Fd): Status
      reads this
    {
      StatusOf(log, fd)
    }

    method Do(e: Event)
      modifies this
      ensures log == old(log) + [e]
      ensures forall g :: Count(log, g) == Count(old(log), g) + if g == e then 1 else 0
      ensures SpawnedLive(old(log)) ==> SpawnedLive(log)
      ensures e == Spawned && AllOpen(old(log)) ==> SpawnedLive(log)
      ensures forall fd :: e.Open? && fd == e.fd && old(Status(fd)) == Never ==> Status(fd) == IsOpen
      ensures forall fd :: e.Use? && fd == e.fd && old(Status(fd)) == IsOpen ==> Status(fd) == IsOpen
      ensures forall fd :: e.Close? && fd == e.fd && old(Status(fd)) == IsOpen ==> Status(fd) == WasClosed
      ensures forall fd :: !(e.Open? || e.Use? || e.Close?) || fd != e.fd ==> Status(fd) == old(Status(fd))
    {
      SpawnedLiveGrows(log, e);
      log := log + [e];
      assert log[..|log| - 1] == old(log);
    }
  }

  /** Which calls succeed. */
  datatype Calls = Calls(
    openpty: bool, cloexec: bool, dup0: bool, dup1: bool, dup2: bool,
    spawn: bool, nonblocking: bool, register: bool)

  datatype Exit =
    | OpenptyFailed | CloexecFailed | DupFailed | SpawnFailed | NonblockingFailed | RegisterFailed
    | Ran

  function ExitOf(c: Calls): Exit {
    if !c.openpty then OpenptyFailed
    else if !c.cloexec then CloexecFailed
    else if !c.dup0 || !c.dup1 || !c.dup2 then DupFailed
    else if !c.spawn then SpawnFailed
    else if !c.nonblocking then NonblockingFailed
    else if !c.register then RegisterFailed
    else Ran
  }

  datatype Holder = Local | OutTask | InputTask

  /** The `Arc<AsyncFd<OwnedFd>>`: the master closes with its last holder. */
  class Shared {
    var holders: set<Holder>

    constructor ()
      ensures holders == {Local, OutTask, InputTask}
    {
      holders := {Local, OutTask, InputTask};
    }

    method Release(h: Holder, k: Kernel)
      requires h in holders && k.Status(Master) == IsOpen
      modifies this, k
      ensures holders == old(holders) - {h}
      ensures k.Status(Master) == if holders == {} then WasClosed else IsOpen
      ensures forall fd :: fd != Master ==> k.Status(fd) == old(k.Status(fd))
      ensures SameChild(old(k.log), k.log)
      ensures holders != {} ==> k.log == old(k.log)
      ensures holders == {} ==> k.log == old(k.log) + [Close(Master)]
    {
      holders := holders - {h};
      if holders == {} {
        k.Do(Close(Master));
      }
    }
  }

  ghost predicate Untouched(k: Kernel)
    reads k
  {
    forall fd: Fd :: k.Status(fd) == Never
  }

  method DupSlave(k: Kernel, fd: Fd, ok: bool)
    requires k.Status(Slave) == IsOpen && fd != Slave && k.Status(fd) == Never
    modifies k
    ensures k.Status(fd) == if ok then IsOpen else Never
    ensures forall g :: g != fd ==> k.Status(g) == old(k.Status(g))
    ensures Count(k.log, Use(Slave)) == old(Count(k.log, Use(Slave))) + 1
    ensures SameChild(old(k.log), k.log)
  {
    k.Do(Use(Slave));
    if ok {
      k.Do(Open(fd));
    }
  }

  method CloseIf(k: Kernel, fd: Fd, open: bool)
    requires open ==> k.Status(fd) == IsOpen
    modifies k
    ensures k.Status(fd) == if open then WasClosed else old(k.Status(fd))
    ensures forall g :: g != fd ==> k.Status(g) == old(k.Status(g))
    ensures Count(k.log, Use(Slave)) == old(Count(k.log, Use(Slave)))
    ensures SameChild(old(k.log), k.log)
  {
    if open {
      k.Do(Close(fd));
    }
  }

  /** Kill the child's group and reap it, bounded. */
  method Abandon(k: Kernel)
    modifies k
    ensures k.log == old(k.log) + [Killed, Reaped]
    ensures forall fd :: k.Status(fd) == old(k.Status(fd))
    ensures Count(k.log, Spawned) == old(Count(k.log, Spawned))
    ensures Count(k.log, Killed) == old(Count(k.log, Killed)) + 1
    ensures Count(k.log, Reaped) == old(Count(k.log, Reaped)) + 1
    ensures old(SpawnedLive(k.log)) ==> SpawnedLive(k.log)
  {
    k.Do(Killed);
    k.Do(Reaped);
    assert old(k.log) + [Killed] + [Reaped] == old(k.log) + [Killed, Reaped];
  }

  predicate Settled(st: Status) { st == Never || st == WasClosed }

  lemma AllSettled(k: Kernel)
    requires Settled(k.Status(Master)) && Settled(k.Status(Slave))
    requires Settled(k.Status(Dup0)) && Settled(k.Status(Dup1)) && Settled(k.Status(Dup2))
    ensures Linear(k.log)
  {
    forall fd: Fd
      ensures Settled(StatusOf(k.log, fd))
    {
      match fd { case Master => case Slave => case Dup0 => case Dup1 => case Dup2 => }
    }
  }

  method OpenPair(k: Kernel)
    requires Untouched(k)
    modifies k
    ensures k.Status(Master) == IsOpen && k.Status(Slave) == IsOpen
    ensures k.Status(Dup0) == Never && k.Status(Dup1) == Never && k.Status(Dup2) == Never
    ensures SameChild(old(k.log), k.log)
  {
    k.Do(Open(Master));
    k.Do(Open(Slave));
    k.Do(Use(Master));   // set_winsize
    k.Do(Use(Master));   // set_cloexec
  }

  method ClosePair(k: Kernel)
    requires k.Status(Master) == IsOpen && k.Status(Slave) == IsOpen
    modifies k
    ensures k.Status(Master) == WasClosed && k.Status(Slave) == WasClosed
    ensures forall g :: g != Master && g != Slave ==> k.Status(g) == old(k.Status(g))
    ensures SameChild(old(k.log), k.log)
  {
    k.Do(Close(Master));
    k.Do(Close(Slave));
  }

  /** All three dups are attempted, whichever fail; if one does, exactly those that
      succeeded are closed. */
  method DupThree(k: Kernel, c: Calls) returns (ok: bool)
    requires k.Status(Slave) == IsOpen && k.Status(Master) == IsOpen
    requires k.Status(Dup0) == Never && k.Status(Dup1) == Never && k.Status(Dup2) == Never
    modifies k
    ensures ok <==> c.dup0 && c.dup1 && c.dup2
    ensures k.Status(Slave) == IsOpen && k.Status(Master) == IsOpen
    ensures ok ==> k.Status(Dup0) == IsOpen && k.Status(Dup1) == IsOpen && k.Status(Dup2) == IsOpen
    ensures Count(k.log, Use(Slave)) == old(Count(k.log, Use(Slave))) + 3
    ensures !ok ==> k.Status(Dup0) == if c.dup0 then WasClosed else Never
    ensures !ok ==> k.Status(Dup1) == if c.dup1 then WasClosed else Never
    ensures !ok ==> k.Status(Dup2) == if c.dup2 then WasClosed else Never
    ensures SameChild(old(k.log), k.log)
  {
    DupSlave(k, Dup0, c.dup0);
    DupSlave(k, Dup1, c.dup1);
    DupSlave(k, Dup2, c.dup2);
    ok := c.dup0 && c.dup1 && c.dup2;
    if !ok {
      CloseIf(k, Dup0, c.dup0);
      CloseIf(k, Dup1, c.dup1);
      CloseIf(k, Dup2, c.dup2);
    }
  }

  ghost predicate Childless(log: seq<Event>) {
    Count(log, Spawned) == 0 && Count(log, Killed) == 0 && Count(log, Reaped) == 0
  }

  /** One child, started with its descriptors open, and not killed. */
  ghost predicate OneChild(log: seq<Event>) {
    Count(log, Spawned) == 1 && Count(log, Killed) == 0 && Count(log, Reaped) == 0 && SpawnedLive(log)
  }

  /** The failure exits before the child exists, and the spawn. */
  method OpenAndSpawn(k: Kernel, c: Calls) returns (spawned: bool)
    requires Untouched(k) && k.log == []
    modifies k
    ensures spawned <==> c.openpty && c.cloexec && c.dup0 && c.dup1 && c.dup2 && c.spawn
    ensures !spawned ==> Linear(k.log) && Childless(k.log)
    ensures spawned ==> OneChild(k.log)
    ensures spawned ==> k.Status(Master) == IsOpen && forall fd :: fd != Master ==> k.Status(fd) == WasClosed
  {
    if !c.openpty {
      AllSettled(k);
      return false;
    }
    OpenPair(k);
    if !c.cloexec {
      ClosePair(k);
      AllSettled(k);
      return false;
    }
    var dups := DupThree(k, c);
    if !dups {
      ClosePair(k);
      AllSettled(k);
      return false;
    }
    spawned := SpawnChild(k, c.spawn);
  }

  /** The dups belong to the Command here; a failed spawn drops it on return. */
  method SpawnChild(k: Kernel, ok: bool) returns (spawned: bool)
    requires k.Status(Master) == IsOpen && k.Status(Slave) == IsOpen
    requires k.Status(Dup0) == IsOpen && k.Status(Dup1) == IsOpen && k.Status(Dup2) == IsOpen
    requires Childless(k.log)
    modifies k
    ensures spawned == ok
    ensures !ok ==> Linear(k.log) && Childless(k.log)
    ensures ok ==> OneChild(k.log)
    ensures ok ==> k.Status(Master) == IsOpen && forall fd :: fd != Master ==> k.Status(fd) == WasClosed
  {
    k.Do(Use(Slave));    // TIOCSCTTY in the forked child
    forall fd: Fd
      ensures k.Status(fd) == IsOpen
    {
      match fd { case Master => case Slave => case Dup0 => case Dup1 => case Dup2 => }
    }
    if !ok {
      ClosePair(k);
      DropCommand(k);
      AllSettled(k);
      return false;
    }
    k.Do(Spawned);
    DropCommand(k);
    k.Do(Close(Slave));
    return true;
  }

  method DropCommand(k: Kernel)
    requires k.Status(Dup0) == IsOpen && k.Status(Dup1) == IsOpen && k.Status(Dup2) == IsOpen
    modifies k
    ensures k.Status(Dup0) == WasClosed && k.Status(Dup1) == WasClosed && k.Status(Dup2) == WasClosed
    ensures k.Status(Master) == old(k.Status(Master)) && k.Status(Slave) == old(k.Status(Slave))
    ensures SameChild(old(k.log), k.log)
  {
    k.Do(Close(Dup0));
    k.Do(Close(Dup1));
    k.Do(Close(Dup2));
  }

  /** What a task does next with its share of the master: use it, or end and drop it. */
  datatype Act = Touch(h: Holder) | Finish(h: Holder)

  /** The output and the input task, in any interleaving, each until it ends; open_pty
      keeps its own share.  A task that has ended does nothing more. */
  method RunTasks(k: Kernel, am: Shared, acts: seq<Act>)
    requires k.Status(Master) == IsOpen && am.holders == {Local, OutTask, InputTask}
    modifies k, am
    ensures k.Status(Master) == IsOpen && Local in am.holders
    ensures OutTask in am.holders <==> Finish(OutTask) !in acts
    ensures forall fd :: k.Status(fd) == old(k.Status(fd))
    ensures SameChild(old(k.log), k.log)
  {
    for i := 0 to |acts|
      invariant Local in am.holders && (OutTask in am.holders <==> Finish(OutTask) !in acts[..i])
      invariant forall fd :: k.Status(fd) == old(k.Status(fd))
      invariant SameChild(old(k.log), k.log)
    {
      assert acts[..i + 1] == acts[..i] + [acts[i]];
      match acts[i] {
        case Touch(h) =>
          if h in am.holders {
            k.Do(Use(Master));
          }
        case Finish(h) =>
          if h != Local && h in am.holders {
            am.Release(h, k);
          }
      }
    }
    assert acts[..|acts|] == acts;
  }

  /** On return open_pty drops the input task, if it has not ended, and its own share. */
  method LeaveFrame(k: Kernel, am: Shared)
    requires k.Status(Master) == IsOpen && Local in am.holders
    modifies k, am
    ensures am.holders == if OutTask in old(am.holders) then {OutTask} else {}
    ensures k.Status(Master) == if OutTask in old(am.holders) then IsOpen else WasClosed
    ensures forall fd :: fd != Master ==> k.Status(fd) == old(k.Status(fd))
    ensures SameChild(old(k.log), k.log)
  {
    if InputTask in am.holders {
      am.Release(InputTask, k);
    }
    am.Release(Local, k);
    forall h: Holder
      ensures h in am.holders <==> h == OutTask && OutTask in old(am.holders)
    {
      match h { case Local => case OutTask => case InputTask => }
    }
  }

  /** From the registered master to the return. */
  method Serve(k: Kernel, acts: seq<Act>) returns (rest: Shared?)
    requires k.Status(Master) == IsOpen && forall fd :: fd != Master ==> k.Status(fd) == WasClosed
    modifies k
    ensures rest == null ==> Linear(k.log)
    ensures rest != null <==> Finish(OutTask) !in acts
    ensures rest != null ==>
              && fresh(rest) && rest.holders == {OutTask}
              && k.Status(Master) == IsOpen && forall fd :: fd != Master ==> k.Status(fd) == WasClosed
    ensures SameChild(old(k.log), k.log)
  {
    hide Count, SpawnedLive;
    rest := null;
    var am := new Shared();
    RunTasks(k, am, acts);
    LeaveFrame(k, am);
    if OutTask in am.holders {
      rest := am;
    } else {
      AllSettled(k);
    }
  }

  /** set_nonblocking or the registration fails: the shell must not run on. */
  method GiveUp(k: Kernel, registering: bool)
    requires k.Status(Master) == IsOpen && forall fd :: fd != Master ==> k.Status(fd) == WasClosed
    requires OneChild(k.log)
    modifies k
    ensures Linear(k.log)
    ensures Count(k.log, Spawned) == 1 && Count(k.log, Killed) == 1 && Count(k.log, Reaped) == 1 && SpawnedLive(k.log)
    ensures k.log == old(k.log) + if registering then [Close(Master), Killed, Reaped] else [Killed, Reaped, Close(Master)]
  {
    hide Count, SpawnedLive;
    if registering {
      k.Do(Close(Master));   // the moved OwnedFd is dropped by the failed call
      Abandon(k);
      assert old(k.log) + [Close(Master)] + [Killed, Reaped] == old(k.log) + [Close(Master), Killed, Reaped];
    } else {
      Abandon(k);
      k.Do(Close(Master));
      assert old(k.log) + [Killed, Reaped] + [Close(Master)] == old(k.log) + [Killed, Reaped, Close(Master)];
    }
    AllSettled(k);
  }

  /** open_pty from end to end.  `acts` is what its two tasks do; an output task that has
      not ended by then is aborted, and the runtime drops it afterwards.
      On every path every descriptor is opened at most once, closed exactly as often and
      never used outside; a child is started only with all five open, at most once; one
      that runs is not killed here, and one spawned but not run is killed and reaped. */
  method OpenPty(k: Kernel, c: Calls, acts: seq<Act>) returns (e: Exit, rest: Shared?)
    requires Untouched(k) && k.log == []
    modifies k
    ensures e == ExitOf(c)
    ensures rest == null ==> Linear(k.log)
    ensures rest != null <==> e == Ran && Finish(OutTask) !in acts
    ensures rest != null ==>
              && fresh(rest) && rest.holders == {OutTask}
              && k.Status(Master) == IsOpen && forall fd :: fd != Master ==> k.Status(fd) == WasClosed
    ensures e == Ran ==> OneChild(k.log)
    ensures e == NonblockingFailed || e == RegisterFailed ==>
              Count(k.log, Spawned) == 1 && Count(k.log, Killed) == 1 && Count(k.log, Reaped) == 1 && SpawnedLive(k.log)
    ensures e.OpenptyFailed? || e.CloexecFailed? || e.DupFailed? || e.SpawnFailed? ==> Childless(k.log)
    ensures e == NonblockingFailed ==> |k.log| >= 3 && k.log[|k.log| - 3..] == [Killed, Reaped, Close(Master)]
    ensures e == RegisterFailed ==> |k.log| >= 3 && k.log[|k.log| - 2..] == [Killed, Reaped]
  {
    hide Count, SpawnedLive, StatusOf;
    rest := null;
    var spawned := OpenAndSpawn(k, c);
    e := ExitOf(c);
    if !spawned {
      return;
    }
    k.Do(Use(Master));   // set_nonblocking
    if !c.nonblocking {
      GiveUp(k, false);
      return;
    }
    k.Do(Use(Master));   // AsyncFd::new takes the OwnedFd
    if !c.register {
      GiveUp(k, true);
      return;
    }
    rest := Serve(k, acts);
  }

  /** The runtime drops the aborted output task: the open set is what it was before. */
  method DropOutTask(k: Kernel, rest: Shared)
    requires rest.holders == {OutTask} && k.Status(Master) == IsOpen
    requires forall fd :: fd != Master ==> k.Status(fd) == WasClosed
    modifies k, rest
    ensures Linear(k.log)
  {
    rest.Release(OutTask, k);
    AllSettled(k);
  }
}
