/** The one-shot, multi-waiter `Cancel` of src/session.rs:67-94, at the grain of its
    atomic operations.  Any number of waiters and firers interleave freely.  The model of
    `Notify` is the weaker one the source relies on: `notify_waiters` wakes exactly the
    waiters armed at that moment. */
module Cancel {
  datatype Waiter =
    | Load                        // about to load `fired`
    | Arm                         // saw false; about to create and enable the Notified
    | Recheck(notified: bool)     // armed; about to load `fired` again
    | Await(notified: bool)       // parked in n.await unless notified
    | Returned

  datatype Firer = Store | Notify | Finished

  datatype System = System(fired: bool, waiters: seq<Waiter>, firers: seq<Firer>)

  datatype Act = Wait(i: nat) | Fire(j: nat)

  predicate Enabled(s: System, a: Act) {
    match a
    case Wait(i) => i < |s.waiters| && !s.waiters[i].Returned? && s.waiters[i] != Await(false)
    case Fire(j) => j < |s.firers| && !s.firers[j].Finished?
  }

  function WaiterStep(fired: bool, w: Waiter): Waiter {
    match w
    case Load => if fired then Returned else Arm
    case Arm => Recheck(false)
    case Recheck(n) => if fired then Returned else Await(n)
    case Await(n) => if n then Load else w
    case Returned => w
  }

  function Wake(w: Waiter): Waiter {
    match w
    case Recheck(_) => Recheck(true)
    case Await(_) => Await(true)
    case _ => w
  }

  function WakeAll(ws: seq<Waiter>): (r: seq<Waiter>)
    ensures |r| == |ws| && forall i :: 0 <= i < |ws| ==> r[i] == Wake(ws[i])
  {
    seq(|ws|, i requires 0 <= i < |ws| => Wake(ws[i]))
  }

  function Apply(s: System, a: Act): System
    requires Enabled(s, a)
  {
    match a
    case Wait(i) => s.(waiters := s.waiters[i := WaiterStep(s.fired, s.waiters[i])])
    case Fire(j) =>
      if s.firers[j].Store? then s.(fired := true, firers := s.firers[j := Notify])
      else s.(waiters := WakeAll(s.waiters), firers := s.firers[j := Finished])
  }

  predicate Legal(s: System, acts: seq<Act>)
    decreases |acts|
  {
    acts == [] || (Enabled(s, acts[0]) && Legal(Apply(s, acts[0]), acts[1..]))
  }

  function After(s: System, acts: seq<Act>): System
    requires Legal(s, acts)
    decreases |acts|
  {
    if acts == [] then s else After(Apply(s, acts[0]), acts[1..])
  }

  /** Nobody has done anything yet. */
  predicate Initial(s: System) {
    && !s.fired
    && (forall i :: 0 <= i < |s.waiters| ==> s.waiters[i] == Load)
    && (forall j :: 0 <= j < |s.firers| ==> s.firers[j] == Store)
  }

  predicate SomeFinished(s: System) { exists j :: 0 <= j < |s.firers| && s.firers[j].Finished? }

  predicate SomeBegun(s: System) { exists j :: 0 <= j < |s.firers| && !s.firers[j].Store? }

  ghost predicate Inv(s: System) {
    && (s.fired <==> SomeBegun(s))
    && (forall i :: 0 <= i < |s.waiters| && s.waiters[i].Returned? ==> s.fired)
    && (forall i :: 0 <= i < |s.waiters| && s.waiters[i] == Await(false) ==> !SomeFinished(s))
  }

  lemma InvStep(s: System, a: Act)
    requires Inv(s) && Enabled(s, a)
    ensures Inv(Apply(s, a))
  {
    var t := Apply(s, a);
    match a {
      case Wait(i) =>
        assert t.firers == s.firers;
      case Fire(j) =>
        assert !t.firers[j].Store?;
        assert forall i :: 0 <= i < |t.waiters| && t.waiters[i].Returned? ==> s.waiters[i].Returned?;
        if s.firers[j].Store? {
          if SomeFinished(t) {
            var k :| 0 <= k < |t.firers| && t.firers[k].Finished?;
            assert s.firers[k].Finished?;
          }
        }
    }
  }

  lemma {:induction false} InvRun(s: System, acts: seq<Act>)
    requires Inv(s) && Legal(s, acts)
    ensures Inv(After(s, acts))
    decreases |acts|
  {
    if acts != [] {
      InvStep(s, acts[0]);
      InvRun(Apply(s, acts[0]), acts[1..]);
    }
  }

  /** No lost wakeup: in no reachable state has some `fire` completed while a waiter is
      parked and not notified; and `wait` has returned only if some `fire` has begun. */
  lemma NoLostWakeup(s: System, acts: seq<Act>)
    requires Initial(s) && Legal(s, acts)
    ensures var t := After(s, acts);
            && (SomeFinished(t) ==> forall i :: 0 <= i < |t.waiters| ==> t.waiters[i] != Await(false))
            && (forall i :: 0 <= i < |t.waiters| && t.waiters[i].Returned? ==> SomeBegun(t))
  {
    InvRun(s, acts);
  }

  /** A notification reaches every armed waiter, parked or not. */
  lemma NotifyReachesArmed(s: System, j: nat, i: nat)
    requires Enabled(s, Fire(j)) && s.firers[j].Notify? && i < |s.waiters|
    ensures var w := Apply(s, Fire(j)).waiters[i];
            (s.waiters[i].Recheck? ==> w == Recheck(true)) && (s.waiters[i].Await? ==> w == Await(true))
  {
  }

  /** The waiter's own steps still needed once the flag is up. */
  function ToGo(w: Waiter): nat {
    match w
    case Returned => 0
    case Load => 1
    case Recheck(_) => 1
    case Arm => 2
    case Await(_) => 2
  }

  function OwnSteps(i: nat, acts: seq<Act>): nat {
    if acts == [] then 0 else (if acts[0] == Wait(i) then 1 else 0) + OwnSteps(i, acts[1..])
  }

  lemma {:induction false} WaiterProgress(s: System, i: nat, acts: seq<Act>)
    requires s.fired && i < |s.waiters| && Legal(s, acts)
    ensures var t := After(s, acts);
            |t.waiters| == |s.waiters| && ToGo(t.waiters[i]) + OwnSteps(i, acts) <= ToGo(s.waiters[i])
    decreases |acts|
  {
    if acts != [] {
      WaiterProgress(Apply(s, acts[0]), i, acts[1..]);
    }
  }

  /** After a completed `fire`, every waiter, present or future, can always take its next
      step and has returned after at most two of its own, whatever the others do. */
  lemma FireReleasesAll(s: System, acts: seq<Act>, more: seq<Act>, i: nat)
    requires Initial(s) && Legal(s, acts) && Legal(After(s, acts), more)
    requires SomeFinished(After(s, acts)) && i < |After(s, acts).waiters|
    ensures var t := After(After(s, acts), more);
            && |t.waiters| == |After(s, acts).waiters|
            && (t.waiters[i].Returned? || Enabled(t, Wait(i)))
            && OwnSteps(i, more) <= 2 && (OwnSteps(i, more) == 2 ==> t.waiters[i].Returned?)
  {
    var mid := After(s, acts);
    InvRun(s, acts);
    WaiterProgress(mid, i, more);
    InvRun(mid, more);
    FinishedStays(mid, more);
  }

  lemma {:induction false} FinishedStays(s: System, acts: seq<Act>)
    requires SomeFinished(s) && Legal(s, acts)
    ensures SomeFinished(After(s, acts))
    decreases |acts|
  {
    if acts != [] {
      var j :| 0 <= j < |s.firers| && s.firers[j].Finished?;
      assert Apply(s, acts[0]).firers[j].Finished?;
      FinishedStays(Apply(s, acts[0]), acts[1..]);
    }
  }
}
