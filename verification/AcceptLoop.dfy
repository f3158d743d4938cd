/** The accept loop of src/main.rs:116-188 with the sessions it has spawned: a counting
    semaphore, one permit per session, and the sessions' own steps in between. */
module AcceptLoop {
  import opened Wrappers
  import S = Session
  import Safety = SessionSafety
  import Time = SessionTime
  import Progress = SessionProgress

  /** `holding` is the permit acquired before accept(). */
  datatype Agent = Agent(available: nat, holding: bool, live: map<nat, S.State>)

  datatype Act =
    | Acquire
    | AcceptFails
    | Accepts(id: nat)
    | Works(id: nat, step: S.Step)   // one session's task, or its environment
    | Ends(id: nat)                  // the session task exits, dropping its permit
    | Clock

  /** As inside a session, time passes only when nothing can run: no session task, and
      no session that has returned but still holds its permit. */
  ghost predicate Enabled(a: Agent, act: Act) {
    match act
    case Acquire => !a.holding && a.available > 0
    case AcceptFails => a.holding
    case Accepts(id) => a.holding && id !in a.live
    case Works(id, step) => id in a.live && !step.Tick? && S.Enabled(a.live[id], step)
    case Ends(id) => id in a.live && a.live[id].main.Returned?
    case Clock => forall id :: id in a.live ==> S.Parked(a.live[id]) && !a.live[id].main.Returned?
  }

  ghost function Apply(cfg: S.Config, a: Agent, act: Act): Agent
    requires Enabled(a, act)
  {
    match act
    case Acquire => a.(available := a.available - 1, holding := true)
    case AcceptFails => a.(available := a.available + 1, holding := false)
    case Accepts(id) => a.(holding := false, live := a.live[id := S.Init(cfg)])
    case Works(id, step) => a.(live := a.live[id := S.Apply(cfg, a.live[id], step)])
    case Ends(id) => a.(available := a.available + 1, live := a.live - {id})
    case Clock => a.(live := map id | id in a.live :: S.Apply(cfg, a.live[id], S.Tick))
  }

  ghost predicate Legal(cfg: S.Config, a: Agent, acts: seq<Act>)
    decreases |acts|
  {
    acts == [] || (Enabled(a, acts[0]) && Legal(cfg, Apply(cfg, a, acts[0]), acts[1..]))
  }

  ghost function After(cfg: S.Config, a: Agent, acts: seq<Act>): Agent
    requires Legal(cfg, a, acts)
    decreases |acts|
  {
    if acts == [] then a else After(cfg, Apply(cfg, a, acts[0]), acts[1..])
  }

  function Start(maxSessions: nat): Agent { Agent(maxSessions, false, map[]) }

  /** Every permit is in exactly one place. */
  function Permits(a: Agent): nat { a.available + (if a.holding then 1 else 0) + |a.live| }

  lemma KeySize<V>(m: map<nat, V>)
    ensures |m| == |m.Keys|
  {
  }

  lemma PutSize<V>(m: map<nat, V>, id: nat, v: V)
    ensures |m[id := v]| == |m| + if id in m then 0 else 1
  {
    assert m[id := v].Keys == m.Keys + {id};
    KeySize(m);
    KeySize(m[id := v]);
  }

  lemma DropSize<V>(m: map<nat, V>, id: nat)
    requires id in m
    ensures |m - {id}| == |m| - 1
  {
    assert (m - {id}).Keys == m.Keys - {id};
    KeySize(m);
    KeySize(m - {id});
  }

  lemma SameSize<V>(m: map<nat, V>, n: map<nat, V>)
    requires m.Keys == n.Keys
    ensures |m| == |n|
  {
    KeySize(m);
    KeySize(n);
  }

  lemma LiveSize(cfg: S.Config, a: Agent, act: Act)
    requires Enabled(a, act)
    ensures |Apply(cfg, a, act).live| ==
            |a.live| + (if act.Accepts? then 1 else 0) - if act.Ends? then 1 else 0
  {
    hide S.Apply, S.Parked, S.Enabled, S.Init;
    if act.Works? {
      PutSize(a.live, act.id, S.Apply(cfg, a.live[act.id], act.step));
    } else if act.Accepts? {
      PutSize(a.live, act.id, S.Init(cfg));
    } else if act.Ends? {
      DropSize(a.live, act.id);
    } else if act.Clock? {
      SameSize(a.live, Apply(cfg, a, act).live);
    }
  }

  lemma PermitsStep(cfg: S.Config, a: Agent, act: Act)
    requires Enabled(a, act)
    ensures Permits(Apply(cfg, a, act)) == Permits(a)
  {
    hide S.Apply, S.Parked, S.Enabled, S.Init;
    LiveSize(cfg, a, act);
  }

  /** Permit conservation, over every run, failed accepts included; so the number of live
      sessions never exceeds the cap. */
  lemma {:induction false} PermitsConserved(cfg: S.Config, a: Agent, acts: seq<Act>)
    requires Legal(cfg, a, acts)
    ensures Permits(After(cfg, a, acts)) == Permits(a) && |After(cfg, a, acts).live| <= Permits(a)
    decreases |acts|
  {
    hide Enabled, Apply;
    if acts != [] {
      PermitsStep(cfg, a, acts[0]);
      PermitsConserved(cfg, Apply(cfg, a, acts[0]), acts[1..]);
    }
  }

  // ------------------------------------------------------------ the slots come back

  /** How old a session may be; None when nothing but its peer or child ends it. */
  function AgeLimit(cfg: S.Config, s: S.State): Option<nat> {
    if s.main.AwaitRequest? then Some(cfg.idle)
    else if s.verb == S.NoVerb then Some(Time.NoVerbLimit(cfg))
    else if s.verb == S.ExecVerb && s.limit.Some? then Some(Time.ExecLimit(cfg, s.limit.value))
    else None
  }

  ghost predicate Young(cfg: S.Config, s: S.State) {
    && Time.TimedInv(cfg, s) && Time.OnSchedule(cfg, s)
    && (AgeLimit(cfg, s).Some? ==> s.now <= AgeLimit(cfg, s).value)
  }

  lemma YoungAtStart(cfg: S.Config)
    ensures Young(cfg, S.Init(cfg))
  {
    Safety.InitInv(cfg);
  }

  lemma YoungWhileRunning(cfg: S.Config, s: S.State)
    requires Time.TimedInv(cfg, s) && Time.OnSchedule(cfg, s) && !s.main.Returned?
    ensures Young(cfg, s)
  {
    hide Safety.Inv, Time.Budget;
  }

  lemma YoungStep(cfg: S.Config, s: S.State, step: S.Step)
    requires Young(cfg, s) && S.Enabled(s, step) && (step.Tick? ==> !s.main.Returned?)
    ensures Young(cfg, S.Apply(cfg, s, step))
  {
    hide Safety.Inv, Time.TimersInv, Time.OnSchedule;
    Time.TimedStep(cfg, s, step);
    Time.ScheduleStep(cfg, s, step);
    var t := S.Apply(cfg, s, step);
    if !t.main.Returned? {
      YoungWhileRunning(cfg, t);
    } else {
      ReturnKeepsAge(cfg, s, step);
      hide Young;
      StillYoung(cfg, s, t);
    }
  }

  /** Returning takes no time and settles nothing new. */
  lemma ReturnKeepsAge(cfg: S.Config, s: S.State, step: S.Step)
    requires S.Enabled(s, step) && S.Apply(cfg, s, step).main.Returned? && (step.Tick? ==> !s.main.Returned?)
    ensures var t := S.Apply(cfg, s, step);
            && t.now == s.now && t.verb == s.verb && t.limit == s.limit && !s.main.AwaitRequest?
  {
    hide S.EnvReady, S.WriterReady, S.InputReady, S.ExitFields;
  }

  lemma StillYoung(cfg: S.Config, s: S.State, t: S.State)
    requires Young(cfg, s) && Time.TimedInv(cfg, t) && Time.OnSchedule(cfg, t)
    requires t.now == s.now && t.verb == s.verb && t.limit == s.limit
    requires !s.main.AwaitRequest? && !t.main.AwaitRequest?
    ensures Young(cfg, t)
  {
    hide Safety.Inv, Time.TimersInv, Time.OnSchedule;
  }

  ghost predicate AllYoung(cfg: S.Config, a: Agent) {
    forall id :: id in a.live ==> Young(cfg, a.live[id])
  }

  lemma AllYoungStep(cfg: S.Config, a: Agent, act: Act)
    requires AllYoung(cfg, a) && Enabled(a, act)
    ensures AllYoung(cfg, Apply(cfg, a, act))
  {
    hide Young, S.Apply, S.Ready, S.Parked;
    match act {
      case Accepts(_) => YoungAtStart(cfg);
      case Works(id, step) => YoungStep(cfg, a.live[id], step);
      case Clock =>
        forall id | id in a.live
          ensures Young(cfg, S.Apply(cfg, a.live[id], S.Tick))
        {
          YoungStep(cfg, a.live[id], S.Tick);
        }
      case _ =>
    }
  }

  lemma {:induction false} AllYoungRun(cfg: S.Config, a: Agent, acts: seq<Act>)
    requires AllYoung(cfg, a) && Legal(cfg, a, acts)
    ensures AllYoung(cfg, After(cfg, a, acts))
    decreases |acts|
  {
    hide Enabled, Apply, AllYoung;
    if acts != [] {
      AllYoungStep(cfg, a, acts[0]);
      AllYoungRun(cfg, Apply(cfg, a, acts[0]), acts[1..]);
    }
  }

  /** Main result: a slot is never lost to a session that awaits its request, runs no
      verb, or runs exec under a deadline: in every reachable state each such session
      that still holds a permit is younger than its limit. */
  lemma SlotsComeBack(cfg: S.Config, maxSessions: nat, acts: seq<Act>, id: nat)
    requires Legal(cfg, Start(maxSessions), acts)
    requires id in After(cfg, Start(maxSessions), acts).live
    ensures var s := After(cfg, Start(maxSessions), acts).live[id];
            AgeLimit(cfg, s).Some? ==> s.now <= AgeLimit(cfg, s).value
  {
    hide Legal, After;
    AllYoungRun(cfg, Start(maxSessions), acts);
  }

  // ------------------------------------------------------------ and they do come back

  /** A session that has returned can end whatever the others do; its permit is then free,
      for the next accept if the acceptor is waiting for one. */
  lemma ReturnFreesPermit(cfg: S.Config, a: Agent, id: nat)
    requires id in a.live && a.live[id].main.Returned?
    ensures Enabled(a, Ends(id))
    ensures var b := Apply(cfg, a, Ends(id));
            && b.available == a.available + 1 && b.live == a.live - {id} && b.holding == a.holding
            && (!b.holding ==> Enabled(b, Acquire))
  {
  }

  /** A failed accept costs nothing: the permit is back, every session goes on, and the
      next accept can be waited for at once. */
  lemma FailedAcceptIsHarmless(cfg: S.Config, a: Agent)
    requires a.holding
    ensures Enabled(a, AcceptFails)
    ensures var b := Apply(cfg, a, AcceptFails);
            b.available == a.available + 1 && b.live == a.live && Enabled(b, Acquire)
  {
  }

  ghost function Pick<V>(m: map<nat, V>): (k: nat)
    requires m != map[]
    ensures k in m
  {
    var k :| k in m.Keys;
    k
  }

  /** All the work the live sessions have in hand, and one for each that has to end. */
  ghost function Total(m: map<nat, S.State>): nat
    decreases |m|
  {
    if m == map[] then 0
    else
      var k := Pick(m);
      DropSize(m, k);
      Progress.Work(m[k]) + 1 + Total(m - {k})
  }

  lemma {:induction false} TotalAt(m: map<nat, S.State>, k: nat)
    requires k in m
    ensures Total(m) == Progress.Work(m[k]) + 1 + Total(m - {k})
    decreases |m|
  {
    hide Progress.Work;
    var j := Pick(m);
    if j != k {
      DropSize(m, j);
      DropSize(m, k);
      TotalAt(m - {j}, k);
      TotalAt(m - {k}, j);
      assert m - {j} - {k} == m - {k} - {j};
    }
  }

  lemma TotalPut(m: map<nat, S.State>, k: nat, t: S.State)
    requires k in m
    ensures Total(m[k := t]) + Progress.Work(m[k]) == Total(m) + Progress.Work(t)
  {
    hide Progress.Work, Total;
    TotalAt(m, k);
    TotalAt(m[k := t], k);
    assert m[k := t] - {k} == m - {k};
  }

  lemma {:induction false} TotalSame(m: map<nat, S.State>, n: map<nat, S.State>)
    requires m.Keys == n.Keys
    requires forall k :: k in m ==> Progress.Work(n[k]) == Progress.Work(m[k])
    ensures Total(n) == Total(m)
    decreases |m|
  {
    hide Progress.Work;
    if m == map[] {
      assert n == map[];
    } else {
      var k := Pick(m);
      DropSize(m, k);
      TotalAt(n, k);
      TotalSame(m - {k}, n - {k});
    }
  }

  /** What the sessions and the clock do by themselves: no accept and no step of a peer, a
      child or a transport. */
  predicate Unaided(acts: seq<Act>) {
    forall i :: 0 <= i < |acts| ==>
      acts[i].Ends? || acts[i].Clock? || (acts[i].Works? && S.IsTask(acts[i].step))
  }

  /** Something can always happen unaided: a session ends, a task runs, or time passes. */
  lemma NextAct(a: Agent) returns (act: Act)
    ensures Enabled(a, act) && Unaided([act])
    ensures act.Clock? ==> forall id :: id in a.live ==> !a.live[id].main.Returned?
  {
    hide S.Ready;
    if Enabled(a, Clock) {
      act := Clock;
    } else {
      var k :| k in a.live && (!S.Parked(a.live[k]) || a.live[k].main.Returned?);
      if a.live[k].main.Returned? {
        act := Ends(k);
      } else {
        var step: S.Step :| S.IsTask(step) && S.Ready(a.live[k], step);
        act := Works(k, step);
      }
    }
  }

  /** An unaided act uses up some of the watched session's time or some work. */
  lemma ActSpends(cfg: S.Config, a: Agent, id: nat, act: Act)
    requires AllYoung(cfg, a) && id in a.live && Time.Bounded(a.live[id]) && !a.live[id].main.Returned?
    requires Enabled(a, act) && Unaided([act])
    ensures var b := Apply(cfg, a, act);
            && id in b.live && Time.Bounded(b.live[id]) && b.available >= a.available
            && Time.Budget(cfg, b.live[id]) <= Time.Budget(cfg, a.live[id])
            && (act.Clock? ==> Time.Budget(cfg, b.live[id]) < Time.Budget(cfg, a.live[id]))
            && (!act.Clock? ==> Total(b.live) < Total(a.live))
  {
    hide S.Apply, S.Ready, S.Parked, Time.Bounded, Time.Budget, Progress.Work, Total, Safety.Inv, Time.TimersInv, Time.OnSchedule;
    assert act == [act][0];
    match act {
      case Ends(k) =>
        TotalAt(a.live, k);
      case Works(k, step) =>
        Tame(cfg, a.live[k]);
        Progress.WorkStep(cfg, a.live[k], step);
        TotalPut(a.live, k, S.Apply(cfg, a.live[k], step));
        if k == id { Spends(cfg, a.live[id], step); }
      case Clock => Spends(cfg, a.live[id], S.Tick);
    }
  }

  lemma Tame(cfg: S.Config, s: S.State)
    requires Young(cfg, s)
    ensures Safety.Shape(s) && Time.TimedInv(cfg, s)
  {
  }

  lemma Spends(cfg: S.Config, s: S.State, step: S.Step)
    requires Young(cfg, s) && Time.Bounded(s) && !s.main.Returned? && S.Enabled(s, step)
    ensures var t := S.Apply(cfg, s, step);
            && Time.Bounded(t)
            && Time.Budget(cfg, t) + (if step.Tick? then 1 else 0) <= Time.Budget(cfg, s)
  {
    Tame(cfg, s);
    hide S.Apply, S.Ready, Time.Bounded, Time.Budget, Young, Safety.Shape, Time.TimersInv, Safety.KidInv;
    Time.BudgetStep(cfg, s, step);
    Progress.ClockStep(cfg, s, step);
  }

  lemma {:induction false} FreeUp(cfg: S.Config, a: Agent, id: nat) returns (more: seq<Act>)
    requires AllYoung(cfg, a) && id in a.live && Time.Bounded(a.live[id])
    ensures Legal(cfg, a, more) && Unaided(more)
    ensures id !in After(cfg, a, more).live && After(cfg, a, more).available > a.available
    decreases Time.Budget(cfg, a.live[id]), Total(a.live)
  {
    hide Enabled, Apply, AllYoung, Time.Bounded, Time.Budget, Total;
    var act := Ends(id);
    var rest: seq<Act> := [];
    if a.live[id].main.Returned? {
      ReturnFreesPermit(cfg, a, id);
    } else {
      act := NextAct(a);
      ActSpends(cfg, a, id, act);
      AllYoungStep(cfg, a, act);
      rest := FreeUp(cfg, Apply(cfg, a, act), id);
    }
    more := [act] + rest;
    assert more[1..] == rest && act == more[0];
    assert [act][0] == act;
  }

  /** Main result: from every reachable state of the agent, a session whose end is only a
      matter of its own timers (an exec under a deadline, any session being torn down, one
      that runs no verb) gives its permit back by what the sessions and the clock do
      themselves, whatever the other peers and children are up to. */
  lemma SlotIsFreed(cfg: S.Config, maxSessions: nat, acts: seq<Act>, id: nat) returns (more: seq<Act>)
    requires Legal(cfg, Start(maxSessions), acts)
    requires var a := After(cfg, Start(maxSessions), acts); id in a.live && Time.Bounded(a.live[id])
    ensures var a := After(cfg, Start(maxSessions), acts);
            && Legal(cfg, a, more) && Unaided(more)
            && id !in After(cfg, a, more).live && After(cfg, a, more).available > a.available
  {
    hide Legal, After, Unaided, Time.Bounded, Young;
    AllYoungRun(cfg, Start(maxSessions), acts);
    more := FreeUp(cfg, After(cfg, Start(maxSessions), acts), id);
  }
}
