/** What ends a session without a deadline, what does not, and why no run can go on
    forever within a bounded time. */
module SessionProgress {
  import opened Codec
  import opened Session
  import opened SessionSafety
  import opened SessionTime

  // ------------------------------------------------------------ a silent peer

  /** The input task is watching a peer that has no unread frames. */
  predicate Watched(s: State) {
    s.main.Running? && s.feed.inbox == [] && (s.feed.input.AwaitFrame? || s.feed.input.FeedChild?)
  }

  /** By when the input task will have noticed the silence. */
  function NoticeBy(cfg: Config, s: State): nat
    requires Watched(s)
  {
    if s.feed.input.AwaitFrame? then s.feed.input.until else s.feed.input.until + cfg.idle
  }

  /** A step in which the peer says nothing and exec's child does not refuse its stdin. */
  predicate Silent(v: Verb, step: Step) {
    !(step.Env? && step.e.PeerSends?) && !(v == ExecVerb && step == Env(ChildRefusesStdin))
  }

  predicate AllSilent(v: Verb, steps: seq<Step>) {
    forall i :: 0 <= i < |steps| ==> Silent(v, steps[i])
  }

  /** The teardown and all the writing a session can still have before it. */
  function Rest(cfg: Config, v: Verb): nat { Teardown(v) + Tail(cfg, false) }

  lemma LeavingRunning(cfg: Config, s: State, m: MainStep)
    requires Shape(s) && TimersInv(cfg, s) && s.main.Running? && MainReady(s, m)
    ensures var t := MainApply(cfg, s, m);
            t.verb == s.verb && !t.main.Running? && Bounded(t) && Horizon(cfg, t) <= s.now + Rest(cfg, s.verb)
  {
    hide ExitFields, OnRequest, WriteBudget;
  }

  lemma StillRunning(cfg: Config, s: State, step: Step)
    requires Shape(s) && TimersInv(cfg, s) && Watched(s) && Enabled(s, step)
    requires !step.MainTask? && !step.Tick? && Silent(s.verb, step)
    ensures var t := Apply(cfg, s, step);
            && t.main.Running? && t.verb == s.verb && t.now == s.now
            && (if Watched(t) then NoticeBy(cfg, t) <= NoticeBy(cfg, s) else Bounded(t))
  {
    hide Encode;
  }

  lemma RunningHorizon(cfg: Config, s: State)
    requires TimersInv(cfg, s) && s.main.Running? && Bounded(s)
    requires s.verb == ExecVerb ==> s.fired
    ensures Horizon(cfg, s) <= s.now + Rest(cfg, s.verb)
  {
  }

  /** Unwatched but running exec has fired: the one other way out is the refusal. */
  lemma NoticedFires(cfg: Config, s: State, step: Step)
    requires Shape(s) && Watched(s) && Enabled(s, step) && !step.MainTask? && !step.Tick?
    requires Silent(s.verb, step) && s.verb == ExecVerb
    ensures !Watched(Apply(cfg, s, step)) ==> Apply(cfg, s, step).fired
  {
    hide Encode;
  }

  lemma WatchStep(cfg: Config, s: State, step: Step)
    requires TimedInv(cfg, s) && Watched(s) && Enabled(s, step) && Silent(s.verb, step)
    ensures var t := Apply(cfg, s, step);
            t.verb == s.verb &&
            if Watched(t) then t.now <= NoticeBy(cfg, t) <= NoticeBy(cfg, s)
            else Bounded(t) && Horizon(cfg, t) <= NoticeBy(cfg, s) + Rest(cfg, s.verb)
  {
    hide OrderInv, WireInv, Conserved, StdinInv, KidInv, TeardownInv;
    match step {
      case MainTask(m) =>
        LeavingRunning(cfg, s, m);
        hide MainApply, MainReady, Horizon, Shape, Rest;
      case Tick =>
        ParkedInput(s);
        hide Ready, Shape;
      case _ =>
        TimersOther(cfg, s, step);
        StillRunning(cfg, s, step);
        if s.verb == ExecVerb { NoticedFires(cfg, s, step); }
        var t := Apply(cfg, s, step);
        if !Watched(t) { RunningHorizon(cfg, t); }
        hide Ready, Apply, Shape, Horizon, Rest;
    }
  }

  /** Main result: while the input task is watching, a peer that sends nothing more is
      noticed within 2 * idle_timeout, and the session has returned a teardown (and the
      writing still queued) later.  No deadline is involved.  The runs left out are
      exec's in which the child refuses a pending stdin write. */
  lemma SilentPeerIsNoticed(cfg: Config, a: seq<Step>, b: seq<Step>)
    requires Legal(cfg, Init(cfg), a) && Legal(cfg, After(cfg, Init(cfg), a), b)
    requires var s := After(cfg, Init(cfg), a); Watched(s) && AllSilent(s.verb, b)
    ensures var s := After(cfg, Init(cfg), a);
            var t := After(cfg, s, b);
            && (Watched(t) ==> t.now <= s.now + 2 * cfg.idle)
            && (!t.main.Returned? ==> t.now <= s.now + 2 * cfg.idle + Rest(cfg, s.verb))
  {
    hide Legal, After, Rest, Inv;
    TimedReached(cfg, a);
    SilentRun(cfg, After(cfg, Init(cfg), a), b);
  }

  /** The watch is over for good. */
  predicate WatchOver(s: State) { !s.main.AwaitRequest? && (s.main.Running? ==> s.feed.input.DoneIn?) }

  lemma WatchOverStep(cfg: Config, s: State, step: Step)
    requires Shape(s) && Enabled(s, step)
    requires WatchOver(s) || (Watched(s) && Silent(s.verb, step))
    ensures var t := Apply(cfg, s, step); WatchOver(t) || (Watched(s) && Watched(t))
  {
    hide Encode, ExitFields, OnRequest;
    match step {
      case MainTask(m) => hide InputReady, EnvReady, WriterReady;
      case Env(e) => hide InputReady, MainReady, WriterReady;
      case _ => hide EnvReady, MainReady, WriterReady;
    }
  }

  lemma {:induction false} WatchOverRun(cfg: Config, s: State, steps: seq<Step>)
    requires Inv(cfg, s) && WatchOver(s) && Legal(cfg, s, steps)
    ensures WatchOver(After(cfg, s, steps))
    decreases |steps|
  {
    hide Ready, Apply, Shape, OrderInv, WireInv, Conserved, StdinInv, KidInv, TeardownInv;
    if steps != [] {
      InvStep(cfg, s, steps[0]);
      WatchOverStep(cfg, s, steps[0]);
      WatchOverRun(cfg, Apply(cfg, s, steps[0]), steps[1..]);
    }
  }

  lemma {:induction false} SilentRun(cfg: Config, s: State, steps: seq<Step>)
    requires TimedInv(cfg, s) && Watched(s) && Legal(cfg, s, steps) && AllSilent(s.verb, steps)
    ensures var t := After(cfg, s, steps);
            && (Watched(t) ==> t.now <= NoticeBy(cfg, s))
            && (!t.main.Returned? ==> t.now <= NoticeBy(cfg, s) + Rest(cfg, s.verb))
    decreases |steps|
  {
    hide Ready, Apply, Rest, Shape, OrderInv, WireInv, Conserved, StdinInv, KidInv, TeardownInv;
    if steps == [] {
      return;
    }
    var step, rest := steps[0], steps[1..];
    assert Silent(s.verb, step);
    assert forall i :: 0 <= i < |rest| ==> rest[i] == steps[i + 1];
    WatchStep(cfg, s, step);
    TimedStep(cfg, s, step);
    WatchOverStep(cfg, s, step);
    var t := Apply(cfg, s, step);
    hide TimersInv, Inv, Horizon, Bounded, Silent;
    if Watched(t) {
      SilentRun(cfg, t, rest);
    } else {
      HorizonHolds(cfg, t, rest);
      WatchOverRun(cfg, t, rest);
    }
  }

  /** A read that timed out, failed or was abandoned is never resumed: once the watch is
      over the session takes no further frame from the transport. */
  lemma {:induction false} NeverResumed(cfg: Config, s: State, steps: seq<Step>)
    requires Inv(cfg, s) && WatchOver(s) && Legal(cfg, s, steps)
    ensures After(cfg, s, steps).feed.read == s.feed.read
    decreases |steps|
  {
    hide Ready, Apply, Shape, OrderInv, WireInv, Conserved, StdinInv, KidInv, TeardownInv;
    if steps != [] {
      InvStep(cfg, s, steps[0]);
      WatchOverStep(cfg, s, steps[0]);
      ReadStays(cfg, s, steps[0]);
      NeverResumed(cfg, Apply(cfg, s, steps[0]), steps[1..]);
    }
  }

  lemma ReadStays(cfg: Config, s: State, step: Step)
    requires WatchOver(s) && Enabled(s, step)
    ensures Apply(cfg, s, step).feed.read == s.feed.read
  {
    hide Encode, ExitFields;
  }

  // ------------------------------------------------------------ the other backstops

  /** The two stalls that no silence reveals: a peer that goes on sending but does not
      read, and a child that does not read its stdin while its client floods it. */
  datatype Stall = PeerNotReading | ChildNotReading

  predicate Stuck(k: Stall, s: State) {
    match k
    case PeerNotReading => s.ch.writer.Writing?
    case ChildNotReading => s.feed.input.FeedChild? && s.feed.input.left != []
  }

  function StuckUntil(k: Stall, s: State): nat
    requires Stuck(k, s)
  {
    match k
    case PeerNotReading => s.ch.writer.until
    case ChildNotReading => s.feed.input.until
  }

  function Patience(cfg: Config, k: Stall): nat { if k == PeerNotReading then cfg.write else cfg.idle }

  /** A step that does not relieve the stall.  The peer may send whatever it likes. */
  predicate Unrelieved(k: Stall, v: Verb, step: Step) {
    match k
    case PeerNotReading => !(step.Env? && (step.e.TransportTakes? || step.e.TransportFlushes?))
    case ChildNotReading =>
      !(step.Env? && step.e.ChildReadsStdin?) && !(v == ExecVerb && step == Env(ChildRefusesStdin))
  }

  predicate AllUnrelieved(k: Stall, v: Verb, steps: seq<Step>) {
    forall i :: 0 <= i < |steps| ==> Unrelieved(k, v, steps[i])
  }

  predicate Wedged(k: Stall, s: State) { s.main.Running? && !s.fired && Stuck(k, s) }

  /** A stall outside the select, or after cancel, is already being torn down. */
  lemma StuckElsewhere(cfg: Config, k: Stall, s: State)
    requires Shape(s) && TimersInv(cfg, s) && Stuck(k, s) && !Wedged(k, s)
    ensures Bounded(s) && (s.main.Returned? || Horizon(cfg, s) <= s.now + Rest(cfg, s.verb))
  {
    if s.fired {
      FiredBudget(cfg, s);
      hide Horizon, Bounded, Shape, TimersInv;
    } else {
      WriteFits(cfg, s);
      hide WriteBudget, Tail;
    }
  }

  lemma StallKept(cfg: Config, k: Stall, s: State, step: Step)
    requires Shape(s) && Wedged(k, s) && Enabled(s, step) && Unrelieved(k, s.verb, step)
    requires !step.MainTask? && !step.Tick?
    ensures var t := Apply(cfg, s, step);
            && t.main.Running? && t.verb == s.verb && t.now == s.now
            && (if Wedged(k, t) then StuckUntil(k, t) == StuckUntil(k, s)
                else t.fired || (t.verb == PtyVerb && t.feed.input.DoneIn?))
  {
    hide Encode;
  }

  lemma StallStep(cfg: Config, k: Stall, s: State, step: Step)
    requires TimedInv(cfg, s) && Wedged(k, s) && Enabled(s, step) && Unrelieved(k, s.verb, step)
    ensures s.now <= StuckUntil(k, s)
    ensures var t := Apply(cfg, s, step);
            t.verb == s.verb &&
            if Wedged(k, t) then StuckUntil(k, t) == StuckUntil(k, s)
            else Bounded(t) && Horizon(cfg, t) <= StuckUntil(k, s) + Rest(cfg, s.verb)
  {
    hide OrderInv, WireInv, Conserved, StdinInv, KidInv, TeardownInv;
    match step {
      case MainTask(m) =>
        LeavingRunning(cfg, s, m);
        hide MainApply, MainReady, Horizon, Shape, Rest;
      case Tick => hide Ready, Shape;
      case _ =>
        TimersOther(cfg, s, step);
        StallKept(cfg, k, s, step);
        var t := Apply(cfg, s, step);
        if !Wedged(k, t) { RunningHorizon(cfg, t); }
        hide Ready, Apply, Shape, Horizon, Rest;
    }
  }

  lemma {:induction false} StallRun(cfg: Config, k: Stall, s: State, steps: seq<Step>)
    requires TimedInv(cfg, s) && Wedged(k, s) && Legal(cfg, s, steps) && AllUnrelieved(k, s.verb, steps)
    ensures var t := After(cfg, s, steps);
            !t.main.Returned? ==> t.now <= StuckUntil(k, s) + Rest(cfg, s.verb)
    decreases |steps|
  {
    hide Ready, Apply, Rest, Shape, OrderInv, WireInv, Conserved, StdinInv, KidInv, TeardownInv, Unrelieved;
    if steps == [] {
      return;
    }
    var step, rest := steps[0], steps[1..];
    assert Unrelieved(k, s.verb, step);
    assert forall i :: 0 <= i < |rest| ==> rest[i] == steps[i + 1];
    StallStep(cfg, k, s, step);
    TimedStep(cfg, s, step);
    var t := Apply(cfg, s, step);
    hide TimersInv, Inv, Horizon, Bounded;
    if Wedged(k, t) {
      StallRun(cfg, k, t, rest);
    } else {
      HorizonHolds(cfg, t, rest);
    }
  }

  /** Main result: a peer that does not take the frame being written is given up after
      write_timeout, and a child that does not take the stdin being written after
      idle_timeout, whatever the peer keeps sending; the session has returned a teardown
      (and the writing still queued) later.  No deadline is involved. */
  lemma StallIsNoticed(cfg: Config, k: Stall, a: seq<Step>, b: seq<Step>)
    requires Legal(cfg, Init(cfg), a) && Legal(cfg, After(cfg, Init(cfg), a), b)
    requires var s := After(cfg, Init(cfg), a); Stuck(k, s) && AllUnrelieved(k, s.verb, b)
    ensures var s := After(cfg, Init(cfg), a);
            var t := After(cfg, s, b);
            !t.main.Returned? ==> t.now <= s.now + Patience(cfg, k) + Rest(cfg, s.verb)
  {
    hide Legal, After, Rest, OrderInv, WireInv, Conserved, StdinInv, KidInv, TeardownInv, AllUnrelieved;
    TimedReached(cfg, a);
    var s := After(cfg, Init(cfg), a);
    if Wedged(k, s) {
      StallRun(cfg, k, s, b);
    } else {
      StuckElsewhere(cfg, k, s);
      hide Shape, Horizon, TimersInv;
      HorizonHolds(cfg, s, b);
    }
  }

  // ------------------------------------------------------------ the refused stdin

  /** exec after its child refused its stdin: the forwarder is gone, nobody reads the
      transport, cancel has not fired, and no task has anything to do. */
  predicate Deaf(s: State) {
    && s.main.Running? && s.verb == ExecVerb && !s.fired && s.deadline.None? && s.kid.child.Alive?
    && s.feed.input == DoneIn(StdinRefused)
    && s.ch.writer.Idle? && s.ch.queue == [] && !s.out.pump.Sending? && !s.err.pump.Sending?
  }

  lemma DeafIsParked(s: State)
    requires Deaf(s)
    ensures Parked(s)
  {
    forall i: Step | IsTask(i)
      ensures !Ready(s, i)
    {
    }
  }

  function Ticks(n: nat): seq<Step> { seq(n, _ => Tick) }

  /** Idle and EOF detection have stopped: from such a state time can pass without end,
      even when the peer has closed. */
  lemma {:induction false} DeafForever(cfg: Config, s: State, n: nat)
    requires Deaf(s)
    ensures Legal(cfg, s, Ticks(n))
    ensures var t := After(cfg, s, Ticks(n)); Deaf(t) && t.now == s.now + n
    decreases n
  {
    if n > 0 {
      DeafIsParked(s);
      assert Ticks(n)[0] == Tick && Ticks(n)[1..] == Ticks(n - 1);
      DeafForever(cfg, s.(now := s.now + 1), n - 1);
    }
  }

  /** The exact condition.  Take an exec without a deadline that is parked with nothing
      to write, a living child and a silent peer: it can stay there forever if and only
      if the child has refused its stdin. */
  lemma StaysForeverIffRefused(cfg: Config, s: State)
    requires TimedInv(cfg, s) && Parked(s) && s.main.Running? && s.verb == ExecVerb && s.deadline.None?
    requires s.kid.child.Alive? && s.ch.writer.Idle? && s.feed.inbox == []
    ensures (forall n: nat :: Legal(cfg, s, Ticks(n)) && !After(cfg, s, Ticks(n)).main.Returned?) <==>
            s.feed.input == DoneIn(StdinRefused)
  {
    ParkedWriter(s);
    ParkedInput(s);
    if s.feed.input == DoneIn(StdinRefused) {
      assert !Ready(s, PumpTask(OutPipe)) && !Ready(s, PumpTask(ErrPipe));
      forall n: nat
        ensures Legal(cfg, s, Ticks(n)) && !After(cfg, s, Ticks(n)).main.Returned?
      {
        DeafForever(cfg, s, n);
      }
    } else {
      ExecInputEnds(s);
      var n := 2 * cfg.idle + Rest(cfg, s.verb) + 1;
      if Legal(cfg, s, Ticks(n)) {
        SilentRun(cfg, s, Ticks(n));
        TicksPass(cfg, s, n);
      }
    }
  }

  lemma ExecInputEnds(s: State)
    requires Shape(s) && s.verb == ExecVerb && !s.fired && s.feed.input != DoneIn(StdinRefused)
    ensures s.feed.input.AwaitFrame? || s.feed.input.FeedChild?
  {
    match s.feed.input {
      case DoneIn(FiredCancel) =>
      case DoneIn(StdinRefused) =>
      case DoneIn(PeerGone) =>
      case DoneIn(SawCancel) =>
      case _ =>
    }
  }

  lemma {:induction false} TicksPass(cfg: Config, s: State, n: nat)
    requires Legal(cfg, s, Ticks(n))
    ensures After(cfg, s, Ticks(n)).now == s.now + n
    decreases n
  {
    if n > 0 {
      assert Ticks(n)[0] == Tick && Ticks(n)[1..] == Ticks(n - 1);
      TicksPass(cfg, s.(now := s.now + 1), n - 1);
    }
  }

  /** And such a state is reached: a request without a deadline, one STDIN frame, a child
      that closes its stdin, and a peer that hangs up.  So for exec the silent-peer bound
      does fail outside the hypothesis of SilentPeerIsNoticed. */
  lemma RefusedStdinIsDeaf(cfg: Config, b: byte) returns (s: State)
    ensures Reaches(cfg, Init(cfg), s) && Deaf(s) && s.feed.inbox == [PeerClosed]
  {
    s := Init(cfg);
    ReachesSelf(cfg, s);
    s := Go(cfg, s, Env(PeerSends(Request(Exec(Zero)))));
    s := Go(cfg, s, MainTask(GotRequest(SpawnOk)));
    s := Go(cfg, s, Env(PeerSends(Stdin([b]))));
    s := Go(cfg, s, InputTask(InputStep.Reads));
    s := Go(cfg, s, Env(ChildRefusesStdin));
    s := Go(cfg, s, Env(PeerSends(PeerClosed)));
  }

  // ------------------------------------------------------------ no endless business

  function StageWork(m: Main): nat {
    match m
    case AwaitRequest(_) => 110
    case Running => 100
    case HangingUp(_) => 90
    case Reaping(_, _) => 80
    case Abandoning(_) => 80
    case DrainingOut(_) => 70
    case DrainingErr(_) => 60
    case SendingExit => 50
    case Failing(_) => 50
    case Closing => 20
    case Returned => 0
  }

  function ChannelWork(ch: Channel): nat {
    3 * |ch.queue| + match ch.writer case Writing(_, _, _) => 2 case Idle => 1 case Stopped => 0
  }

  function InputWork(f: Feed): nat {
    4 * |f.inbox| + match f.input case FeedChild(_, _) => 3 case AwaitFrame(_) => 2 case _ => 0
  }

  function PumpWork(p: Source): nat { if p.pump.Sending? then 5 else 0 }

  /** How much the tasks can still do at this instant if the environment keeps still. */
  function Work(s: State): nat {
    StageWork(s.main) + ChannelWork(s.ch) + InputWork(s.feed) + PumpWork(s.out) + PumpWork(s.err)
  }

  lemma WorkMain(cfg: Config, s: State, m: MainStep)
    requires Shape(s) && MainReady(s, m)
    ensures Work(MainApply(cfg, s, m)) < Work(s)
  {
    hide OnRequest, ExitFrame, ErrorFrame;
    if m.GotRequest? {
      hide Work, Shape;
      WorkRequest(cfg, s, m.fate);
    }
  }

  lemma WorkRequest(cfg: Config, s: State, fate: Fate)
    requires Shape(s) && s.main.AwaitRequest? && s.feed.inbox != []
    ensures Work(OnRequest(cfg, s, fate)) < Work(s)
  {
  }

  lemma WorkEnv(s: State, e: EnvStep)
    requires EnvReady(s, e)
    ensures Work(EnvApply(s, e)) <= Work(s) + 5
  {
    hide Encode, StageWork;
  }

  lemma WorkWriter(cfg: Config, s: State, a: WriterStep)
    requires WriterReady(s, a)
    ensures Work(WriterApply(cfg, s, a)) < Work(s)
  {
    hide StageWork, InputWork, PumpWork;
  }

  lemma WorkPump(s: State, w: Pipe)
    requires PumpReady(s, w)
    ensures Work(PumpApply(s, w)) < Work(s)
  {
    hide StageWork, InputWork;
  }

  lemma WorkInput(cfg: Config, s: State, i: InputStep)
    requires InputReady(s, i)
    ensures Work(InputApply(cfg, s, i)) < Work(s)
  {
    hide StageWork, ChannelWork, PumpWork;
  }

  lemma WorkOther(cfg: Config, s: State, step: Step)
    requires Enabled(s, step) && !step.MainTask?
    ensures var w := Work(Apply(cfg, s, step));
            if IsTask(step) then w < Work(s) else if step.Env? then w <= Work(s) + 5 else w == Work(s)
  {
    hide EnvApply, WriterApply, PumpApply, InputApply, EnvReady, WriterReady, PumpReady, InputReady;
    match step {
      case Env(e) => WorkEnv(s, e); hide Work;
      case WriterTask(a) => WorkWriter(cfg, s, a); hide Work;
      case PumpTask(w) => WorkPump(s, w); hide Work;
      case InputTask(i) => WorkInput(cfg, s, i); hide Work;
      case Tick => hide StageWork, ChannelWork, InputWork, PumpWork;
    }
  }

  function EnvSteps(steps: seq<Step>): nat {
    if steps == [] then 0 else (if steps[0].Env? then 1 else 0) + EnvSteps(steps[1..])
  }

  /** Within bounded time only finitely much happens: every run is at most as long as
      the work it starts with, six steps per environment step, and the time it takes. */
  lemma {:induction false} RunLength(cfg: Config, s: State, steps: seq<Step>)
    requires Inv(cfg, s) && Legal(cfg, s, steps)
    ensures var t := After(cfg, s, steps);
            |steps| + Work(t) <= Work(s) + 6 * EnvSteps(steps) + (t.now - s.now)
    decreases |steps|
  {
    hide Ready, Apply, Shape, OrderInv, WireInv, Conserved, StdinInv, KidInv, TeardownInv, Work;
    if steps != [] {
      InvStep(cfg, s, steps[0]);
      WorkStep(cfg, s, steps[0]);
      RunLength(cfg, Apply(cfg, s, steps[0]), steps[1..]);
    }
  }

  lemma WorkStep(cfg: Config, s: State, step: Step)
    requires Shape(s) && Enabled(s, step)
    ensures var t := Apply(cfg, s, step);
            && t.now == s.now + (if step.Tick? then 1 else 0)
            && if IsTask(step) then Work(t) < Work(s)
               else if step.Env? then Work(t) <= Work(s) + 5 else Work(t) == Work(s)
  {
    if step.MainTask? {
      WorkMain(cfg, s, step.m);
    } else {
      WorkOther(cfg, s, step);
    }
    ClockStep(cfg, s, step);
    hide Ready, Apply, Shape, Work;
  }

  lemma ClockStep(cfg: Config, s: State, step: Step)
    requires Enabled(s, step)
    ensures Apply(cfg, s, step).now == s.now + if step.Tick? then 1 else 0
  {
    hide Encode, ExitFields, EnvReady, WriterReady, InputReady, MainReady;
  }

  /** Nothing is waited for in vain: from every bounded state the session's own tasks and
      the clock bring it to its return, without a single step of the peer, the child or
      the transport. */
  lemma {:induction false} ReturnsUnaided(cfg: Config, s: State) returns (steps: seq<Step>)
    requires TimedInv(cfg, s) && Bounded(s)
    ensures Legal(cfg, s, steps) && EnvSteps(steps) == 0
    ensures After(cfg, s, steps).main.Returned?
    decreases Budget(cfg, s), Work(s)
  {
    hide Ready, Apply, Work, TimersInv, Bounded, Budget;
    hide Shape, OrderInv, WireInv, Conserved, StdinInv, KidInv, TeardownInv;
    if s.main.Returned? {
      return [];
    }
    var step := Tick;
    if !Enabled(s, Tick) {
      step :| IsTask(step) && Ready(s, step);
    }
    TimedStep(cfg, s, step);
    BudgetStep(cfg, s, step);
    WorkStep(cfg, s, step);
    var rest := ReturnsUnaided(cfg, Apply(cfg, s, step));
    steps := [step] + rest;
    assert steps[1..] == rest;
  }

  /** Main result: a deadline-bounded exec session really does return.  A run that has
      not returned is shorter than a bound in the number of environment steps alone, and
      it can always be continued to the return without any such step. */
  lemma ExecReturns(cfg: Config, steps: seq<Step>) returns (more: seq<Step>)
    requires Legal(cfg, Init(cfg), steps)
    requires var s := After(cfg, Init(cfg), steps);
             s.verb == ExecVerb && s.limit.Some? && !s.main.Returned?
    ensures |steps| <= 111 + 6 * EnvSteps(steps) + ExecLimit(cfg, After(cfg, Init(cfg), steps).limit.value)
    ensures var s := After(cfg, Init(cfg), steps);
            Legal(cfg, s, more) && EnvSteps(more) == 0 && After(cfg, s, more).main.Returned?
  {
    hide Legal, After, Inv, ExecLimit, Bounded, Horizon;
    InitInv(cfg);
    SessionTimeBound(cfg, steps);
    RunLength(cfg, Init(cfg), steps);
    TimedReached(cfg, steps);
    Scheduled(cfg, steps);
    more := ReturnsUnaided(cfg, After(cfg, Init(cfg), steps));
  }
}
