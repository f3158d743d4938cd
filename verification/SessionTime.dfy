/** How long a session can last.  A budget bounds the time still needed from every
    state; no step of anyone increases the clock plus the budget. */
module SessionTime {
  import opened Wrappers
  import opened Codec
  import opened Session
  import opened SessionSafety

  function Left(until: nat, now: nat): nat { if until > now then until - now else 0 }

  // ------------------------------------------------------------ armed timers

  predicate WriterTimer(cfg: Config, now: nat, w: Writer) {
    w.Writing? ==> now <= w.until <= now + cfg.write
  }

  predicate InputTimer(cfg: Config, now: nat, i: Input) {
    && (i.AwaitFrame? ==> now <= i.until <= now + cfg.idle)
    && (i.FeedChild? ==> now <= i.until <= now + cfg.idle)
  }

  predicate MainTimer(cfg: Config, now: nat, main: Main, verb: Verb, deadline: Option<nat>) {
    && (main.AwaitRequest? ==> now <= main.until == cfg.idle)
    && (main.Waiting() || main.Draining() ==> now <= main.until <= now + REAP_GRACE)
    && (main.HangingUp? ==> main.until <= now + HANGUP_GRACE)
    && (main.Draining() ==> main.until <= now + if verb == ExecVerb then EXEC_DRAIN else PTY_DRAIN)
    && (main.Running? && verb == ExecVerb && deadline.Some? ==> now <= deadline.value)
  }

  /** No armed timer is in the past, and none is further off than its duration. */
  predicate TimersInv(cfg: Config, s: State) {
    && WriterTimer(cfg, s.now, s.ch.writer)
    && MainTimer(cfg, s.now, s.main, s.verb, s.deadline)
    && (s.main.Running? ==> InputTimer(cfg, s.now, s.feed.input))
    && (s.verb == ExecVerb ==> (s.deadline.Some? <==> s.limit.Some?))
  }

  /** What it means that no task can run. */
  lemma ParkedWriter(s: State)
    requires Parked(s) && Shape(s)
    ensures s.ch.writer.Writing? ==> !s.fired && s.now < s.ch.writer.until
    ensures s.ch.writer.Idle? ==> !s.fired && s.ch.queue == []
    ensures s.main.Closing? ==> s.ch.writer.Writing?
  {
    assert !Ready(s, WriterTask(SeesCancel)) && !Ready(s, WriterTask(TakesFrame));
    assert !Ready(s, WriterTask(TimesOut)) && !Ready(s, WriterTask(ChannelClosed));
    assert !Ready(s, MainTask(Returns));
  }

  lemma ParkedInput(s: State)
    requires Parked(s) && s.main.Running?
    ensures !s.fired && (s.verb == ExecVerb ==> !DeadlineDue(s) && !s.kid.child.Dead?)
    ensures s.verb == PtyVerb ==> !s.feed.input.DoneIn?
    ensures s.feed.input.AwaitFrame? ==> s.feed.inbox == [] && s.now < s.feed.input.until
    ensures s.feed.input.FeedChild? ==> s.now < s.feed.input.until
  {
    assert !Ready(s, MainTask(SeesCancelled)) && !Ready(s, MainTask(DeadlinePasses));
    assert !Ready(s, MainTask(ChildEnded)) && !Ready(s, MainTask(InputEnded));
    assert !Ready(s, InputTask(InputStep.Reads)) && !Ready(s, InputTask(Idles));
    assert !Ready(s, InputTask(Written)) && !Ready(s, InputTask(Stalls));
  }

  lemma ParkedMain(s: State)
    requires Parked(s) && !s.main.Running?
    ensures s.main.AwaitRequest? ==> s.now < s.main.until
    ensures s.main.Failing? || (s.main.SendingExit? && s.kid.end.Some?) ==> !s.ch.CanSend()
    ensures s.main.Waiting() || s.main.Draining() ==> s.now < s.main.until
  {
    assert !Ready(s, MainTask(GotRequest(SpawnOk))) && !Ready(s, MainTask(NoRequest));
    assert !Ready(s, MainTask(SendsError)) && !Ready(s, MainTask(SendsExit));
    assert !Ready(s, MainTask(ReapedChild)) && !Ready(s, MainTask(GraceEnds));
    assert !Ready(s, MainTask(DrainDone)) && !Ready(s, MainTask(DrainEnds));
  }

  lemma ParkedFacts(s: State)
    requires Parked(s) && Shape(s) && (s.main.SendingExit? ==> s.kid.end.Some?)
    ensures s.ch.writer.Writing? ==> !s.fired && s.now < s.ch.writer.until
    ensures s.ch.writer.Idle? ==> !s.fired && s.ch.queue == []
    ensures s.main.AwaitRequest? ==> s.now < s.main.until
    ensures s.main.Failing? || s.main.SendingExit? || s.main.Closing? ==> s.ch.writer.Writing?
    ensures s.main.Running? ==> !s.fired && (s.verb == ExecVerb ==> !DeadlineDue(s) && !s.kid.child.Dead?)
    ensures s.main.Running? && s.verb == PtyVerb ==> !s.feed.input.DoneIn?
    ensures s.main.Running? && s.feed.input.AwaitFrame? ==> s.feed.inbox == [] && s.now < s.feed.input.until
    ensures s.main.Running? && s.feed.input.FeedChild? ==> s.now < s.feed.input.until
    ensures s.main.Waiting() || s.main.Draining() ==> s.now < s.main.until
  {
    ParkedWriter(s);
    if s.main.Running? { ParkedInput(s); } else { ParkedMain(s); }
    hide Ready;
  }

  lemma TimersMain(cfg: Config, s: State, m: MainStep)
    requires Shape(s) && TimersInv(cfg, s) && MainReady(s, m)
    ensures TimersInv(cfg, MainApply(cfg, s, m))
  {
    hide ExitFields;
  }

  lemma WriterTimerKept(cfg: Config, s: State, step: Step)
    requires WriterTimer(cfg, s.now, s.ch.writer) && Enabled(s, step) && !step.MainTask? && !step.Tick?
    ensures var t := Apply(cfg, s, step); t.now == s.now && WriterTimer(cfg, t.now, t.ch.writer)
  {
    hide Encode, InputTimer;
  }

  lemma InputTimerKept(cfg: Config, s: State, step: Step)
    requires InputTimer(cfg, s.now, s.feed.input) && Enabled(s, step) && !step.MainTask? && !step.Tick?
    ensures var t := Apply(cfg, s, step); InputTimer(cfg, s.now, t.feed.input)
  {
    hide Encode, WriterTimer;
  }

  lemma TimersOther(cfg: Config, s: State, step: Step)
    requires TimersInv(cfg, s) && Enabled(s, step) && !step.MainTask? && !step.Tick?
    ensures TimersInv(cfg, Apply(cfg, s, step))
  {
    WriterTimerKept(cfg, s, step);
    if s.main.Running? { InputTimerKept(cfg, s, step); }
    Unmoved(cfg, s, step);
    hide Ready, Apply, WriterTimer, InputTimer, MainTimer;
  }

  lemma TimersTick(cfg: Config, s: State)
    requires Shape(s) && OrderInv(cfg, s) && TimersInv(cfg, s) && Parked(s)
    ensures TimersInv(cfg, s.(now := s.now + 1))
  {
    ParkedFacts(s);
    hide Shape, Grammatical, Ready;
  }

  lemma TimersStep(cfg: Config, s: State, step: Step)
    requires Shape(s) && OrderInv(cfg, s) && TimersInv(cfg, s) && Enabled(s, step)
    ensures TimersInv(cfg, Apply(cfg, s, step))
  {
    hide TimersInv, Shape, OrderInv;
    match step {
      case MainTask(m) => hide MainApply, MainReady; TimersMain(cfg, s, m);
      case Tick => TimersTick(cfg, s);
      case _ => TimersOther(cfg, s, step);
    }
  }

  // ------------------------------------------------------------ the budget

  /** Time for the writer to finish with everything queued. */
  function WriteBudget(cfg: Config, s: State): nat {
    if s.fired || s.ch.writer.Stopped? then 0
    else |s.ch.queue| * cfg.write + if s.ch.writer.Writing? then Left(s.ch.writer.until, s.now) else 0
  }

  /** The full channel, the frame in flight and the EXIT; nothing after teardown. */
  function Tail(cfg: Config, fired: bool): nat { if fired then 0 else (CHANNEL_BOUND + 2) * cfg.write }

  function Drains(v: Verb): nat { if v == ExecVerb then 2 * EXEC_DRAIN else PTY_DRAIN }

  /** From the decision to end the child until the drains are over. */
  function Teardown(v: Verb): nat {
    (if v == ExecVerb then REAP_GRACE else HANGUP_GRACE + REAP_GRACE) + Drains(v)
  }

  /** The states from which the end is only a matter of the session's own timers. */
  predicate Bounded(s: State) {
    && !s.main.AwaitRequest?
    && (s.main.Running? ==>
          s.fired || (if s.verb == ExecVerb then s.deadline.Some? else s.feed.input.DoneIn?))
  }

  function Budget(cfg: Config, s: State): nat
    requires Bounded(s)
  {
    match s.main
    case AwaitRequest(_) => 0
    case Failing(_) => WriteBudget(cfg, s) + if s.fired then 0 else cfg.write
    case Running =>
      (if s.verb == ExecVerb && !s.fired && s.deadline.Some? then Left(s.deadline.value, s.now) else 0)
      + Teardown(s.verb) + Tail(cfg, s.fired)
    case Reaping(u, _) => Left(u, s.now) + Drains(s.verb) + Tail(cfg, s.fired)
    case HangingUp(u) => Left(u, s.now) + REAP_GRACE + Drains(s.verb) + Tail(cfg, s.fired)
    case Abandoning(u) => Left(u, s.now) + Tail(cfg, s.fired)
    case DrainingOut(u) =>
      Left(u, s.now) + (if s.verb == ExecVerb then EXEC_DRAIN else 0) + Tail(cfg, s.fired)
    case DrainingErr(u) => Left(u, s.now) + Tail(cfg, s.fired)
    case SendingExit => WriteBudget(cfg, s) + if s.fired then 0 else cfg.write
    case Closing => WriteBudget(cfg, s)
    case Returned => 0
  }

  lemma WriteFits(cfg: Config, s: State)
    requires Shape(s) && TimersInv(cfg, s)
    ensures WriteBudget(cfg, s) + (if s.fired then 0 else cfg.write) <= Tail(cfg, s.fired)
  {
    Monotone(|s.ch.queue|, CHANNEL_BOUND, cfg.write);
    assert (CHANNEL_BOUND + 2) * cfg.write == CHANNEL_BOUND * cfg.write + 2 * cfg.write;
  }

  lemma Monotone(a: nat, b: nat, w: nat)
    requires a <= b
    ensures a * w <= b * w
  {
    assert (b - a) * w >= 0;
  }

  /** Clock plus budget, the moment by which the session will have returned. */
  function Horizon(cfg: Config, s: State): nat
    requires Bounded(s)
  {
    s.now + Budget(cfg, s)
  }

  lemma WriterSpends(cfg: Config, s: State, a: WriterStep)
    requires TimersInv(cfg, s) && WriterReady(s, a)
    ensures var t := WriterApply(cfg, s, a);
            WriteBudget(cfg, t) <= WriteBudget(cfg, s) && (t.fired == s.fired || t.fired)
  {
    if a.TakesFrame? {
      var n := |s.ch.queue|;
      assert n * cfg.write == (n - 1) * cfg.write + cfg.write;
    }
  }

  lemma BudgetWriter(cfg: Config, s: State, a: WriterStep)
    requires Bounded(s) && TimersInv(cfg, s) && WriterReady(s, a)
    ensures var t := WriterApply(cfg, s, a); Bounded(t) && Horizon(cfg, t) <= Horizon(cfg, s)
  {
    WriterSpends(cfg, s, a);
    hide WriteBudget, TimersInv;
  }

  lemma EnvSpends(cfg: Config, s: State, e: EnvStep)
    requires EnvReady(s, e)
    ensures var t := EnvApply(s, e);
            && WriteBudget(cfg, t) <= WriteBudget(cfg, s)
            && t == s.(fired := t.fired, ch := t.ch, out := t.out, err := t.err, feed := t.feed, kid := t.kid)
            && (s.fired ==> t.fired) && (s.feed.input.DoneIn? ==> t.feed.input.DoneIn?)
  {
    hide Encode;
  }

  lemma BudgetEnv(cfg: Config, s: State, e: EnvStep)
    requires Bounded(s) && EnvReady(s, e)
    ensures var t := EnvApply(s, e); Bounded(t) && Horizon(cfg, t) <= Horizon(cfg, s)
  {
    EnvSpends(cfg, s, e);
    hide EnvApply, EnvReady, WriteBudget;
  }

  lemma BudgetPump(cfg: Config, s: State, w: Pipe)
    requires Shape(s) && Bounded(s) && PumpReady(s, w)
    ensures var t := PumpApply(s, w); Bounded(t) && Horizon(cfg, t) <= Horizon(cfg, s)
  {
  }

  lemma BudgetInput(cfg: Config, s: State, i: InputStep)
    requires Bounded(s) && InputReady(s, i)
    ensures var t := InputApply(cfg, s, i); Bounded(t) && Horizon(cfg, t) <= Horizon(cfg, s)
  {
  }

  lemma BudgetSend(cfg: Config, s: State, m: MainStep)
    requires Bounded(s) && MainReady(s, m) && (m.SendsError? || m.SendsExit? || m.Returns?)
    ensures var t := MainApply(cfg, s, m); Bounded(t) && Horizon(cfg, t) <= Horizon(cfg, s)
  {
    hide ExitFields, OnRequest;
    match m {
      case SendsError => SendSpends(cfg, s, ErrorFrame(cfg, s.main.what));
      case SendsExit => SendSpends(cfg, s, ExitFrame(cfg, s.kid.end.value));
      case Returns =>
    }
    hide WriteBudget;
  }

  lemma BudgetMain(cfg: Config, s: State, m: MainStep)
    requires Shape(s) && TimersInv(cfg, s) && Bounded(s) && MainReady(s, m)
    ensures var t := MainApply(cfg, s, m); Bounded(t) && Horizon(cfg, t) <= Horizon(cfg, s)
  {
    hide ExitFields, OnRequest, WriterTimer, InputTimer;
    if m.SendsError? || m.SendsExit? || m.Returns? {
      BudgetSend(cfg, s, m);
      hide MainApply, MainReady, Shape, TimersInv;
    } else {
      WriteFits(cfg, s);
      hide WriteBudget, Fresh, Tail;
    }
  }

  lemma SendSpends(cfg: Config, s: State, f: Frame)
    ensures WriteBudget(cfg, s.(ch := s.ch.Push(f), main := Closing)) <=
            WriteBudget(cfg, s) + if s.fired then 0 else cfg.write
  {
    var n := |s.ch.queue|;
    assert (n + 1) * cfg.write == n * cfg.write + cfg.write;
  }

  lemma BudgetTick(cfg: Config, s: State)
    requires Shape(s) && OrderInv(cfg, s) && TimersInv(cfg, s) && Bounded(s) && Parked(s)
    ensures var t := s.(now := s.now + 1);
            Bounded(t) && (s.main.Returned? || Horizon(cfg, t) == Horizon(cfg, s))
  {
    ParkedFacts(s);
    hide Shape, Grammatical, Ready;
  }

  lemma BudgetStep(cfg: Config, s: State, step: Step)
    requires Shape(s) && OrderInv(cfg, s) && TimersInv(cfg, s) && Bounded(s) && Enabled(s, step)
    ensures var t := Apply(cfg, s, step);
            Bounded(t) && (s.main.Returned? ==> t.main.Returned?) &&
            (s.main.Returned? || Horizon(cfg, t) <= Horizon(cfg, s))
  {
    hide TimersInv, Bounded, Budget, Horizon, Shape, Grammatical, Encode;
    if step.Tick? { BudgetTick(cfg, s); }
    else {
      match step {
        case Env(e) => BudgetEnv(cfg, s, e);
        case WriterTask(a) => BudgetWriter(cfg, s, a);
        case PumpTask(w) => BudgetPump(cfg, s, w);
        case InputTask(i) => BudgetInput(cfg, s, i);
        case MainTask(m) => BudgetMain(cfg, s, m);
      }
    }
  }

  // ------------------------------------------------------------ the deadline's kill

  /** A kill for the deadline was sent at the very moment the deadline fell due. */
  predicate DueInv(main: Main, verb: Verb, deadline: Option<nat>, k: Kid) {
    (main.Reaping? && main.why == ByTimeout) || (k.end.Some? && k.end.value.why == ByTimeout) ==>
      verb == ExecVerb && deadline.Some? && k.killedAt == deadline
  }

  lemma DueStep(cfg: Config, s: State, step: Step)
    requires Shape(s) && TimersInv(cfg, s) && KidInv(s.now, s.main, s.verb, s.kid) && Enabled(s, step)
    requires DueInv(s.main, s.verb, s.deadline, s.kid)
    ensures var t := Apply(cfg, s, step); DueInv(t.main, t.verb, t.deadline, t.kid)
  {
    hide ExitFields, EnvApply, EnvReady, InputApply, InputReady, WriterApply, WriterReady;
    if !step.MainTask? {
      Unmoved(cfg, s, step);
      hide MainApply, MainReady, Shape, TimersInv, KidInv;
    } else {
      hide WriterTimer, InputTimer;
    }
  }

  // ------------------------------------------------------------ every run

  ghost predicate TimedInv(cfg: Config, s: State) {
    Inv(cfg, s) && TimersInv(cfg, s) && DueInv(s.main, s.verb, s.deadline, s.kid)
  }

  lemma TimedStep(cfg: Config, s: State, step: Step)
    requires TimedInv(cfg, s) && Enabled(s, step)
    ensures TimedInv(cfg, Apply(cfg, s, step))
  {
    hide Ready, Apply;
    hide TimersInv, KidInv, DueInv;
    InvStep(cfg, s, step);
    TimersStep(cfg, s, step);
    DueStep(cfg, s, step);
  }

  lemma {:induction false} TimedRun(cfg: Config, s: State, steps: seq<Step>)
    requires TimedInv(cfg, s) && Legal(cfg, s, steps)
    ensures TimedInv(cfg, After(cfg, s, steps))
    decreases |steps|
  {
    hide Ready, Apply, TimedInv;
    if steps != [] {
      TimedStep(cfg, s, steps[0]);
      TimedRun(cfg, Apply(cfg, s, steps[0]), steps[1..]);
    }
  }

  lemma TimedReached(cfg: Config, steps: seq<Step>)
    requires Legal(cfg, Init(cfg), steps)
    ensures TimedInv(cfg, After(cfg, Init(cfg), steps))
  {
    InitInv(cfg);
    TimedRun(cfg, Init(cfg), steps);
  }

  /** From a bounded state, whatever the peer, the child and the transport do, the
      session has returned once the clock passes the horizon. */
  lemma {:induction false} HorizonHolds(cfg: Config, s: State, steps: seq<Step>)
    requires TimedInv(cfg, s) && Bounded(s) && Legal(cfg, s, steps)
    ensures var t := After(cfg, s, steps);
            Bounded(t) && (!t.main.Returned? ==> t.now <= Horizon(cfg, t) <= Horizon(cfg, s))
            && (s.main.Returned? ==> t.main.Returned?)
    decreases |steps|
  {
    hide Ready, Apply, TimersInv, Bounded, Budget, Shape, Grammatical;
    if steps != [] {
      TimedStep(cfg, s, steps[0]);
      BudgetStep(cfg, s, steps[0]);
      HorizonHolds(cfg, Apply(cfg, s, steps[0]), steps[1..]);
    }
  }

  // ------------------------------------------------------------ the time bound

  /** idle_timeout for the REQUEST, the deadline, the reap, two drains, and every frame
      the channel and the writer can hold plus the EXIT. */
  function ExecLimit(cfg: Config, d: nat): nat {
    cfg.idle + d + REAP_GRACE + 2 * EXEC_DRAIN + (CHANNEL_BOUND + 2) * cfg.write
  }

  /** A session that never runs a verb: the REQUEST, at most one reap, one ERROR. */
  function NoVerbLimit(cfg: Config): nat { cfg.idle + REAP_GRACE + (CHANNEL_BOUND + 2) * cfg.write }

  predicate OnSchedule(cfg: Config, s: State) {
    && (s.verb == ExecVerb && s.limit.Some? ==>
          Bounded(s) && (s.main.Returned? || Horizon(cfg, s) <= ExecLimit(cfg, s.limit.value)))
    && (s.verb == NoVerb && !s.main.AwaitRequest? ==>
          Bounded(s) && (s.main.Returned? || Horizon(cfg, s) <= NoVerbLimit(cfg)))
  }

  lemma ScheduleRequest(cfg: Config, s: State, m: MainStep)
    requires Shape(s) && TimersInv(cfg, s) && s.main.AwaitRequest? && MainReady(s, m)
    ensures OnSchedule(cfg, MainApply(cfg, s, m))
  {
    hide ExitFields;
    assert cfg.write <= (CHANNEL_BOUND + 2) * cfg.write;
  }

  lemma ScheduleStep(cfg: Config, s: State, step: Step)
    requires TimedInv(cfg, s) && OnSchedule(cfg, s) && Enabled(s, step)
    ensures OnSchedule(cfg, Apply(cfg, s, step))
  {
    hide Budget, Grammatical, Encode, Horizon, Tail, EnvReady, EnvApply, WriterApply, WriterReady, InputApply, PumpApply;
    if s.main.AwaitRequest? && step.MainTask? {
      ScheduleRequest(cfg, s, step.m);
    } else {
      VerbKept(cfg, s, step);
      if Bounded(s) { BudgetStep(cfg, s, step); }
    }
  }

  lemma VerbKept(cfg: Config, s: State, step: Step)
    requires Shape(s) && Enabled(s, step) && !(s.main.AwaitRequest? && step.MainTask?)
    ensures var t := Apply(cfg, s, step);
            t.verb == s.verb && t.limit == s.limit && (t.main.AwaitRequest? <==> s.main.AwaitRequest?)
  {
    if !step.MainTask? { Unmoved(cfg, s, step); }
    hide EnvApply, WriterApply, InputApply, PumpApply, ExitFields;
  }

  lemma {:induction false} ScheduleRun(cfg: Config, s: State, steps: seq<Step>)
    requires TimedInv(cfg, s) && OnSchedule(cfg, s) && Legal(cfg, s, steps)
    ensures OnSchedule(cfg, After(cfg, s, steps))
    decreases |steps|
  {
    hide Ready, Apply, TimedInv, OnSchedule;
    if steps != [] {
      TimedStep(cfg, s, steps[0]);
      ScheduleStep(cfg, s, steps[0]);
      ScheduleRun(cfg, Apply(cfg, s, steps[0]), steps[1..]);
    }
  }

  lemma Scheduled(cfg: Config, steps: seq<Step>)
    requires Legal(cfg, Init(cfg), steps)
    ensures OnSchedule(cfg, After(cfg, Init(cfg), steps))
  {
    InitInv(cfg);
    ScheduleRun(cfg, Init(cfg), steps);
  }

  /** Main result: with an effective deadline d, run_session returns within
      idle_timeout + d + REAP_GRACE + 2 * 250 ms + (CHANNEL_BOUND + 2) * write_timeout,
      even if the child can never be reaped and the peer never reads; and a session that
      runs no verb ends without any deadline. */
  lemma SessionTimeBound(cfg: Config, steps: seq<Step>)
    requires Legal(cfg, Init(cfg), steps)
    ensures var s := After(cfg, Init(cfg), steps);
            !s.main.Returned? ==>
              && (s.verb == ExecVerb && s.limit.Some? ==> s.now <= ExecLimit(cfg, s.limit.value))
              && (s.verb == NoVerb ==> s.now <= NoVerbLimit(cfg))
  {
    hide Legal, After, Budget, Shape, Inv;
    TimedReached(cfg, steps);
    Scheduled(cfg, steps);
  }

  /** "timeout" means what it says: the child was killed when, and only when, the
      deadline fell due. */
  lemma TimeoutIsOnTime(cfg: Config, steps: seq<Step>)
    requires Legal(cfg, Init(cfg), steps)
    ensures var s := After(cfg, Init(cfg), steps);
            && (s.main.Running? && s.verb == ExecVerb && s.deadline.Some? ==> s.now <= s.deadline.value)
            && (s.kid.end.Some? && s.kid.end.value.why == ByTimeout ==>
                  s.verb == ExecVerb && s.deadline.Some? && s.kid.killedAt == s.deadline)
  {
    hide Legal, After, Inv;
    TimedReached(cfg, steps);
  }

  /** After teardown no deadline is needed: from the firing of cancel, exec returns
      within the reap and two drains, open-pty within the hangup, the reap and a drain. */
  lemma TeardownTimeBound(cfg: Config, a: seq<Step>, b: seq<Step>)
    requires Legal(cfg, Init(cfg), a) && Legal(cfg, After(cfg, Init(cfg), a), b)
    requires After(cfg, Init(cfg), a).fired
    ensures var s := After(cfg, Init(cfg), a);
            var t := After(cfg, s, b);
            !t.main.Returned? ==> t.now <= s.now + Teardown(s.verb)
  {
    hide Legal, After;
    TimedReached(cfg, a);
    var s := After(cfg, Init(cfg), a);
    HorizonHolds(cfg, s, b);
    hide Horizon;
    FiredBudget(cfg, s);
  }

  lemma FiredBudget(cfg: Config, s: State)
    requires Shape(s) && TimersInv(cfg, s) && s.fired
    ensures Bounded(s) && Horizon(cfg, s) <= s.now + Teardown(s.verb)
  {
  }
}
