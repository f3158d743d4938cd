/** When a session's timers fire: each at the very moment the source promises, counted
    from the step of the run that started it, and exec's deadline from its REQUEST. */
module SessionTimers {
  import opened Wrappers
  import opened Codec
  import opened Session
  import opened SessionSafety
  import opened SessionTime

  // ------------------------------------------------------------ started when

  datatype Clock = WriteClock | WatchClock | PhaseClock

  /** The steps that start a clock afresh: a frame taken for writing; the request, a frame
      read or a write to the child completed; any move of the session's own task. */
  predicate Starts(k: Clock, step: Step) {
    match k
    case WriteClock => step == WriterTask(TakesFrame)
    case WatchClock =>
      || step == InputTask(InputStep.Reads) || step == InputTask(Written)
      || (step.MainTask? && step.m.GotRequest?)
    case PhaseClock => step.MainTask?
  }

  /** The time of the last such step, or `at` if there was none. */
  ghost function LastStart(cfg: Config, s: State, steps: seq<Step>, k: Clock, at: nat): nat
    requires Legal(cfg, s, steps)
    decreases |steps|
  {
    if steps == [] then at
    else LastStart(cfg, Apply(cfg, s, steps[0]), steps[1..], k, if Starts(k, steps[0]) then s.now else at)
  }

  predicate Timed(m: Main) { m.AwaitRequest? || m.Waiting() || m.Draining() }

  /** How long the session's own task waits in a phase. */
  function Grace(cfg: Config, m: Main, v: Verb): nat
    requires Timed(m)
  {
    if m.AwaitRequest? then cfg.idle
    else if m.HangingUp? then HANGUP_GRACE
    else if m.Waiting() then REAP_GRACE
    else if v == ExecVerb then EXEC_DRAIN
    else PTY_DRAIN
  }

  predicate ExactInv(cfg: Config, s: State, write: nat, watch: nat, phase: nat) {
    && (s.ch.writer.Writing? ==> s.ch.writer.until == write + cfg.write)
    && (s.feed.input.AwaitFrame? || s.feed.input.FeedChild? ==> s.feed.input.until == watch + cfg.idle)
    && (Timed(s.main) ==> s.main.until == phase + Grace(cfg, s.main, s.verb))
  }

  lemma ExactRequest(cfg: Config, s: State, fate: Fate, write: nat, watch: nat, phase: nat)
    requires Shape(s) && ExactInv(cfg, s, write, watch, phase)
    requires s.main.AwaitRequest? && s.feed.inbox != []
    ensures ExactInv(cfg, OnRequest(cfg, s, fate), write, s.now, s.now)
  {
  }

  lemma ExactMain(cfg: Config, s: State, m: MainStep, write: nat, watch: nat, phase: nat)
    requires Shape(s) && ExactInv(cfg, s, write, watch, phase) && MainReady(s, m)
    ensures ExactInv(cfg, MainApply(cfg, s, m), write, if m.GotRequest? then s.now else watch, s.now)
  {
    hide OnRequest, ExitFrame, ErrorFrame, Fresh;
    if m.GotRequest? {
      hide ExactInv, Shape;
      ExactRequest(cfg, s, m.fate, write, watch, phase);
    }
  }

  lemma ExactTask(cfg: Config, s: State, step: Step, write: nat, watch: nat, phase: nat)
    requires ExactInv(cfg, s, write, watch, phase) && Enabled(s, step) && !step.MainTask?
    ensures ExactInv(cfg, Apply(cfg, s, step),
                     if Starts(WriteClock, step) then s.now else write,
                     if Starts(WatchClock, step) then s.now else watch, phase)
  {
    hide Encode, MainApply, MainReady, Grace;
  }

  lemma {:induction false} ExactRun(cfg: Config, s: State, steps: seq<Step>, write: nat, watch: nat, phase: nat)
    requires Inv(cfg, s) && ExactInv(cfg, s, write, watch, phase) && Legal(cfg, s, steps)
    ensures ExactInv(cfg, After(cfg, s, steps), LastStart(cfg, s, steps, WriteClock, write),
                     LastStart(cfg, s, steps, WatchClock, watch), LastStart(cfg, s, steps, PhaseClock, phase))
    decreases |steps|
  {
    hide Ready, EnvApply, WriterApply, PumpApply, InputApply, MainApply;
    hide Shape, OrderInv, WireInv, Conserved, StdinInv, KidInv, TeardownInv, ExactInv;
    if steps != [] {
      var step := steps[0];
      var write' := if Starts(WriteClock, step) then s.now else write;
      var watch' := if Starts(WatchClock, step) then s.now else watch;
      var phase' := if Starts(PhaseClock, step) then s.now else phase;
      InvStep(cfg, s, step);
      ExactStep(cfg, s, step, write, watch, phase);
      ExactRun(cfg, Apply(cfg, s, step), steps[1..], write', watch', phase');
    }
  }

  lemma ExactStep(cfg: Config, s: State, step: Step, write: nat, watch: nat, phase: nat)
    requires Shape(s) && ExactInv(cfg, s, write, watch, phase) && Enabled(s, step)
    ensures ExactInv(cfg, Apply(cfg, s, step),
                     if Starts(WriteClock, step) then s.now else write,
                     if Starts(WatchClock, step) then s.now else watch,
                     if Starts(PhaseClock, step) then s.now else phase)
  {
    hide Shape, ExactInv, MainApply, MainReady;
    if step.MainTask? {
      ExactMain(cfg, s, step.m, write, watch, phase);
    } else {
      ExactTask(cfg, s, step, write, watch, phase);
      hide Ready;
    }
  }

  /** The step is a timer's, and what the timer bounds has not come. */
  predicate InVain(s: State, step: Step) {
    && (step == MainTask(NoRequest) ==> s.feed.inbox == [])
    && (step == MainTask(GraceEnds) ==> s.kid.child.Alive?)
    && (step == MainTask(DrainEnds) ==> !(if s.main.DrainingOut? then s.out else s.err).Gone())
    && (step == InputTask(Idles) ==> s.feed.inbox == [])
    && (step == InputTask(Stalls) ==> s.feed.input.FeedChild? && s.feed.input.left != [])
  }

  /** Main result: no timer fires early or late, and none once what it waits for is there.  A write is given up exactly
      write_timeout after its frame was taken, the peer exactly idle_timeout after the
      last frame read or write to the child completed, and a wait for the REQUEST, the
      reap, the hangup or a drain exactly its own time after it began. */
  lemma TimersAreExact(cfg: Config, steps: seq<Step>, step: Step)
    requires Legal(cfg, Init(cfg), steps) && Enabled(After(cfg, Init(cfg), steps), step)
    ensures var s := After(cfg, Init(cfg), steps);
            && InVain(s, step)
            && (step == WriterTask(TimesOut) ==> s.now == LastStart(cfg, Init(cfg), steps, WriteClock, 0) + cfg.write)
            && (step == InputTask(Idles) || step == InputTask(Stalls) ==>
                  s.now == LastStart(cfg, Init(cfg), steps, WatchClock, 0) + cfg.idle)
            && (step == MainTask(NoRequest) || step == MainTask(GraceEnds) || step == MainTask(DrainEnds) ==>
                  Timed(s.main) &&
                  s.now == LastStart(cfg, Init(cfg), steps, PhaseClock, 0) + Grace(cfg, s.main, s.verb))
  {
    hide Legal, After, LastStart, Inv;
    TimedReached(cfg, steps);
    InitInv(cfg);
    ExactRun(cfg, Init(cfg), steps, 0, 0, 0);
    var s := After(cfg, Init(cfg), steps);
    Punctual(cfg, s, step, LastStart(cfg, Init(cfg), steps, WriteClock, 0),
             LastStart(cfg, Init(cfg), steps, WatchClock, 0), LastStart(cfg, Init(cfg), steps, PhaseClock, 0));
    NothingCame(cfg, s, step);
    hide Ready, TimersInv, ExactInv, InVain;
  }

  lemma NothingCame(cfg: Config, s: State, step: Step)
    requires Inv(cfg, s) && Enabled(s, step)
    ensures InVain(s, step)
  {
    hide WireInv, OrderInv, Conserved, StdinInv, TeardownInv, EnvReady, WriterReady, PumpReady;
  }

  lemma Punctual(cfg: Config, s: State, step: Step, write: nat, watch: nat, phase: nat)
    requires TimersInv(cfg, s) && ExactInv(cfg, s, write, watch, phase) && Enabled(s, step)
    ensures step == WriterTask(TimesOut) ==> s.now == write + cfg.write
    ensures step == InputTask(Idles) || step == InputTask(Stalls) ==> s.now == watch + cfg.idle
    ensures step == MainTask(NoRequest) || step == MainTask(GraceEnds) || step == MainTask(DrainEnds) ==>
              Timed(s.main) && s.now == phase + Grace(cfg, s.main, s.verb)
  {
    hide Encode, EnvReady, PumpReady;
  }

  // ------------------------------------------------------------ the deadline

  /** When an exec whose REQUEST is served at `start` is due: its own deadline, or the
      agent's default if it names none, or never if it opts out with 0. */
  predicate DueAt(cfg: Config, d: DeadlineField, start: nat, due: Option<nat>) {
    match d
    case Millis(ms) => due == Some(start + ms)
    case Zero => due == None
    case Absent => if cfg.defaultDeadline.None? then due == None else due == Some(start + cfg.defaultDeadline.value)
    case Unconvertible => false
  }

  /** An exec that is due at `due`, in any state after its start. */
  predicate OnDeadline(s: State, due: Option<nat>) {
    && !s.main.AwaitRequest? && s.verb == ExecVerb && s.deadline == due
  }

  lemma DeadlineStart(cfg: Config, s: State, d: DeadlineField, due: Option<nat>)
    requires Enabled(s, MainTask(GotRequest(SpawnOk))) && s.feed.inbox[0] == Request(Exec(d))
    requires DueAt(cfg, d, s.now, due)
    ensures OnDeadline(Apply(cfg, s, MainTask(GotRequest(SpawnOk))), due)
  {
  }

  lemma DeadlineStep(cfg: Config, s: State, step: Step, due: Option<nat>)
    requires Shape(s) && OnDeadline(s, due) && Enabled(s, step)
    ensures OnDeadline(Apply(cfg, s, step), due)
  {
    hide ExitFrame, ErrorFrame, OnRequest, Fresh;
    if !step.MainTask? { Unmoved(cfg, s, step); hide Ready, Apply, Shape; }
  }

  lemma {:induction false} DeadlineRun(cfg: Config, s: State, steps: seq<Step>, due: Option<nat>)
    requires Inv(cfg, s) && OnDeadline(s, due) && Legal(cfg, s, steps)
    ensures OnDeadline(After(cfg, s, steps), due)
    decreases |steps|
  {
    hide Ready, Apply, Shape, OrderInv, WireInv, Conserved, StdinInv, KidInv, TeardownInv, OnDeadline;
    if steps != [] {
      InvStep(cfg, s, steps[0]);
      DeadlineStep(cfg, s, steps[0], due);
      DeadlineRun(cfg, Apply(cfg, s, steps[0]), steps[1..], due);
    }
  }

  /** Main result: an exec is killed for its deadline at the moment its REQUEST asked for,
      never before and, while it runs, never after; one that opted out, or asked for
      nothing where there is no default, is never timed out. */
  lemma DeadlineIsThePromised(cfg: Config, a: seq<Step>, b: seq<Step>, d: DeadlineField, due: Option<nat>)
    requires Legal(cfg, Init(cfg), a)
    requires Enabled(After(cfg, Init(cfg), a), MainTask(GotRequest(SpawnOk)))
    requires After(cfg, Init(cfg), a).feed.inbox[0] == Request(Exec(d))
    requires DueAt(cfg, d, After(cfg, Init(cfg), a).now, due)
    requires Legal(cfg, Apply(cfg, After(cfg, Init(cfg), a), MainTask(GotRequest(SpawnOk))), b)
    ensures var s := After(cfg, Apply(cfg, After(cfg, Init(cfg), a), MainTask(GotRequest(SpawnOk))), b);
            && s.verb == ExecVerb
            && ((s.main.Reaping? && s.main.why == ByTimeout) || (s.kid.end.Some? && s.kid.end.value.why == ByTimeout) ==>
                  due.Some? && s.kid.killedAt == due)
            && (s.main.Running? && due.Some? ==> s.now <= due.value)
  {
    hide Legal, After, Inv, Enabled, Apply, DueAt, OnDeadline;
    var s0 := After(cfg, Init(cfg), a);
    TimedReached(cfg, a);
    DeadlineStart(cfg, s0, d, due);
    TimedStep(cfg, s0, MainTask(GotRequest(SpawnOk)));
    var s1 := Apply(cfg, s0, MainTask(GotRequest(SpawnOk)));
    TimedRun(cfg, s1, b);
    DeadlineRun(cfg, s1, b, due);
    DeadlineMeans(cfg, After(cfg, s1, b), due);
  }

  lemma DeadlineMeans(cfg: Config, s: State, due: Option<nat>)
    requires TimedInv(cfg, s) && OnDeadline(s, due)
    ensures s.verb == ExecVerb
    ensures (s.main.Reaping? && s.main.why == ByTimeout) || (s.kid.end.Some? && s.kid.end.value.why == ByTimeout) ==>
              due.Some? && s.kid.killedAt == due
    ensures s.main.Running? && due.Some? ==> s.now <= due.value
  {
    hide Inv;
  }

  /** exec's select is biased, src/session.rs:461-505: cancel before the deadline, the
      deadline before the child, and the client's input last. */
  lemma ExecSelectIsBiased(cfg: Config, a: seq<Step>, b: seq<Step>, d: DeadlineField, due: Option<nat>)
    requires Legal(cfg, Init(cfg), a)
    requires Enabled(After(cfg, Init(cfg), a), MainTask(GotRequest(SpawnOk)))
    requires After(cfg, Init(cfg), a).feed.inbox[0] == Request(Exec(d))
    requires DueAt(cfg, d, After(cfg, Init(cfg), a).now, due)
    requires Legal(cfg, Apply(cfg, After(cfg, Init(cfg), a), MainTask(GotRequest(SpawnOk))), b)
    ensures var s := After(cfg, Apply(cfg, After(cfg, Init(cfg), a), MainTask(GotRequest(SpawnOk))), b);
            s.main.Running? ==>
              && (Enabled(s, MainTask(SeesCancelled)) <==> s.fired)
              && (Enabled(s, MainTask(DeadlinePasses)) <==> !s.fired && due == Some(s.now))
              && (Enabled(s, MainTask(ChildEnded)) <==> !s.fired && due != Some(s.now) && s.kid.child.Dead?)
              && ((exists i :: Enabled(s, InputTask(i))) ==> !s.fired && due != Some(s.now) && !s.kid.child.Dead?)
  {
    hide Legal, After, Inv, Enabled, Apply, DueAt, OnDeadline;
    var s0 := After(cfg, Init(cfg), a);
    TimedReached(cfg, a);
    DeadlineStart(cfg, s0, d, due);
    TimedStep(cfg, s0, MainTask(GotRequest(SpawnOk)));
    var s1 := Apply(cfg, s0, MainTask(GotRequest(SpawnOk)));
    TimedRun(cfg, s1, b);
    DeadlineRun(cfg, s1, b, due);
    Priorities(cfg, After(cfg, s1, b), due);
  }

  lemma Priorities(cfg: Config, s: State, due: Option<nat>)
    requires TimedInv(cfg, s) && OnDeadline(s, due)
    ensures s.main.Running? ==>
              && (Enabled(s, MainTask(SeesCancelled)) <==> s.fired)
              && (Enabled(s, MainTask(DeadlinePasses)) <==> !s.fired && due == Some(s.now))
              && (Enabled(s, MainTask(ChildEnded)) <==> !s.fired && due != Some(s.now) && s.kid.child.Dead?)
              && ((exists i :: Enabled(s, InputTask(i))) ==> !s.fired && due != Some(s.now) && !s.kid.child.Dead?)
  {
    hide Inv;
  }
}
