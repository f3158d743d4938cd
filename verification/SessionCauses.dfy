/** What has happened in a session, read off the steps of its run: each fact about the
    state a run ends in holds if and only if the run took one of the steps named here.
    The causes are stated by the step and what the session saw when it took it, so they
    say what src/session.rs waits for, not how the model computes it. */
module SessionCauses {
  import opened Codec
  import opened Session
  import opened SessionSafety

  datatype Fact =
    | PumpEnded(w: Pipe)      // the output task of a pipe is over
    | ChunkLost(w: Pipe)      // and took a chunk with it
    | Fired                   // cancel
    | WatchEnded              // the input task is over
    | HeardEnd                // open-pty: because the peer's end was read
    | StdinShut               // because the child refused its stdin
    | Spawned                 // a child exists
    | HungUp                  // its group got SIGHUP
    | Killed                  // its group got SIGKILL
    | TimedOut                // its end is put down to the deadline
    | LostPeer                // its end is put down to the peer

  predicate Lossy(p: Source) { p.pump.Aborted? && p.pump.lost != [] }

  predicate PutDownTo(s: State, why: Override) {
    || (s.main.Reaping? && s.main.why == why)
    || (s.kid.end.Some? && s.kid.end.value.why == why)
  }

  predicate Holds(f: Fact, s: State) {
    match f
    case PumpEnded(w) => SourceOf(s, w).pump.Ended?
    case ChunkLost(w) => Lossy(SourceOf(s, w))
    case Fired => s.fired
    case WatchEnded => s.feed.input.DoneIn?
    case HeardEnd => s.feed.input == DoneIn(PeerGone)
    case StdinShut => s.feed.input == DoneIn(StdinRefused)
    case Spawned => !s.kid.child.NoChild?
    case HungUp => s.kid.hungUp
    case Killed => s.kid.killedAt.Some?
    case TimedOut => PutDownTo(s, ByTimeout)
    case LostPeer => s.main.HangingUp? || PutDownTo(s, ByDisconnect)
  }

  /** The drain of pipe `w` runs out while its pump is parked on a full queue. */
  predicate CutsOff(s: State, step: Step, w: Pipe) {
    && step == MainTask(DrainEnds)
    && (if w == OutPipe then s.main.DrainingOut? else s.main.DrainingErr?)
    && SourceOf(s, w).pump.Sending?
  }

  /** The peer's close or a read error is the next thing to be read. */
  predicate PeerIsGone(s: State) { s.feed.inbox != [] && (s.feed.inbox[0].PeerClosed? || s.feed.inbox[0].ReadError?) }

  /** The pty's output task hands a chunk to a channel whose writer has gone. */
  predicate HandsToNoOne(s: State, step: Step, w: Pipe) {
    step == PumpTask(w) && s.verb == PtyVerb && s.ch.writer.Stopped?
  }

  /** The select loop is left because of the peer. */
  predicate PeerLeft(step: Step) { step == MainTask(SeesCancelled) || step == MainTask(InputEnded) }

  /** The request at hand is one a shell is started for. */
  predicate StartsChild(s: State, step: Step) {
    step.MainTask? && step.m.GotRequest? && s.feed.inbox != [] && s.feed.inbox[0].Request? &&
    match s.feed.inbox[0].body
    case Exec(d) => !d.Unconvertible? && step.m.fate == SpawnOk
    case OpenPty => step.m.fate != SpawnFails
    case _ => false
  }

  predicate Causes(f: Fact, s: State, step: Step) {
    match f
    case PumpEnded(w) => step == Env(ChildClosesPipe(w)) || HandsToNoOne(s, step, w)
    case ChunkLost(w) => CutsOff(s, step, w)
    case Fired =>
      || step == InputTask(Idles) || step == InputTask(Stalls)
      || (step == InputTask(InputStep.Reads) && s.verb == ExecVerb && PeerIsGone(s))
      || step == WriterTask(TimesOut) || step == Env(TransportFails)
      || (step == WriterTask(TakesFrame) && s.ch.queue != [] && |s.ch.queue[0].payload| > MAX_FRAME_LEN)
    case WatchEnded =>
      || step == InputTask(Idles) || step == InputTask(Stalls) || step == InputTask(Cancelled)
      || (step == InputTask(InputStep.Reads) && PeerIsGone(s)) || step == Env(ChildRefusesStdin)
    case HeardEnd => s.verb != ExecVerb && step == InputTask(InputStep.Reads) && PeerIsGone(s)
    case StdinShut => step == Env(ChildRefusesStdin)
    case Spawned => StartsChild(s, step)
    case HungUp => s.verb == PtyVerb && PeerLeft(step)
    case Killed =>
      || step == MainTask(DeadlinePasses)
      || (s.verb == ExecVerb && step == MainTask(SeesCancelled))
      || (s.main.HangingUp? && step == MainTask(GraceEnds))
      || (StartsChild(s, step) && step.m.fate == SetupFails && s.feed.inbox[0].body == OpenPty)
    case TimedOut => step == MainTask(DeadlinePasses)
    case LostPeer => PeerLeft(step)
  }

  /** Some step of the run is a cause of the fact. */
  ghost predicate Happens(cfg: Config, s: State, steps: seq<Step>, f: Fact)
    requires Legal(cfg, s, steps)
    decreases |steps|
  {
    steps != [] && (Causes(f, s, steps[0]) || Happens(cfg, Apply(cfg, s, steps[0]), steps[1..], f))
  }

  // ------------------------------------------------------------ step by step

  predicate ChunkInv(p: Source) { p.pump.Sending? ==> p.pump.chunk != [] }

  predicate ChunksInv(s: State) { ChunkInv(s.out) && ChunkInv(s.err) }

  lemma ChunksStep(cfg: Config, s: State, step: Step)
    requires ChunksInv(s) && Enabled(s, step)
    ensures ChunksInv(Apply(cfg, s, step))
  {
    hide Encode, ExitFrame, ErrorFrame;
  }

  /** Its own task changes nothing but the phase, the child and the pumps it aborts. */
  lemma MainLeaves(cfg: Config, s: State, m: MainStep)
    requires MainReady(s, m) && !m.GotRequest?
    ensures var t := MainApply(cfg, s, m);
            && t.fired == s.fired && t.feed == s.feed && t.verb == s.verb
            && (t.out == s.out || (m.DrainEnds? && s.main.DrainingOut? && t.out == s.out.Abort()))
            && (t.err == s.err || (m.DrainEnds? && s.main.DrainingErr? && t.err == s.err.Abort()))
            && (m.DrainEnds? && s.main.DrainingOut? ==> t.out == s.out.Abort() && !s.out.Gone())
            && (m.DrainEnds? && s.main.DrainingErr? ==> t.err == s.err.Abort() && !s.err.Gone())
  {
    hide OnRequest, ExitFrame, ErrorFrame;
  }

  predicate AboutTheChild(f: Fact) { f.Spawned? || f.HungUp? || f.Killed? || f.TimedOut? || f.LostPeer? }

  lemma CauseOutput(cfg: Config, s: State, m: MainStep, f: Fact)
    requires MainReady(s, m) && !m.GotRequest? && ChunksInv(s) && !AboutTheChild(f)
    ensures Holds(f, MainApply(cfg, s, m)) <==> Holds(f, s) || Causes(f, s, MainTask(m))
  {
    MainLeaves(cfg, s, m);
    hide MainApply, MainReady;
  }

  lemma CauseSignals(cfg: Config, s: State, m: MainStep, f: Fact)
    requires Shape(s) && KidInv(s.now, s.main, s.verb, s.kid) && MainReady(s, m) && !m.GotRequest?
    requires f.Spawned? || f.HungUp? || f.Killed?
    ensures Holds(f, MainApply(cfg, s, m)) <==> Holds(f, s) || Causes(f, s, MainTask(m))
  {
    hide OnRequest, ExitFrame, ErrorFrame, Fresh, Lossy, CutsOff, PutDownTo;
  }

  lemma CauseReasons(cfg: Config, s: State, m: MainStep, f: Fact)
    requires Shape(s) && KidInv(s.now, s.main, s.verb, s.kid) && MainReady(s, m) && !m.GotRequest?
    requires f.TimedOut? || f.LostPeer?
    ensures Holds(f, MainApply(cfg, s, m)) <==> Holds(f, s) || Causes(f, s, MainTask(m))
  {
    hide OnRequest, ExitFrame, ErrorFrame, Fresh, Lossy, CutsOff, StartsChild;
  }

  lemma CauseRequest(cfg: Config, s: State, fate: Fate, f: Fact)
    requires Shape(s) && KidInv(s.now, s.main, s.verb, s.kid)
    requires s.main.AwaitRequest? && s.feed.inbox != []
    ensures Holds(f, OnRequest(cfg, s, fate)) <==> Holds(f, s) || Causes(f, s, MainTask(GotRequest(fate)))
  {
  }

  lemma AskedNow(cfg: Config, s: State, m: MainStep, f: Fact)
    requires Shape(s) && KidInv(s.now, s.main, s.verb, s.kid) && MainReady(s, m) && m.GotRequest?
    ensures Holds(f, MainApply(cfg, s, m)) <==> Holds(f, s) || Causes(f, s, MainTask(m))
  {
    hide Shape, KidInv, Holds, Causes, OnRequest;
    CauseRequest(cfg, s, m.fate, f);
  }

  lemma CauseTick(s: State, f: Fact)
    ensures Holds(f, s.(now := s.now + 1)) <==> Holds(f, s)
    ensures !Causes(f, s, Tick)
  {
  }

  lemma CauseEnv(s: State, e: EnvStep, f: Fact)
    requires EnvReady(s, e)
    ensures Holds(f, EnvApply(s, e)) <==> Holds(f, s) || Causes(f, s, Env(e))
  {
    hide Encode;
  }

  lemma CauseWriter(cfg: Config, s: State, a: WriterStep, f: Fact)
    requires WriterReady(s, a)
    ensures Holds(f, WriterApply(cfg, s, a)) <==> Holds(f, s) || Causes(f, s, WriterTask(a))
  {
  }

  lemma CausePump(s: State, w: Pipe, f: Fact)
    requires PumpReady(s, w)
    ensures Holds(f, PumpApply(s, w)) <==> Holds(f, s) || Causes(f, s, PumpTask(w))
  {
  }

  lemma CauseInput(cfg: Config, s: State, i: InputStep, f: Fact)
    requires Shape(s) && InputReady(s, i)
    ensures Holds(f, InputApply(cfg, s, i)) <==> Holds(f, s) || Causes(f, s, InputTask(i))
  {
    hide Fresh;
  }

  lemma CauseStep(cfg: Config, s: State, step: Step, f: Fact)
    requires Shape(s) && KidInv(s.now, s.main, s.verb, s.kid) && Enabled(s, step)
    requires ChunksInv(s)
    ensures Holds(f, Apply(cfg, s, step)) <==> Holds(f, s) || Causes(f, s, step)
  {
    hide Shape, KidInv, Holds, Causes;
    hide EnvApply, WriterApply, PumpApply, InputApply, MainApply, OnRequest;
    hide EnvReady, WriterReady, PumpReady, InputReady;
    match step {
      case MainTask(m) =>
        if m.GotRequest? { AskedNow(cfg, s, m, f); }
        else if f.TimedOut? || f.LostPeer? { CauseReasons(cfg, s, m, f); }
        else if AboutTheChild(f) { CauseSignals(cfg, s, m, f); }
        else { CauseOutput(cfg, s, m, f); }
      case Env(e) => CauseEnv(s, e, f);
      case WriterTask(a) => CauseWriter(cfg, s, a, f);
      case PumpTask(w) => CausePump(s, w, f);
      case InputTask(i) => CauseInput(cfg, s, i, f);
      case Tick => CauseTick(s, f);
    }
  }

  // ------------------------------------------------------------ every run

  lemma {:induction false} CauseRun(cfg: Config, s: State, steps: seq<Step>, f: Fact)
    requires Inv(cfg, s) && ChunksInv(s) && Legal(cfg, s, steps)
    ensures Holds(f, After(cfg, s, steps)) <==> Holds(f, s) || Happens(cfg, s, steps, f)
    decreases |steps|
  {
    hide Ready, Apply, Shape, OrderInv, WireInv, Conserved, StdinInv, KidInv, TeardownInv, ChunksInv, Holds, Causes;
    if steps != [] {
      InvStep(cfg, s, steps[0]);
      ChunksStep(cfg, s, steps[0]);
      CauseStep(cfg, s, steps[0], f);
      CauseRun(cfg, Apply(cfg, s, steps[0]), steps[1..], f);
    }
  }

  /** Main result: a pump is over exactly when its pipe was closed (or, for open-pty, it
      found nobody to hand its chunk to); a chunk is lost exactly when a drain ran out on
      a full queue; cancel has fired, and the watch is over, exactly after a timeout, a
      failed write or the peer's end; and the child was started, hung up, killed, timed
      out or given up for its peer exactly where the source does it. */
  lemma FactsHaveCauses(cfg: Config, steps: seq<Step>, f: Fact)
    requires Legal(cfg, Init(cfg), steps)
    ensures Holds(f, After(cfg, Init(cfg), steps)) <==> Happens(cfg, Init(cfg), steps, f)
  {
    hide Legal, After, Happens, Inv;
    InitInv(cfg);
    CauseRun(cfg, Init(cfg), steps, f);
  }
}
