/** One agent session, src/session.rs:171-796, as a labelled transition system.

    The runtime is current-thread: each task poll is atomic and an aborted task is
    never polled again.  Steps are either taken by the environment (the peer, the
    child, the transport) or by the session's own tasks.  The clock, in milliseconds,
    advances only when no task can run; in particular it cannot pass an armed timer. */
module Session {
  import opened Wrappers
  import opened Codec
  import opened Control

  const READ_CHUNK := 32 * 1024
  const CHANNEL_BOUND := 64
  const REAP_GRACE := 5000
  const HANGUP_GRACE := 2000
  const EXEC_DRAIN := 250
  const PTY_DRAIN := 200

  datatype Config = Config(
    idle: nat,                           // idle_timeout
    write: nat,                          // write_timeout
    defaultDeadline: Option<nat>,
    json: Message -> seq<byte>)          // serde_json

  // ------------------------------------------------------------ what arrives

  datatype DeadlineField = Absent | Zero | Millis(ms: nat) | Unconvertible

  datatype RequestBody = NotJson | Exec(deadline: DeadlineField) | OpenPty | OtherVerb

  /** The successive results of `read_frame`, with control payloads already parsed. */
  datatype Inbound =
    | Request(body: RequestBody)
    | Stdin(bytes: seq<byte>)
    | StdinEof
    | Other            // PING, RESIZE and unknown types: liveness only
    | PeerClosed       // Ok(None)
    | ReadError        // Err(_)

  // ------------------------------------------------------------ exit statuses

  datatype Override = NoOverride | ByTimeout | ByDisconnect

  /** The `io::Result<ExitStatus>` of a wait; GraceOver is the synthetic TimedOut. */
  datatype Status = Code(code: int) | Signal(sig: int) | NoStatus | WaitFailed | GraceOver

  function ExitFields(st: Status, why: Override): (int, Reason) {
    match st
    case Code(code) => (code, if why == NoOverride then Exited else Named(why))
    case Signal(sig) => (128 + sig, if why == NoOverride then Signaled else Named(why))
    case NoStatus => (-1, if why == NoOverride then Exited else Named(why))
    case WaitFailed => (-1, Unreaped)
    case GraceOver => (-1, Unreaped)
  }

  function Named(why: Override): Reason
    requires why != NoOverride
  {
    if why == ByTimeout then TimedOut else Disconnected
  }

  // ------------------------------------------------------------ the outbound side

  datatype Writer = Idle | Writing(f: Frame, sent: nat, until: nat) | Stopped

  /** The bounded channel with the writer task that drains it, and their histories:
      every frame accepted, every frame written and flushed, every byte on the wire. */
  datatype Channel = Channel(
    writer: Writer,
    queue: seq<Frame>,
    enq: seq<Frame>,
    done: seq<Frame>,
    wire: seq<byte>)
  {
    /** `tx.send` completes at once: there is room, or the receiver is gone. */
    predicate CanSend() { writer.Stopped? || |queue| < CHANNEL_BOUND }

    function Push(f: Frame): Channel {
      if writer.Stopped? then this else this.(queue := queue + [f], enq := enq + [f])
    }

    function Take(until: nat): Channel
      requires queue != []
    {
      this.(writer := Writing(queue[0], 0, until), queue := queue[1..])
    }

    function Put(n: nat): Channel
      requires writer.Writing? && writer.sent + n <= |Encode(writer.f)|
    {
      this.(wire := wire + Encode(writer.f)[writer.sent..writer.sent + n],
            writer := writer.(sent := writer.sent + n))
    }

    function Flush(): Channel
      requires writer.Writing?
    {
      this.(writer := Idle, done := done + [writer.f])
    }

    /** The writer ends, dropping the receiver and whatever is queued. */
    function Stop(): Channel { this.(writer := Stopped, queue := []) }
  }

  /** A pump task and everything it has read; `lost` is the chunk it was parked on when
      it was aborted. */
  datatype Pump = Unborn | Reading | Sending(chunk: seq<byte>) | Ended | Aborted(lost: seq<byte>)

  datatype Source = Source(pump: Pump, got: seq<byte>) {
    predicate Gone() { pump.Unborn? || pump.Ended? || pump.Aborted? }

    function Pending(): seq<byte> {
      match pump
      case Sending(chunk) => chunk
      case Aborted(lost) => lost
      case _ => []
    }

    function Read(chunk: seq<byte>): Source { Source(Sending(chunk), got + chunk) }

    function Abort(): Source { Source(Aborted(Pending()), got) }
  }

  // ------------------------------------------------------------ the inbound side

  datatype InputEnd =
    | FiredCancel     // idle lapse, stalled write, or (exec) EOF or read error
    | StdinRefused    // the write to the child failed
    | PeerGone        // open-pty: EOF or read error, cancel not fired
    | SawCancel       // open-pty: the biased inner select

  /** stdin_task of exec, input_task of open-pty. */
  datatype Input =
    | NoInput
    | AwaitFrame(until: nat)
    | FeedChild(left: seq<byte>, until: nat)
    | DoneIn(how: InputEnd)

  /** The input task, what the peer has sent, what of it is unread, what the task has
      read, and what has reached the child. */
  datatype Feed = Feed(
    input: Input,
    open: bool,              // exec: cstdin is still Some
    heard: seq<Inbound>,
    inbox: seq<Inbound>,
    read: seq<Inbound>,
    childIn: seq<byte>)
  {
    function Hear(ev: Inbound): Feed { this.(heard := heard + [ev], inbox := inbox + [ev]) }

    function Start(until: nat): Feed
      requires inbox != []
    {
      this.(inbox := inbox[1..], input := AwaitFrame(until), open := true)
    }

    function Drop(): Feed
      requires inbox != []
    {
      this.(inbox := inbox[1..])
    }

    function Become(i: Input): Feed { this.(input := i) }

    function Pass(n: nat): Feed
      requires input.FeedChild? && n <= |input.left|
    {
      this.(childIn := childIn + input.left[..n], input := input.(left := input.left[n..]))
    }

    /** Consume one frame; `until` arms the next timeout. */
    function Consume(v: Verb, until: nat): Feed
      requires inbox != []
    {
      var ev := inbox[0];
      var t := this.(inbox := inbox[1..], read := read + [ev], input := AwaitFrame(until));
      match ev
      case Stdin(bytes) => if open then t.(input := FeedChild(bytes, until)) else t
      case StdinEof => if v == ExecVerb then t.(open := false) else t
      case PeerClosed => t.(input := DoneIn(if v == ExecVerb then FiredCancel else PeerGone))
      case ReadError => t.(input := DoneIn(if v == ExecVerb then FiredCancel else PeerGone))
      case _ => t
    }
  }

  // ------------------------------------------------------------ the child

  datatype Child = NoChild | Alive | Dead(st: Status)

  datatype End = End(st: Status, why: Override)

  /** The child, the signals the session sent it, and the wait result with its
      override once known. */
  datatype Kid = Kid(child: Child, hungUp: bool, killedAt: Option<nat>, end: Option<End>)

  // ------------------------------------------------------------ the session

  datatype Verb = NoVerb | ExecVerb | PtyVerb

  /** Where run_session's own task is parked. */
  datatype Main =
    | AwaitRequest(until: nat)
    | Failing(what: Failure)               // send_error
    | Running                              // the verb's select loop
    | Reaping(until: nat, why: Override)   // SIGKILL sent, REAP_GRACE running
    | HangingUp(until: nat)                // open-pty: SIGHUP sent
    | Abandoning(until: nat)               // open-pty set-up failed after the spawn
    | DrainingOut(until: nat)
    | DrainingErr(until: nat)
    | SendingExit
    | Closing                              // tx dropped, awaiting the writer
    | Returned
  {
    predicate Waiting() { Reaping? || HangingUp? || Abandoning? }
    predicate Draining() { DrainingOut? || DrainingErr? }
    predicate Over() { Closing? || Returned? }
  }

  datatype State = State(
    now: nat,
    main: Main,
    verb: Verb,
    limit: Option<nat>,      // effective_deadline, relative
    deadline: Option<nat>,   // the deadline timer, absolute
    fired: bool,             // cancel
    ch: Channel,
    out: Source,
    err: Source,
    feed: Feed,
    kid: Kid)

  function Init(cfg: Config): State {
    State(0, AwaitRequest(cfg.idle), NoVerb, None, None, false,
          Channel(Idle, [], [], [], []), Source(Unborn, []), Source(Unborn, []),
          Feed(NoInput, false, [], [], [], []), Kid(NoChild, false, None, None))
  }

  predicate DeadlineDue(s: State) { s.deadline.Some? && s.now >= s.deadline.value }

  /** Whether the running select would poll the input task.  exec's select is biased:
      cancel, the deadline and the child come first. */
  predicate InputTurn(s: State) {
    s.main.Running? && (s.verb == ExecVerb ==> !s.fired && !DeadlineDue(s) && !s.kid.child.Dead?)
  }

  function ErrorFrame(cfg: Config, what: Failure): Frame {
    Frame(FRAME_ERROR, cfg.json(ErrorInfo(what)))
  }

  function ExitFrame(cfg: Config, e: End): Frame {
    var (code, reason) := ExitFields(e.st, e.why);
    Frame(FRAME_EXIT, cfg.json(ExitInfo(code, reason)))
  }

  datatype Pipe = OutPipe | ErrPipe

  function TypeOf(w: Pipe): byte { if w == OutPipe then FRAME_STDOUT else FRAME_STDERR }

  function SourceOf(s: State, w: Pipe): Source { if w == OutPipe then s.out else s.err }

  function WithSource(s: State, w: Pipe, p: Source): State {
    if w == OutPipe then s.(out := p) else s.(err := p)
  }

  // ------------------------------------------------------------ the environment

  datatype EnvStep =
    | PeerSends(ev: Inbound)
    | ChildWrites(w: Pipe, chunk: seq<byte>)
    | ChildClosesPipe(w: Pipe)
    | ChildEnds(st: Status)
    | ChildReadsStdin(n: nat)
    | ChildRefusesStdin
    | TransportTakes(n: nat)
    | TransportFlushes
    | TransportFails

  predicate EnvReady(s: State, e: EnvStep) {
    match e
    case PeerSends(_) => true
    case ChildWrites(w, chunk) => SourceOf(s, w).pump.Reading? && 0 < |chunk| <= READ_CHUNK
    case ChildClosesPipe(w) => SourceOf(s, w).pump.Reading?
    case ChildEnds(st) => s.kid.child.Alive? && !st.GraceOver?
    case ChildReadsStdin(n) =>
      InputTurn(s) && !s.fired && s.feed.input.FeedChild? && 0 < n <= |s.feed.input.left|
    case ChildRefusesStdin => InputTurn(s) && !s.fired && s.feed.input.FeedChild? && s.feed.input.left != []
    case TransportTakes(n) =>
      !s.fired && s.ch.writer.Writing? && 0 < n && s.ch.writer.sent + n <= |Encode(s.ch.writer.f)|
    case TransportFlushes =>
      !s.fired && s.ch.writer.Writing? && s.ch.writer.sent == |Encode(s.ch.writer.f)|
    case TransportFails => !s.fired && s.ch.writer.Writing?
  }

  function EnvApply(s: State, e: EnvStep): State
    requires EnvReady(s, e)
  {
    match e
    case PeerSends(ev) => s.(feed := s.feed.Hear(ev))
    case ChildWrites(w, chunk) => WithSource(s, w, SourceOf(s, w).Read(chunk))
    case ChildClosesPipe(w) => WithSource(s, w, SourceOf(s, w).(pump := Ended))
    case ChildEnds(st) => s.(kid := s.kid.(child := Dead(st)))
    case ChildReadsStdin(n) => s.(feed := s.feed.Pass(n))
    case ChildRefusesStdin => s.(feed := s.feed.Become(DoneIn(StdinRefused)))
    case TransportTakes(n) => s.(ch := s.ch.Put(n))
    case TransportFlushes => s.(ch := s.ch.Flush())
    case TransportFails => s.(fired := true, ch := s.ch.Stop())
  }

  // ------------------------------------------------------------ the writer task

  datatype WriterStep = SeesCancel | TakesFrame | TimesOut | ChannelClosed

  predicate WriterReady(s: State, a: WriterStep) {
    match a
    case SeesCancel => s.fired && !s.ch.writer.Stopped?
    case TakesFrame => !s.fired && s.ch.writer.Idle? && s.ch.queue != []
    case TimesOut => !s.fired && s.ch.writer.Writing? && s.now >= s.ch.writer.until
    case ChannelClosed =>
      !s.fired && s.ch.writer.Idle? && s.ch.queue == [] && s.main.Closing? && s.out.Gone() && s.err.Gone()
  }

  function WriterApply(cfg: Config, s: State, a: WriterStep): State
    requires WriterReady(s, a)
  {
    match a
    case SeesCancel => s.(ch := s.ch.Stop())
    case TakesFrame =>
      // write_frame refuses an oversized payload, which counts as a write error
      if |s.ch.queue[0].payload| > MAX_FRAME_LEN then s.(fired := true, ch := s.ch.Stop())
      else s.(ch := s.ch.Take(s.now + cfg.write))
    case TimesOut => s.(fired := true, ch := s.ch.Stop())
    case ChannelClosed => s.(ch := s.ch.Stop())
  }

  // ------------------------------------------------------------ a pump task

  predicate PumpReady(s: State, w: Pipe) { SourceOf(s, w).pump.Sending? && s.ch.CanSend() }

  function PumpApply(s: State, w: Pipe): State
    requires PumpReady(s, w)
  {
    // exec's pump ignores a closed channel; the pty's output task stops on one
    var next := if s.ch.writer.Stopped? && s.verb == PtyVerb then Ended else Reading;
    var src := SourceOf(s, w);
    WithSource(s, w, src.(pump := next)).(ch := s.ch.Push(Frame(TypeOf(w), src.pump.chunk)))
  }

  // ------------------------------------------------------------ the input task

  datatype InputStep = Reads | Idles | Cancelled | Written | Stalls

  predicate InputReady(s: State, i: InputStep) {
    var input := s.feed.input;
    && InputTurn(s)
    && match i
       case Reads => input.AwaitFrame? && s.feed.inbox != []
       case Idles => input.AwaitFrame? && s.feed.inbox == [] && s.now >= input.until
       case Cancelled => input.FeedChild? && s.fired
       case Written => input.FeedChild? && !s.fired && input.left == []
       case Stalls => input.FeedChild? && !s.fired && input.left != [] && s.now >= input.until
  }

  function InputApply(cfg: Config, s: State, i: InputStep): State
    requires InputReady(s, i)
  {
    match i
    case Reads =>
      var f := s.feed.Consume(s.verb, s.now + cfg.idle);
      s.(feed := f, fired := s.fired || f.input == DoneIn(FiredCancel))
    case Idles => s.(fired := true, feed := s.feed.Become(DoneIn(FiredCancel)))
    case Cancelled => s.(feed := s.feed.Become(DoneIn(SawCancel)))
    case Written => s.(feed := s.feed.Become(AwaitFrame(s.now + cfg.idle)))
    case Stalls => s.(fired := true, feed := s.feed.Become(DoneIn(FiredCancel)))
  }

  // ------------------------------------------------------------ the session task

  datatype Fate = SpawnOk | SpawnFails | SetupFails

  datatype MainStep =
    | GotRequest(fate: Fate)
    | NoRequest
    | SendsError
    | SendsExit
    | SeesCancelled
    | DeadlinePasses
    | ChildEnded
    | InputEnded
    | ReapedChild
    | GraceEnds
    | DrainDone
    | DrainEnds
    | Returns

  predicate MainReady(s: State, m: MainStep) {
    match m
    case GotRequest(_) => s.main.AwaitRequest? && s.feed.inbox != []
    case NoRequest => s.main.AwaitRequest? && s.feed.inbox == [] && s.now >= s.main.until
    case SendsError => s.main.Failing? && s.ch.CanSend()
    case SendsExit => s.main.SendingExit? && s.ch.CanSend() && s.kid.end.Some?
    case SeesCancelled => s.main.Running? && s.fired
    case DeadlinePasses => s.main.Running? && s.verb == ExecVerb && !s.fired && DeadlineDue(s)
    case ChildEnded =>
      s.main.Running? && s.kid.child.Dead? && (s.verb == ExecVerb ==> !s.fired && !DeadlineDue(s))
    case InputEnded => s.main.Running? && s.verb == PtyVerb && s.feed.input.DoneIn?
    case ReapedChild => s.main.Waiting() && s.kid.child.Dead?
    case GraceEnds => s.main.Waiting() && !s.kid.child.Dead? && s.now >= s.main.until
    case DrainDone => (s.main.DrainingOut? && s.out.Gone()) || (s.main.DrainingErr? && s.err.Gone())
    case DrainEnds =>
      s.main.Draining() && s.now >= s.main.until && !(if s.main.DrainingOut? then s.out else s.err).Gone()
    case Returns => s.main.Closing? && s.ch.writer.Stopped?
  }

  /** Leave the select or the reap with a result and start the drain. */
  function Drain(s: State, st: Status, why: Override): State {
    s.(kid := s.kid.(end := Some(End(st, why))),
       main := DrainingOut(s.now + if s.verb == ExecVerb then EXEC_DRAIN else PTY_DRAIN))
  }

  function AfterDrain(s: State): State {
    s.(main := if s.main.DrainingOut? && s.verb == ExecVerb then DrainingErr(s.now + EXEC_DRAIN) else SendingExit)
  }

  function KillFor(s: State, why: Override): State {
    s.(kid := s.kid.(killedAt := Some(s.now)), main := Reaping(s.now + REAP_GRACE, why))
  }

  function HangUp(s: State): State {
    s.(kid := s.kid.(hungUp := true), main := HangingUp(s.now + HANGUP_GRACE))
  }

  /** The bounded wait is over, with a status or with GraceOver. */
  function WaitOver(s: State, st: Status): State
    requires s.main.Waiting()
  {
    match s.main
    case Reaping(_, why) => Drain(s, st, why)
    case HangingUp(_) => Drain(s, st, ByDisconnect)
    case _ => s.(kid := s.kid.(end := Some(End(st, NoOverride))), main := Failing(PtySetupFailed))
  }

  function EffectiveDeadline(cfg: Config, d: DeadlineField): Option<nat> {
    match d
    case Absent => cfg.defaultDeadline
    case Millis(ms) => Some(ms)
    case _ => None
  }

  function StartVerb(cfg: Config, s: State, v: Verb, limit: Option<nat>, err: Pump): State
    requires s.feed.inbox != []
  {
    s.(main := Running, verb := v, limit := limit,
       deadline := if limit.Some? then Some(s.now + limit.value) else None,
       feed := s.feed.Start(s.now + cfg.idle),
       out := s.out.(pump := Reading), err := s.err.(pump := err),
       kid := s.kid.(child := Alive))
  }

  function OnRequest(cfg: Config, s: State, fate: Fate): State
    requires s.feed.inbox != []
  {
    var t := s.(feed := s.feed.Drop());
    match s.feed.inbox[0]
    case Request(NotJson) => t.(main := Failing(BadRequestJson))
    case Request(OtherVerb) => t.(main := Failing(UnknownVerb))
    case Request(Exec(d)) =>
      if d.Unconvertible? then t.(main := Failing(BadDeadline))
      else if fate == SpawnOk then StartVerb(cfg, s, ExecVerb, EffectiveDeadline(cfg, d), Reading)
      else t.(main := Failing(SpawnFailed))
    case Request(OpenPty) =>
      if fate == SpawnOk then StartVerb(cfg, s, PtyVerb, None, s.err.pump)
      else if fate == SpawnFails then t.(main := Failing(PtySetupFailed))
      else t.(main := Abandoning(s.now + REAP_GRACE),
              kid := s.kid.(child := Alive, killedAt := Some(s.now)))
    case PeerClosed => t.(main := Closing)
    case ReadError => t.(main := Failing(ReadFailed))
    case _ => t.(main := Failing(NotARequest))
  }

  function MainApply(cfg: Config, s: State, m: MainStep): State
    requires MainReady(s, m)
  {
    match m
    case GotRequest(fate) => OnRequest(cfg, s, fate)
    case NoRequest => s.(main := Closing)
    case SendsError => s.(ch := s.ch.Push(ErrorFrame(cfg, s.main.what)), main := Closing)
    case SendsExit => s.(ch := s.ch.Push(ExitFrame(cfg, s.kid.end.value)), main := Closing)
    case SeesCancelled => if s.verb == ExecVerb then KillFor(s, ByDisconnect) else HangUp(s)
    case DeadlinePasses => KillFor(s, ByTimeout)
    case ChildEnded => Drain(s, s.kid.child.st, NoOverride)
    case InputEnded => HangUp(s)
    case ReapedChild => WaitOver(s, s.kid.child.st)
    case GraceEnds => if s.main.HangingUp? then KillFor(s, ByDisconnect) else WaitOver(s, GraceOver)
    case DrainDone => AfterDrain(s)
    case DrainEnds =>
      AfterDrain(if s.main.DrainingOut? then s.(out := s.out.Abort()) else s.(err := s.err.Abort()))
    case Returns => s.(main := Returned)
  }

  // ------------------------------------------------------------ one step

  datatype Step =
    | Env(e: EnvStep)
    | WriterTask(a: WriterStep)
    | PumpTask(w: Pipe)
    | InputTask(i: InputStep)
    | MainTask(m: MainStep)
    | Tick

  predicate IsTask(step: Step) { !step.Env? && !step.Tick? }

  predicate Ready(s: State, step: Step) {
    match step
    case Env(e) => EnvReady(s, e)
    case WriterTask(a) => WriterReady(s, a)
    case PumpTask(w) => PumpReady(s, w)
    case InputTask(i) => InputReady(s, i)
    case MainTask(m) => MainReady(s, m)
    case Tick => false
  }

  /** No task can run. */
  ghost predicate Parked(s: State) { forall i: Step :: IsTask(i) ==> !Ready(s, i) }

  /** Maximal progress: time passes only when every task is parked. */
  ghost predicate Enabled(s: State, step: Step) {
    if step.Tick? then Parked(s) else Ready(s, step)
  }

  ghost function Apply(cfg: Config, s: State, step: Step): State
    requires Enabled(s, step)
  {
    match step
    case Env(e) => EnvApply(s, e)
    case WriterTask(a) => WriterApply(cfg, s, a)
    case PumpTask(w) => PumpApply(s, w)
    case InputTask(i) => InputApply(cfg, s, i)
    case MainTask(m) => MainApply(cfg, s, m)
    case Tick => s.(now := s.now + 1)
  }

  // ------------------------------------------------------------ runs

  ghost predicate Legal(cfg: Config, s: State, steps: seq<Step>)
    decreases |steps|
  {
    steps == [] || (Enabled(s, steps[0]) && Legal(cfg, Apply(cfg, s, steps[0]), steps[1..]))
  }

  ghost function After(cfg: Config, s: State, steps: seq<Step>): State
    requires Legal(cfg, s, steps)
    decreases |steps|
  {
    if steps == [] then s else After(cfg, Apply(cfg, s, steps[0]), steps[1..])
  }

  lemma {:induction false} LegalAppend(cfg: Config, s: State, a: seq<Step>, b: seq<Step>)
    requires Legal(cfg, s, a) && Legal(cfg, After(cfg, s, a), b)
    ensures Legal(cfg, s, a + b)
    ensures After(cfg, s, a + b) == After(cfg, After(cfg, s, a), b)
    decreases |a|
  {
    if a == [] {
      assert a + b == b;
    } else {
      assert (a + b)[1..] == a[1..] + b;
      LegalAppend(cfg, Apply(cfg, s, a[0]), a[1..], b);
    }
  }

  /** A run cut at one of its steps. */
  lemma {:induction false} Split(cfg: Config, s: State, a: seq<Step>, step: Step, b: seq<Step>)
    requires Legal(cfg, s, a + [step] + b)
    ensures Legal(cfg, s, a) && Enabled(After(cfg, s, a), step)
    ensures Legal(cfg, Apply(cfg, After(cfg, s, a), step), b)
    ensures After(cfg, s, a + [step] + b) == After(cfg, Apply(cfg, After(cfg, s, a), step), b)
    decreases |a|
  {
    hide Ready, Apply;
    var steps := a + [step] + b;
    if a == [] {
      assert steps[0] == step && steps[1..] == b;
    } else {
      assert steps[0] == a[0] && steps[1..] == a[1..] + [step] + b;
      Split(cfg, Apply(cfg, s, a[0]), a[1..], step, b);
    }
  }

  ghost predicate Reaches(cfg: Config, s: State, t: State) {
    exists steps :: Legal(cfg, s, steps) && After(cfg, s, steps) == t
  }

  lemma ReachesSelf(cfg: Config, s: State)
    ensures Reaches(cfg, s, s)
  {
    assert Legal(cfg, s, []) && After(cfg, s, []) == s;
  }

  lemma ReachesOn(cfg: Config, s: State, t: State, step: Step)
    requires Reaches(cfg, s, t) && Enabled(t, step)
    ensures Reaches(cfg, s, Apply(cfg, t, step))
  {
    hide Ready, Apply;
    var steps :| Legal(cfg, s, steps) && After(cfg, s, steps) == t;
    var u := Apply(cfg, t, step);
    assert [step][1..] == [] && Legal(cfg, u, []) && After(cfg, u, []) == u;
    assert Legal(cfg, t, [step]) && After(cfg, t, [step]) == u;
    LegalAppend(cfg, s, steps, [step]);
    assert Legal(cfg, s, steps + [step]);
  }

  lemma Go(cfg: Config, s: State, step: Step) returns (t: State)
    requires Reaches(cfg, Init(cfg), s) && Enabled(s, step)
    ensures t == Apply(cfg, s, step) && Reaches(cfg, Init(cfg), t)
  {
    t := Apply(cfg, s, step);
    hide Ready, Apply, Init;
    ReachesOn(cfg, Init(cfg), s, step);
  }
}
