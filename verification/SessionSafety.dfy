/** What every run of a session keeps: the order of frames, the bytes on the wire, the
    conservation of both output streams and of the child's input, and the fate of the
    child. */
module SessionSafety {
  import opened Codec
  import opened Control
  import opened Session

  // ------------------------------------------------------------ shape

  predicate Fresh(s: State) {
    && !s.fired && s.ch == Channel(Idle, [], [], [], [])
    && s.out == Source(Unborn, []) && s.err == Source(Unborn, [])
    && s.feed.input == NoInput && s.feed.read == [] && s.feed.childIn == []
  }

  predicate Shape(s: State) {
    && |s.ch.queue| <= CHANNEL_BOUND
    && (s.main.AwaitRequest? || s.main.Failing? || s.main.Abandoning? ==> Fresh(s) && s.verb == NoVerb)
    && (s.main.HangingUp? ==> s.verb == PtyVerb)
    && (s.main.DrainingErr? ==> s.verb == ExecVerb && s.out.Gone())
    && (s.main.SendingExit? || s.main.Over() ==> s.out.Gone() && s.err.Gone())
    && (s.main.Returned? ==> s.ch.writer.Stopped?)
    && (s.main.Running? || s.main.Reaping? || s.main.Draining() || s.main.SendingExit? ==> s.verb != NoVerb)
    && (s.verb != NoVerb <==> s.feed.input != NoInput)
    && (s.verb != NoVerb <==> !s.out.pump.Unborn?)
    && (s.verb != ExecVerb ==> s.err.pump.Unborn?)
    && (s.ch.writer.Stopped? ==> s.ch.queue == [] && (s.fired || s.main.Over()))
    && (s.verb == ExecVerb ==> s.feed.input != DoneIn(PeerGone))
    && (s.feed.input == DoneIn(FiredCancel) || s.feed.input == DoneIn(SawCancel) ==> s.fired)
  }

  lemma ShapeEnv(s: State, e: EnvStep)
    requires Shape(s) && EnvReady(s, e)
    ensures Shape(EnvApply(s, e))
  {
    hide Encode;
  }

  lemma ShapeWriter(cfg: Config, s: State, a: WriterStep)
    requires Shape(s) && WriterReady(s, a)
    ensures Shape(WriterApply(cfg, s, a))
  {
  }

  lemma ShapePump(s: State, w: Pipe)
    requires Shape(s) && PumpReady(s, w)
    ensures Shape(PumpApply(s, w))
  {
  }

  lemma ShapeInput(cfg: Config, s: State, i: InputStep)
    requires Shape(s) && InputReady(s, i)
    ensures Shape(InputApply(cfg, s, i))
  {
  }

  lemma ShapeMain(cfg: Config, s: State, m: MainStep)
    requires Shape(s) && MainReady(s, m)
    ensures Shape(MainApply(cfg, s, m))
  {
    hide OnRequest, ExitFrame, ErrorFrame;
    if m.GotRequest? {
      hide Shape;
      ShapeRequest(cfg, s, m.fate);
    }
  }

  lemma ShapeRequest(cfg: Config, s: State, fate: Fate)
    requires Shape(s) && s.main.AwaitRequest? && s.feed.inbox != []
    ensures Shape(OnRequest(cfg, s, fate))
  {
  }

  lemma ShapeStep(cfg: Config, s: State, step: Step)
    requires Shape(s) && Enabled(s, step)
    ensures Shape(Apply(cfg, s, step))
  {
    hide EnvApply, WriterApply, PumpApply, InputApply, MainApply;
    hide EnvReady, WriterReady, PumpReady, InputReady, MainReady;
    match step {
      case Env(e) => ShapeEnv(s, e);
      case WriterTask(a) => ShapeWriter(cfg, s, a);
      case PumpTask(w) => ShapePump(s, w);
      case InputTask(i) => ShapeInput(cfg, s, i);
      case MainTask(m) => ShapeMain(cfg, s, m);
      case Tick =>
    }
  }

  /** Only the session's own task moves between phases or records a result. */
  lemma Unmoved(cfg: Config, s: State, step: Step)
    requires Enabled(s, step) && !step.MainTask?
    ensures var t := Apply(cfg, s, step);
            && t.main == s.main && t.verb == s.verb && t.limit == s.limit && t.deadline == s.deadline
            && t.kid.(child := s.kid.child) == s.kid
            && (!step.PumpTask? ==> t.ch.enq == s.ch.enq)
  {
  }

  // ------------------------------------------------------------ the wire

  /** The frames before the first one write_frame refuses. */
  function Sendable(fs: seq<Frame>): (r: seq<Frame>)
    ensures r <= fs
  {
    if fs == [] || |fs[0].payload| > MAX_FRAME_LEN then [] else [fs[0]] + Sendable(fs[1..])
  }

  lemma {:induction false} SendableGrows(fs: seq<Frame>, f: Frame)
    ensures Sendable(fs) <= Sendable(fs + [f])
  {
    if fs != [] {
      assert (fs + [f])[1..] == fs[1..] + [f];
      SendableGrows(fs[1..], f);
    }
  }

  lemma {:induction false} SendableHolds(a: seq<Frame>, fs: seq<Frame>)
    requires a <= fs && FitsAll(MAX_FRAME_LEN, a)
    ensures a <= Sendable(fs)
  {
    if a != [] {
      assert a[0] == fs[0] && |a[0].payload| <= MAX_FRAME_LEN;
      assert forall i :: 0 <= i < |a| - 1 ==> a[1..][i] == a[i + 1];
      SendableHolds(a[1..], fs[1..]);
    }
  }

  lemma {:induction false} SendableFits(fs: seq<Frame>)
    ensures FitsAll(MAX_FRAME_LEN, Sendable(fs))
  {
    if fs != [] && |fs[0].payload| <= MAX_FRAME_LEN { SendableFits(fs[1..]); }
  }

  lemma EncodeAllPrefix(a: seq<Frame>, fs: seq<Frame>)
    requires a <= fs
    ensures EncodeAll(a) <= EncodeAll(fs)
  {
    assert fs == a + fs[|a|..];
    EncodeAllAppend(a, fs[|a|..]);
  }

  predicate WireInv(ch: Channel) {
    match ch.writer
    case Idle => ch.done + ch.queue == ch.enq && FitsAll(MAX_FRAME_LEN, ch.done) && ch.wire == EncodeAll(ch.done)
    case Writing(f, sent, _) =>
      && ch.done + [f] + ch.queue == ch.enq && FitsAll(MAX_FRAME_LEN, ch.done + [f])
      && sent <= |Encode(f)| && ch.wire == EncodeAll(ch.done) + Encode(f)[..sent]
    case Stopped => ch.wire <= EncodeAll(Sendable(ch.enq))
  }

  lemma WireIsPrefix(ch: Channel)
    requires WireInv(ch)
    ensures ch.wire <= EncodeAll(Sendable(ch.enq))
  {
    match ch.writer {
      case Idle =>
        SendableHolds(ch.done, ch.enq);
        EncodeAllPrefix(ch.done, Sendable(ch.enq));
      case Writing(f, sent, _) =>
        SendableHolds(ch.done + [f], ch.enq);
        EncodeAllPrefix(ch.done + [f], Sendable(ch.enq));
        EncodeAllSnoc(ch.done, f);
        assert Encode(f) == Encode(f)[..sent] + Encode(f)[sent..];
        assert ch.wire <= EncodeAll(ch.done) + Encode(f);
      case Stopped =>
    }
  }

  lemma PushKeepsWire(ch: Channel, f: Frame)
    requires WireInv(ch)
    ensures WireInv(ch.Push(f))
    ensures ch.Push(f).wire == ch.wire && ch.wire <= EncodeAll(Sendable(ch.Push(f).enq))
  {
    WireIsPrefix(ch);
    SendableGrows(ch.enq, f);
    EncodeAllPrefix(Sendable(ch.enq), Sendable(ch.enq + [f]));
    if !ch.writer.Stopped? {
      var front := if ch.writer.Idle? then ch.done else ch.done + [ch.writer.f];
      assert front + (ch.queue + [f]) == front + ch.queue + [f];
    }
  }

  lemma StopKeepsWire(ch: Channel)
    requires WireInv(ch)
    ensures WireInv(ch.Stop())
  {
    WireIsPrefix(ch);
  }

  lemma TakeKeepsWire(ch: Channel, until: nat)
    requires WireInv(ch) && ch.writer.Idle? && ch.queue != [] && |ch.queue[0].payload| <= MAX_FRAME_LEN
    ensures WireInv(ch.Take(until))
  {
    assert ch.done + [ch.queue[0]] + ch.queue[1..] == ch.done + ch.queue;
    assert EncodeAll(ch.done) + Encode(ch.queue[0])[..0] == EncodeAll(ch.done);
  }

  lemma PutKeepsWire(ch: Channel, n: nat)
    requires WireInv(ch) && ch.writer.Writing? && ch.writer.sent + n <= |Encode(ch.writer.f)|
    ensures WireInv(ch.Put(n))
  {
    var e, sent := Encode(ch.writer.f), ch.writer.sent;
    assert e[..sent] + e[sent..sent + n] == e[..sent + n];
    assert EncodeAll(ch.done) + e[..sent] + e[sent..sent + n] == EncodeAll(ch.done) + (e[..sent] + e[sent..sent + n]);
  }

  lemma FlushKeepsWire(ch: Channel)
    requires WireInv(ch) && ch.writer.Writing? && ch.writer.sent == |Encode(ch.writer.f)|
    ensures WireInv(ch.Flush())
  {
    EncodeAllSnoc(ch.done, ch.writer.f);
    assert Encode(ch.writer.f)[..ch.writer.sent] == Encode(ch.writer.f);
  }

  lemma WireEnv(s: State, e: EnvStep)
    requires WireInv(s.ch) && EnvReady(s, e)
    ensures WireInv(EnvApply(s, e).ch)
  {
    StopKeepsWire(s.ch);
    match e {
      case TransportTakes(n) => PutKeepsWire(s.ch, n);
      case TransportFlushes => FlushKeepsWire(s.ch);
      case _ => hide Encode;
    }
    hide WireInv;
  }

  lemma WireWriter(cfg: Config, s: State, a: WriterStep)
    requires WireInv(s.ch) && WriterReady(s, a)
    ensures WireInv(WriterApply(cfg, s, a).ch)
  {
    StopKeepsWire(s.ch);
    if a.TakesFrame? && |s.ch.queue[0].payload| <= MAX_FRAME_LEN { TakeKeepsWire(s.ch, s.now + cfg.write); }
    hide WireInv;
  }

  lemma WireStep(cfg: Config, s: State, step: Step)
    requires WireInv(s.ch) && Enabled(s, step)
    ensures WireInv(Apply(cfg, s, step).ch)
  {
    hide WireInv, EnvApply, EnvReady, WriterApply, WriterReady, MainApply, MainReady, Encode;
    match step {
      case Env(e) => WireEnv(s, e);
      case WriterTask(a) => WireWriter(cfg, s, a);
      case PumpTask(w) => PushKeepsWire(s.ch, Frame(TypeOf(w), SourceOf(s, w).pump.chunk));
      case InputTask(_) =>
      case MainTask(m) => WireMain(cfg, s, m);
      case Tick =>
    }
  }

  lemma WireMain(cfg: Config, s: State, m: MainStep)
    requires WireInv(s.ch) && MainReady(s, m)
    ensures WireInv(MainApply(cfg, s, m).ch)
  {
    hide WireInv, ExitFields;
    match m {
      case SendsError => PushKeepsWire(s.ch, ErrorFrame(cfg, s.main.what));
      case SendsExit => PushKeepsWire(s.ch, ExitFrame(cfg, s.kid.end.value));
      case _ =>
    }
  }

  // ------------------------------------------------------------ the order of frames

  predicate IsData(f: Frame) { f.ftype == FRAME_STDOUT || f.ftype == FRAME_STDERR }

  predicate AllData(fs: seq<Frame>) { forall i :: 0 <= i < |fs| ==> IsData(fs[i]) }

  predicate EndsWithExit(fs: seq<Frame>) { fs != [] && fs[|fs| - 1].ftype == FRAME_EXIT }

  /** The frames without the EXIT, if there is one. */
  function Body(fs: seq<Frame>): seq<Frame> {
    if EndsWithExit(fs) then fs[..|fs| - 1] else fs
  }

  lemma BodyOfData(fs: seq<Frame>)
    requires AllData(fs)
    ensures Body(fs) == fs
  {
    if fs != [] { assert IsData(fs[|fs| - 1]); }
  }

  /** (STDOUT|STDERR)*, followed by at most the session's one EXIT; or one lone ERROR. */
  predicate Grammatical(cfg: Config, s: State) {
    var fs := s.ch.enq;
    || AllData(fs)
    || (s.verb == NoVerb && |fs| == 1 && fs[0].ftype == FRAME_ERROR)
    || (s.verb != NoVerb && s.kid.end.Some? && AllData(Body(fs)) && fs == Body(fs) + [ExitFrame(cfg, s.kid.end.value)])
  }

  predicate OrderInv(cfg: Config, s: State) {
    && Grammatical(cfg, s)
    && (!s.main.Over() ==> AllData(s.ch.enq))
    && (s.main.Draining() || s.main.SendingExit? ==> s.kid.end.Some?)
  }

  lemma OrderStep(cfg: Config, s: State, step: Step)
    requires Shape(s) && OrderInv(cfg, s) && Enabled(s, step)
    ensures OrderInv(cfg, Apply(cfg, s, step))
  {
    hide EnvApply, WriterApply, InputApply, MainApply, EnvReady, WriterReady, InputReady, MainReady;
    if step.MainTask? {
      OrderMain(cfg, s, step.m);
    } else {
      Unmoved(cfg, s, step);
    }
  }

  lemma OrderMain(cfg: Config, s: State, m: MainStep)
    requires Shape(s) && OrderInv(cfg, s) && MainReady(s, m)
    ensures OrderInv(cfg, MainApply(cfg, s, m))
  {
    hide OnRequest, ExitFrame, ErrorFrame, Body, AllData;
    if m.GotRequest? {
      hide Shape, OrderInv;
      OrderRequest(cfg, s, m.fate);
    } else if m.SendsExit? {
      hide Shape, OrderInv;
      OrderExit(cfg, s);
    } else if m.SendsError? {
      hide Shape, OrderInv;
      OrderError(cfg, s);
    }
  }

  lemma OrderExit(cfg: Config, s: State)
    requires Shape(s) && OrderInv(cfg, s) && s.main.SendingExit? && s.kid.end.Some?
    ensures OrderInv(cfg, s.(ch := s.ch.Push(ExitFrame(cfg, s.kid.end.value)), main := Closing))
  {
    var f := ExitFrame(cfg, s.kid.end.value);
    assert f.ftype == FRAME_EXIT;
    hide ExitFrame;
    if !s.ch.writer.Stopped? { assert Body(s.ch.enq + [f]) == s.ch.enq; }
  }

  lemma OrderError(cfg: Config, s: State)
    requires Shape(s) && OrderInv(cfg, s) && s.main.Failing?
    ensures OrderInv(cfg, s.(ch := s.ch.Push(ErrorFrame(cfg, s.main.what)), main := Closing))
  {
    hide ExitFrame, Body;
  }

  lemma OrderRequest(cfg: Config, s: State, fate: Fate)
    requires Shape(s) && s.main.AwaitRequest? && s.feed.inbox != []
    ensures OrderInv(cfg, OnRequest(cfg, s, fate))
  {
    RequestSendsNothing(cfg, s, fate);
    hide OnRequest, Shape, ExitFrame, Body;
  }

  lemma RequestSendsNothing(cfg: Config, s: State, fate: Fate)
    requires s.main.AwaitRequest? && s.feed.inbox != []
    ensures var t := OnRequest(cfg, s, fate);
            && t.ch == s.ch && !t.main.Draining() && !t.main.SendingExit?
  {
  }

  // ------------------------------------------------------------ conservation

  /** What the channel accepted of one stream is a prefix of what its pump read; nothing
      is missing but the parked chunk, until the writer stops. */
  predicate Conserved(ch: Channel, src: Source, t: byte) {
    && StreamOf(ch.enq, t) <= src.got
    && (!ch.writer.Stopped? || EndsWithExit(ch.enq) ==> StreamOf(ch.enq, t) + src.Pending() == src.got)
  }

  lemma ReadConserves(ch: Channel, src: Source, t: byte, chunk: seq<byte>)
    requires Conserved(ch, src, t) && src.pump.Reading?
    ensures Conserved(ch, src.Read(chunk), t)
  {
    var sent := StreamOf(ch.enq, t);
    assert sent + [] == sent;
  }

  lemma PushConserves(ch: Channel, src: Source, t: byte, next: Pump)
    requires Conserved(ch, src, t) && src.pump.Sending? && next != src.pump
    requires next.Reading? || next.Ended?
    requires !EndsWithExit(ch.enq)
    ensures t != FRAME_EXIT ==> Conserved(ch.Push(Frame(t, src.pump.chunk)), src.(pump := next), t)
  {
    StreamOfSnoc(ch.enq, Frame(t, src.pump.chunk), t);
    var sent := StreamOf(ch.enq, t) + src.pump.chunk;
    assert sent + [] == sent;
  }

  lemma OtherPushConserves(ch: Channel, src: Source, t: byte, f: Frame)
    requires Conserved(ch, src, t) && f.ftype != t && !EndsWithExit(ch.enq)
    ensures Conserved(ch.Push(f), src, t)
  {
    StreamOfSnoc(ch.enq, f, t);
    assert StreamOf(ch.enq, t) + [] == StreamOf(ch.enq, t);
  }

  lemma ConservedPump(s: State, w: Pipe, w': Pipe)
    requires PumpReady(s, w') && AllData(s.ch.enq)
    requires Conserved(s.ch, SourceOf(s, w), TypeOf(w))
    ensures var t := PumpApply(s, w'); Conserved(t.ch, SourceOf(t, w), TypeOf(w))
  {
    var src := SourceOf(s, w');
    DataHasNoExit(s.ch.enq);
    if w == w' {
      PushConserves(s.ch, src, TypeOf(w), Reading);
      PushConserves(s.ch, src, TypeOf(w), Ended);
    } else {
      OtherPushConserves(s.ch, SourceOf(s, w), TypeOf(w), Frame(TypeOf(w'), src.pump.chunk));
    }
  }

  lemma ConservedMain(cfg: Config, s: State, m: MainStep, w: Pipe)
    requires Shape(s) && OrderInv(cfg, s) && MainReady(s, m)
    requires Conserved(s.ch, SourceOf(s, w), TypeOf(w))
    ensures var t := MainApply(cfg, s, m); Conserved(t.ch, SourceOf(t, w), TypeOf(w))
  {
    hide ExitFields, StreamOf, Grammatical;
    match m {
      case SendsError => OtherPushConserves(s.ch, SourceOf(s, w), TypeOf(w), ErrorFrame(cfg, s.main.what));
      case SendsExit =>
        DataHasNoExit(s.ch.enq);
        OtherPushConserves(s.ch, SourceOf(s, w), TypeOf(w), ExitFrame(cfg, s.kid.end.value));
      case _ =>
    }
  }

  lemma DataHasNoExit(fs: seq<Frame>)
    requires AllData(fs)
    ensures !EndsWithExit(fs)
  {
    if fs != [] { assert IsData(fs[|fs| - 1]); }
  }

  lemma ConservedOther(cfg: Config, s: State, step: Step, w: Pipe)
    requires Shape(s) && OrderInv(cfg, s) && Enabled(s, step) && (step.Env? || step.WriterTask?)
    requires Conserved(s.ch, SourceOf(s, w), TypeOf(w))
    ensures var t := Apply(cfg, s, step); Conserved(t.ch, SourceOf(t, w), TypeOf(w))
  {
    hide Encode, StreamOf;
    match step {
      case Env(ChildWrites(w', chunk)) =>
        if w == w' { ReadConserves(s.ch, SourceOf(s, w), TypeOf(w), chunk); }
      case Env(_) =>
      case WriterTask(_) =>
    }
  }

  lemma ConservedStep(cfg: Config, s: State, step: Step, w: Pipe)
    requires Shape(s) && OrderInv(cfg, s) && Enabled(s, step)
    requires Conserved(s.ch, SourceOf(s, w), TypeOf(w))
    ensures var t := Apply(cfg, s, step); Conserved(t.ch, SourceOf(t, w), TypeOf(w))
  {
    hide Conserved, Grammatical;
    match step {
      case PumpTask(w') => ConservedPump(s, w, w');
      case InputTask(_) => hide Shape;
      case MainTask(m) => hide Shape, MainApply, MainReady; ConservedMain(cfg, s, m, w);
      case Tick => hide Shape;
      case _ => hide Shape, Encode; ConservedOther(cfg, s, step, w);
    }
  }

  // ------------------------------------------------------------ the child's stdin

  /** The STDIN payloads a verb forwards: exec's stop at the first STDIN_EOF. */
  function StdinOf(v: Verb, log: seq<Inbound>): seq<byte> {
    if log == [] then []
    else match log[0]
      case Stdin(bytes) => bytes + StdinOf(v, log[1..])
      case StdinEof => if v == ExecVerb then [] else StdinOf(v, log[1..])
      case _ => StdinOf(v, log[1..])
  }

  predicate StillOpen(v: Verb, log: seq<Inbound>) { v == ExecVerb ==> StdinEof !in log }

  lemma {:induction false} StdinOfAppend(v: Verb, a: seq<Inbound>, b: seq<Inbound>)
    ensures StdinOf(v, a + b) == StdinOf(v, a) + if StillOpen(v, a) then StdinOf(v, b) else []
    decreases |a|
  {
    if a == [] {
      assert a + b == b;
    } else {
      assert (a + b)[1..] == a[1..] + b;
      StdinOfAppend(v, a[1..], b);
      assert StdinEof in a <==> a[0] == StdinEof || StdinEof in a[1..];
    }
  }

  lemma StdinOfSnoc(v: Verb, a: seq<Inbound>, ev: Inbound)
    ensures StdinOf(v, a + [ev]) ==
            StdinOf(v, a) + if ev.Stdin? && StillOpen(v, a) then ev.bytes else []
    ensures StillOpen(v, a + [ev]) <==> StillOpen(v, a) && (v == ExecVerb ==> ev != StdinEof)
  {
    StdinOfAppend(v, a, [ev]);
    assert StdinOf(v, [ev][1..]) == [];
    if ev.Stdin? { assert StdinOf(v, [ev]) == ev.bytes + []; }
    assert StdinEof in a + [ev] <==> StdinEof in a || ev == StdinEof;
  }

  predicate FeedInv(v: Verb, f: Feed) {
    && (v == NoVerb ==> f.read == [] && f.childIn == [] && f.input == NoInput)
    && (v != NoVerb ==> f.heard != [] && f.heard[1..] == f.read + f.inbox && f.open == StillOpen(v, f.read))
    && f.childIn <= StdinOf(v, f.read)
    && (f.input.AwaitFrame? ==> f.childIn == StdinOf(v, f.read))
    && (f.input.FeedChild? ==> f.childIn + f.input.left == StdinOf(v, f.read))
  }

  lemma HearKeepsFeed(v: Verb, f: Feed, ev: Inbound)
    requires FeedInv(v, f)
    ensures FeedInv(v, f.Hear(ev))
  {
    if v != NoVerb {
      assert (f.heard + [ev])[1..] == f.heard[1..] + [ev];
      assert f.read + f.inbox + [ev] == f.read + (f.inbox + [ev]);
    }
  }

  lemma PassKeepsFeed(v: Verb, f: Feed, n: nat)
    requires FeedInv(v, f) && f.input.FeedChild? && n <= |f.input.left|
    ensures FeedInv(v, f.Pass(n))
  {
    var left := f.input.left;
    assert f.childIn + left == f.childIn + left[..n] + left[n..];
  }

  lemma ConsumeKeepsFeed(v: Verb, f: Feed, until: nat)
    requires FeedInv(v, f) && v != NoVerb && f.input.AwaitFrame? && f.inbox != []
    ensures FeedInv(v, f.Consume(v, until))
  {
    var ev := f.inbox[0];
    StdinOfSnoc(v, f.read, ev);
    assert f.read + [ev] + f.inbox[1..] == f.read + f.inbox;
    assert f.childIn + [] == f.childIn;
  }

  lemma FeedMain(cfg: Config, s: State, m: MainStep)
    requires Shape(s) && FeedInv(s.verb, s.feed) && MainReady(s, m)
    requires s.main.AwaitRequest? ==> s.feed.heard == s.feed.inbox
    ensures var t := MainApply(cfg, s, m); FeedInv(t.verb, t.feed) && !t.main.AwaitRequest?
  {
    match m {
      case GotRequest(_) => assert [] + s.feed.inbox[1..] == s.feed.inbox[1..];
      case _ =>
    }
  }

  predicate StdinInv(s: State) {
    FeedInv(s.verb, s.feed) && (s.main.AwaitRequest? ==> s.feed.heard == s.feed.inbox)
  }

  lemma StdinStep(cfg: Config, s: State, step: Step)
    requires Shape(s) && StdinInv(s) && Enabled(s, step)
    ensures StdinInv(Apply(cfg, s, step))
  {
    match step {
      case Env(e) => StdinEnv(s, e);
      case WriterTask(_) => hide FeedInv, Shape;
      case PumpTask(_) => hide FeedInv, Shape;
      case InputTask(i) => StdinInput(cfg, s, i);
      case MainTask(m) => hide FeedInv, MainApply, MainReady; FeedMain(cfg, s, m);
      case Tick =>
    }
  }

  lemma StdinEnv(s: State, e: EnvStep)
    requires StdinInv(s) && EnvReady(s, e)
    ensures StdinInv(EnvApply(s, e))
  {
    hide Encode;
    match e {
      case PeerSends(ev) => HearKeepsFeed(s.verb, s.feed, ev);
      case ChildReadsStdin(n) => PassKeepsFeed(s.verb, s.feed, n);
      case _ =>
    }
  }

  lemma StdinInput(cfg: Config, s: State, i: InputStep)
    requires Shape(s) && StdinInv(s) && InputReady(s, i)
    ensures StdinInv(InputApply(cfg, s, i))
  {
    match i {
      case Reads => ConsumeKeepsFeed(s.verb, s.feed, s.now + cfg.idle);
      case Written => assert s.feed.childIn + [] == s.feed.childIn;
      case _ =>
    }
  }

  // ------------------------------------------------------------ the child

  predicate KidInv(now: nat, main: Main, verb: Verb, k: Kid) {
    && (k.child.NoChild? ==> k.killedAt.None? && !k.hungUp && k.end.None? && verb == NoVerb)
    && k.child != Dead(GraceOver)
    && (main.AwaitRequest? ==> k.child.NoChild?)
    && (main.Running? ==> !k.child.NoChild? && k.killedAt.None? && !k.hungUp && k.end.None?)
    && (main.Waiting() ==> !k.child.NoChild? && k.end.None?)
    && (main.Reaping? || main.Abandoning? ==>
          k.killedAt.Some? && main.until == k.killedAt.value + REAP_GRACE)
    && (main.Reaping? ==> main.why != NoOverride)
    && (main.HangingUp? ==> k.hungUp)
    && (!k.child.NoChild? && !main.Running? && !main.Waiting() ==> k.end.Some?)
    && (k.end.Some? ==>
          var End(st, why) := k.end.value;
          && (st.GraceOver? ==> k.killedAt.Some? && k.killedAt.value + REAP_GRACE <= now)
          && (!st.GraceOver? ==> k.child == Dead(st))
          && (why == NoOverride && verb != NoVerb ==> k.killedAt.None? && !k.hungUp)
          && (why != NoOverride ==> k.killedAt.Some? || k.hungUp))
  }

  lemma KidMain(cfg: Config, s: State, m: MainStep)
    requires Shape(s) && OrderInv(cfg, s) && KidInv(s.now, s.main, s.verb, s.kid) && MainReady(s, m)
    ensures var t := MainApply(cfg, s, m); KidInv(t.now, t.main, t.verb, t.kid)
  {
    hide Grammatical, ExitFields;
    match m {
      case GotRequest(_) =>
      case _ => hide OnRequest, Fresh;
    }
  }

  lemma KidStep(cfg: Config, s: State, step: Step)
    requires Shape(s) && OrderInv(cfg, s) && KidInv(s.now, s.main, s.verb, s.kid) && Enabled(s, step)
    ensures var t := Apply(cfg, s, step); KidInv(t.now, t.main, t.verb, t.kid)
  {
    hide Shape, Grammatical, Encode;
    match step {
      case MainTask(m) => hide MainApply, MainReady; KidMain(cfg, s, m);
      case Env(ChildEnds(_)) =>
      case Tick =>
      case _ => hide KidInv;
    }
  }

  // ------------------------------------------------------------ teardown

  /** The pty's input task ended without firing cancel. */
  predicate QuietEnd(f: Feed) { f.input == DoneIn(PeerGone) || f.input == DoneIn(StdinRefused) }

  predicate Disconnecting(s: State) {
    || s.main.HangingUp?
    || (s.main.Reaping? && s.main.why == ByDisconnect)
    || (s.kid.end.Some? && s.kid.end.value.why == ByDisconnect)
  }

  predicate TornDown(fired: bool, ch: Channel) { fired && ch.wire <= EncodeAll(Sendable(Body(ch.enq))) }

  predicate TeardownInv(s: State) {
    Disconnecting(s) && !(s.verb == PtyVerb && QuietEnd(s.feed)) ==> TornDown(s.fired, s.ch)
  }

  /** Nothing is written after teardown: from the firing on, the wire is frozen. */
  lemma FrozenStep(cfg: Config, s: State, step: Step)
    requires s.fired && Enabled(s, step)
    ensures Apply(cfg, s, step).fired && Apply(cfg, s, step).ch.wire == s.ch.wire
  {
  }

  /** The writer's select is biased: nothing but cancel is served after it. */
  lemma CancelComesFirst(s: State)
    requires s.fired
    ensures forall a :: Enabled(s, WriterTask(a)) ==> a == SeesCancel
  {
  }

  lemma TornDownWhileData(s: State)
    requires s.fired && WireInv(s.ch) && AllData(s.ch.enq)
    ensures TornDown(s.fired, s.ch)
  {
    WireIsPrefix(s.ch);
    BodyOfData(s.ch.enq);
  }

  lemma TeardownSend(cfg: Config, s: State, f: Frame)
    requires AllData(s.ch.enq) && WireInv(s.ch) && TeardownInv(s) && f.ftype == FRAME_EXIT
    ensures TeardownInv(s.(ch := s.ch.Push(f), main := Closing))
  {
    hide WireInv;
    BodyOfData(s.ch.enq);
    if !s.ch.writer.Stopped? { assert Body(s.ch.enq + [f]) == s.ch.enq; }
    hide Body, EncodeAll, Sendable;
  }

  /** Leaving the select on cancel or on the end of the input: either cancel has fired,
      before any EXIT, or the input ended quietly. */
  lemma TeardownBegins(s: State, t: State)
    requires Shape(s) && WireInv(s.ch) && AllData(s.ch.enq) && s.main.Running?
    requires s.fired || (s.verb == PtyVerb && s.feed.input.DoneIn?)
    requires t.fired == s.fired && t.ch == s.ch && t.feed == s.feed && t.verb == s.verb
    ensures TeardownInv(t)
  {
    hide WireInv, Body, EncodeAll, Sendable;
    if s.fired { TornDownWhileData(s); }
    if s.feed.input.DoneIn? {
      var how := s.feed.input.how;
      assert how.FiredCancel? || how.SawCancel? || how.StdinRefused? || how.PeerGone?;
    }
  }

  lemma TeardownMain(cfg: Config, s: State, m: MainStep)
    requires Shape(s) && OrderInv(cfg, s) && WireInv(s.ch) && KidInv(s.now, s.main, s.verb, s.kid)
    requires TeardownInv(s) && MainReady(s, m)
    ensures TeardownInv(MainApply(cfg, s, m))
  {
    hide WireInv, Grammatical, ExitFields;
    match m {
      case GotRequest(fate) => hide Shape, TornDown;
      case SendsExit =>
        hide OnRequest, Shape, KidInv, TeardownInv, TornDown;
        TeardownSend(cfg, s, ExitFrame(cfg, s.kid.end.value));
      case SendsError => hide OnRequest, EncodeAll, Sendable, Body;
      case SeesCancelled =>
        hide OnRequest, Shape, KidInv, TeardownInv, TornDown;
        TeardownBegins(s, MainApply(cfg, s, m));
      case InputEnded =>
        hide OnRequest, Shape, KidInv, TeardownInv, TornDown;
        TeardownBegins(s, MainApply(cfg, s, m));
      case _ => hide OnRequest, Shape, TornDown;
    }
  }

  lemma TeardownStep(cfg: Config, s: State, step: Step)
    requires Shape(s) && OrderInv(cfg, s) && WireInv(s.ch) && KidInv(s.now, s.main, s.verb, s.kid)
    requires TeardownInv(s) && Enabled(s, step)
    ensures TeardownInv(Apply(cfg, s, step))
  {
    hide MainApply, MainReady, WireInv, Grammatical, KidInv;
    match step {
      case MainTask(m) => TeardownMain(cfg, s, m);
      case PumpTask(w) =>
        var t := PumpApply(s, w);
        if TornDown(s.fired, s.ch) {
          assert AllData(s.ch.enq) && AllData(t.ch.enq);
          PushKeepsWire(s.ch, Frame(TypeOf(w), SourceOf(s, w).pump.chunk));
          BodyOfData(t.ch.enq);
        }
      case _ =>
        Unmoved(cfg, s, step);
        if s.fired { FrozenStep(cfg, s, step); }
    }
  }

  // ------------------------------------------------------------ all of it, on every run

  ghost predicate Inv(cfg: Config, s: State) {
    && Shape(s) && WireInv(s.ch) && OrderInv(cfg, s)
    && Conserved(s.ch, s.out, FRAME_STDOUT) && Conserved(s.ch, s.err, FRAME_STDERR)
    && StdinInv(s) && KidInv(s.now, s.main, s.verb, s.kid) && TeardownInv(s)
  }

  lemma InitInv(cfg: Config)
    ensures Inv(cfg, Init(cfg))
  {
  }

  lemma InvStep(cfg: Config, s: State, step: Step)
    requires Inv(cfg, s) && Enabled(s, step)
    ensures Inv(cfg, Apply(cfg, s, step))
  {
    hide Ready, Apply;
    ShapeStep(cfg, s, step);
    WireStep(cfg, s, step);
    OrderStep(cfg, s, step);
    ConservedStep(cfg, s, step, OutPipe);
    ConservedStep(cfg, s, step, ErrPipe);
    StdinStep(cfg, s, step);
    KidStep(cfg, s, step);
    TeardownStep(cfg, s, step);
  }

  lemma {:induction false} InvRun(cfg: Config, s: State, steps: seq<Step>)
    requires Inv(cfg, s) && Legal(cfg, s, steps)
    ensures Inv(cfg, After(cfg, s, steps))
    decreases |steps|
  {
    hide Ready, Apply, Inv;
    if steps != [] {
      InvStep(cfg, s, steps[0]);
      InvRun(cfg, Apply(cfg, s, steps[0]), steps[1..]);
    }
  }

  lemma Reached(cfg: Config, steps: seq<Step>)
    requires Legal(cfg, Init(cfg), steps)
    ensures Inv(cfg, After(cfg, Init(cfg), steps))
  {
    InitInv(cfg);
    InvRun(cfg, Init(cfg), steps);
  }

  // ------------------------------------------------------------ the results

  /** The frames a session sends: data, then at most the one EXIT; or a lone ERROR; or
      nothing.  The wire carries a byte prefix of their encoding at every moment. */
  lemma TraceGrammar(cfg: Config, steps: seq<Step>)
    requires Legal(cfg, Init(cfg), steps)
    ensures var s := After(cfg, Init(cfg), steps);
            Grammatical(cfg, s) && s.ch.wire <= EncodeAll(s.ch.enq)
  {
    Reached(cfg, steps);
    var ch := After(cfg, Init(cfg), steps).ch;
    WireIsPrefix(ch);
    EncodeAllPrefix(Sendable(ch.enq), ch.enq);
  }

  /** Once cancel has fired, no further byte reaches the client. */
  lemma {:induction false} NothingAfterTeardown(cfg: Config, s: State, steps: seq<Step>)
    requires s.fired && Legal(cfg, s, steps)
    ensures After(cfg, s, steps).ch.wire == s.ch.wire && After(cfg, s, steps).fired
    ensures forall a :: Enabled(After(cfg, s, steps), WriterTask(a)) ==> a == SeesCancel
    decreases |steps|
  {
    hide Ready, Apply;
    if steps == [] {
      CancelComesFirst(s);
    } else {
      FrozenStep(cfg, s, steps[0]);
      NothingAfterTeardown(cfg, Apply(cfg, s, steps[0]), steps[1..]);
    }
  }

  /** Every stream is conserved: in every interleaving the channel's share of it is a
      prefix of what the pump read, and once an EXIT is queued nothing is missing but the
      chunk an aborted pump was parked on. */
  lemma StreamsConserved(cfg: Config, steps: seq<Step>, w: Pipe)
    requires Legal(cfg, Init(cfg), steps)
    ensures var s := After(cfg, Init(cfg), steps);
            && StreamOf(s.ch.enq, TypeOf(w)) <= SourceOf(s, w).got
            && (EndsWithExit(s.ch.enq) ==>
                  StreamOf(s.ch.enq, TypeOf(w)) + SourceOf(s, w).Pending() == SourceOf(s, w).got)
  {
    Reached(cfg, steps);
  }

  /** No child is left behind: when a session that spawned one has returned, its wait
      produced a status (or failed), or its group was killed and the grace elapsed. */
  lemma NoAbandonedChild(cfg: Config, steps: seq<Step>)
    requires Legal(cfg, Init(cfg), steps)
    requires After(cfg, Init(cfg), steps).main.Over()
    ensures var s := After(cfg, Init(cfg), steps);
            s.kid.child != NoChild ==>
              && s.kid.end.Some?
              && var st := s.kid.end.value.st;
                 if st == GraceOver then s.kid.killedAt.Some? && s.kid.killedAt.value + REAP_GRACE <= s.now
                 else s.kid.child == Dead(st)
  {
    Reached(cfg, steps);
  }

  /** Why an EXIT says what it says, in terms of the signals the session sent. */
  predicate ReasonIsTrue(k: Kid) {
    k.end.Some? &&
    var End(st, why) := k.end.value;
    var (code, reason) := ExitFields(st, why);
    && (reason == TimedOut || reason == Disconnected ==> k.killedAt.Some? || k.hungUp)
    && (reason == Exited || reason == Signaled ==> k.killedAt.None? && !k.hungUp)
    && (reason == Signaled ==> k.child.Dead? && k.child.st.Signal?)
    && (k.child.Dead? && k.child.st.Code? && st != GraceOver ==> code == k.child.st.code)
    && (k.child.Dead? && k.child.st.Signal? && st != GraceOver ==> code == 128 + k.child.st.sig)
    && (reason == Unreaped <==> k.child == Dead(WaitFailed) || st == GraceOver)
    && (reason == TimedOut <==> why == ByTimeout && reason != Unreaped)
    && (reason == Disconnected <==> why == ByDisconnect && reason != Unreaped)
    && (reason == Exited ==> k.child.Dead? && (k.child.st.Code? || k.child.st.NoStatus?))
    && (reason == Unreaped || st.NoStatus? ==> code == -1)   // never reaped, never success
  }

  lemma KidReason(now: nat, main: Main, verb: Verb, k: Kid)
    requires KidInv(now, main, verb, k) && verb != NoVerb && k.end.Some?
    ensures ReasonIsTrue(k)
  {
  }

  lemma ExitIsRecorded(cfg: Config, s: State)
    requires Shape(s) && OrderInv(cfg, s) && EndsWithExit(s.ch.enq)
    ensures s.verb != NoVerb && s.kid.end.Some?
    ensures s.ch.enq == Body(s.ch.enq) + [ExitFrame(cfg, s.kid.end.value)] && AllData(Body(s.ch.enq))
  {
    hide ExitFields;
    if AllData(s.ch.enq) { DataHasNoExit(s.ch.enq); }
  }

  /** "timeout" and "disconnected" imply that the session killed or hung up the child,
      "exited" and "signaled" that it did neither, and "error" is a failed reap. */
  lemma ReasonsAreTrue(cfg: Config, steps: seq<Step>)
    requires Legal(cfg, Init(cfg), steps)
    requires EndsWithExit(After(cfg, Init(cfg), steps).ch.enq)
    ensures var s := After(cfg, Init(cfg), steps);
            ReasonIsTrue(s.kid) && s.ch.enq[|s.ch.enq| - 1] == ExitFrame(cfg, s.kid.end.value)
  {
    hide Legal, After, ReasonIsTrue, KidInv, Shape, ExitFields, Grammatical;
    var s := After(cfg, Init(cfg), steps);
    Reached(cfg, steps);
    ExitIsRecorded(cfg, s);
    KidReason(s.now, s.main, s.verb, s.kid);
  }

  /** What reaches the child is a prefix of the STDIN payloads the peer sent after its
      request, up to exec's first STDIN_EOF, whatever other frames lie between; and all of
      them once every frame has been read and no write is pending. */
  lemma ChildStdinFidelity(cfg: Config, steps: seq<Step>)
    requires Legal(cfg, Init(cfg), steps)
    ensures var s := After(cfg, Init(cfg), steps);
            s.verb != NoVerb ==>
              && s.feed.heard != [] && s.feed.childIn <= StdinOf(s.verb, s.feed.heard[1..])
              && (s.feed.input.AwaitFrame? && s.feed.inbox == [] ==>
                    s.feed.childIn == StdinOf(s.verb, s.feed.heard[1..]))
  {
    Reached(cfg, steps);
    var s := After(cfg, Init(cfg), steps);
    StdinOfAppend(s.verb, s.feed.read, s.feed.inbox);
    assert s.feed.read + [] == s.feed.read;
  }
}
