/** Output that exec really does lose, src/session.rs:507-519: with a full queue behind a
    stalled write, the drain ends before the pump can hand over its last chunk, and the
    EXIT reports a clean exit all the same. */
module LostOutput {
  import opened Wrappers
  import opened Codec
  import opened Control
  import opened Session
  import opened SessionSafety
  import EndToEnd
  import Readers

  function Line(b: byte): Frame { Frame(FRAME_STDOUT, [b]) }

  predicate Small(fs: seq<Frame>) { forall i :: 0 <= i < |fs| ==> |fs[i].payload| <= MAX_FRAME_LEN }

  /** The peer took nothing of the first frame, `n` more are queued, and the clock has
      not moved. */
  predicate Stalled(cfg: Config, s: State, b: byte, n: nat) {
    && s.now == 0 && !s.fired && s.verb == ExecVerb && s.deadline.None?
    && s.ch.writer == Writing(Line(b), 0, cfg.write) && |s.ch.queue| == n && Small(s.ch.queue)
    && s.err.pump.Reading?
  }

  lemma ReachStalled(cfg: Config, b: byte) returns (s: State)
    ensures Reaches(cfg, Init(cfg), s) && Stalled(cfg, s, b, 0)
    ensures s.main.Running? && s.kid.child.Alive? && s.out.pump.Reading?
  {
    s := Init(cfg);
    ReachesSelf(cfg, s);
    s := Go(cfg, s, Env(PeerSends(Request(Exec(Zero)))));
    s := Go(cfg, s, MainTask(GotRequest(SpawnOk)));
    s := Go(cfg, s, Env(ChildWrites(OutPipe, [b])));
    s := Go(cfg, s, PumpTask(OutPipe));
    s := Go(cfg, s, WriterTask(TakesFrame));
  }

  /** The child goes on writing until the channel is full. */
  lemma {:induction false} FillQueue(cfg: Config, s: State, b: byte, n: nat) returns (t: State)
    requires Reaches(cfg, Init(cfg), s) && Stalled(cfg, s, b, n) && n <= CHANNEL_BOUND
    requires s.main.Running? && s.kid.child.Alive? && s.out.pump.Reading?
    ensures Reaches(cfg, Init(cfg), t) && Stalled(cfg, t, b, CHANNEL_BOUND)
    ensures t.main.Running? && t.kid.child.Alive? && t.out.pump.Reading?
    decreases CHANNEL_BOUND - n
  {
    t := s;
    if n < CHANNEL_BOUND {
      t := Go(cfg, t, Env(ChildWrites(OutPipe, [b])));
      t := Go(cfg, t, PumpTask(OutPipe));
      t := FillQueue(cfg, t, b, n + 1);
    }
  }

  /** The child has exited; its last chunk waits for room in the queue. */
  predicate Waiting(cfg: Config, s: State, b: byte) {
    && !s.fired && s.verb == ExecVerb && s.main == DrainingOut(EXEC_DRAIN) && s.now <= EXEC_DRAIN
    && s.ch.writer == Writing(Line(b), 0, cfg.write) && |s.ch.queue| == CHANNEL_BOUND && Small(s.ch.queue)
    && s.out.pump == Sending([b]) && s.err.pump.Reading? && s.kid.end == Some(End(Code(0), NoOverride))
  }

  lemma ReachWaiting(cfg: Config, b: byte) returns (s: State)
    ensures Reaches(cfg, Init(cfg), s) && Waiting(cfg, s, b) && s.now == 0
  {
    s := ReachStalled(cfg, b);
    s := FillQueue(cfg, s, b, 0);
    s := Go(cfg, s, Env(ChildWrites(OutPipe, [b])));
    s := Go(cfg, s, Env(ChildEnds(Code(0))));
    s := Go(cfg, s, MainTask(ChildEnded));
  }

  lemma WaitingIsParked(cfg: Config, s: State, b: byte)
    requires Waiting(cfg, s, b) && s.now < EXEC_DRAIN <= cfg.write
    ensures Parked(s)
  {
    forall i: Step | IsTask(i)
      ensures !Ready(s, i)
    {
      match i {
        case WriterTask(a) =>
        case PumpTask(w) =>
        case InputTask(_) =>
        case MainTask(m) =>
      }
    }
  }

  lemma {:induction false} WaitOut(cfg: Config, s: State, b: byte) returns (t: State)
    requires Reaches(cfg, Init(cfg), s) && Waiting(cfg, s, b) && EXEC_DRAIN <= cfg.write
    ensures Reaches(cfg, Init(cfg), t) && Waiting(cfg, t, b) && t.now == EXEC_DRAIN
    decreases EXEC_DRAIN - s.now
  {
    t := s;
    if s.now < EXEC_DRAIN {
      WaitingIsParked(cfg, s, b);
      t := Go(cfg, t, Tick);
      t := WaitOut(cfg, t, b);
    }
  }

  /** The drain has been cut short and the EXIT is in the queue. */
  predicate Exiting(cfg: Config, s: State, b: byte) {
    && !s.fired && s.kid.end == Some(End(Code(0), NoOverride)) && s.out.pump == Aborted([b])
    && EndsWithExit(s.ch.enq) && Small(s.ch.queue)
  }

  lemma CutShort(cfg: Config, s: State, b: byte) returns (t: State)
    requires Reaches(cfg, Init(cfg), s) && Waiting(cfg, s, b) && s.now == EXEC_DRAIN
    ensures Reaches(cfg, Init(cfg), t) && !t.fired && t.out.pump == Aborted([b]) && t.main.SendingExit?
    ensures t.ch == s.ch && t.kid.end == s.kid.end
  {
    t := Go(cfg, s, MainTask(DrainEnds));
    t := Go(cfg, t, Env(ChildClosesPipe(ErrPipe)));
    t := Go(cfg, t, MainTask(DrainDone));
  }

  /** The transport takes the frame being written, whole, and flushes it. */
  lemma FinishFrame(cfg: Config, s: State) returns (t: State)
    requires Reaches(cfg, Init(cfg), s) && !s.fired && s.ch.writer.Writing? && s.ch.writer.sent == 0
    ensures Reaches(cfg, Init(cfg), t) && !t.fired && t.ch.writer.Idle?
    ensures t == s.(ch := t.ch) && t.ch.queue == s.ch.queue && t.ch.enq == s.ch.enq
  {
    t := Go(cfg, s, Env(TransportTakes(|Encode(s.ch.writer.f)|)));
    t := Go(cfg, t, Env(TransportFlushes));
  }

  lemma QueueExit(cfg: Config, s: State, b: byte) returns (t: State)
    requires Reaches(cfg, Init(cfg), s) && !s.fired && s.out.pump == Aborted([b]) && s.main.SendingExit?
    requires s.ch.writer == Writing(Line(b), 0, cfg.write) && |s.ch.queue| == CHANNEL_BOUND && Small(s.ch.queue)
    requires s.kid.end == Some(End(Code(0), NoOverride))
    requires |cfg.json(ExitInfo(0, Exited))| <= MAX_FRAME_LEN
    ensures Reaches(cfg, Init(cfg), t) && t.ch.writer.Idle? && Exiting(cfg, t, b)
  {
    t := FinishFrame(cfg, s);
    hide Encode;
    t := Go(cfg, t, WriterTask(TakesFrame));
    t := Go(cfg, t, MainTask(SendsExit));
    t := FinishFrame(cfg, t);
  }

  lemma {:induction false} WriteAll(cfg: Config, s: State, b: byte) returns (t: State)
    requires Reaches(cfg, Init(cfg), s) && s.ch.writer.Idle? && Exiting(cfg, s, b)
    ensures Reaches(cfg, Init(cfg), t) && t.ch.writer.Idle? && t.ch.queue == [] && Exiting(cfg, t, b)
    decreases |s.ch.queue|
  {
    t := s;
    if s.ch.queue != [] {
      hide EndsWithExit, Encode;
      t := Go(cfg, t, WriterTask(TakesFrame));
      t := FinishFrame(cfg, t);
      t := WriteAll(cfg, t, b);
    }
  }

  lemma ReachedInv(cfg: Config, s: State)
    requires Reaches(cfg, Init(cfg), s)
    ensures Inv(cfg, s)
  {
    hide Inv;
    var steps :| Legal(cfg, Init(cfg), steps) && After(cfg, Init(cfg), steps) == s;
    Reached(cfg, steps);
  }

  /** What a host makes of everything the session wrote. */
  lemma HostReadsAll(cfg: Config, parse: Readers.Parser, s: State, b: byte)
    requires Inv(cfg, s) && EndToEnd.Inverts(cfg, parse)
    requires s.ch.writer.Idle? && s.ch.queue == [] && Exiting(cfg, s, b)
    ensures var r := Readers.Collect(parse, s.ch.wire);
            && r.Result? && r.code == 0 && r.reason == Some(Exited)
            && r.stdout + [b] == s.out.got
  {
    hide Shape, TeardownInv, KidInv, StdinInv, StreamOf, ExitFields, EncodeAll, OrderInv, Body, AllData, ExitFrame;
    hide Readers.CollectFrames, Readers.UntilTerminal, DecodeAll, EndToEnd.Inverts;
    var e, enq := s.kid.end.value, s.ch.enq;
    ExitIsRecorded(cfg, s);
    EverythingWritten(s.ch);
    StreamRoundTrip(GuestCmd, enq);
    EndToEnd.ExitIsExit(cfg, e);
    EndToEnd.DataThenTerminal(Body(enq), ExitFrame(cfg, e));
    Readers.CollectMeaning(parse, enq, [], []);
    EndToEnd.ParsedExit(cfg, parse, e);
    CleanExit();
    assert [] + StreamOf(enq, FRAME_STDOUT) == StreamOf(enq, FRAME_STDOUT);
  }

  lemma EverythingWritten(ch: Channel)
    requires WireInv(ch) && ch.writer.Idle? && ch.queue == []
    ensures ch.wire == EncodeAll(ch.enq) && FitsAll(MAX_FRAME_LEN, ch.enq)
  {
    hide EncodeAll;
    assert ch.done + [] == ch.done;
  }

  lemma CleanExit()
    ensures ExitFields(Code(0), NoOverride) == (0, Exited)
  {
  }

  /** The loss is real: for every write_timeout of at least a drain's length some run ends
      with the host holding a result of code 0 and reason "exited" whose stdout is short
      of the last bytes the agent had read from the child. */
  lemma CleanExitLosesOutput(cfg: Config, parse: Readers.Parser, b: byte) returns (s: State)
    requires EXEC_DRAIN <= cfg.write && EndToEnd.Inverts(cfg, parse)
    requires |cfg.json(ExitInfo(0, Exited))| <= MAX_FRAME_LEN
    ensures Reaches(cfg, Init(cfg), s)
    ensures var r := Readers.Collect(parse, s.ch.wire);
            r.Result? && r.code == 0 && r.reason == Some(Exited) && r.stdout + [b] == s.out.got
  {
    hide Reaches, Init, Inv, EndToEnd.Inverts;
    s := ReachWaiting(cfg, b);
    s := WaitOut(cfg, s, b);
    s := CutShort(cfg, s, b);
    s := QueueExit(cfg, s, b);
    s := WriteAll(cfg, s, b);
    ReachedInv(cfg, s);
    HostReadsAll(cfg, parse, s, b);
  }
}
