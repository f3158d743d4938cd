/** From the child's pipes to the host's result: the session, an arbitrarily cut
    transport, and guest_cmd.py's reader together. */
module EndToEnd {
  import opened Wrappers
  import opened Codec
  import opened Control
  import opened Session
  import opened SessionSafety
  import opened SessionCauses
  import opened SessionOutput
  import Readers

  /** The host's JSON parser undoes the agent's serializer on EXIT payloads. */
  ghost predicate Inverts(cfg: Config, parse: Readers.Parser) {
    forall code: int, reason: Reason {:trigger ExitInfo(code, reason)} ::
      parse(cfg.json(ExitInfo(code, reason))) == Doc(Some(code), Some(reason))
  }

  /** The frames a host decodes from a prefix of the wire are the first frames the
      session queued. */
  lemma HostFrames(ch: Channel, fs: seq<Frame>, h: seq<byte>)
    requires ch.wire <= EncodeAll(Sendable(fs)) && h <= ch.wire
    ensures DecodeAll(GuestCmd, h).frames <= Sendable(fs)
    ensures DecodeAll(GuestCmd, h).last != Bad(Oversize)
  {
    SendableFits(fs);
    DecodePrefix(GuestCmd, Sendable(fs), h);
  }

  lemma {:induction false} DataHasNoTerminal(fs: seq<Frame>)
    requires AllData(fs)
    ensures Readers.UntilTerminal(fs) == fs
  {
    if fs != [] {
      assert IsData(fs[0]);
      assert forall i :: 0 <= i < |fs| - 1 ==> fs[1..][i] == fs[i + 1];
      DataHasNoTerminal(fs[1..]);
    }
  }

  lemma {:induction false} DataThenTerminal(fs: seq<Frame>, f: Frame)
    requires AllData(fs) && (f.ftype == FRAME_EXIT || f.ftype == FRAME_ERROR)
    ensures Readers.UntilTerminal(fs + [f]) == fs + [f]
  {
    if fs == [] {
      assert fs + [f] == [f];
    } else {
      assert IsData(fs[0]);
      assert (fs + [f])[1..] == fs[1..] + [f];
      assert forall i :: 0 <= i < |fs| - 1 ==> fs[1..][i] == fs[i + 1];
      DataThenTerminal(fs[1..], f);
      assert [fs[0]] + (fs[1..] + [f]) == fs + [f];
    }
  }

  /** A prefix of a grammatical trace in which the host found an EXIT is all of it. */
  lemma ExitMeansAll(cfg: Config, s: State, frames: seq<Frame>)
    requires Shape(s) && OrderInv(cfg, s) && frames <= s.ch.enq
    requires EndsWithExit(Readers.UntilTerminal(frames))
    ensures EndsWithExit(s.ch.enq) && frames == s.ch.enq && Readers.UntilTerminal(frames) == frames
  {
    hide Shape, ExitFields;
    var enq, u := s.ch.enq, Readers.UntilTerminal(frames);
    var k := |u| - 1;
    assert u[k] == frames[k] == enq[k] && enq[k].ftype == FRAME_EXIT;
    DataAt(enq, k);
    if s.verb != NoVerb {
      var body := Body(enq);
      DataAt(body, k);
      assert k == |body| && frames == enq;
      DataThenTerminal(body, ExitFrame(cfg, s.kid.end.value));
    }
  }

  lemma DataAt(fs: seq<Frame>, k: nat)
    ensures AllData(fs) && k < |fs| ==> IsData(fs[k])
  {
  }

  /** At every moment of every run, whatever part `h` of the wire the host has read: its
      stdout and its stderr are prefixes of what the child wrote to the two pipes. */
  lemma HostOutputIsPrefix(cfg: Config, steps: seq<Step>, h: seq<byte>, w: Pipe)
    requires Legal(cfg, Init(cfg), steps)
    requires h <= After(cfg, Init(cfg), steps).ch.wire
    ensures StreamOf(Readers.UntilTerminal(DecodeAll(GuestCmd, h).frames), TypeOf(w)) <= ChildWrote(steps, w)
  {
    hide Legal, After, WireInv, OrderInv, Shape, StdinInv, KidInv, TeardownInv, ChildWrote;
    Reached(cfg, steps);
    ReadsAllWritten(cfg, steps, w);
    var s := After(cfg, Init(cfg), steps);
    WireIsPrefix(s.ch);
    HostFrames(s.ch, s.ch.enq, h);
    StreamOfPrefix(Readers.UntilTerminal(DecodeAll(GuestCmd, h).frames), s.ch.enq, TypeOf(w));
  }

  /** A host that got a result has read every frame the session queued. */
  lemma HostGotAll(cfg: Config, parse: Readers.Parser, s: State, h: seq<byte>)
    requires Shape(s) && OrderInv(cfg, s) && WireInv(s.ch) && h <= s.ch.wire
    requires Readers.Collect(parse, h).Result?
    ensures var r := Readers.Collect(parse, h);
            && EndsWithExit(s.ch.enq)
            && r.stdout == StreamOf(s.ch.enq, FRAME_STDOUT) && r.stderr == StreamOf(s.ch.enq, FRAME_STDERR)
            && parse(s.ch.enq[|s.ch.enq| - 1].payload) == Doc(Some(r.code), r.reason)
  {
    var frames := DecodeAll(GuestCmd, h).frames;
    WireIsPrefix(s.ch);
    HostFrames(s.ch, s.ch.enq, h);
    Readers.CollectMeaning(parse, frames, [], []);
    ExitMeansAll(cfg, s, frames);
    hide OrderInv, Shape, WireInv, StreamOf, Readers.CollectFrames;
    assert [] + StreamOf(frames, FRAME_STDOUT) == StreamOf(frames, FRAME_STDOUT);
    assert [] + StreamOf(frames, FRAME_STDERR) == StreamOf(frames, FRAME_STDERR);
  }

  /** Main result: when `_collect_result` returns from a prefix of the wire, however the
      bytes were cut, each stream is exactly what the child wrote, short of the one chunk
      an aborted pump was parked on; so it is complete if and only if no drain ran out
      with the pump parked on a full queue, and complete to the end of the pipe if it was
      closed. */
  lemma DeliveredInFull(cfg: Config, parse: Readers.Parser, steps: seq<Step>, h: seq<byte>)
    requires Legal(cfg, Init(cfg), steps)
    requires h <= After(cfg, Init(cfg), steps).ch.wire
    requires Readers.Collect(parse, h).Result?
    ensures var s := After(cfg, Init(cfg), steps);
            var r := Readers.Collect(parse, h);
            && r.stdout + s.out.Pending() == ChildWrote(steps, OutPipe)
            && r.stderr + s.err.Pending() == ChildWrote(steps, ErrPipe)
            && (r.stdout == ChildWrote(steps, OutPipe) <==> !Happens(cfg, Init(cfg), steps, ChunkLost(OutPipe)))
            && (r.stderr == ChildWrote(steps, ErrPipe) <==> !Happens(cfg, Init(cfg), steps, ChunkLost(ErrPipe)))
            && (s.out.pump.Ended? <==> Env(ChildClosesPipe(OutPipe)) in steps)
            && (s.err.pump.Ended? <==> Env(ChildClosesPipe(ErrPipe)) in steps)
            && (s.out.pump.Ended? ==> r.stdout == ChildWrote(steps, OutPipe))
            && (s.err.pump.Ended? ==> r.stderr == ChildWrote(steps, ErrPipe))
  {
    hide Legal, After, Inv, StreamOf, Happens, ChildWrote, EndsWithExit, Readers.Collect;
    var s := After(cfg, Init(cfg), steps);
    var r := Readers.Collect(parse, h);
    Reached(cfg, steps);
    HostGot(cfg, parse, s, h);
    PipeEnds(cfg, steps, OutPipe);
    PipeEnds(cfg, steps, ErrPipe);
    hide Lossy, Source.Pending;
    Remainder(r.stdout, s.out.Pending(), s.out.got);
    Remainder(r.stderr, s.err.Pending(), s.err.got);
  }

  /** The host's streams against what the pumps read. */
  lemma HostGot(cfg: Config, parse: Readers.Parser, s: State, h: seq<byte>)
    requires Inv(cfg, s) && h <= s.ch.wire && Readers.Collect(parse, h).Result?
    ensures var r := Readers.Collect(parse, h);
            && EndsWithExit(s.ch.enq)
            && r.stdout + s.out.Pending() == s.out.got && r.stderr + s.err.Pending() == s.err.got
            && (s.out.Pending() == [] <==> !Lossy(s.out)) && (s.err.Pending() == [] <==> !Lossy(s.err))
            && (s.out.pump.Ended? ==> s.out.Pending() == []) && (s.err.pump.Ended? ==> s.err.Pending() == [])
  {
    hide WireInv, OrderInv, Shape, StdinInv, KidInv, TeardownInv, StreamOf, EndsWithExit;
    HostGotAll(cfg, parse, s, h);
    PumpsGone(cfg, s);
  }

  /** One pipe of a session that queued its EXIT. */
  lemma PipeEnds(cfg: Config, steps: seq<Step>, w: Pipe)
    requires Legal(cfg, Init(cfg), steps) && EndsWithExit(After(cfg, Init(cfg), steps).ch.enq)
    ensures var src := SourceOf(After(cfg, Init(cfg), steps), w);
            && src.got == ChildWrote(steps, w)
            && (Lossy(src) <==> Happens(cfg, Init(cfg), steps, ChunkLost(w)))
            && (src.pump.Ended? <==> Env(ChildClosesPipe(w)) in steps)
  {
    hide Legal, After, Inv, Happens, ChildWrote, EndsWithExit;
    ReadsAllWritten(cfg, steps, w);
    FactsHaveCauses(cfg, steps, ChunkLost(w));
    FactsHaveCauses(cfg, steps, PumpEnded(w));
    InitInv(cfg);
    EofOrNoExit(cfg, Init(cfg), steps, w);
  }

  lemma PumpsGone(cfg: Config, s: State)
    requires Shape(s) && OrderInv(cfg, s) && EndsWithExit(s.ch.enq)
    ensures s.out.Pending() == [] <==> !Lossy(s.out)
    ensures s.err.Pending() == [] <==> !Lossy(s.err)
  {
    hide Grammatical;
    if !s.main.Over() { DataHasNoExit(s.ch.enq); }
  }

  lemma Remainder(a: seq<byte>, lost: seq<byte>, all: seq<byte>)
    requires a + lost == all
    ensures a == all <==> lost == []
  {
    if lost == [] { assert a + [] == a; } else { assert |a| < |all|; }
  }

  lemma ParsedExit(cfg: Config, parse: Readers.Parser, e: End)
    requires Inverts(cfg, parse)
    ensures var (code, reason) := ExitFields(e.st, e.why);
            parse(ExitFrame(cfg, e).payload) == Doc(Some(code), Some(reason))
  {
    var (code, reason) := ExitFields(e.st, e.why);
    assert ExitFrame(cfg, e).payload == cfg.json(ExitInfo(code, reason));
  }

  lemma HostExit(cfg: Config, parse: Readers.Parser, s: State, h: seq<byte>)
    requires Inv(cfg, s) && h <= s.ch.wire && Readers.Collect(parse, h).Result?
    ensures var r := Readers.Collect(parse, h);
            && ReasonIsTrue(s.kid)
            && parse(ExitFrame(cfg, s.kid.end.value).payload) == Doc(Some(r.code), r.reason)
  {
    hide WireInv, OrderInv, Shape, StdinInv, TeardownInv, ReasonIsTrue, KidInv, ExitFields, Conserved;
    HostGotAll(cfg, parse, s, h);
    ExitIsRecorded(cfg, s);
    KidReason(s.now, s.main, s.verb, s.kid);
  }

  /** The code and the reason the host reports are those of the session's own result. */
  lemma ResultIsTheSessions(cfg: Config, parse: Readers.Parser, steps: seq<Step>, h: seq<byte>)
    requires Legal(cfg, Init(cfg), steps) && Inverts(cfg, parse)
    requires h <= After(cfg, Init(cfg), steps).ch.wire
    requires Readers.Collect(parse, h).Result?
    ensures var s := After(cfg, Init(cfg), steps);
            var r := Readers.Collect(parse, h);
            && ReasonIsTrue(s.kid)
            && (r.code, r.reason) == (ExitFields(s.kid.end.value.st, s.kid.end.value.why).0,
                                      Some(ExitFields(s.kid.end.value.st, s.kid.end.value.why).1))
  {
    hide Legal, After, Inv, ExitFields;
    var s := After(cfg, Init(cfg), steps);
    Reached(cfg, steps);
    HostExit(cfg, parse, s, h);
    ParsedExit(cfg, parse, s.kid.end.value);
  }

  /** Main result: every session that ran a verb and returned without teardown leaves its
      result with a host that reads to the end: the child's code and reason, and of each
      pipe that was closed everything the child wrote to it. */
  lemma EverythingArrives(cfg: Config, parse: Readers.Parser, steps: seq<Step>)
    requires Legal(cfg, Init(cfg), steps) && Inverts(cfg, parse)
    requires var s := After(cfg, Init(cfg), steps); s.main.Returned? && !s.fired && s.verb != NoVerb
    ensures var s := After(cfg, Init(cfg), steps);
            var r := Readers.Collect(parse, s.ch.wire);
            && r.Result? && s.kid.end.Some?
            && (r.code, r.reason) == (ExitFields(s.kid.end.value.st, s.kid.end.value.why).0,
                                      Some(ExitFields(s.kid.end.value.st, s.kid.end.value.why).1))
            && (Env(ChildClosesPipe(OutPipe)) in steps ==> r.stdout == ChildWrote(steps, OutPipe))
            && (Env(ChildClosesPipe(ErrPipe)) in steps ==> r.stderr == ChildWrote(steps, ErrPipe))
  {
    hide Legal, After, Inv, ExitFields, Readers.Collect, ChildWrote, Inverts, EndsWithExit, FitsAll, Happens, ReasonIsTrue;
    var s := After(cfg, Init(cfg), steps);
    Reached(cfg, steps);
    FinishedIsDelivered(cfg, steps);
    ExitCollected(cfg, parse, s);
    ResultIsTheSessions(cfg, parse, steps, s.ch.wire);
    DeliveredInFull(cfg, parse, steps, s.ch.wire);
    EndIsKnown(cfg, s);
  }

  lemma EndIsKnown(cfg: Config, s: State)
    requires Inv(cfg, s) && EndsWithExit(s.ch.enq)
    ensures s.kid.end.Some?
  {
    hide WireInv, StdinInv, KidInv, TeardownInv, Conserved, EndsWithExit;
    ExitIsRecorded(cfg, s);
  }

  /** A complete wire that ends in the session's EXIT is collected as a result. */
  lemma ExitCollected(cfg: Config, parse: Readers.Parser, s: State)
    requires Inv(cfg, s) && EndsWithExit(s.ch.enq) && Inverts(cfg, parse)
    requires s.ch.wire == EncodeAll(s.ch.enq) && FitsAll(MAX_FRAME_LEN, s.ch.enq)
    ensures Readers.Collect(parse, s.ch.wire).Result?
  {
    hide WireInv, StdinInv, KidInv, TeardownInv, Conserved, Shape, OrderInv, Body, AllData, ExitFrame, ExitFields;
    hide Readers.CollectFrames, Readers.UntilTerminal, DecodeAll, Inverts, EncodeAll, StreamOf;
    ExitIsRecorded(cfg, s);
    var e, enq := s.kid.end.value, s.ch.enq;
    StreamRoundTrip(GuestCmd, enq);
    ExitIsExit(cfg, e);
    DataThenTerminal(Body(enq), ExitFrame(cfg, e));
    Readers.CollectMeaning(parse, enq, [], []);
    ParsedExit(cfg, parse, e);
  }

  lemma ExitIsExit(cfg: Config, e: End)
    ensures ExitFrame(cfg, e).ftype == FRAME_EXIT
  {
    hide ExitFields;
  }

  /** exec never delivers an EXIT with reason "disconnected"; open-pty delivers one only
      when its input task ended without firing cancel. */
  lemma DisconnectedIsSilent(cfg: Config, parse: Readers.Parser, steps: seq<Step>, h: seq<byte>)
    requires Legal(cfg, Init(cfg), steps) && Inverts(cfg, parse)
    requires h <= After(cfg, Init(cfg), steps).ch.wire
    requires Readers.Collect(parse, h).Result? && Readers.Collect(parse, h).reason == Some(Disconnected)
    ensures var s := After(cfg, Init(cfg), steps);
            s.verb == PtyVerb && (s.feed.input == DoneIn(PeerGone) || s.feed.input == DoneIn(StdinRefused))
  {
    hide Legal, After, WireInv, StdinInv, KidInv, OrderInv, Shape;
    var s := After(cfg, Init(cfg), steps);
    ResultIsTheSessions(cfg, parse, steps, h);
    Reached(cfg, steps);
    assert s.kid.end.value.why == ByDisconnect;
    if !(s.verb == PtyVerb && QuietEnd(s.feed)) {
      var frames := DecodeAll(GuestCmd, h).frames;
      HostFrames(s.ch, Body(s.ch.enq), h);
      Readers.CollectMeaning(parse, frames, [], []);
      NoExitInBody(cfg, s, Readers.UntilTerminal(frames));
    }
  }

  lemma NoExitInBody(cfg: Config, s: State, u: seq<Frame>)
    requires OrderInv(cfg, s) && u <= Body(s.ch.enq)
    ensures !EndsWithExit(u)
  {
    var body := Body(s.ch.enq);
    if u != [] {
      assert u[|u| - 1] == body[|u| - 1];
      DataAt(body, |u| - 1);
      if AllData(s.ch.enq) { BodyOfData(s.ch.enq); }
    }
  }

  /** An interactive session whose peer has closed and which is hanging up its shell. */
  predicate HungUp(s: State) {
    && s.main.HangingUp? && s.verb == PtyVerb && !s.fired && s.kid.child.Alive? && s.feed.input == DoneIn(PeerGone)
    && s.ch == Channel(Idle, [], [], [], []) && s.out == Source(Reading, []) && s.err.pump.Unborn?
  }

  lemma ReachHungUp(cfg: Config) returns (s: State)
    ensures Reaches(cfg, Init(cfg), s) && HungUp(s)
  {
    s := Init(cfg);
    ReachesSelf(cfg, s);
    s := Go(cfg, s, Env(PeerSends(Request(OpenPty))));
    s := Go(cfg, s, MainTask(GotRequest(SpawnOk)));
    s := Go(cfg, s, Env(PeerSends(PeerClosed)));
    s := Go(cfg, s, InputTask(InputStep.Reads));
    s := Go(cfg, s, MainTask(InputEnded));
  }

  /** The exception is real: an open-pty peer that half-closes does get its EXIT. */
  lemma PtyReportsDisconnected(cfg: Config, parse: Readers.Parser, sig: int) returns (s: State)
    requires Inverts(cfg, parse) && |cfg.json(ExitInfo(128 + sig, Disconnected))| <= MAX_FRAME_LEN
    ensures Reaches(cfg, Init(cfg), s)
    ensures Readers.Collect(parse, s.ch.wire) == Readers.Result([], [], 128 + sig, Some(Disconnected))
  {
    var e := End(Signal(sig), ByDisconnect);
    var f := ExitFrame(cfg, e);
    s := ReachHungUp(cfg);
    s := FinishHangUp(cfg, s, sig);
    s := WriteExit(cfg, s, f);
    assert EncodeAll([f]) == Encode(f) + EncodeAll([]) == Encode(f);
    StreamRoundTrip(GuestCmd, [f]);
    ParsedExit(cfg, parse, e);
  }

  lemma FinishHangUp(cfg: Config, s: State, sig: int) returns (t: State)
    requires Reaches(cfg, Init(cfg), s) && HungUp(s)
    ensures Reaches(cfg, Init(cfg), t) && !t.fired
    ensures t.ch == Channel(Idle, [ExitFrame(cfg, End(Signal(sig), ByDisconnect))],
                            [ExitFrame(cfg, End(Signal(sig), ByDisconnect))], [], [])
  {
    t := Go(cfg, s, Env(ChildEnds(Signal(sig))));
    t := Go(cfg, t, MainTask(ReapedChild));
    t := Go(cfg, t, Env(ChildClosesPipe(OutPipe)));
    t := Go(cfg, t, MainTask(DrainDone));
    t := Go(cfg, t, MainTask(SendsExit));
  }

  lemma WriteExit(cfg: Config, s: State, f: Frame) returns (t: State)
    requires Reaches(cfg, Init(cfg), s) && !s.fired && |f.payload| <= MAX_FRAME_LEN
    requires s.ch == Channel(Idle, [f], [f], [], [])
    ensures Reaches(cfg, Init(cfg), t) && t.ch.wire == Encode(f)
  {
    t := Go(cfg, s, WriterTask(TakesFrame));
    t := Go(cfg, t, Env(TransportTakes(|Encode(f)|)));
    assert Encode(f)[0..0 + |Encode(f)|] == Encode(f);
  }
}
