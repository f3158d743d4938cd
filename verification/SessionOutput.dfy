/** Where the child's output goes: what the pumps read is what the child wrote, they read
    until EOF, and a session that ends undisturbed has put every frame on the wire. */
module SessionOutput {
  import opened Codec
  import opened Session
  import opened SessionSafety
  import opened SessionCauses

  function Adds(step: Step, w: Pipe): seq<byte> {
    if step.Env? && step.e.ChildWrites? && step.e.w == w then step.e.chunk else []
  }

  /** Everything the child wrote to one pipe during a run. */
  function ChildWrote(steps: seq<Step>, w: Pipe): seq<byte> {
    if steps == [] then [] else Adds(steps[0], w) + ChildWrote(steps[1..], w)
  }

  lemma GotStep(cfg: Config, s: State, step: Step, w: Pipe)
    requires Enabled(s, step)
    ensures SourceOf(Apply(cfg, s, step), w).got == SourceOf(s, w).got + Adds(step, w)
  {
    hide Encode, ExitFrame, ErrorFrame;
    assert SourceOf(s, w).got + [] == SourceOf(s, w).got;
  }

  lemma {:induction false} GotRun(cfg: Config, s: State, steps: seq<Step>, w: Pipe)
    requires Legal(cfg, s, steps)
    ensures SourceOf(After(cfg, s, steps), w).got == SourceOf(s, w).got + ChildWrote(steps, w)
    decreases |steps|
  {
    var got := SourceOf(s, w).got;
    if steps == [] {
      assert got + [] == got;
    } else {
      hide Ready, Apply, SourceOf, Adds;
      GotStep(cfg, s, steps[0], w);
      GotRun(cfg, Apply(cfg, s, steps[0]), steps[1..], w);
      assert got + Adds(steps[0], w) + ChildWrote(steps[1..], w) == got + ChildWrote(steps, w);
    }
  }

  /** What a pump has read is what the child wrote to its pipe. */
  lemma ReadsAllWritten(cfg: Config, steps: seq<Step>, w: Pipe)
    requires Legal(cfg, Init(cfg), steps)
    ensures SourceOf(After(cfg, Init(cfg), steps), w).got == ChildWrote(steps, w)
  {
    hide Legal, After;
    GotRun(cfg, Init(cfg), steps, w);
    assert [] + ChildWrote(steps, w) == ChildWrote(steps, w);
  }

  // ------------------------------------------------------------ reading until EOF

  lemma {:induction false} StoppedForGood(cfg: Config, s: State, steps: seq<Step>)
    requires s.ch.writer.Stopped? && Legal(cfg, s, steps)
    ensures After(cfg, s, steps).ch.writer.Stopped? && After(cfg, s, steps).ch.enq == s.ch.enq
    decreases |steps|
  {
    hide Ready, Apply;
    if steps != [] {
      StoppedStep(cfg, s, steps[0]);
      StoppedForGood(cfg, Apply(cfg, s, steps[0]), steps[1..]);
    }
  }

  lemma StoppedStep(cfg: Config, s: State, step: Step)
    requires s.ch.writer.Stopped? && Enabled(s, step)
    ensures Apply(cfg, s, step).ch.writer.Stopped? && Apply(cfg, s, step).ch.enq == s.ch.enq
  {
    hide Encode, ExitFrame, ErrorFrame;
  }

  lemma NobodyToHandTo(cfg: Config, s: State, step: Step, w: Pipe)
    requires Shape(s) && OrderInv(cfg, s) && Enabled(s, step) && HandsToNoOne(s, step, w)
    ensures var t := Apply(cfg, s, step); t.ch.writer.Stopped? && t.ch.enq == s.ch.enq && !EndsWithExit(s.ch.enq)
  {
    hide Grammatical;
    DataHasNoExit(s.ch.enq);
  }

  /** A pump that stopped for want of a reader belongs to a session that sends no EXIT. */
  lemma {:induction false} EofOrNoExit(cfg: Config, s: State, steps: seq<Step>, w: Pipe)
    requires Inv(cfg, s) && Legal(cfg, s, steps)
    requires EndsWithExit(After(cfg, s, steps).ch.enq)
    ensures Happens(cfg, s, steps, PumpEnded(w)) <==> Env(ChildClosesPipe(w)) in steps
    decreases |steps|
  {
    hide Ready, Apply, Shape, OrderInv, WireInv, Conserved, StdinInv, KidInv, TeardownInv, EndsWithExit, HandsToNoOne;
    if steps != [] {
      var step, t := steps[0], Apply(cfg, s, steps[0]);
      InvStep(cfg, s, step);
      EofOrNoExit(cfg, t, steps[1..], w);
      if HandsToNoOne(s, step, w) {
        NobodyToHandTo(cfg, s, step, w);
        StoppedForGood(cfg, t, steps[1..]);
      }
      assert Env(ChildClosesPipe(w)) in steps <==> step == Env(ChildClosesPipe(w)) || Env(ChildClosesPipe(w)) in steps[1..];
    }
  }

  /** Until it has ended or its drain is over, a pump takes whatever the child writes next,
      or has a chunk in hand and a full queue, or can hand that chunk over at once. */
  lemma OutputFlows(cfg: Config, steps: seq<Step>, w: Pipe, chunk: seq<byte>)
    requires Legal(cfg, Init(cfg), steps) && 0 < |chunk| <= READ_CHUNK
    requires !Happens(cfg, Init(cfg), steps, PumpEnded(w))
    requires var s := After(cfg, Init(cfg), steps);
             s.verb != NoVerb && (w == ErrPipe ==> s.verb == ExecVerb) && !SourceOf(s, w).pump.Aborted?
    ensures var s := After(cfg, Init(cfg), steps);
            || Enabled(s, Env(ChildWrites(w, chunk)))
            || (Enabled(s, PumpTask(w)) && SourceOf(s, w).pump.Sending?)
            || (SourceOf(s, w).pump.Sending? && |s.ch.queue| == CHANNEL_BOUND)
  {
    hide Legal, After, Happens, WireInv, OrderInv, Conserved, StdinInv, KidInv, TeardownInv;
    Reached(cfg, steps);
    FactsHaveCauses(cfg, steps, PumpEnded(w));
    ErrIsLive(cfg, steps);
  }

  // ------------------------------------------------------------ delivery

  /** A writer that ended undisturbed wrote everything, and then the EXIT is there. */
  predicate DeliveryInv(s: State) {
    && (s.ch.writer.Stopped? && !s.fired ==>
          s.ch.wire == EncodeAll(s.ch.enq) && FitsAll(MAX_FRAME_LEN, s.ch.enq))
    && (s.main.Over() && s.verb != NoVerb && !s.fired ==> EndsWithExit(s.ch.enq))
    && (s.verb == ExecVerb ==> !s.err.pump.Unborn?)
  }

  lemma DeliveryMain(cfg: Config, s: State, m: MainStep)
    requires Shape(s) && DeliveryInv(s) && MainReady(s, m)
    ensures DeliveryInv(MainApply(cfg, s, m))
  {
    hide ExitFields, EncodeAll, FitsAll;
  }

  lemma DeliveryWriter(cfg: Config, s: State, a: WriterStep)
    requires DeliveryInv(s) && WireInv(s.ch) && WriterReady(s, a)
    ensures DeliveryInv(WriterApply(cfg, s, a))
  {
    hide EncodeAll, FitsAll;
    if a.ChannelClosed? { assert s.ch.done + [] == s.ch.done; }
  }

  lemma DeliveryEnv(s: State, e: EnvStep)
    requires DeliveryInv(s) && EnvReady(s, e)
    ensures DeliveryInv(EnvApply(s, e))
  {
    hide Encode, EncodeAll, FitsAll;
  }

  lemma DeliveryTask(cfg: Config, s: State, step: Step)
    requires Shape(s) && DeliveryInv(s) && Enabled(s, step) && (step.PumpTask? || step.InputTask?)
    ensures DeliveryInv(Apply(cfg, s, step))
  {
    hide EncodeAll, FitsAll, MainApply, MainReady, WriterApply, WriterReady, EnvApply, EnvReady, Fresh;
  }

  lemma DeliveryStep(cfg: Config, s: State, step: Step)
    requires Shape(s) && WireInv(s.ch) && DeliveryInv(s) && Enabled(s, step)
    ensures DeliveryInv(Apply(cfg, s, step))
  {
    hide MainApply, MainReady, WriterApply, WriterReady, EnvApply, EnvReady, Shape, WireInv, EncodeAll, FitsAll;
    match step {
      case MainTask(m) => DeliveryMain(cfg, s, m);
      case WriterTask(a) => DeliveryWriter(cfg, s, a);
      case Env(e) => DeliveryEnv(s, e);
      case Tick =>
      case _ => DeliveryTask(cfg, s, step);
    }
  }

  lemma {:induction false} DeliveryRun(cfg: Config, s: State, steps: seq<Step>)
    requires Inv(cfg, s) && DeliveryInv(s) && Legal(cfg, s, steps)
    ensures DeliveryInv(After(cfg, s, steps))
    decreases |steps|
  {
    hide Ready, Apply, OrderInv, Conserved, StdinInv, KidInv, TeardownInv, DeliveryInv, Shape, WireInv;
    if steps != [] {
      InvStep(cfg, s, steps[0]);
      DeliveryStep(cfg, s, steps[0]);
      DeliveryRun(cfg, Apply(cfg, s, steps[0]), steps[1..]);
    }
  }

  lemma ErrIsLive(cfg: Config, steps: seq<Step>)
    requires Legal(cfg, Init(cfg), steps)
    ensures var s := After(cfg, Init(cfg), steps); s.verb == ExecVerb ==> !s.err.pump.Unborn?
  {
    hide Legal, After, Inv;
    InitInv(cfg);
    DeliveryRun(cfg, Init(cfg), steps);
  }

  /** Main result: a session that returns without teardown has written every frame it
      queued, whole and in order; and if it ran a verb the last of them is its EXIT. */
  lemma FinishedIsDelivered(cfg: Config, steps: seq<Step>)
    requires Legal(cfg, Init(cfg), steps)
    requires After(cfg, Init(cfg), steps).main.Returned? && !After(cfg, Init(cfg), steps).fired
    ensures var s := After(cfg, Init(cfg), steps);
            && s.ch.wire == EncodeAll(s.ch.enq) && FitsAll(MAX_FRAME_LEN, s.ch.enq)
            && (s.verb != NoVerb ==> EndsWithExit(s.ch.enq))
  {
    hide Legal, After, WireInv, OrderInv, Conserved, StdinInv, KidInv, TeardownInv, EncodeAll, FitsAll;
    Reached(cfg, steps);
    InitInv(cfg);
    DeliveryRun(cfg, Init(cfg), steps);
  }
}
