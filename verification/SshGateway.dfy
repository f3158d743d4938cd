/** The SSH-to-guest direction of ssh_gateway.py's VsockShellSession: the inbound queue
    with its high and low water marks, and the frames its tasks write to one stream.
    asyncio is single-threaded, so the code between two awaits is one step. */
module SshGateway {
  import opened Codec

  const INBOUND_HIGH_WATER := 1024
  const INBOUND_LOW_WATER := 256

  datatype Event = Data(bytes: seq<byte>) | Resize(rows: nat, cols: nat) | Eof

  /** `json` stands for `resize_payload`; `request` is the open-pty or exec payload. */
  datatype Config = Config(json: (nat, nat) -> seq<byte>, request: seq<byte>)

  function FrameFor(cfg: Config, e: Event): Frame {
    match e
    case Data(bytes) => Frame(FRAME_STDIN, bytes)
    case Resize(rows, cols) => Frame(FRAME_RESIZE, cfg.json(rows, cols))
    case Eof => Frame(FRAME_STDIN_EOF, [])
  }

  const PING := Frame(FRAME_PING, [])

  datatype Phase = Connecting | Shuttling

  /** `sent` is every frame written after the CONNECT line; `accepted` every event the
      callbacks have queued; `forwarded` how many of them the pump has written. */
  datatype Gateway = Gateway(
    phase: Phase,
    inbound: seq<Event>,
    paused: bool,
    pumping: bool,
    pinging: bool,
    sent: seq<Frame>,
    accepted: seq<Event>,
    forwarded: nat)

  const START := Gateway(Connecting, [], false, false, false, [], [], 0)

  /** `ok` says whether the channel's pause or resume call succeeds, `written` whether
      the write does. */
  datatype Act =
    | Arrives(e: Event, ok: bool)
    | Requested
    | Pumps(ok: bool, written: bool)
    | PumpBreaks
    | Pings(written: bool)

  predicate Enabled(g: Gateway, a: Act) {
    match a
    case Arrives(e, _) => e.Data? ==> !g.paused     // a paused channel delivers no data
    case Requested => g.phase.Connecting?
    case Pumps(_, _) => g.phase.Shuttling? && g.pumping && g.inbound != []
    case PumpBreaks => g.pumping
    case Pings(_) => g.phase.Shuttling? && g.pinging
  }

  /** `_enqueue`. */
  function Enqueue(g: Gateway, e: Event, ok: bool): Gateway {
    var q := g.inbound + [e];
    g.(inbound := q, accepted := g.accepted + [e],
       paused := g.paused || (|q| >= INBOUND_HIGH_WATER && ok))
  }

  /** One turn of `_pump_inbound`, up to its next await.  An oversized payload raises out
      of the pump; a failed write ends it. */
  function Pump(cfg: Config, g: Gateway, ok: bool, written: bool): Gateway
    requires g.inbound != []
  {
    var e, rest := g.inbound[0], g.inbound[1..];
    var f := FrameFor(cfg, e);
    var t := g.(inbound := rest, paused := g.paused && !(|rest| <= INBOUND_LOW_WATER && ok));
    if |f.payload| > MAX_FRAME_LEN || !written then t.(pumping := false)
    else t.(sent := g.sent + [f], forwarded := g.forwarded + 1)
  }

  function Apply(cfg: Config, g: Gateway, a: Act): Gateway
    requires Enabled(g, a)
  {
    match a
    case Arrives(e, ok) => Enqueue(g, e, ok)
    case Requested =>
      // an oversized request raises out of `_run` before anything starts
      if |cfg.request| > MAX_FRAME_LEN then g
      else g.(phase := Shuttling, pumping := true, pinging := true, sent := [Frame(FRAME_REQUEST, cfg.request)])
    case Pumps(ok, written) => Pump(cfg, g, ok, written)
    case PumpBreaks => g.(pumping := false)
    case Pings(written) => if written then g.(sent := g.sent + [PING]) else g.(pinging := false)
  }

  predicate Legal(cfg: Config, g: Gateway, acts: seq<Act>)
    decreases |acts|
  {
    acts == [] || (Enabled(g, acts[0]) && Legal(cfg, Apply(cfg, g, acts[0]), acts[1..]))
  }

  function After(cfg: Config, g: Gateway, acts: seq<Act>): Gateway
    requires Legal(cfg, g, acts)
    decreases |acts|
  {
    if acts == [] then g else After(cfg, Apply(cfg, g, acts[0]), acts[1..])
  }

  // ------------------------------------------------------------ backpressure

  function DataEvents(q: seq<Event>): nat {
    if q == [] then 0 else (if q[0].Data? then 1 else 0) + DataEvents(q[1..])
  }

  lemma {:induction false} DataEventsSnoc(q: seq<Event>, e: Event)
    ensures DataEvents(q + [e]) == DataEvents(q) + if e.Data? then 1 else 0
    ensures DataEvents(q) <= |q|
  {
    if q == [] {
      assert DataEvents([e][1..]) == 0;
      assert q + [e] == [e];
    } else {
      assert (q + [e])[1..] == q[1..] + [e];
      DataEventsSnoc(q[1..], e);
    }
  }

  /** The marks at which the flag has to change, and the bound they put on the queue. */
  predicate Hysteresis(g: Gateway) {
    && (g.paused ==> |g.inbound| > INBOUND_LOW_WATER)
    && (!g.paused ==> |g.inbound| < INBOUND_HIGH_WATER)
    && DataEvents(g.inbound) <= INBOUND_HIGH_WATER
  }

  /** Pause and resume calls succeed. */
  predicate ChannelObeys(a: Act) { (a.Arrives? ==> a.ok) && (a.Pumps? ==> a.ok) }

  lemma HysteresisStep(cfg: Config, g: Gateway, a: Act)
    requires Hysteresis(g) && Enabled(g, a) && ChannelObeys(a)
    ensures Hysteresis(Apply(cfg, g, a))
  {
    match a {
      case Arrives(e, _) => DataEventsSnoc(g.inbound, e);
      case _ =>
    }
  }

  /** Main result: however callbacks and tasks interleave, reading is paused only above
      the low mark and unpaused only below the high one, at most INBOUND_HIGH_WATER data
      events are ever queued, and the pump never waits on an empty queue while the
      channel that would fill it is paused. */
  lemma {:induction false} Backpressure(cfg: Config, g: Gateway, acts: seq<Act>)
    requires Hysteresis(g) && Legal(cfg, g, acts)
    requires forall i :: 0 <= i < |acts| ==> ChannelObeys(acts[i])
    ensures Hysteresis(After(cfg, g, acts))
    ensures var t := After(cfg, g, acts); t.inbound == [] ==> !t.paused
    decreases |acts|
  {
    if acts != [] {
      HysteresisStep(cfg, g, acts[0]);
      assert forall i :: 0 <= i < |acts| - 1 ==> acts[1..][i] == acts[i + 1];
      Backpressure(cfg, Apply(cfg, g, acts[0]), acts[1..]);
    }
  }

  /** The queue's length after each step of a run. */
  ghost function Lengths(cfg: Config, g: Gateway, acts: seq<Act>): seq<nat>
    requires Legal(cfg, g, acts)
    decreases |acts|
  {
    if acts == [] then []
    else [|Apply(cfg, g, acts[0]).inbound|] + Lengths(cfg, Apply(cfg, g, acts[0]), acts[1..])
  }

  /** A switch that goes on at the high mark, off at the low one, and stays between. */
  function Latch(on: bool, lens: seq<nat>): bool
    decreases |lens|
  {
    if lens == [] then on
    else Latch(lens[0] >= INBOUND_HIGH_WATER || (lens[0] > INBOUND_LOW_WATER && on), lens[1..])
  }

  lemma LatchStep(cfg: Config, g: Gateway, a: Act)
    requires Hysteresis(g) && Enabled(g, a) && ChannelObeys(a)
    ensures var t := Apply(cfg, g, a);
            t.paused == (|t.inbound| >= INBOUND_HIGH_WATER || (|t.inbound| > INBOUND_LOW_WATER && g.paused))
  {
    hide DataEvents, FrameFor;
  }

  /** A pause or resume call that raises leaves the flag as it was. */
  lemma FailedCallKeepsFlag(cfg: Config, g: Gateway, a: Act)
    requires Enabled(g, a) && ((a.Arrives? && !a.ok) || (a.Pumps? && !a.ok))
    ensures Apply(cfg, g, a).paused == g.paused
  {
    hide FrameFor;
  }

  /** Main result: the flag is the hysteresis between the two marks, no more and no less:
      at every moment it is what the last mark crossed by the queue's length says. */
  lemma {:induction false} FlagIsLatched(cfg: Config, g: Gateway, acts: seq<Act>)
    requires Hysteresis(g) && Legal(cfg, g, acts)
    requires forall i :: 0 <= i < |acts| ==> ChannelObeys(acts[i])
    ensures After(cfg, g, acts).paused == Latch(g.paused, Lengths(cfg, g, acts))
    decreases |acts|
  {
    if acts != [] {
      var t := Apply(cfg, g, acts[0]);
      HysteresisStep(cfg, g, acts[0]);
      LatchStep(cfg, g, acts[0]);
      hide Apply, Hysteresis;
      assert forall i :: 0 <= i < |acts| - 1 ==> acts[1..][i] == acts[i + 1];
      FlagIsLatched(cfg, t, acts[1..]);
      assert Lengths(cfg, g, acts)[1..] == Lengths(cfg, t, acts[1..]);
    }
  }

  lemma {:induction false} LatchKeeps(on: bool, lens: seq<nat>)
    requires forall i :: 0 <= i < |lens| ==> INBOUND_LOW_WATER < lens[i] < INBOUND_HIGH_WATER
    ensures Latch(on, lens) == on
    decreases |lens|
  {
    if lens != [] { LatchKeeps(on, lens[1..]); }
  }

  /** While the queue stays strictly between the marks, reading is neither paused nor
      resumed. */
  lemma FlagKeptBetweenMarks(cfg: Config, g: Gateway, acts: seq<Act>)
    requires Hysteresis(g) && Legal(cfg, g, acts)
    requires forall i :: 0 <= i < |acts| ==> ChannelObeys(acts[i])
    requires forall i :: 0 <= i < |Lengths(cfg, g, acts)| ==>
               INBOUND_LOW_WATER < Lengths(cfg, g, acts)[i] < INBOUND_HIGH_WATER
    ensures After(cfg, g, acts).paused == g.paused
  {
    FlagIsLatched(cfg, g, acts);
    LatchKeeps(g.paused, Lengths(cfg, g, acts));
  }

  lemma StartsUnpaused()
    ensures Hysteresis(START)
  {
  }

  // ------------------------------------------------------------ the order of frames

  function FramesFor(cfg: Config, es: seq<Event>): seq<Frame> {
    if es == [] then [] else FramesFor(cfg, es[..|es| - 1]) + [FrameFor(cfg, es[|es| - 1])]
  }

  function WithoutPings(fs: seq<Frame>): seq<Frame> {
    if fs == [] then []
    else
      var front := WithoutPings(fs[..|fs| - 1]);
      if fs[|fs| - 1] == PING then front else front + [fs[|fs| - 1]]
  }

  /** REQUEST first; then, PINGs aside, exactly the frames of `es` in order. */
  predicate SentInOrder(cfg: Config, sent: seq<Frame>, es: seq<Event>) {
    && sent != [] && sent[0] == Frame(FRAME_REQUEST, cfg.request)
    && WithoutPings(sent[1..]) == FramesFor(cfg, es)
    && FitsAll(MAX_FRAME_LEN, sent)
  }

  predicate Ordered(cfg: Config, g: Gateway) {
    && g.forwarded + |g.inbound| <= |g.accepted|
    && (g.pumping || g.phase.Connecting? ==> g.forwarded + |g.inbound| == |g.accepted|)
    && g.inbound == g.accepted[|g.accepted| - |g.inbound|..]
    && (g.phase.Connecting? ==> g.sent == [] && g.forwarded == 0 && !g.pumping)
    && (g.phase.Shuttling? ==> SentInOrder(cfg, g.sent, g.accepted[..g.forwarded]))
  }

  lemma SendEvent(cfg: Config, sent: seq<Frame>, es: seq<Event>, e: Event)
    requires SentInOrder(cfg, sent, es) && |FrameFor(cfg, e).payload| <= MAX_FRAME_LEN
    ensures SentInOrder(cfg, sent + [FrameFor(cfg, e)], es + [e])
  {
    WithoutPingsSnoc(sent, FrameFor(cfg, e));
    assert (es + [e])[..|es|] == es;
  }

  lemma SendPing(cfg: Config, sent: seq<Frame>, es: seq<Event>)
    requires SentInOrder(cfg, sent, es)
    ensures SentInOrder(cfg, sent + [PING], es)
  {
    WithoutPingsSnoc(sent, PING);
  }

  lemma WithoutPingsSnoc(sent: seq<Frame>, f: Frame)
    requires sent != []
    ensures (sent + [f])[1..] == sent[1..] + [f]
    ensures WithoutPings((sent + [f])[1..]) ==
            if f == PING then WithoutPings(sent[1..]) else WithoutPings(sent[1..]) + [f]
  {
    assert (sent + [f])[1..] == sent[1..] + [f];
    assert (sent[1..] + [f])[..|sent| - 1] == sent[1..];
  }

  lemma OrderedPump(cfg: Config, g: Gateway, ok: bool, written: bool)
    requires Ordered(cfg, g) && Enabled(g, Pumps(ok, written))
    ensures Ordered(cfg, Pump(cfg, g, ok, written))
  {
    hide SentInOrder;
    var t := Pump(cfg, g, ok, written);
    var n := g.forwarded;
    assert g.inbound[0] == g.accepted[n];
    assert g.accepted[..n + 1] == g.accepted[..n] + [g.accepted[n]];
    if t.forwarded == n + 1 {
      SendEvent(cfg, g.sent, g.accepted[..n], g.accepted[n]);
    }
  }

  lemma OrderedEnqueue(cfg: Config, g: Gateway, e: Event, ok: bool)
    requires Ordered(cfg, g)
    ensures Ordered(cfg, Enqueue(g, e, ok))
  {
    hide SentInOrder;
    assert Enqueue(g, e, ok).accepted[..g.forwarded] == g.accepted[..g.forwarded];
  }

  lemma OrderedStep(cfg: Config, g: Gateway, a: Act)
    requires Ordered(cfg, g) && Enabled(g, a)
    ensures Ordered(cfg, Apply(cfg, g, a))
  {
    hide Pump, Enqueue;
    match a {
      case Arrives(e, ok) => OrderedEnqueue(cfg, g, e, ok);
      case Requested => assert g.accepted[..0] == [];
      case Pumps(ok, written) => OrderedPump(cfg, g, ok, written);
      case PumpBreaks =>
      case Pings(_) => SendPing(cfg, g.sent, g.accepted[..g.forwarded]);
    }
  }

  lemma OrderedAtStart(cfg: Config)
    ensures Ordered(cfg, START)
  {
    hide SentInOrder;
  }

  lemma {:induction false} OrderedRun(cfg: Config, g: Gateway, acts: seq<Act>)
    requires Ordered(cfg, g) && Legal(cfg, g, acts)
    ensures Ordered(cfg, After(cfg, g, acts))
    decreases |acts|
  {
    if acts != [] {
      OrderedStep(cfg, g, acts[0]);
      OrderedRun(cfg, Apply(cfg, g, acts[0]), acts[1..]);
    }
  }

  /** Main result: under any interleaving of callbacks, pump and keepalive, the agent
      reads back whole frames from the bytes sent: the REQUEST, then the queued events
      once each in the order they came, with PINGs between them. */
  lemma AgentReadsInOrder(cfg: Config, acts: seq<Act>, cap: nat)
    requires Legal(cfg, START, acts)
    requires cap <= MAX_FRAME_LEN && FitsAll(cap, After(cfg, START, acts).sent)
    ensures var g := After(cfg, START, acts);
            && DecodeAll(RustAgent(cap), EncodeAll(g.sent)) == Reads(g.sent, Closed)
            && g.forwarded <= |g.accepted|
            && (g.sent != [] ==>
                  && g.sent[0] == Frame(FRAME_REQUEST, cfg.request)
                  && WithoutPings(g.sent[1..]) == FramesFor(cfg, g.accepted[..g.forwarded]))
            && (g.pumping ==> g.accepted == g.accepted[..g.forwarded] + g.inbound)
  {
    hide Legal, After, EncodeAll, DecodeAll, WithoutPings, FramesFor;
    var g := After(cfg, START, acts);
    OrderedRun(cfg, START, acts);
    StreamRoundTrip(RustAgent(cap), g.sent);
    assert g.accepted == g.accepted[..g.forwarded] + g.accepted[g.forwarded..];
  }

  /** What the agent finds where the k-th event was forwarded: the event, with its own
      frame type and content. */
  lemma {:induction false} EventsKeepTheirMeaning(cfg: Config, es: seq<Event>, k: nat)
    requires k < |es|
    ensures |FramesFor(cfg, es)| == |es|
    ensures var f := FramesFor(cfg, es)[k];
            && (es[k].Data? ==> f == Frame(FRAME_STDIN, es[k].bytes))
            && (es[k].Resize? ==> f == Frame(FRAME_RESIZE, cfg.json(es[k].rows, es[k].cols)))
            && (es[k].Eof? ==> f == Frame(FRAME_STDIN_EOF, []))
    decreases |es|
  {
    var front := es[..|es| - 1];
    if k < |front| {
      EventsKeepTheirMeaning(cfg, front, k);
    } else if front != [] {
      EventsKeepTheirMeaning(cfg, front, 0);
    }
  }

  function PingsIn(fs: seq<Frame>): nat {
    if fs == [] then 0
    else PingsIn(fs[..|fs| - 1]) + if fs[|fs| - 1].ftype == FRAME_PING then 1 else 0
  }

  lemma PingsInSnoc(fs: seq<Frame>, f: Frame)
    ensures PingsIn(fs + [f]) == PingsIn(fs) + if f.ftype == FRAME_PING then 1 else 0
  {
    assert (fs + [f])[..|fs|] == fs;
  }

  lemma {:induction false} EndedTasksSendNothing(cfg: Config, g: Gateway, acts: seq<Act>)
    requires g.phase.Shuttling? && Legal(cfg, g, acts)
    ensures var t := After(cfg, g, acts);
            && (!g.pumping ==> t.forwarded == g.forwarded)
            && (!g.pinging ==> PingsIn(t.sent) == PingsIn(g.sent))
    decreases |acts|
  {
    hide PingsIn;
    if acts != [] {
      var t := Apply(cfg, g, acts[0]);
      if t.sent != g.sent { PingsInSnoc(g.sent, t.sent[|g.sent|]); }
      EndedTasksSendNothing(cfg, t, acts[1..]);
    }
  }

  /** Nothing has stopped a task: every write of the keepalive succeeded, or every one of
      the pump and each of its frames fitted. */
  predicate KeepsPinging(acts: seq<Act>) { Pings(false) !in acts }

  predicate KeepsPumping(cfg: Config, es: seq<Event>, acts: seq<Act>) {
    && (forall i :: 0 <= i < |acts| ==> acts[i] != PumpBreaks && (acts[i].Pumps? ==> acts[i].written))
    && (forall i :: 0 <= i < |es| ==> |FrameFor(cfg, es[i]).payload| <= MAX_FRAME_LEN)
  }

  lemma PingerStep(cfg: Config, g: Gateway, a: Act)
    requires Enabled(g, a) && (g.phase.Connecting? || g.pinging) && a != Pings(false)
    ensures var t := Apply(cfg, g, a); t.phase.Connecting? || t.pinging
  {
  }

  lemma PumperStep(cfg: Config, g: Gateway, a: Act)
    requires Enabled(g, a) && (g.phase.Connecting? || g.pumping) && a != PumpBreaks
    requires a.Pumps? ==> a.written && |FrameFor(cfg, g.inbound[0]).payload| <= MAX_FRAME_LEN
    ensures var t := Apply(cfg, g, a); t.phase.Connecting? || t.pumping
  {
  }

  lemma AcceptedGrows(cfg: Config, g: Gateway, a: Act)
    requires Enabled(g, a)
    ensures g.accepted <= Apply(cfg, g, a).accepted
  {
  }

  lemma {:induction false} AcceptedOnlyGrows(cfg: Config, g: Gateway, acts: seq<Act>)
    requires Legal(cfg, g, acts)
    ensures g.accepted <= After(cfg, g, acts).accepted
    decreases |acts|
  {
    hide Apply, Enabled;
    if acts != [] {
      AcceptedGrows(cfg, g, acts[0]);
      AcceptedOnlyGrows(cfg, Apply(cfg, g, acts[0]), acts[1..]);
    }
  }

  lemma {:induction false} TasksRunFrom(cfg: Config, g: Gateway, acts: seq<Act>)
    requires Ordered(cfg, g) && Legal(cfg, g, acts)
    ensures var t := After(cfg, g, acts);
            && ((g.phase.Connecting? || g.pinging) && KeepsPinging(acts) ==> t.phase.Connecting? || t.pinging)
            && ((g.phase.Connecting? || g.pumping) && KeepsPumping(cfg, t.accepted, acts) ==> t.phase.Connecting? || t.pumping)
    decreases |acts|
  {
    hide Apply, FrameFor, SentInOrder;
    if acts != [] {
      var a, rest, mid := acts[0], acts[1..], Apply(cfg, g, acts[0]);
      var t := After(cfg, mid, rest);
      OrderedStep(cfg, g, a);
      TasksRunFrom(cfg, mid, rest);
      AcceptedOnlyGrows(cfg, g, acts);
      if KeepsPinging(acts) {
        assert Pings(false) !in rest && a in acts;
        if g.phase.Connecting? || g.pinging { PingerStep(cfg, g, a); }
      }
      if KeepsPumping(cfg, t.accepted, acts) && (g.phase.Connecting? || g.pumping) {
        assert forall i :: 0 <= i < |rest| ==> rest[i] == acts[i + 1];
        if a.Pumps? {
          var n := |g.accepted| - |g.inbound|;
          assert g.inbound[0] == g.accepted[n] == t.accepted[n];
        }
        PumperStep(cfg, g, a);
      }
    }
  }

  /** From the REQUEST on both tasks run until a write of theirs fails. */
  lemma TasksRunUntilFailure(cfg: Config, acts: seq<Act>)
    requires Legal(cfg, START, acts)
    ensures var g := After(cfg, START, acts);
            g.phase.Shuttling? ==>
              && (KeepsPinging(acts) ==> Enabled(g, Pings(true)))
              && (KeepsPumping(cfg, g.accepted, acts) && g.inbound != [] ==> Enabled(g, Pumps(true, true)))
  {
    hide Legal, After, KeepsPinging, KeepsPumping, Ordered, FramesFor, WithoutPings;
    OrderedAtStart(cfg);
    TasksRunFrom(cfg, START, acts);
  }

  /** A failed write is its task's last: the keepalive sends no further PING and the pump
      forwards no further event. */
  lemma FailedWriteIsFinal(cfg: Config, g: Gateway, a: Act, acts: seq<Act>)
    requires Enabled(g, a) && (a.Pings? || a.Pumps?) && !a.written
    requires Legal(cfg, Apply(cfg, g, a), acts)
    ensures var t := After(cfg, Apply(cfg, g, a), acts);
            if a.Pings? then PingsIn(t.sent) == PingsIn(g.sent) else t.forwarded == g.forwarded
  {
    EndedTasksSendNothing(cfg, Apply(cfg, g, a), acts);
  }

  // ------------------------------------------------------------ the class

  /** The session object; `sent`, `accepted` and `forwarded` are ghost histories. */
  class VsockShellSession {
    var connected: bool
    var inbound: seq<Event>
    var readingPaused: bool
    var pumpTask: bool
    var keepaliveTask: bool
    var requested: bool
    ghost var sent: seq<Frame>
    ghost var accepted: seq<Event>
    ghost var forwarded: nat

    ghost function Value(): Gateway
      reads this
    {
      Gateway(if requested then Shuttling else Connecting, inbound, readingPaused, pumpTask, keepaliveTask,
              sent, accepted, forwarded)
    }

    constructor ()
      ensures Value() == START
    {
      connected, inbound, readingPaused, requested := false, [], false, false;
      pumpTask, keepaliveTask := false, false;
      sent, accepted, forwarded := [], [], 0;
    }

    /** `connection_made`. */
    method ConnectionMade()
      modifies this`connected
      ensures connected
    {
      connected := true;
    }

    /** `_enqueue`; `pauses` is whether `pause_reading` returns without raising. */
    method EnqueueEvent(e: Event, pauses: bool)
      requires connected
      modifies this
      ensures Value() == Enqueue(old(Value()), e, pauses) && connected
    {
      inbound := inbound + [e];
      accepted := accepted + [e];
      if !readingPaused && connected && |inbound| >= INBOUND_HIGH_WATER {
        if pauses {
          readingPaused := true;
        }
      }
    }

    /** One turn of the loop in `_pump_inbound`. */
    method PumpInbound(cfg: Config, resumes: bool, written: bool)
      requires Enabled(Value(), Pumps(resumes, written))
      modifies this
      ensures Value() == Pump(cfg, old(Value()), resumes, written)
    {
      var e := inbound[0];
      inbound := inbound[1..];
      if readingPaused && |inbound| <= INBOUND_LOW_WATER {
        if resumes {
          readingPaused := false;
        }
      }
      hide Encode, FrameFor;
      var f := FrameFor(cfg, e);
      var encoded := WriteFrame(SshWriter, f);
      if encoded.None? || !written {
        pumpTask := false;
        return;
      }
      sent := sent + [f];
      forwarded := forwarded + 1;
    }

    /** The REQUEST, after which the sibling tasks start. */
    method SendRequest(cfg: Config)
      requires !requested
      modifies this
      ensures Value() == Apply(cfg, old(Value()), Requested)
    {
      if |cfg.request| > MAX_FRAME_LEN {
        return;
      }
      sent := [Frame(FRAME_REQUEST, cfg.request)];
      requested, pumpTask, keepaliveTask := true, true, true;
    }

    /** One turn of `_keepalive`. */
    method Keepalive(cfg: Config, written: bool)
      requires Enabled(Value(), Pings(written))
      modifies this
      ensures Value() == Apply(cfg, old(Value()), Pings(written))
    {
      if !written {
        keepaliveTask := false;
        return;
      }
      sent := sent + [PING];
    }
  }
}
