/** What becomes of a session's first frame, src/session.rs:261-289 and the refusals of
    exec and open_pty: a verb served, one ERROR that says why not, or nothing. */
module SessionRequest {
  import opened Codec
  import opened Control
  import opened Session
  import opened SessionSafety
  import opened SessionOutput

  datatype Answer = Serve(v: Verb) | Refuse(what: Failure) | Nothing

  /** The answer due to the first thing read; `fate` is how the spawn went. */
  predicate Due(ev: Inbound, fate: Fate, ans: Answer) {
    match ev
    case Request(Exec(Unconvertible)) => ans == Refuse(BadDeadline)
    case Request(Exec(_)) => ans == if fate == SpawnOk then Serve(ExecVerb) else Refuse(SpawnFailed)
    case Request(OpenPty) => ans == if fate == SpawnOk then Serve(PtyVerb) else Refuse(PtySetupFailed)
    case Request(NotJson) => ans == Refuse(BadRequestJson)
    case Request(OtherVerb) => ans == Refuse(UnknownVerb)
    case PeerClosed => ans == Nothing
    case ReadError => ans == Refuse(ReadFailed)
    case _ => ans == Refuse(NotARequest)
  }

  predicate AnswerInv(cfg: Config, s: State, ans: Answer) {
    !s.main.AwaitRequest? &&
    match ans
    case Serve(v) => s.verb == v && v != NoVerb && (v == PtyVerb ==> s.limit.None? && s.deadline.None?)
    case Refuse(what) =>
      && s.verb == NoVerb
      && (s.main == Failing(what) || (s.main.Abandoning? && what == PtySetupFailed) || s.main.Over())
      && s.ch.enq == if s.main.Over() then [ErrorFrame(cfg, what)] else []
    case Nothing => s.verb == NoVerb && s.main.Over() && s.ch.enq == []
  }

  lemma AnswerStart(cfg: Config, s: State, fate: Fate, ans: Answer)
    requires Shape(s) && Enabled(s, MainTask(GotRequest(fate))) && Due(s.feed.inbox[0], fate, ans)
    ensures AnswerInv(cfg, Apply(cfg, s, MainTask(GotRequest(fate))), ans)
  {
    hide ErrorFrame;
  }

  lemma AnswerStep(cfg: Config, s: State, step: Step, ans: Answer)
    requires Shape(s) && AnswerInv(cfg, s, ans) && Enabled(s, step)
    ensures AnswerInv(cfg, Apply(cfg, s, step), ans)
  {
    hide ErrorFrame, ExitFrame, OnRequest, Encode;
    if !step.MainTask? {
      Unmoved(cfg, s, step);
      if step.PumpTask? { hide MainApply, MainReady; } else { hide Ready, Apply, Shape; }
    }
  }

  lemma {:induction false} AnswerRun(cfg: Config, s: State, steps: seq<Step>, ans: Answer)
    requires Inv(cfg, s) && AnswerInv(cfg, s, ans) && Legal(cfg, s, steps)
    ensures AnswerInv(cfg, After(cfg, s, steps), ans)
    decreases |steps|
  {
    hide Ready, Apply, Shape, OrderInv, WireInv, Conserved, StdinInv, KidInv, TeardownInv, AnswerInv;
    if steps != [] {
      InvStep(cfg, s, steps[0]);
      AnswerStep(cfg, s, steps[0], ans);
      AnswerRun(cfg, Apply(cfg, s, steps[0]), steps[1..], ans);
    }
  }

  /** Main result: a session whose first frame is a request it can serve runs that verb;
      any other gets the one ERROR that is due to it and nothing else, on the wire in
      full unless cancel fires; and a peer that closes first gets nothing. */
  lemma FirstFrameIsAnswered(cfg: Config, a: seq<Step>, fate: Fate, b: seq<Step>, ans: Answer)
    requires Legal(cfg, Init(cfg), a + [MainTask(GotRequest(fate))] + b)
    requires Legal(cfg, Init(cfg), a) && Enabled(After(cfg, Init(cfg), a), MainTask(GotRequest(fate)))
    requires Due(After(cfg, Init(cfg), a).feed.inbox[0], fate, ans)
    ensures var s := After(cfg, Init(cfg), a + [MainTask(GotRequest(fate))] + b);
            && (ans.Serve? ==> s.verb == ans.v && (ans.v == PtyVerb ==> s.limit.None? && s.deadline.None?))
            && (!ans.Serve? ==> s.verb == NoVerb)
            && (ans.Refuse? ==> s.ch.enq == if s.main.Over() then [ErrorFrame(cfg, ans.what)] else [])
            && (ans.Refuse? && s.main.Returned? && !s.fired ==> s.ch.wire == Encode(ErrorFrame(cfg, ans.what)))
            && (ans.Nothing? ==> s.ch.enq == [])
  {
    hide Legal, After, Inv, Enabled, Apply, Due, AnswerInv, ErrorFrame;
    var got := MainTask(GotRequest(fate));
    var steps := a + [got] + b;
    var s0 := After(cfg, Init(cfg), a);
    Split(cfg, Init(cfg), a, got, b);
    Reached(cfg, a);
    AnswerFrom(cfg, s0, fate, b, ans);
    AnswerMeans(cfg, After(cfg, Init(cfg), steps), ans);
    var s := After(cfg, Init(cfg), steps);
    if ans.Refuse? && s.main.Returned? && !s.fired {
      FinishedIsDelivered(cfg, steps);
      EncodeOne(ErrorFrame(cfg, ans.what));
    }
  }

  /** A peer from which no REQUEST came in time gets nothing either. */
  lemma SilenceGetsNothing(cfg: Config, a: seq<Step>, b: seq<Step>)
    requires Legal(cfg, Init(cfg), a + [MainTask(NoRequest)] + b)
    ensures var s := After(cfg, Init(cfg), a + [MainTask(NoRequest)] + b);
            s.verb == NoVerb && s.main.Over() && s.ch.enq == [] && s.ch.wire == []
  {
    hide Legal, After, Inv, Enabled, Apply, AnswerInv;
    Split(cfg, Init(cfg), a, MainTask(NoRequest), b);
    Reached(cfg, a);
    var s0 := After(cfg, Init(cfg), a);
    NoRequestStart(cfg, s0);
    InvStep(cfg, s0, MainTask(NoRequest));
    AnswerRun(cfg, Apply(cfg, s0, MainTask(NoRequest)), b, Nothing);
    NothingMeans(cfg, After(cfg, Init(cfg), a + [MainTask(NoRequest)] + b));
    TraceGrammar(cfg, a + [MainTask(NoRequest)] + b);
  }

  lemma NoRequestStart(cfg: Config, s: State)
    requires Enabled(s, MainTask(NoRequest))
    requires Inv(cfg, s)
    ensures AnswerInv(cfg, Apply(cfg, s, MainTask(NoRequest)), Nothing)
  {
    hide WireInv, OrderInv, Conserved, StdinInv, KidInv, TeardownInv;
  }

  lemma NothingMeans(cfg: Config, s: State)
    requires AnswerInv(cfg, s, Nothing)
    ensures s.verb == NoVerb && s.main.Over() && s.ch.enq == [] && EncodeAll(s.ch.enq) == []
  {
  }

  lemma EncodeOne(f: Frame)
    ensures EncodeAll([f]) == Encode(f)
  {
    assert EncodeAll([f]) == Encode(f) + EncodeAll([]);
  }

  lemma AnswerFrom(cfg: Config, s: State, fate: Fate, b: seq<Step>, ans: Answer)
    requires Enabled(s, MainTask(GotRequest(fate))) && Due(s.feed.inbox[0], fate, ans)
    requires Legal(cfg, Apply(cfg, s, MainTask(GotRequest(fate))), b)
    requires Inv(cfg, s)
    ensures AnswerInv(cfg, After(cfg, Apply(cfg, s, MainTask(GotRequest(fate))), b), ans)
  {
    hide Legal, After, Enabled, Apply, Due, AnswerInv, OrderInv, WireInv, Conserved, StdinInv, KidInv, TeardownInv, Shape;
    AnswerStart(cfg, s, fate, ans);
    InvStep(cfg, s, MainTask(GotRequest(fate)));
    AnswerRun(cfg, Apply(cfg, s, MainTask(GotRequest(fate))), b, ans);
  }

  lemma AnswerMeans(cfg: Config, s: State, ans: Answer)
    requires AnswerInv(cfg, s, ans)
    ensures ans.Serve? ==> s.verb == ans.v && (ans.v == PtyVerb ==> s.limit.None? && s.deadline.None?)
    ensures !ans.Serve? ==> s.verb == NoVerb
    ensures ans.Refuse? ==> s.ch.enq == if s.main.Over() then [ErrorFrame(cfg, ans.what)] else []
    ensures ans.Nothing? ==> s.ch.enq == []
  {
  }
}
