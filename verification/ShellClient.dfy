/** The shuttle loop of guest_cmd.py's `run_shell`, lines 323-365: one poll at a time,
    with stdin watched until its EOF and the socket until the guest's EXIT. */
module ShellClient {
  import opened Wrappers
  import opened Codec
  import opened Control

  /** One result of select(): `input` is what a readable stdin delivers, `frame` what
      `read_frame` makes of a readable socket. */
  datatype Poll = Poll(input: Option<seq<byte>>, frame: Option<Decoded>)

  /** What the loop has done: frames written, output shown, and how it ended. */
  datatype Ending = StillRunning | Left(code: int) | Raised

  datatype Shell = Shell(watchStdin: bool, sent: seq<Frame>, shown: seq<Frame>, ending: Ending)

  const START := Shell(true, [], [], StillRunning)

  type Parser = seq<byte> -> Doc

  function OnInput(s: Shell, input: Option<seq<byte>>): Shell {
    if input.None? || !s.watchStdin then s
    else if input.value == [] then s.(watchStdin := false, sent := s.sent + [Frame(FRAME_STDIN_EOF, [])])
    else s.(sent := s.sent + [Frame(FRAME_STDIN, input.value)])
  }

  function OnFrame(parse: Parser, s: Shell, frame: Option<Decoded>): Shell {
    match frame
    case None => s
    case Some(Closed) => s.(ending := Left(0))
    case Some(Bad(_)) => s.(ending := Raised)
    case Some(Msg(f, _)) =>
      if f.ftype == FRAME_STDOUT || f.ftype == FRAME_STDERR then s.(shown := s.shown + [f])
      else if f.ftype == FRAME_EXIT then
        var doc := parse(f.payload);
        // `.get("code", 0)`, and 0 again when it is not an integer
        s.(ending := if doc.NotAnObject? then Raised else Left(if doc.code.Some? then doc.code.value else 0))
      else if f.ftype == FRAME_ERROR then
        s.(ending := if parse(f.payload).NotAnObject? then Raised else Left(1))
      else s
  }

  function OnPoll(parse: Parser, s: Shell, p: Poll): Shell {
    var input := if s.watchStdin then p.input else None;
    if input.None? && p.frame.None? then s.(sent := s.sent + [Frame(FRAME_PING, [])])
    else OnFrame(parse, OnInput(s, input), p.frame)
  }

  function Run(parse: Parser, s: Shell, polls: seq<Poll>): Shell
    decreases |polls|
  {
    if polls == [] || s.ending != StillRunning then s
    else Run(parse, OnPoll(parse, s, polls[0]), polls[1..])
  }

  /** The loop itself. */
  method RunShell(parse: Parser, polls: seq<Poll>) returns (s: Shell)
    ensures s == Run(parse, START, polls)
  {
    var watch, sent, shown: seq<Frame> := true, [], [];
    var ending := StillRunning;
    var i := 0;
    while i < |polls| && ending == StillRunning
      invariant i <= |polls|
      invariant Run(parse, Shell(watch, sent, shown, ending), polls[i..]) == Run(parse, START, polls)
      decreases |polls| - i
    {
      var p := polls[i];
      assert polls[i..][0] == p && polls[i..][1..] == polls[i + 1..];
      i := i + 1;
      var stdinReady, sockReady := watch && p.input.Some?, p.frame.Some?;
      if !stdinReady && !sockReady {
        sent := sent + [Frame(FRAME_PING, [])];
        continue;
      }
      if stdinReady {
        if p.input.value == [] {
          sent, watch := sent + [Frame(FRAME_STDIN_EOF, [])], false;
        } else {
          sent := sent + [Frame(FRAME_STDIN, p.input.value)];
        }
      }
      if sockReady {
        match p.frame.value {
          case Closed => ending := Left(0);
          case Bad(_) => ending := Raised;
          case Msg(f, _) =>
            if f.ftype == FRAME_STDOUT || f.ftype == FRAME_STDERR {
              shown := shown + [f];
            } else if f.ftype == FRAME_EXIT {
              var doc := parse(f.payload);
              ending := if doc.NotAnObject? then Raised else if doc.code.Some? then Left(doc.code.value) else Left(0);
            } else if f.ftype == FRAME_ERROR {
              ending := if parse(f.payload).NotAnObject? then Raised else Left(1);
            }
        }
      }
    }
    s := Shell(watch, sent, shown, ending);
  }

  function Eofs(fs: seq<Frame>): nat {
    if fs == [] then 0
    else Eofs(fs[..|fs| - 1]) + if fs[|fs| - 1].ftype == FRAME_STDIN_EOF then 1 else 0
  }

  /** What stdin delivered before its EOF. */
  function Typed(polls: seq<Poll>): seq<byte> {
    if polls == [] || polls[0].input == Some([]) then []
    else (if polls[0].input.Some? then polls[0].input.value else []) + Typed(polls[1..])
  }

  // ------------------------------------------------------------ how the loop ends

  /** The frames and closes that end the loop. */
  predicate Terminal(d: Decoded) {
    !d.Msg? || d.frame.ftype == FRAME_EXIT || d.frame.ftype == FRAME_ERROR
  }

  /** What the socket delivered, poll by poll. */
  function Delivered(polls: seq<Poll>): seq<Decoded> {
    if polls == [] then []
    else (if polls[0].frame.Some? then [polls[0].frame.value] else []) + Delivered(polls[1..])
  }

  /** How many of them come before the first terminal one. */
  function Before(ds: seq<Decoded>): (k: nat)
    ensures k <= |ds|
    ensures forall i :: 0 <= i < k ==> !Terminal(ds[i])
    ensures k < |ds| ==> Terminal(ds[k])
  {
    if ds == [] || Terminal(ds[0]) then 0 else 1 + Before(ds[1..])
  }

  predicate IsOutput(f: Frame) { f.ftype == FRAME_STDOUT || f.ftype == FRAME_STDERR }

  function Outputs(ds: seq<Decoded>): seq<Frame> {
    if ds == [] then []
    else (if ds[0].Msg? && IsOutput(ds[0].frame) then [ds[0].frame] else []) + Outputs(ds[1..])
  }

  /** How a terminal delivery ends the loop. */
  predicate EndsAs(parse: Parser, d: Decoded, e: Ending) {
    && (d.Closed? ==> e == Left(0))
    && (d.Bad? ==> e == Raised)
    && (d.Msg? && parse(d.frame.payload).NotAnObject? ==> e == Raised)
    && (d.Msg? && parse(d.frame.payload).Doc? ==>
          var doc := parse(d.frame.payload);
          && (d.frame.ftype == FRAME_EXIT && doc.code.Some? ==> e == Left(doc.code.value))
          && (d.frame.ftype == FRAME_EXIT && doc.code.None? ==> e == Left(0))
          && (d.frame.ftype == FRAME_ERROR ==> e == Left(1)))
  }

  /** The polls the loop takes part in that found nothing ready. */
  function Quiet(watch: bool, polls: seq<Poll>): nat
    decreases |polls|
  {
    if polls == [] then 0
    else
      var p := polls[0];
      (if p.frame.None? && !(watch && p.input.Some?) then 1 else 0)
      + if p.frame.Some? && Terminal(p.frame.value) then 0 else Quiet(watch && p.input != Some([]), polls[1..])
  }

  function Pings(fs: seq<Frame>): nat {
    if fs == [] then 0
    else Pings(fs[..|fs| - 1]) + if fs[|fs| - 1].ftype == FRAME_PING then 1 else 0
  }

  lemma PingsSnoc(fs: seq<Frame>, f: Frame)
    ensures Pings(fs + [f]) == Pings(fs) + if f.ftype == FRAME_PING then 1 else 0
  {
    assert (fs + [f])[..|fs|] == fs;
  }

  lemma FrameHandled(parse: Parser, s: Shell, frame: Option<Decoded>)
    requires s.ending == StillRunning
    ensures var t := OnFrame(parse, s, frame);
            && t.sent == s.sent && t.watchStdin == s.watchStdin
            && (frame.None? ==> t == s)
            && (frame.Some? ==>
                  && t.shown == s.shown + Outputs([frame.value])
                  && (if Terminal(frame.value) then t.ending != StillRunning && EndsAs(parse, frame.value, t.ending)
                      else t.ending == StillRunning))
  {
    if frame.Some? {
      assert Outputs([frame.value][1..]) == [];
      assert s.shown + [] == s.shown;
    }
  }

  lemma InputHandled(s: Shell, input: Option<seq<byte>>)
    ensures var t := OnInput(s, input);
            && t.ending == s.ending && t.shown == s.shown && Pings(t.sent) == Pings(s.sent)
            && t.watchStdin == (s.watchStdin && input != Some([]))
  {
    hide Pings;
    if input.Some? {
      PingsSnoc(s.sent, Frame(FRAME_STDIN_EOF, []));
      PingsSnoc(s.sent, Frame(FRAME_STDIN, input.value));
    }
  }

  lemma PollHandled(parse: Parser, s: Shell, p: Poll)
    requires s.ending == StillRunning
    ensures var t := OnPoll(parse, s, p);
            && t.watchStdin == (s.watchStdin && p.input != Some([]))
            && Pings(t.sent) == Pings(s.sent) + (if p.frame.None? && !(s.watchStdin && p.input.Some?) then 1 else 0)
            && (p.frame.None? ==> t.shown == s.shown && t.ending == StillRunning)
            && (p.frame.Some? ==>
                  && t.shown == s.shown + Outputs([p.frame.value])
                  && (if Terminal(p.frame.value) then t.ending != StillRunning && EndsAs(parse, p.frame.value, t.ending)
                      else t.ending == StillRunning))
  {
    hide OnInput, OnFrame, Pings, Outputs, EndsAs, Terminal;
    var input := if s.watchStdin then p.input else None;
    PingsSnoc(s.sent, Frame(FRAME_PING, []));
    InputHandled(s, input);
    FrameHandled(parse, OnInput(s, input), p.frame);
  }

  /** What a run makes of a shell. */
  predicate RunsTo(parse: Parser, s: Shell, polls: seq<Poll>, t: Shell) {
    var ds := Delivered(polls);
    var k := Before(ds);
    && (if k == |ds| then t.ending == StillRunning else t.ending != StillRunning && EndsAs(parse, ds[k], t.ending))
    && t.shown == s.shown + Outputs(ds[..k])
    && Pings(t.sent) == Pings(s.sent) + Quiet(s.watchStdin, polls)
  }

  /** A delivery in front of the others that does not end the loop. */
  lemma DeliversFirst(polls: seq<Poll>)
    requires polls != [] && polls[0].frame.Some? && !Terminal(polls[0].frame.value)
    ensures var ds, later := Delivered(polls), Delivered(polls[1..]);
            && ds == [polls[0].frame.value] + later && Before(ds) == Before(later) + 1
            && |ds| == |later| + 1 && ds[Before(ds)..] == later[Before(later)..]
            && ds[..Before(ds)] == [polls[0].frame.value] + later[..Before(later)]
  {
    hide Terminal;
    var later := Delivered(polls[1..]);
    assert Delivered(polls) == [polls[0].frame.value] + later;
    hide Delivered;
    BeforeCons(polls[0].frame.value, later);
    hide Before;
    Cons(polls[0].frame.value, later, Before(later));
  }

  lemma BeforeCons(d: Decoded, later: seq<Decoded>)
    requires !Terminal(d)
    ensures Before([d] + later) == Before(later) + 1
  {
    assert ([d] + later)[1..] == later;
  }

  lemma Cons<T>(d: T, later: seq<T>, k: nat)
    requires k <= |later|
    ensures ([d] + later)[..k + 1] == [d] + later[..k] && ([d] + later)[k + 1..] == later[k..]
  {
  }

  lemma RunsOn(parse: Parser, s: Shell, polls: seq<Poll>, mid: Shell, t: Shell)
    requires polls != [] && polls[0].frame.Some? && !Terminal(polls[0].frame.value)
    requires RunsTo(parse, mid, polls[1..], t)
    requires mid.watchStdin == (s.watchStdin && polls[0].input != Some([]))
    requires Pings(mid.sent) == Pings(s.sent) && mid.shown == s.shown + Outputs([polls[0].frame.value])
    ensures RunsTo(parse, s, polls, t)
  {
    hide Pings, EndsAs, Terminal, Delivered, Before, Outputs;
    DeliversFirst(polls);
    var d, later := polls[0].frame.value, Delivered(polls[1..]);
    var ds, k := Delivered(polls), Before(later);
    if k < |later| { assert ds[k + 1] == ds[k + 1..][0] == later[k..][0] == later[k]; }
    OutputsCons(d, later[..k]);
    Grouped(s.shown, Outputs([d]), Outputs(later[..k]));
  }

  lemma Grouped(a: seq<Frame>, b: seq<Frame>, c: seq<Frame>)
    ensures a + b + c == a + (b + c)
  {
  }

  lemma OutputsCons(d: Decoded, ds: seq<Decoded>)
    ensures Outputs([d] + ds) == Outputs([d]) + Outputs(ds)
  {
    assert ([d] + ds)[1..] == ds;
    assert Outputs([d][1..]) == [];
  }

  /** A poll that delivers nothing from the socket. */
  lemma RunsQuietly(parse: Parser, s: Shell, polls: seq<Poll>, mid: Shell, t: Shell)
    requires polls != [] && polls[0].frame.None?
    requires RunsTo(parse, mid, polls[1..], t) && mid.shown == s.shown
    requires mid.watchStdin == (s.watchStdin && polls[0].input != Some([]))
    requires Pings(mid.sent) == Pings(s.sent) + if s.watchStdin && polls[0].input.Some? then 0 else 1
    ensures RunsTo(parse, s, polls, t)
  {
    hide Pings, EndsAs, Terminal, Outputs, Before;
    assert Delivered(polls) == [] + Delivered(polls[1..]) == Delivered(polls[1..]);
  }

  lemma RunsOut(parse: Parser, s: Shell, polls: seq<Poll>, t: Shell)
    requires polls != [] && polls[0].frame.Some? && Terminal(polls[0].frame.value)
    requires t.ending != StillRunning && EndsAs(parse, polls[0].frame.value, t.ending)
    requires t.shown == s.shown + Outputs([polls[0].frame.value])
    requires Pings(t.sent) == Pings(s.sent)
    ensures RunsTo(parse, s, polls, t)
  {
    StopsAt(polls);
    hide Pings, EndsAs, Delivered, Before;
  }

  lemma RunsNowhere(parse: Parser, s: Shell)
    requires s.ending == StillRunning
    ensures RunsTo(parse, s, [], s)
  {
    hide Pings;
    assert s.shown + [] == s.shown;
  }

  lemma {:induction false} RunMeansFrom(parse: Parser, s: Shell, polls: seq<Poll>)
    requires s.ending == StillRunning
    ensures RunsTo(parse, s, polls, Run(parse, s, polls))
    decreases |polls|
  {
    hide OnPoll, Pings, EndsAs, Terminal, RunsTo, Outputs;
    if polls == [] {
      RunsNowhere(parse, s);
      return;
    }
    var p, mid := polls[0], OnPoll(parse, s, polls[0]);
    PollHandled(parse, s, p);
    if mid.ending == StillRunning {
      RunMeansFrom(parse, mid, polls[1..]);
      if p.frame.Some? {
        RunsOn(parse, s, polls, mid, Run(parse, mid, polls[1..]));
      } else {
        RunsQuietly(parse, s, polls, mid, Run(parse, mid, polls[1..]));
      }
    } else {
      RunsOut(parse, s, polls, mid);
    }
  }

  lemma StopsAt(polls: seq<Poll>)
    requires polls != [] && polls[0].frame.Some? && Terminal(polls[0].frame.value)
    ensures var ds := Delivered(polls);
            ds != [] && ds[0] == polls[0].frame.value && Before(ds) == 0
    ensures Outputs([polls[0].frame.value]) == []
  {
    assert Outputs([polls[0].frame.value][1..]) == [];
  }

  /** Main result: the loop ends at the first EXIT, ERROR, close or fault, with the exit
      code that one calls for; it has shown exactly the STDOUT and STDERR frames before
      it, in order; and it has sent one PING for every poll that found nothing ready. */
  lemma RunMeans(parse: Parser, polls: seq<Poll>)
    ensures var t := Run(parse, START, polls);
            var ds := Delivered(polls);
            var k := Before(ds);
            && (t.ending == StillRunning <==> k == |ds|)
            && (k < |ds| ==> EndsAs(parse, ds[k], t.ending))
            && t.shown == Outputs(ds[..k])
            && Pings(t.sent) == Quiet(true, polls)
  {
    RunMeansFrom(parse, START, polls);
    var ds := Delivered(polls);
    assert [] + Outputs(ds[..Before(ds)]) == Outputs(ds[..Before(ds)]);
  }

  // ------------------------------------------------------------ what it sends

  /** `after` adds `eofs` STDIN_EOFs and the STDIN payload `data` to `before`. */
  predicate Sends(before: seq<Frame>, after: seq<Frame>, eofs: nat, data: seq<byte>) {
    && Eofs(after) == Eofs(before) + eofs
    && StreamOf(after, FRAME_STDIN) == StreamOf(before, FRAME_STDIN) + data
  }

  lemma SendsNothing(fs: seq<Frame>)
    ensures Sends(fs, fs, 0, [])
  {
    hide Eofs, StreamOf;
    var st := StreamOf(fs, FRAME_STDIN);
    assert st + [] == st;
  }

  lemma SendsOne(fs: seq<Frame>, f: Frame)
    ensures Sends(fs, fs + [f], if f.ftype == FRAME_STDIN_EOF then 1 else 0,
                  if f.ftype == FRAME_STDIN then f.payload else [])
  {
    EofsSnoc(fs, f);
    StreamOfSnoc(fs, f, FRAME_STDIN);
    hide Eofs, StreamOf;
  }

  lemma EofsSnoc(fs: seq<Frame>, f: Frame)
    ensures Eofs(fs + [f]) == Eofs(fs) + if f.ftype == FRAME_STDIN_EOF then 1 else 0
  {
    assert (fs + [f])[..|fs|] == fs;
  }

  lemma FrameSendsNothing(parse: Parser, s: Shell, frame: Option<Decoded>)
    ensures OnFrame(parse, s, frame).sent == s.sent && OnFrame(parse, s, frame).watchStdin == s.watchStdin
  {
  }

  function Given(s: Shell, input: Option<seq<byte>>): seq<byte> {
    if s.watchStdin && input.Some? then input.value else []
  }

  function EofNow(s: Shell, input: Option<seq<byte>>): nat {
    if s.watchStdin && input == Some([]) then 1 else 0
  }

  lemma InputSends(s: Shell, input: Option<seq<byte>>)
    ensures var t := OnInput(s, input);
            && t.watchStdin == (s.watchStdin && input != Some([]))
            && Sends(s.sent, t.sent, EofNow(s, input), Given(s, input))
  {
    hide Sends;
    if input.None? || !s.watchStdin {
      SendsNothing(s.sent);
    } else if input.value == [] {
      SendsOne(s.sent, Frame(FRAME_STDIN_EOF, []));
    } else {
      SendsOne(s.sent, Frame(FRAME_STDIN, input.value));
    }
  }

  lemma PollSends(parse: Parser, s: Shell, p: Poll)
    ensures var t := OnPoll(parse, s, p);
            && t.watchStdin == (s.watchStdin && p.input != Some([]))
            && Sends(s.sent, t.sent, EofNow(s, p.input), Given(s, p.input))
  {
    hide Sends, OnInput, OnFrame;
    var input := if s.watchStdin then p.input else None;
    if input.None? && p.frame.None? {
      SendsOne(s.sent, Frame(FRAME_PING, []));
    } else {
      InputSends(s, input);
      FrameSendsNothing(parse, OnInput(s, input), p.frame);
    }
  }

  /** STDIN_EOF is sent exactly once, when stdin ends, however long the guest then takes;
      and the STDIN payloads are what was typed before it (all of it, unless the guest
      ended the loop first). */
  lemma {:induction false} StdinOnce(parse: Parser, s: Shell, polls: seq<Poll>)
    requires Eofs(s.sent) == if s.watchStdin then 0 else 1
    ensures var t := Run(parse, s, polls);
            && Eofs(t.sent) == (if t.watchStdin then 0 else 1)
            && StreamOf(t.sent, FRAME_STDIN) <= StreamOf(s.sent, FRAME_STDIN) + (if s.watchStdin then Typed(polls) else [])
            && (t.ending == StillRunning ==>
                  StreamOf(t.sent, FRAME_STDIN) == StreamOf(s.sent, FRAME_STDIN) + if s.watchStdin then Typed(polls) else [])
    decreases |polls|
  {
    hide OnPoll, Eofs, StreamOf;
    var st := StreamOf(s.sent, FRAME_STDIN);
    if polls == [] || s.ending != StillRunning {
      StopsHere(st, if s.watchStdin then Typed(polls) else []);
    } else {
      var p := polls[0];
      var t := OnPoll(parse, s, p);
      PollSends(parse, s, p);
      StdinOnce(parse, t, polls[1..]);
      hide Run, Sends;
      Types(s.watchStdin, polls);
      Regroup(st, Given(s, p.input), if t.watchStdin then Typed(polls[1..]) else []);
    }
  }

  lemma StopsHere(st: seq<byte>, more: seq<byte>)
    ensures st <= st + more && st + [] == st
  {
  }

  lemma Types(watch: bool, polls: seq<Poll>)
    requires polls != []
    ensures var p := polls[0].input;
            (if watch then Typed(polls) else []) ==
            (if watch && p.Some? then p.value else []) + if watch && p != Some([]) then Typed(polls[1..]) else []
  {
  }

  lemma Regroup(a: seq<byte>, b: seq<byte>, c: seq<byte>)
    ensures a + b + c == a + (b + c)
  {
  }
}
