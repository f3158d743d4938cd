/** The other direction: from the SSH client's events, through the gateway's writer and
    the agent's reader, to the child's stdin. */
module InputPath {
  import opened Codec
  import Ssh = SshGateway
  import S = Session
  import Safety = SessionSafety

  /** How the agent's verbs see a frame; `body` parses a REQUEST payload. */
  function Classify(body: seq<byte> -> S.RequestBody, f: Frame): S.Inbound {
    if f.ftype == FRAME_REQUEST then S.Request(body(f.payload))
    else if f.ftype == FRAME_STDIN then S.Stdin(f.payload)
    else if f.ftype == FRAME_STDIN_EOF then S.StdinEof
    else S.Other
  }

  function ClassifyAll(body: seq<byte> -> S.RequestBody, fs: seq<Frame>): (r: seq<S.Inbound>)
    ensures |r| == |fs|
  {
    if fs == [] then [] else ClassifyAll(body, fs[..|fs| - 1]) + [Classify(body, fs[|fs| - 1])]
  }

  /** What an SSH event asks for. */
  function Intent(e: Ssh.Event): S.Inbound {
    match e
    case Data(bytes) => S.Stdin(bytes)
    case Resize(_, _) => S.Other
    case Eof => S.StdinEof
  }

  function Intents(es: seq<Ssh.Event>): seq<S.Inbound> {
    if es == [] then [] else Intents(es[..|es| - 1]) + [Intent(es[|es| - 1])]
  }

  /** The agent's frame list when the bytes `h` have arrived, and perhaps the close. */
  predicate Heard(body: seq<byte> -> S.RequestBody, cap: nat, h: seq<byte>, log: seq<S.Inbound>) {
    var frames := ClassifyAll(body, DecodeAll(RustAgent(cap), h).frames);
    log == frames || log == frames + [S.PeerClosed] || log == frames + [S.ReadError]
  }

  lemma {:induction false} ClassifyPrefix(body: seq<byte> -> S.RequestBody, fs: seq<Frame>, n: nat)
    requires n <= |fs|
    ensures ClassifyAll(body, fs)[..n] == ClassifyAll(body, fs[..n])
    decreases |fs|
  {
    if n < |fs| {
      var front := fs[..|fs| - 1];
      ClassifyPrefix(body, front, n);
      assert front[..n] == fs[..n];
    } else {
      assert fs[..n] == fs;
    }
  }

  lemma {:induction false} ClassifyTail(body: seq<byte> -> S.RequestBody, fs: seq<Frame>)
    requires fs != []
    ensures ClassifyAll(body, fs)[1..] == ClassifyAll(body, fs[1..])
    decreases |fs|
  {
    if |fs| > 1 {
      var front := fs[..|fs| - 1];
      ClassifyTail(body, front);
      assert front[1..] == fs[1..][..|fs| - 2];
    }
  }

  /** Two logs that mean the same keep meaning the same. */
  predicate Alike(v: S.Verb, a: seq<S.Inbound>, b: seq<S.Inbound>) {
    Safety.StdinOf(v, a) == Safety.StdinOf(v, b) && (Safety.StillOpen(v, a) <==> Safety.StillOpen(v, b))
  }

  lemma AlikeSnoc(v: S.Verb, a: seq<S.Inbound>, b: seq<S.Inbound>, ev: S.Inbound)
    requires Alike(v, a, b)
    ensures Alike(v, a + [ev], b + [ev])
    ensures ev == S.Other ==> Alike(v, a + [ev], b)
  {
    Safety.StdinOfSnoc(v, a, ev);
    Safety.StdinOfSnoc(v, b, ev);
    var st := Safety.StdinOf(v, a);
    assert st + [] == st;
    hide Safety.StdinOf, Safety.StillOpen;
  }

  lemma ClassifySnoc(body: seq<byte> -> S.RequestBody, fs: seq<Frame>, f: Frame)
    ensures ClassifyAll(body, fs + [f]) == ClassifyAll(body, fs) + [Classify(body, f)]
  {
    assert (fs + [f])[..|fs|] == fs;
  }

  lemma {:induction false} PingsAreIgnored(body: seq<byte> -> S.RequestBody, v: S.Verb, fs: seq<Frame>)
    ensures Alike(v, ClassifyAll(body, fs), ClassifyAll(body, Ssh.WithoutPings(fs)))
    decreases |fs|
  {
    if fs != [] {
      var front, f := fs[..|fs| - 1], fs[|fs| - 1];
      var kept := Ssh.WithoutPings(front);
      PingsAreIgnored(body, v, front);
      AlikeSnoc(v, ClassifyAll(body, front), ClassifyAll(body, kept), Classify(body, f));
      ClassifySnoc(body, kept, f);
    }
    hide Alike;
  }

  lemma {:induction false} FramesCarryIntents(cfg: Ssh.Config, body: seq<byte> -> S.RequestBody, es: seq<Ssh.Event>)
    ensures ClassifyAll(body, Ssh.FramesFor(cfg, es)) == Intents(es)
    decreases |es|
  {
    if es != [] {
      var front := es[..|es| - 1];
      FramesCarryIntents(cfg, body, front);
      var fs := Ssh.FramesFor(cfg, front);
      assert (fs + [Ssh.FrameFor(cfg, es[|es| - 1])])[..|fs|] == fs;
    }
  }

  lemma {:induction false} IntentsPrefix(es: seq<Ssh.Event>, n: nat)
    requires n <= |es|
    ensures Intents(es[..n]) <= Intents(es)
    decreases |es|
  {
    if n < |es| {
      var front := es[..|es| - 1];
      IntentsPrefix(front, n);
      assert front[..n] == es[..n];
    } else {
      assert es[..n] == es;
    }
  }

  lemma StdinOfPrefix(v: S.Verb, a: seq<S.Inbound>, b: seq<S.Inbound>)
    requires a <= b
    ensures Safety.StdinOf(v, a) <= Safety.StdinOf(v, b)
  {
    assert b == a + b[|a|..];
    Safety.StdinOfAppend(v, a, b[|a|..]);
  }

  lemma StdinOfEnd(v: S.Verb, a: seq<S.Inbound>, ev: S.Inbound)
    requires !ev.Stdin?
    ensures Safety.StdinOf(v, a + [ev]) == Safety.StdinOf(v, a)
  {
    Safety.StdinOfSnoc(v, a, ev);
    assert Safety.StdinOf(v, a) + [] == Safety.StdinOf(v, a);
  }

  /** The STDIN the agent can make out of any prefix of what the gateway sent. */
  lemma AgentHears(cfg: Ssh.Config, body: seq<byte> -> S.RequestBody, g: Ssh.Gateway, v: S.Verb,
                   frames: seq<Frame>)
    requires Ssh.Ordered(cfg, g) && frames != [] && frames <= g.sent
    ensures Safety.StdinOf(v, ClassifyAll(body, frames[1..])) <= Safety.StdinOf(v, Intents(g.accepted))
  {
    var tail := g.sent[1..];
    var n := |frames| - 1;
    assert frames[1..] == tail[..n];
    ClassifyPrefix(body, tail, n);
    StdinOfPrefix(v, ClassifyAll(body, frames[1..]), ClassifyAll(body, tail));
    PingsAreIgnored(body, v, tail);
    FramesCarryIntents(cfg, body, g.accepted[..g.forwarded]);
    IntentsPrefix(g.accepted, g.forwarded);
    StdinOfPrefix(v, Intents(g.accepted[..g.forwarded]), Intents(g.accepted));
  }

  /** Main result: at every moment of every run of both ends, the bytes the child has
      been given are a prefix of the data the SSH client sent (for exec, before its EOF),
      through any interleaving of keepalives and resizes and any cut of the bytes. */
  lemma KeystrokesArrive(
      gcfg: Ssh.Config, acts: seq<Ssh.Act>, scfg: S.Config, steps: seq<S.Step>,
      body: seq<byte> -> S.RequestBody, cap: nat, h: seq<byte>)
    requires Ssh.Legal(gcfg, Ssh.START, acts) && S.Legal(scfg, S.Init(scfg), steps)
    requires cap <= MAX_FRAME_LEN
    requires h <= EncodeAll(Ssh.After(gcfg, Ssh.START, acts).sent)
    requires Heard(body, cap, h, S.After(scfg, S.Init(scfg), steps).feed.heard)
    ensures var g := Ssh.After(gcfg, Ssh.START, acts);
            var s := S.After(scfg, S.Init(scfg), steps);
            s.verb != S.NoVerb ==> s.feed.childIn <= Safety.StdinOf(s.verb, Intents(g.accepted))
  {
    hide Ssh.Legal, Ssh.After, S.Legal, S.After, Safety.Inv;
    var g := Ssh.After(gcfg, Ssh.START, acts);
    var s := S.After(scfg, S.Init(scfg), steps);
    var frames := DecodeAll(RustAgent(cap), h).frames;
    Ssh.OrderedRun(gcfg, Ssh.START, acts);
    DecodePrefix(RustAgent(cap), g.sent, h);
    Safety.ChildStdinFidelity(scfg, steps);
    hide Ssh.Ordered, Heard;
    if s.verb != S.NoVerb && frames != [] {
      AgentHears(gcfg, body, g, s.verb, frames);
      HeardTail(body, cap, h, s.verb, s.feed.heard);
    } else if s.verb != S.NoVerb {
      NothingHeard(body, cap, h, s.feed.heard);
    }
  }

  lemma NothingHeard(body: seq<byte> -> S.RequestBody, cap: nat, h: seq<byte>, heard: seq<S.Inbound>)
    requires Heard(body, cap, h, heard) && DecodeAll(RustAgent(cap), h).frames == [] && heard != []
    ensures heard[1..] == []
  {
    hide DecodeAll;
  }

  lemma HeardTail(body: seq<byte> -> S.RequestBody, cap: nat, h: seq<byte>, v: S.Verb, heard: seq<S.Inbound>)
    requires Heard(body, cap, h, heard) && DecodeAll(RustAgent(cap), h).frames != []
    ensures heard != [] && Safety.StdinOf(v, heard[1..]) ==
            Safety.StdinOf(v, ClassifyAll(body, DecodeAll(RustAgent(cap), h).frames[1..]))
  {
    hide DecodeAll, Safety.StdinOf;
    var frames := DecodeAll(RustAgent(cap), h).frames;
    ClassifyTail(body, frames);
    var log := ClassifyAll(body, frames);
    StdinOfEnd(v, log[1..], S.PeerClosed);
    StdinOfEnd(v, log[1..], S.ReadError);
    if heard != log { assert heard[1..] == log[1..] + [heard[|heard| - 1]]; }
  }

  /** And nothing is held back: once the agent has heard all the gateway sent, the gateway
      has nothing queued and no write to the child is pending, the child has been given
      exactly the data the client sent. */
  lemma KeystrokesAllArrive(
      gcfg: Ssh.Config, acts: seq<Ssh.Act>, scfg: S.Config, steps: seq<S.Step>,
      body: seq<byte> -> S.RequestBody, cap: nat)
    requires Ssh.Legal(gcfg, Ssh.START, acts) && S.Legal(scfg, S.Init(scfg), steps)
    requires var g := Ssh.After(gcfg, Ssh.START, acts);
             g.pumping && g.inbound == [] && g.sent != [] && cap <= MAX_FRAME_LEN && FitsAll(cap, g.sent)
    requires var s := S.After(scfg, S.Init(scfg), steps);
             && s.feed.heard == ClassifyAll(body, DecodeAll(RustAgent(cap), EncodeAll(Ssh.After(gcfg, Ssh.START, acts).sent)).frames)
             && s.verb != S.NoVerb && s.feed.input.AwaitFrame? && s.feed.inbox == []
    ensures S.After(scfg, S.Init(scfg), steps).feed.childIn ==
            Safety.StdinOf(S.After(scfg, S.Init(scfg), steps).verb, Intents(Ssh.After(gcfg, Ssh.START, acts).accepted))
  {
    hide Ssh.Legal, Ssh.After, S.Legal, S.After, Safety.Inv, DecodeAll, EncodeAll, Safety.StdinOf, ClassifyAll, Intents;
    var g := Ssh.After(gcfg, Ssh.START, acts);
    var s := S.After(scfg, S.Init(scfg), steps);
    Ssh.AgentReadsInOrder(gcfg, acts, cap);
    Safety.ChildStdinFidelity(scfg, steps);
    assert g.accepted[..g.forwarded] + [] == g.accepted[..g.forwarded];
    hide Ssh.WithoutPings, Ssh.FramesFor;
    ClassifyTail(body, g.sent);
    PingsAreIgnored(body, s.verb, g.sent[1..]);
    FramesCarryIntents(gcfg, body, g.accepted);
  }
}
