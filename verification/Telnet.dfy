/** The client-to-server half of telnet_gateway.py: the byte machine of
    `TelnetInbound.feed` as a fold, the token grammar it recognises (RFC 854, RFC 855,
    RFC 1073), and the class that keeps the machine's state across calls. */
module Telnet {
  import opened Wrappers
  import opened Codec

  const IAC: byte := 255
  const SE: byte := 240
  const SB: byte := 250
  const WILL: byte := 251
  const WONT: byte := 252
  const DO: byte := 253
  const DONT: byte := 254
  const OPT_ECHO: byte := 1
  const OPT_SGA: byte := 3
  const OPT_NAWS: byte := 31
  const MAX_SUBNEG_LEN := 8192
  const INITIAL_NEGOTIATION: seq<byte> :=
    [IAC, WILL, OPT_ECHO, IAC, WILL, OPT_SGA, IAC, DO, OPT_NAWS]

  predicate IsNegotiation(b: byte) { b == WILL || b == WONT || b == DO || b == DONT }

  // ---------------------------------------------------------------- the machine

  datatype Mode = InData | InIac | InOpt(cmd: byte) | InSub | InSubIac

  /** `sb` outlives its subnegotiation only as the empty buffer, except that a new
      `IAC SB` also clears it. */
  datatype Parser = Parser(mode: Mode, sb: seq<byte>)

  const START := Parser(InData, [])

  datatype Out = Out(data: seq<byte>, resizes: seq<(nat, nat)>, replies: seq<byte>) {
    function Then(o: Out): Out {
      Out(data + o.data, resizes + o.resizes, replies + o.replies)
    }
  }

  const SILENT := Out([], [], [])

  function Negotiate(cmd: byte, opt: byte): seq<byte> {
    if cmd == DO then
      if opt == OPT_ECHO || opt == OPT_SGA then [] else [IAC, WONT, opt]
    else if cmd == WILL then
      if opt == OPT_NAWS then [] else [IAC, DONT, opt]
    else []
  }

  /** The `(rows, cols)` a finished subnegotiation reports. */
  function Resizes(sb: seq<byte>): seq<(nat, nat)> {
    if |sb| >= 5 && sb[0] == OPT_NAWS then
      var cols := (sb[1] as int) * 256 + sb[2] as int;
      var rows := (sb[3] as int) * 256 + sb[4] as int;
      if rows != 0 && cols != 0 then [(rows, cols)] else []
    else []
  }

  /** A 16-bit number as RFC 1073 sends it. */
  function U16(n: nat): (h: seq<byte>)
    requires n < 0x1_0000
  {
    [n / 256, n % 256]
  }

  /** The payload of a window-size report: columns first. */
  function NawsPayload(rows: nat, cols: nat): seq<byte>
    requires rows < 0x1_0000 && cols < 0x1_0000
  {
    [OPT_NAWS] + U16(cols) + U16(rows)
  }

  /** `sb` reports a usable window size; a zero dimension means "unspecified". */
  predicate Reports(sb: seq<byte>, rows: nat, cols: nat) {
    0 < rows < 0x1_0000 && 0 < cols < 0x1_0000 && NawsPayload(rows, cols) <= sb
  }

  lemma U16Inverse(hi: byte, lo: byte)
    ensures U16(hi as int * 256 + lo as int) == [hi, lo]
  {
  }

  lemma U16Injective(m: nat, n: nat)
    requires m < 0x1_0000 && n < 0x1_0000 && U16(m) == U16(n)
    ensures m == n
  {
    assert U16(m)[0] == U16(n)[0] && U16(m)[1] == U16(n)[1];
  }

  /** At most one size is reported, and it is the one whose report was received. */
  lemma ResizesExactly(sb: seq<byte>, rows: nat, cols: nat)
    ensures Resizes(sb) == [(rows, cols)] <==> Reports(sb, rows, cols)
  {
    if |sb| >= 5 {
      var c, r := sb[1] as int * 256 + sb[2] as int, sb[3] as int * 256 + sb[4] as int;
      U16Inverse(sb[1], sb[2]);
      U16Inverse(sb[3], sb[4]);
      hide U16;
      assert sb[..5] == [sb[0]] + U16(c) + U16(r);
      if Reports(sb, rows, cols) {
        assert sb[1..3] == U16(cols) && sb[3..5] == U16(rows);
        U16Injective(c, cols);
        U16Injective(r, rows);
      }
      if Resizes(sb) == [(rows, cols)] {
        assert [(r, c)][0] == [(rows, cols)][0];
        assert NawsPayload(rows, cols) == sb[..5];
      }
    }
  }

  lemma ResizesOnlyReports(sb: seq<byte>)
    ensures Resizes(sb) == [] || exists rows: nat, cols: nat :: Reports(sb, rows, cols) && Resizes(sb) == [(rows, cols)]
  {
    if Resizes(sb) != [] {
      var (rows, cols) := Resizes(sb)[0];
      ResizesExactly(sb, rows, cols);
    }
  }

  /** One byte.  `cap` is the accumulator bound, or None for an unbounded one. */
  function Step(cap: Option<nat>, p: Parser, b: byte): (Parser, Out) {
    match p.mode
    case InData =>
      if b == IAC then (p.(mode := InIac), SILENT) else (p, Out([b], [], []))
    case InIac =>
      if b == IAC then (p.(mode := InData), Out([IAC], [], []))
      else if IsNegotiation(b) then (p.(mode := InOpt(b)), SILENT)
      else if b == SB then (Parser(InSub, []), SILENT)
      else (p.(mode := InData), SILENT)
    case InOpt(cmd) => (p.(mode := InData), Out([], [], Negotiate(cmd, b)))
    case InSub =>
      if b == IAC then (p.(mode := InSubIac), SILENT)
      else if cap.None? || |p.sb| < cap.value then (p.(sb := p.sb + [b]), SILENT)
      else (p, SILENT)
    case InSubIac =>
      if b == IAC then (Parser(InSub, p.sb + [IAC]), SILENT)
      else (START, Out([], Resizes(p.sb), []))
  }

  function Feed(cap: Option<nat>, p: Parser, s: seq<byte>): (Parser, Out)
    decreases |s|
  {
    if s == [] then (p, SILENT)
    else
      var (q, o) := Step(cap, p, s[0]);
      var (r, rest) := Feed(cap, q, s[1..]);
      (r, o.Then(rest))
  }

  /** The parser as shipped. */
  const CAP := Some(MAX_SUBNEG_LEN)

  lemma {:induction false} FeedAppend(cap: Option<nat>, p: Parser, a: seq<byte>, b: seq<byte>)
    ensures var (q, o) := Feed(cap, p, a);
            var (r, o') := Feed(cap, q, b);
            Feed(cap, p, a + b) == (r, o.Then(o'))
    decreases |a|
  {
    if a == [] {
      assert a + b == b;
      var (r, o') := Feed(cap, p, b);
      assert SILENT.Then(o') == o';
    } else {
      assert (a + b)[1..] == a[1..] + b;
      var (q, o) := Step(cap, p, a[0]);
      FeedAppend(cap, q, a[1..], b);
      ThenAssociates(o, Feed(cap, q, a[1..]).1, Feed(cap, Feed(cap, q, a[1..]).0, b).1);
    }
  }

  lemma ThenAssociates(a: Out, b: Out, c: Out)
    ensures a.Then(b.Then(c)) == a.Then(b).Then(c)
  {
    assert a.data + (b.data + c.data) == a.data + b.data + c.data;
    assert a.resizes + (b.resizes + c.resizes) == a.resizes + b.resizes + c.resizes;
    assert a.replies + (b.replies + c.replies) == a.replies + b.replies + c.replies;
  }

  lemma FeedAppendFrom(cap: Option<nat>, p: Parser, a: seq<byte>, b: seq<byte>, q: Parser, o: Out)
    requires Feed(cap, p, a) == (q, o)
    ensures Feed(cap, p, a + b) == (Feed(cap, q, b).0, o.Then(Feed(cap, q, b).1))
  {
    FeedAppend(cap, p, a, b);
  }

  lemma FeedSilent(cap: Option<nat>, p: Parser, a: seq<byte>, b: seq<byte>, q: Parser)
    requires Feed(cap, p, a) == (q, SILENT)
    ensures Feed(cap, p, a + b) == Feed(cap, q, b)
  {
    FeedAppend(cap, p, a, b);
    var o := Feed(cap, q, b).1;
    assert SILENT.Then(o) == o;
  }

  lemma FeedOne(cap: Option<nat>, p: Parser, b: byte)
    ensures Feed(cap, p, [b]) == Step(cap, p, b)
  {
    var (q, o) := Step(cap, p, b);
    assert Feed(cap, q, [b][1..]) == (q, SILENT);
    assert o.Then(SILENT) == o;
  }

  lemma FeedTwo(cap: Option<nat>, p: Parser, a: byte, b: byte, q: Parser, o: Out)
    requires Step(cap, p, a) == (q, SILENT) && o == Step(cap, q, b).1
    ensures Feed(cap, p, [a, b]) == Step(cap, q, b)
  {
    FeedOne(cap, p, a);
    FeedOne(cap, q, b);
    FeedAppend(cap, p, [a], [b]);
    assert [a] + [b] == [a, b];
    assert SILENT.Then(o) == o;
  }

  // ------------------------------------------------------- chunk independence

  function Concat(chunks: seq<seq<byte>>): seq<byte> {
    if chunks == [] then [] else chunks[0] + Concat(chunks[1..])
  }

  /** Successive `feed` calls, with their outputs joined. */
  function FeedChunks(cap: Option<nat>, p: Parser, chunks: seq<seq<byte>>): (Parser, Out)
    decreases |chunks|
  {
    if chunks == [] then (p, SILENT)
    else
      var (q, o) := Feed(cap, p, chunks[0]);
      var (r, rest) := FeedChunks(cap, q, chunks[1..]);
      (r, o.Then(rest))
  }

  /** However recv() cuts the stream, the calls together say the same. */
  lemma {:induction false} ChunkIndependence(cap: Option<nat>, p: Parser, chunks: seq<seq<byte>>)
    ensures FeedChunks(cap, p, chunks) == Feed(cap, p, Concat(chunks))
    decreases |chunks|
  {
    if chunks != [] {
      ChunkIndependence(cap, Feed(cap, p, chunks[0]).0, chunks[1..]);
      FeedAppend(cap, p, chunks[0], Concat(chunks[1..]));
    }
  }

  // ---------------------------------------------------------------- the grammar

  /** What a client can say.  `Sub` is closed by `IAC SE`; `CutSub` is a subnegotiation
      ended by IAC and some byte that is neither SE nor IAC. */
  datatype Token =
    | Data(b: byte)
    | Command(c: byte)
    | Negotiation(cmd: byte, opt: byte)
    | Sub(payload: seq<byte>)
    | CutSub(payload: seq<byte>, ender: byte)

  predicate WellFormed(t: Token) {
    match t
    case Data(_) => true
    case Command(c) => c != IAC && c != SB && !IsNegotiation(c)
    case Negotiation(cmd, _) => IsNegotiation(cmd)
    case Sub(_) => true
    case CutSub(_, ender) => ender != IAC && ender != SE
  }

  predicate AllWellFormed(ts: seq<Token>) {
    forall i :: 0 <= i < |ts| ==> WellFormed(ts[i])
  }

  function EscapeByte(b: byte): seq<byte> { if b == IAC then [IAC, IAC] else [b] }

  /** `telnet_escape`: double every IAC. */
  function Escape(s: seq<byte>): seq<byte> {
    if s == [] then [] else EscapeByte(s[0]) + Escape(s[1..])
  }

  function Spell(t: Token): seq<byte> {
    match t
    case Data(b) => EscapeByte(b)
    case Command(c) => [IAC, c]
    case Negotiation(cmd, opt) => [IAC, cmd, opt]
    case Sub(payload) => [IAC, SB] + Escape(payload) + [IAC, SE]
    case CutSub(payload, ender) => [IAC, SB] + Escape(payload) + [IAC, ender]
  }

  function SpellAll(ts: seq<Token>): seq<byte> {
    if ts == [] then [] else Spell(ts[0]) + SpellAll(ts[1..])
  }

  /** One of the three option commands every connection opens with. */
  predicate Offered(cmd: byte, opt: byte) {
    exists i :: 0 <= i < 3 && INITIAL_NEGOTIATION[3 * i..3 * i + 3] == [IAC, cmd, opt]
  }

  /** The answer an option command is due: agreement to our own offer is taken silently,
      any other proposal is refused, and a refusal is never answered. */
  function Answer(cmd: byte, opt: byte): seq<byte> {
    if cmd == DO then if Offered(WILL, opt) then [] else [IAC, WONT, opt]
    else if cmd == WILL then if Offered(DO, opt) then [] else [IAC, DONT, opt]
    else []
  }

  lemma OffersAre(cmd: byte, opt: byte)
    ensures Offered(cmd, opt) <==>
            (cmd == WILL && (opt == OPT_ECHO || opt == OPT_SGA)) || (cmd == DO && opt == OPT_NAWS)
  {
    var echo, sga, naws := INITIAL_NEGOTIATION[3 * 0..3 * 0 + 3], INITIAL_NEGOTIATION[3 * 1..3 * 1 + 3], INITIAL_NEGOTIATION[3 * 2..3 * 2 + 3];
    assert echo == [IAC, WILL, OPT_ECHO] && sga == [IAC, WILL, OPT_SGA] && naws == [IAC, DO, OPT_NAWS];
    assert [IAC, cmd, opt][1] == cmd && [IAC, cmd, opt][2] == opt;
  }

  /** `_negotiate` gives the answer that is due. */
  lemma NegotiateAnswers(cmd: byte, opt: byte)
    ensures Negotiate(cmd, opt) == Answer(cmd, opt)
  {
    OffersAre(WILL, opt);
    OffersAre(DO, opt);
    hide Offered;
  }

  /** What a token means: RFC 854 data, the answer to an option command, or the window
      size of a NAWS subnegotiation. */
  function Meaning(t: Token): Out {
    match t
    case Data(b) => Out([b], [], [])
    case Command(_) => SILENT
    case Negotiation(cmd, opt) => Out([], [], Answer(cmd, opt))
    case Sub(payload) => Out([], Resizes(payload), [])
    case CutSub(payload, _) => Out([], Resizes(payload), [])
  }

  function MeaningAll(ts: seq<Token>): Out {
    if ts == [] then SILENT else Meaning(ts[0]).Then(MeaningAll(ts[1..]))
  }

  // --------------------------------------- the cap does not change the output

  function OnlyIac(s: seq<byte>): seq<byte> {
    if s == [] then []
    else OnlyIac(s[..|s| - 1]) + if s[|s| - 1] == IAC then [IAC] else []
  }

  /** What the capped accumulator holds when an unbounded one would hold `u`: the first
      MAX_SUBNEG_LEN bytes, and after them every escaped IAC, which bypasses the cap. */
  function Capped(u: seq<byte>): seq<byte> {
    if |u| <= MAX_SUBNEG_LEN then u else u[..MAX_SUBNEG_LEN] + OnlyIac(u[MAX_SUBNEG_LEN..])
  }

  /** The capped parser in place of an unbounded one. */
  function Truncated(p: Parser): Parser { p.(sb := Capped(p.sb)) }

  lemma CappedSnoc(u: seq<byte>, b: byte)
    ensures |Capped(u)| >= MAX_SUBNEG_LEN <==> |u| >= MAX_SUBNEG_LEN
    ensures Capped(u + [b]) ==
            if b == IAC || |u| < MAX_SUBNEG_LEN then Capped(u) + [b] else Capped(u)
  {
    if |u| >= MAX_SUBNEG_LEN {
      var tail := u[MAX_SUBNEG_LEN..];
      assert (u + [b])[MAX_SUBNEG_LEN..] == tail + [b];
      assert (tail + [b])[..|tail|] == tail;
      assert (u + [b])[..MAX_SUBNEG_LEN] == u[..MAX_SUBNEG_LEN];
      if |u| == MAX_SUBNEG_LEN {
        assert tail == [];
        assert u[..MAX_SUBNEG_LEN] == u;
      }
      assert Capped(u) == u[..MAX_SUBNEG_LEN] + OnlyIac(tail);
      assert Capped(u + [b]) == u[..MAX_SUBNEG_LEN] + OnlyIac(tail + [b]);
    }
  }

  lemma CappedStep(u: Parser, b: byte)
    ensures var (u', o) := Step(None, u, b);
            Step(CAP, Truncated(u), b) == (Truncated(u'), o)
  {
    CappedSnoc(u.sb, b);
    CappedSnoc(u.sb, IAC);
    CappedEmpty();
    CappedResizes(u.sb);
    hide Capped, Resizes, Negotiate;
  }

  lemma CappedEmpty()
    ensures Capped([]) == []
  {
  }

  /** The cap is far beyond a window-size report. */
  lemma CappedResizes(u: seq<byte>)
    ensures Resizes(Capped(u)) == Resizes(u)
  {
    var c := Capped(u);
    hide Capped;
    CappedKeeps(u);
  }

  lemma CappedKeeps(u: seq<byte>)
    ensures |u| >= 5 <==> |Capped(u)| >= 5
    ensures |u| >= 5 ==> forall i :: 0 <= i < 5 ==> Capped(u)[i] == u[i]
  {
  }

  /** On every byte stream, from every state: the capped parser emits what an unbounded
      one emits, and holds exactly the capped image of its accumulator. */
  lemma {:induction false} CapRefines(u: Parser, s: seq<byte>)
    ensures var (u', o) := Feed(None, u, s);
            Feed(CAP, Truncated(u), s) == (Truncated(u'), o)
    decreases |s|
  {
    if s != [] {
      CappedStep(u, s[0]);
      CapRefines(Step(None, u, s[0]).0, s[1..]);
    }
  }

  function CountIac(s: seq<byte>): nat {
    if s == [] then 0 else CountIac(s[..|s| - 1]) + if s[|s| - 1] == IAC then 1 else 0
  }

  lemma {:induction false} OnlyIacLength(s: seq<byte>)
    ensures |OnlyIac(s)| == CountIac(s)
  {
    if s != [] { OnlyIacLength(s[..|s| - 1]); }
  }

  lemma {:induction false} CountIacSplit(a: seq<byte>, b: seq<byte>)
    ensures CountIac(a + b) == CountIac(a) + CountIac(b)
    decreases |b|
  {
    if b == [] {
      assert a + b == a;
    } else {
      assert (a + b)[..|a + b| - 1] == a + b[..|b| - 1];
      CountIacSplit(a, b[..|b| - 1]);
    }
  }

  /** The memory bound as the code keeps it.  `u` is the payload received so far in the
      current subnegotiation: the buffer exceeds the cap exactly when an escaped IAC
      arrived with the buffer already full, and then by exactly the number of those. */
  lemma SubnegBound(s: seq<byte>)
    ensures var u := Feed(None, START, s).0.sb;
            var c := Feed(CAP, START, s).0.sb;
            && |c| <= MAX_SUBNEG_LEN + CountIac(u)
            && (|c| <= MAX_SUBNEG_LEN <==> |u| <= MAX_SUBNEG_LEN || CountIac(u[MAX_SUBNEG_LEN..]) == 0)
            && (|u| >= MAX_SUBNEG_LEN ==> |c| == MAX_SUBNEG_LEN + CountIac(u[MAX_SUBNEG_LEN..]))
  {
    CapRefines(START, s);
    var u := Feed(None, START, s).0.sb;
    if |u| >= MAX_SUBNEG_LEN {
      OnlyIacLength(u[MAX_SUBNEG_LEN..]);
      CountIacSplit(u[..MAX_SUBNEG_LEN], u[MAX_SUBNEG_LEN..]);
      assert u == u[..MAX_SUBNEG_LEN] + u[MAX_SUBNEG_LEN..];
    }
  }

  // ---------------------------------------------- parsing inverts the grammar

  lemma EscapedByte(acc: seq<byte>, b: byte)
    ensures Feed(None, Parser(InSub, acc), EscapeByte(b)) == (Parser(InSub, acc + [b]), SILENT)
  {
    var p := Parser(InSub, acc);
    hide Feed;
    if b == IAC {
      FeedTwo(None, p, IAC, IAC, Parser(InSubIac, acc), SILENT);
    } else {
      FeedOne(None, p, b);
    }
  }

  lemma {:induction false} FeedEscapedSub(acc: seq<byte>, payload: seq<byte>)
    ensures Feed(None, Parser(InSub, acc), Escape(payload)) == (Parser(InSub, acc + payload), SILENT)
    decreases |payload|
  {
    if payload == [] {
      assert acc + payload == acc;
    } else {
      var b, rest := payload[0], payload[1..];
      hide Feed, EscapeByte;
      EscapedByte(acc, b);
      FeedEscapedSub(acc + [b], rest);
      assert Escape(payload) == EscapeByte(b) + Escape(rest);
      hide Escape;
      FeedSilent(None, Parser(InSub, acc), EscapeByte(b), Escape(rest), Parser(InSub, acc + [b]));
      Moved(acc, payload);
    }
  }

  lemma Moved(acc: seq<byte>, payload: seq<byte>)
    requires payload != []
    ensures acc + [payload[0]] + payload[1..] == acc + payload
  {
  }

  lemma FeedOpenSub(payload: seq<byte>)
    ensures Feed(None, START, [IAC, SB] + Escape(payload)) == (Parser(InSub, payload), SILENT)
  {
    FeedTwo(None, START, IAC, SB, Parser(InIac, []), SILENT);
    FeedEscapedSub([], payload);
    assert [] + payload == payload;
    FeedSilent(None, START, [IAC, SB], Escape(payload), Parser(InSub, []));
  }

  lemma {:induction false} AllIac(n: nat)
    ensures CountIac(seq(n, _ => IAC)) == n
  {
    if n > 0 {
      AllIac(n - 1);
      assert seq(n, _ => IAC)[..n - 1] == seq(n - 1, _ => IAC);
    }
  }

  /** The cap is not a bound on memory: for every n there is an unfinished
      subnegotiation that leaves n bytes more than the cap in the buffer. */
  lemma CapCanBePassed(n: nat)
    ensures exists s :: |Feed(CAP, START, s).0.sb| == MAX_SUBNEG_LEN + n
  {
    var filler: seq<byte> := seq(MAX_SUBNEG_LEN, _ => 0);
    var payload := filler + seq(n, _ => IAC);
    var s := [IAC, SB] + Escape(payload);
    FeedOpenSub(payload);
    AllIac(n);
    assert payload[MAX_SUBNEG_LEN..] == seq(n, _ => IAC);
    SubnegBound(s);
    assert |Feed(CAP, START, s).0.sb| == MAX_SUBNEG_LEN + n;
  }

  lemma FeedSub(payload: seq<byte>, ender: byte)
    requires ender != IAC
    ensures Feed(None, START, [IAC, SB] + Escape(payload) + [IAC, ender]) ==
            (START, Out([], Resizes(payload), []))
  {
    var full := Parser(InSub, payload);
    FeedOpenSub(payload);
    FeedTwo(None, full, IAC, ender, Parser(InSubIac, payload), Out([], Resizes(payload), []));
    FeedSilent(None, START, [IAC, SB] + Escape(payload), [IAC, ender], full);
  }

  lemma FeedToken(t: Token)
    requires WellFormed(t)
    ensures Feed(None, START, Spell(t)) == (START, Meaning(t))
  {
    match t {
      case Data(b) =>
        if b == IAC {
          FeedTwo(None, START, IAC, IAC, Parser(InIac, []), Meaning(t));
        } else {
          FeedOne(None, START, b);
        }
      case Command(c) => FeedTwo(None, START, IAC, c, Parser(InIac, []), SILENT);
      case Negotiation(cmd, opt) =>
        hide Answer, Negotiate;
        NegotiateAnswers(cmd, opt);
        FeedTwo(None, START, IAC, cmd, Parser(InIac, []), SILENT);
        FeedOne(None, Parser(InOpt(cmd), []), opt);
        FeedSilent(None, START, [IAC, cmd], [opt], Parser(InOpt(cmd), []));
        assert [IAC, cmd] + [opt] == Spell(t);
      case Sub(payload) => FeedSub(payload, SE);
      case CutSub(payload, ender) => FeedSub(payload, ender);
    }
  }

  lemma {:induction false} FeedTokensUncapped(ts: seq<Token>)
    requires AllWellFormed(ts)
    ensures Feed(None, START, SpellAll(ts)) == (START, MeaningAll(ts))
  {
    if ts != [] {
      FeedToken(ts[0]);
      FeedTokensUncapped(ts[1..]);
      FeedAppendFrom(None, START, Spell(ts[0]), SpellAll(ts[1..]), START, Meaning(ts[0]));
    }
  }

  /** Main result: for every token list and every way of cutting its spelling into
      chunks, the calls to `feed` emit exactly what the tokens mean and leave the
      parser where it started. */
  lemma FeedTokens(ts: seq<Token>, chunks: seq<seq<byte>>)
    requires AllWellFormed(ts) && Concat(chunks) == SpellAll(ts)
    ensures FeedChunks(CAP, START, chunks) == (START, MeaningAll(ts))
  {
    ChunkIndependence(CAP, START, chunks);
    FeedTokensUncapped(ts);
    CapRefines(START, SpellAll(ts));
  }

  /** Every option command, however it is cut, gets the answer it is due and nothing else. */
  lemma OptionIsAnswered(cmd: byte, opt: byte, chunks: seq<seq<byte>>)
    requires IsNegotiation(cmd) && Concat(chunks) == [IAC, cmd, opt]
    ensures FeedChunks(CAP, START, chunks) == (START, Out([], [], Answer(cmd, opt)))
  {
    hide FeedChunks, Concat, Answer;
    OneToken(Negotiation(cmd, opt), chunks);
  }

  /** A window size sent by a client arrives as that size, however it is escaped and cut,
      and provokes nothing else; a zero dimension arrives as nothing. */
  lemma NawsRoundTrip(rows: nat, cols: nat, chunks: seq<seq<byte>>)
    requires rows < 0x1_0000 && cols < 0x1_0000
    requires Concat(chunks) == Spell(Sub(NawsPayload(rows, cols)))
    ensures FeedChunks(CAP, START, chunks) ==
            (START, Out([], if rows == 0 || cols == 0 then [] else [(rows, cols)], []))
  {
    hide FeedChunks, Concat, Spell, NawsPayload, Resizes;
    OneToken(Sub(NawsPayload(rows, cols)), chunks);
    NawsReported(rows, cols);
  }

  lemma OneToken(t: Token, chunks: seq<seq<byte>>)
    requires WellFormed(t) && Concat(chunks) == Spell(t)
    ensures FeedChunks(CAP, START, chunks) == (START, Meaning(t))
  {
    hide FeedChunks, Concat, Feed, Spell, Meaning, WellFormed;
    ChunkIndependence(CAP, START, chunks);
    FeedToken(t);
    CapRefines(START, Spell(t));
  }

  lemma NawsReported(rows: nat, cols: nat)
    requires rows < 0x1_0000 && cols < 0x1_0000
    ensures Resizes(NawsPayload(rows, cols)) == if rows == 0 || cols == 0 then [] else [(rows, cols)]
  {
    var payload := NawsPayload(rows, cols);
    assert payload[1] == cols / 256 && payload[2] == cols % 256;
    assert payload[3] == rows / 256 && payload[4] == rows % 256;
  }

  /** Nothing else can be said: every byte stream is the spelling of a token list and
      an unfinished token, which the parser state records, up to the cap. */
  lemma EveryStreamIsTokens(s: seq<byte>) returns (ts: seq<Token>, tail: seq<byte>)
    ensures AllWellFormed(ts) && s == SpellAll(ts) + tail && Unfinished(tail)
    ensures Feed(CAP, START, s) == (Truncated(StateOf(tail)), MeaningAll(ts))
  {
    ts, tail := Tokenize(s);
    hide Feed, SpellAll, MeaningAll, AllWellFormed, Unfinished;
    CapRefines(START, s);
  }

  lemma {:induction false} Tokenize(s: seq<byte>) returns (ts: seq<Token>, tail: seq<byte>)
    ensures AllWellFormed(ts) && s == SpellAll(ts) + tail && Unfinished(tail)
    ensures Feed(None, START, s) == (StateOf(tail), MeaningAll(ts))
    decreases |s|
  {
    var n := TokenLength(s);
    if n == 0 {
      ts, tail := [], s;
      UnfinishedState(s);
      assert SpellAll([]) + s == s;
    } else {
      var t := FirstToken(s);
      var rest := s[n..];
      var ts', tail' := Tokenize(rest);
      ts, tail := [t] + ts', tail';
      FeedToken(t);
      FeedAppendFrom(None, START, Spell(t), rest, START, Meaning(t));
      Prepend(t, ts', tail, rest, s);
    }
  }

  lemma SpellCons(t: Token, ts: seq<Token>)
    ensures SpellAll([t] + ts) == Spell(t) + SpellAll(ts)
    ensures MeaningAll([t] + ts) == Meaning(t).Then(MeaningAll(ts))
  {
    assert ([t] + ts)[1..] == ts;
  }

  lemma Prepend(t: Token, ts: seq<Token>, tail: seq<byte>, rest: seq<byte>, s: seq<byte>)
    requires |Spell(t)| <= |s| && s[..|Spell(t)|] == Spell(t) && s[|Spell(t)|..] == rest && rest == SpellAll(ts) + tail
    ensures s == Spell(t) + rest && s == SpellAll([t] + ts) + tail
    ensures MeaningAll([t] + ts) == Meaning(t).Then(MeaningAll(ts))
  {
    SpellCons(t, ts);
    hide Spell, SpellAll, Meaning, MeaningAll;
    Rejoin(s, Spell(t), SpellAll(ts), tail);
  }

  lemma Rejoin(s: seq<byte>, a: seq<byte>, b: seq<byte>, tail: seq<byte>)
    requires |a| <= |s| && s[..|a|] == a && s[|a|..] == b + tail
    ensures s == a + (b + tail) == a + b + tail
  {
    assert s == s[..|a|] + s[|a|..];
  }

  /** Where the escaped payload of a subnegotiation stops: the index of the first IAC
      not followed by IAC, or |s| when the stream ends first. */
  function SubEnd(s: seq<byte>): (n: nat)
    ensures n <= |s|
    ensures n < |s| ==> s[n] == IAC && (n + 1 < |s| ==> s[n + 1] != IAC)
  {
    if s == [] then 0
    else if s[0] != IAC then 1 + SubEnd(s[1..])
    else if |s| == 1 || s[1] != IAC then 0
    else 2 + SubEnd(s[2..])
  }

  function Unescape(s: seq<byte>): seq<byte> {
    if s == [] then []
    else if s[0] != IAC || |s| == 1 then [s[0]] + Unescape(s[1..])
    else [IAC] + Unescape(s[2..])
  }

  lemma {:induction false} SubPayload(s: seq<byte>)
    ensures Escape(Unescape(s[..SubEnd(s)])) == s[..SubEnd(s)]
    decreases |s|
  {
    var n := SubEnd(s);
    if s != [] && s[0] != IAC {
      var rest := s[1..];
      assert n == 1 + SubEnd(rest);
      hide Escape, Unescape, SubEnd;
      SubPayload(rest);
      TakeOne(s, n);
      PlainByte(s[0], rest[..n - 1]);
    } else if |s| > 1 && s[1] == IAC {
      var rest := s[2..];
      assert n == 2 + SubEnd(rest);
      hide Escape, Unescape, SubEnd;
      SubPayload(rest);
      TakeTwo(s, n);
      DoubledIac(rest[..n - 2]);
    }
  }

  lemma TakeOne(s: seq<byte>, n: nat)
    requires 0 < n <= |s|
    ensures s[..n] == [s[0]] + s[1..][..n - 1]
  {
  }

  lemma TakeTwo(s: seq<byte>, n: nat)
    requires 2 <= n <= |s|
    ensures s[..n] == [s[0], s[1]] + s[2..][..n - 2]
  {
  }

  lemma PlainByte(b: byte, rest: seq<byte>)
    requires b != IAC
    ensures Unescape([b] + rest) == [b] + Unescape(rest)
    ensures Escape([b] + Unescape(rest)) == [b] + Escape(Unescape(rest))
  {
    assert ([b] + rest)[1..] == rest;
    assert ([b] + Unescape(rest))[1..] == Unescape(rest);
  }

  lemma DoubledIac(rest: seq<byte>)
    ensures Unescape([IAC, IAC] + rest) == [IAC] + Unescape(rest)
    ensures Escape([IAC] + Unescape(rest)) == [IAC, IAC] + Escape(Unescape(rest))
  {
    assert ([IAC, IAC] + rest)[2..] == rest;
    assert ([IAC] + Unescape(rest))[1..] == Unescape(rest);
  }

  /** The length of the first complete token, or 0. */
  function TokenLength(s: seq<byte>): (n: nat)
    ensures n <= |s|
  {
    if s == [] then 0
    else if s[0] != IAC then 1
    else if |s| == 1 then 0
    else if IsNegotiation(s[1]) then if |s| == 2 then 0 else 3
    else if s[1] != SB then 2
    else
      var e := SubEnd(s[2..]);
      if 2 + e + 2 <= |s| then 2 + e + 2 else 0
  }

  predicate Unfinished(s: seq<byte>) { TokenLength(s) == 0 }

  lemma FirstToken(s: seq<byte>) returns (t: Token)
    requires TokenLength(s) > 0
    ensures WellFormed(t) && Spell(t) == s[..TokenLength(s)]
  {
    var n := TokenLength(s);
    if s[0] != IAC {
      t := Data(s[0]);
    } else if IsNegotiation(s[1]) {
      t := Negotiation(s[1], s[2]);
    } else if s[1] == IAC {
      t := Data(IAC);
    } else if s[1] != SB {
      t := Command(s[1]);
    } else {
      t := FirstSub(s, SubEnd(s[2..]));
    }
  }

  lemma FirstSub(s: seq<byte>, e: nat) returns (t: Token)
    requires |s| >= 2 + e + 2 && s[0] == IAC && s[1] == SB && e == SubEnd(s[2..])
    ensures WellFormed(t) && Spell(t) == s[..2 + e + 2]
  {
    var rest := s[2..];
    SubPayload(rest);
    var payload := Unescape(rest[..e]);
    assert rest[e] == IAC && rest[e + 1] != IAC;
    hide SubEnd, Unescape, Escape;
    SubSpelled(s, e, Escape(payload));
    t := if s[3 + e] == SE then Sub(payload) else CutSub(payload, s[3 + e]);
  }

  lemma SubSpelled(s: seq<byte>, e: nat, body: seq<byte>)
    requires |s| >= 2 + e + 2 && s[0] == IAC && s[1] == SB && body == s[2..][..e] && s[2 + e] == IAC
    ensures s[..2 + e + 2] == [IAC, SB] + body + [IAC, s[3 + e]]
  {
  }

  /** The state in which an unfinished token leaves the parser. */
  function StateOf(tail: seq<byte>): Parser
    requires Unfinished(tail)
  {
    if tail == [] then START
    else if |tail| == 1 then Parser(InIac, [])
    else if IsNegotiation(tail[1]) then Parser(InOpt(tail[1]), [])
    else
      var e := SubEnd(tail[2..]);
      Parser(if 2 + e == |tail| then InSub else InSubIac, Unescape(tail[2..][..e]))
  }

  lemma UnfinishedState(s: seq<byte>)
    requires Unfinished(s)
    ensures Feed(None, START, s) == (StateOf(s), SILENT)
  {
    if |s| == 1 {
      FeedOne(None, START, IAC);
      assert s == [IAC];
    } else if |s| > 1 {
      FeedTwo(None, START, IAC, s[1], Parser(InIac, []), SILENT);
      if IsNegotiation(s[1]) {
        assert s == [IAC, s[1]];
      } else {
        UnfinishedSub(s, SubEnd(s[2..]));
      }
    }
  }

  lemma UnfinishedSub(s: seq<byte>, e: nat)
    requires |s| >= 2 && s[0] == IAC && s[1] == SB && e == SubEnd(s[2..]) && |s| < 2 + e + 2
    ensures Feed(None, START, s) ==
            (Parser(if 2 + e == |s| then InSub else InSubIac, Unescape(s[2..][..e])), SILENT)
  {
    SubPayload(s[2..]);
    SubSplit(s, e);
    OpenTail(Unescape(s[2..][..e]), 2 + e == |s|);
  }

  lemma OpenTail(payload: seq<byte>, whole: bool)
    ensures Feed(None, START, [IAC, SB] + Escape(payload) + if whole then [] else [IAC]) ==
            (Parser(if whole then InSub else InSubIac, payload), SILENT)
  {
    var opening := [IAC, SB] + Escape(payload);
    FeedOpenSub(payload);
    if whole {
      assert opening + [] == opening;
    } else {
      FeedOne(None, Parser(InSub, payload), IAC);
      FeedSilent(None, START, opening, [IAC], Parser(InSub, payload));
    }
  }

  lemma SubSplit(s: seq<byte>, e: nat)
    requires |s| >= 2 && s[0] == IAC && s[1] == SB && e == SubEnd(s[2..]) && |s| < 2 + e + 2
    ensures [IAC, SB] + s[2..][..e] + (if 2 + e == |s| then [] else [IAC]) == s
  {
  }

  // ------------------------------------------------------------- telnet_escape

  function DataTokens(x: seq<byte>): seq<Token> {
    if x == [] then [] else [Data(x[0])] + DataTokens(x[1..])
  }

  lemma {:induction false} EscapeIsData(x: seq<byte>)
    ensures AllWellFormed(DataTokens(x))
    ensures SpellAll(DataTokens(x)) == Escape(x)
    ensures MeaningAll(DataTokens(x)) == Out(x, [], [])
  {
    if x != [] {
      EscapeIsData(x[1..]);
      assert DataTokens(x)[1..] == DataTokens(x[1..]);
      assert [x[0]] + x[1..] == x;
    }
  }

  /** Escaped guest output is read back as itself by a telnet peer running this parser:
      no command, no reply, for any chunking. */
  lemma EscapeIsTransparent(x: seq<byte>, chunks: seq<seq<byte>>)
    requires Concat(chunks) == Escape(x)
    ensures FeedChunks(CAP, START, chunks) == (START, Out(x, [], []))
  {
    EscapeIsData(x);
    FeedTokens(DataTokens(x), chunks);
  }

  // ------------------------------------------------------ negotiation quiesces

  lemma ReplyIsMute(cap: Option<nat>, sb: seq<byte>, cmd: byte, opt: byte)
    ensures Feed(cap, Parser(InData, sb), Negotiate(cmd, opt)) == (Parser(InData, sb), SILENT)
  {
    var r, p := Negotiate(cmd, opt), Parser(InData, sb);
    if r != [] {
      var q := Parser(InOpt(r[1]), sb);
      FeedTwo(cap, p, IAC, r[1], Parser(InIac, sb), SILENT);
      FeedOne(cap, q, opt);
      FeedSilent(cap, p, [IAC, r[1]], [opt], q);
      assert [IAC, r[1]] + [opt] == r;
    }
  }

  /** The replies of any call, from any state, re-parse to nothing at all: no data, no
      resize, no reply.  Option byte 255 included. */
  lemma {:induction false} RepliesAreMute(cap: Option<nat>, p: Parser, s: seq<byte>, cap': Option<nat>, sb: seq<byte>)
    ensures var replies := Feed(cap, p, s).1.replies;
            Feed(cap', Parser(InData, sb), replies) == (Parser(InData, sb), SILENT)
    decreases |s|
  {
    if s != [] {
      var (q, o) := Step(cap, p, s[0]);
      var rest := Feed(cap, q, s[1..]).1;
      RepliesAreMute(cap, q, s[1..], cap', sb);
      match p.mode {
        case InOpt(cmd) => ReplyIsMute(cap', sb, cmd, s[0]);
        case _ => assert o.replies == [];
      }
      FeedAppendFrom(cap', Parser(InData, sb), o.replies, rest.replies, Parser(InData, sb), SILENT);
    }
  }

  /** Zero or more three-byte refusals. */
  predicate IsReplies(r: seq<byte>)
    decreases |r|
  {
    r == [] || (|r| >= 3 && r[0] == IAC && (r[1] == WONT || r[1] == DONT) && IsReplies(r[3..]))
  }

  lemma {:induction false} RepliesJoin(a: seq<byte>, b: seq<byte>)
    requires IsReplies(a) && IsReplies(b)
    ensures IsReplies(a + b)
    decreases |a|
  {
    if a == [] {
      assert a + b == b;
    } else {
      assert (a + b)[3..] == a[3..] + b;
      RepliesJoin(a[3..], b);
    }
  }

  lemma StepReplies(cap: Option<nat>, p: Parser, b: byte)
    ensures IsReplies(Step(cap, p, b).1.replies)
  {
    if p.mode.InOpt? {
      var r := Negotiate(p.mode.cmd, b);
      assert r != [] ==> r[3..] == [];
    }
  }

  lemma {:induction false} OnlyReplies(cap: Option<nat>, p: Parser, s: seq<byte>)
    ensures IsReplies(Feed(cap, p, s).1.replies)
    decreases |s|
  {
    if s != [] {
      var (q, o) := Step(cap, p, s[0]);
      StepReplies(cap, p, s[0]);
      hide Step, IsReplies;
      OnlyReplies(cap, q, s[1..]);
      RepliesJoin(o.replies, Feed(cap, q, s[1..]).1.replies);
    }
  }

  /** What a parser that stops inside an option negotiation will answer to the next
      refusal: it takes the IAC for the option. */
  function Owes(m: Mode): seq<byte> { if m.InOpt? then Negotiate(m.cmd, IAC) else [] }

  /** A refusal provokes what was owed and nothing more, in whatever state it arrives,
      and after it nothing is owed. */
  lemma RefusalSettles(cap: Option<nat>, p: Parser, c: byte, x: byte)
    requires c == WONT || c == DONT
    ensures var (q, o) := Feed(cap, p, [IAC, c, x]);
            o.replies == Owes(p.mode) && Owes(q.mode) == [] && (p.mode.InData? ==> q.mode.InData?)
  {
    var (p1, o1) := Step(cap, p, IAC);
    var (p2, o2) := Step(cap, p1, c);
    var (p3, o3) := Step(cap, p2, x);
    assert o1.replies + (o2.replies + o3.replies) == Owes(p.mode);
    ThreeSteps(cap, p, IAC, c, x);
  }

  lemma ThreeSteps(cap: Option<nat>, p: Parser, a: byte, b: byte, c: byte)
    ensures var (p1, o1) := Step(cap, p, a);
            var (p2, o2) := Step(cap, p1, b);
            var (p3, o3) := Step(cap, p2, c);
            Feed(cap, p, [a, b, c]) == (p3, o1.Then(o2.Then(o3)))
  {
    hide Step;
    var (p1, o1) := Step(cap, p, a);
    var (p2, o2) := Step(cap, p1, b);
    FeedOne(cap, p2, c);
    assert [a, b, c][1..] == [b, c] && [b, c][1..] == [c];
  }

  lemma {:induction false} RepliesSettle(cap: Option<nat>, p: Parser, r: seq<byte>)
    requires IsReplies(r)
    ensures var (q, o) := Feed(cap, p, r);
            && o.replies + Owes(q.mode) == Owes(p.mode)
            && (p.mode.InData? ==> q.mode.InData?)
    decreases |r|
  {
    if r != [] {
      var (q, o) := Feed(cap, p, r[..3]);
      assert r[..3] == [IAC, r[1], r[2]];
      RefusalSettles(cap, p, r[1], r[2]);
      RepliesSettle(cap, q, r[3..]);
      assert r[..3] + r[3..] == r;
      FeedAppendFrom(cap, p, r[..3], r[3..], q, o);
    }
  }

  /** Two endpoints running this code over a FIFO of bytes in each direction. */
  datatype Pair = Pair(a: Parser, b: Parser, toA: seq<byte>, toB: seq<byte>) {
    /** Both inbound streams end between tokens. */
    predicate Aligned() {
      Feed(CAP, a, toA).0.mode == InData && Feed(CAP, b, toB).0.mode == InData
    }

    /** What the two would still answer if a refusal followed the bytes in flight. */
    function Owed(): nat {
      |Owes(Feed(CAP, a, toA).0.mode)| + |Owes(Feed(CAP, b, toB).0.mode)|
    }

    /** Bytes in flight, the replies they will still provoke, and what is owed. */
    function Measure(): nat {
      |toA| + |toB| + |Feed(CAP, a, toA).1.replies| + |Feed(CAP, b, toB).1.replies| + Owed()
    }

    /** The next `n` bytes reach one endpoint, and its replies go the other way. */
    function Deliver(atA: bool, n: nat): Pair
      requires n <= if atA then |toA| else |toB|
    {
      if atA then
        var (p, o) := Feed(CAP, a, toA[..n]);
        Pair(p, b, toA[n..], toB + o.replies)
      else
        var (p, o) := Feed(CAP, b, toB[..n]);
        Pair(a, p, toA + o.replies, toB[n..])
    }
  }

  lemma Receives(recv: Parser, inbound: seq<byte>, n: nat)
    requires n <= |inbound|
    ensures var (q, o) := Feed(CAP, recv, inbound[..n]);
            && Feed(CAP, q, inbound[n..]).0 == Feed(CAP, recv, inbound).0
            && |Feed(CAP, recv, inbound).1.replies| == |o.replies| + |Feed(CAP, q, inbound[n..]).1.replies|
  {
    assert inbound == inbound[..n] + inbound[n..];
    FeedAppend(CAP, recv, inbound[..n], inbound[n..]);
  }

  lemma Answered(peer: Parser, outbound: seq<byte>, replies: seq<byte>)
    requires IsReplies(replies)
    ensures var (p, sent) := Feed(CAP, peer, outbound);
            var (p', sent') := Feed(CAP, peer, outbound + replies);
            && |sent'.replies| + |Owes(p'.mode)| == |sent.replies| + |Owes(p.mode)|
            && (p.mode.InData? ==> p'.mode.InData?)
  {
    var (p, sent) := Feed(CAP, peer, outbound);
    RepliesSettle(CAP, p, replies);
    hide Feed, Owes;
    FeedAppendFrom(CAP, peer, outbound, replies, p, sent);
  }

  /** Each delivery uses up exactly as much of the measure as it delivers. */
  lemma DeliverStep(s: Pair, atA: bool, n: nat)
    requires n <= if atA then |s.toA| else |s.toB|
    ensures s.Deliver(atA, n).Measure() == s.Measure() - n
    ensures s.Aligned() ==> s.Deliver(atA, n).Aligned()
  {
    hide Feed, Owes, IsReplies;
    if atA {
      OnlyReplies(CAP, s.a, s.toA[..n]);
      Receives(s.a, s.toA, n);
      Answered(s.b, s.toB, Feed(CAP, s.a, s.toA[..n]).1.replies);
    } else {
      OnlyReplies(CAP, s.b, s.toB[..n]);
      Receives(s.b, s.toB, n);
      Answered(s.a, s.toA, Feed(CAP, s.b, s.toB[..n]).1.replies);
    }
  }

  predicate Schedule(s: Pair, moves: seq<(bool, nat)>)
    decreases |moves|
  {
    moves == [] ||
    (var (atA, n) := moves[0];
     && 0 < n <= (if atA then |s.toA| else |s.toB|)
     && Schedule(s.Deliver(atA, n), moves[1..]))
  }

  function Play(s: Pair, moves: seq<(bool, nat)>): Pair
    requires Schedule(s, moves)
    decreases |moves|
  {
    if moves == [] then s else Play(s.Deliver(moves[0].0, moves[0].1), moves[1..])
  }

  function Delivered(moves: seq<(bool, nat)>): nat {
    if moves == [] then 0 else moves[0].1 + Delivered(moves[1..])
  }

  /** From any two parser states, any bytes in flight and in any interleaving, the two
      endpoints exchange finitely many bytes, a number known in advance.  When both
      channels run dry exactly that many have moved, less what an endpoint stopped inside
      a negotiation still owes; and nothing is owed if the streams end between tokens. */
  lemma {:induction false} NegotiationQuiesces(s: Pair, moves: seq<(bool, nat)>)
    requires Schedule(s, moves)
    ensures |moves| <= Delivered(moves) <= s.Measure()
    ensures var e := Play(s, moves);
            && (e.toA == [] && e.toB == [] <==> Delivered(moves) == s.Measure() - e.Owed())
            && (s.Aligned() ==> e.Aligned() && e.Owed() == 0)
    decreases |moves|
  {
    hide Feed;
    if moves == [] {
      Dry(s);
    } else {
      DeliverStep(s, moves[0].0, moves[0].1);
      NegotiationQuiesces(s.Deliver(moves[0].0, moves[0].1), moves[1..]);
    }
  }

  lemma Dry(s: Pair)
    ensures s.toA == [] && s.toB == [] <==> 0 == s.Measure() - s.Owed()
  {
  }

  /** Two gateways that open with INITIAL_NEGOTIATION at each other: nine bytes each
      way, one refusal per offer, then silence. */
  lemma InitialExchange(moves: seq<(bool, nat)>)
    requires Schedule(Pair(START, START, INITIAL_NEGOTIATION, INITIAL_NEGOTIATION), moves)
    ensures Delivered(moves) <= 36
  {
    InitialReplies();
    hide Feed, Schedule, Delivered;
    NegotiationQuiesces(Pair(START, START, INITIAL_NEGOTIATION, INITIAL_NEGOTIATION), moves);
  }

  lemma InitialReplies()
    ensures var (p, o) := Feed(CAP, START, INITIAL_NEGOTIATION);
            p == START && |o.replies| == 9
  {
    hide Feed, Step;
    var echo, sga, naws := [IAC, WILL, OPT_ECHO], [IAC, WILL, OPT_SGA], [IAC, DO, OPT_NAWS];
    OfferAnswered(WILL, OPT_ECHO);
    OfferAnswered(WILL, OPT_SGA);
    OfferAnswered(DO, OPT_NAWS);
    FeedAppendFrom(CAP, START, sga, naws, START, Out([], [], Negotiate(WILL, OPT_SGA)));
    FeedAppendFrom(CAP, START, echo, sga + naws, START, Out([], [], Negotiate(WILL, OPT_ECHO)));
    assert echo + (sga + naws) == INITIAL_NEGOTIATION;
  }

  lemma OfferAnswered(cmd: byte, opt: byte)
    requires IsNegotiation(cmd)
    ensures Feed(CAP, START, [IAC, cmd, opt]) == (START, Out([], [], Negotiate(cmd, opt)))
  {
    ThreeSteps(CAP, START, IAC, cmd, opt);
    hide Feed, Negotiate;
    assert [] + Negotiate(cmd, opt) == Negotiate(cmd, opt);
  }

  // ---------------------------------------------------------------- the class

  datatype StateName = SData | SIac | SOpt | SSb | SSbIac

  class TelnetInbound {
    var state: StateName
    var cmd: Option<byte>
    var sb: seq<byte>

    predicate Valid()
      reads this
    {
      state == SOpt <==> cmd.Some?
    }

    function Value(): Parser
      requires Valid()
      reads this
    {
      var mode := match state
        case SData => InData
        case SIac => InIac
        case SOpt => InOpt(cmd.value)
        case SSb => InSub
        case SSbIac => InSubIac;
      Parser(mode, sb)
    }

    constructor ()
      ensures Valid() && Value() == START
    {
      state, cmd, sb := SData, None, [];
    }

    /** `_end_subneg`: a resize is appended exactly when the accumulator holds the
        report of that size, and nothing is otherwise. */
    method EndSubneg(resizes: seq<(nat, nat)>) returns (r: seq<(nat, nat)>)
      modifies this`sb
      ensures sb == []
      ensures forall rows: nat, cols: nat :: Reports(old(sb), rows, cols) ==> r == resizes + [(rows, cols)]
      ensures (forall rows: nat, cols: nat :: !Reports(old(sb), rows, cols)) ==> r == resizes
      ensures r == resizes + Resizes(old(sb))
    {
      ResizesOnlyReports(sb);
      forall rows: nat, cols: nat | Reports(sb, rows, cols)
        ensures Resizes(sb) == [(rows, cols)]
      {
        ResizesExactly(sb, rows, cols);
      }
      r := resizes;
      if |sb| >= 5 && sb[0] == OPT_NAWS {
        var cols := (sb[1] as int) * 256 + sb[2] as int;
        var rows := (sb[3] as int) * 256 + sb[4] as int;
        if rows != 0 && cols != 0 {
          r := r + [(rows, cols)];
        }
      }
      sb := [];
    }

    method FeedByte(b: byte, data: seq<byte>, resizes: seq<(nat, nat)>, replies: seq<byte>)
      returns (data': seq<byte>, resizes': seq<(nat, nat)>, replies': seq<byte>)
      requires Valid()
      modifies this
      ensures Valid()
      ensures var (p, o) := Step(CAP, old(Value()), b);
              Value() == p && Out(data', resizes', replies') == Out(data, resizes, replies).Then(o)
    {
      data', resizes', replies' := data, resizes, replies;
      match state {
        case SData =>
          if b == IAC { state := SIac; } else { data' := data + [b]; }
        case SIac =>
          if b == IAC {
            data', state := data + [IAC], SData;
          } else if IsNegotiation(b) {
            cmd, state := Some(b), SOpt;
          } else if b == SB {
            sb, state := [], SSb;
          } else {
            state := SData;
          }
        case SOpt =>
          replies' := replies + Negotiate(cmd.value, b);
          cmd, state := None, SData;
        case SSb =>
          if b == IAC {
            state := SSbIac;
          } else if |sb| < MAX_SUBNEG_LEN {
            sb := sb + [b];
          }
        case SSbIac =>
          if b == SE {
            resizes' := EndSubneg(resizes);
            state := SData;
          } else if b == IAC {
            sb, state := sb + [IAC], SSb;
          } else {
            resizes' := EndSubneg(resizes);
            state := SData;
          }
      }
    }

    /** `feed`. */
    method FeedChunk(chunk: seq<byte>)
      returns (data: seq<byte>, resizes: seq<(nat, nat)>, replies: seq<byte>)
      requires Valid()
      modifies this
      ensures Valid()
      ensures (Value(), Out(data, resizes, replies)) == Feed(CAP, old(Value()), chunk)
    {
      data, resizes, replies := [], [], [];
      for i := 0 to |chunk|
        invariant Valid()
        invariant (Value(), Out(data, resizes, replies)) == Feed(CAP, old(Value()), chunk[..i])
      {
        FeedSnoc(CAP, old(Value()), chunk[..i], chunk[i]);
        assert chunk[..i + 1] == chunk[..i] + [chunk[i]];
        data, resizes, replies := FeedByte(chunk[i], data, resizes, replies);
      }
      assert chunk[..|chunk|] == chunk;
    }
  }

  lemma FeedSnoc(cap: Option<nat>, p: Parser, s: seq<byte>, b: byte)
    ensures var (q, o) := Feed(cap, p, s);
            Feed(cap, p, s + [b]) == (Step(cap, q, b).0, o.Then(Step(cap, q, b).1))
  {
    FeedAppend(cap, p, s, [b]);
    var (q, o) := Feed(cap, p, s);
    var (r, o') := Step(cap, q, b);
    assert o'.Then(SILENT) == o';
    assert Feed(cap, q, [b]) == (r, o'.Then(Feed(cap, r, []).1));
  }
}
