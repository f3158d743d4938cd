/** The three `read_frame` implementations over a stream that may split its bytes
    anywhere, and guest_cmd.py's `_collect_result`. */
module Readers {
  import opened Wrappers
  import opened Codec
  import opened Control

  datatype Received = Chunk(bytes: seq<byte>) | OsError

  /** One connected stream: the bytes the peer sends before it closes, and how far we
      have read.  Each `Recv` returns any nonempty piece that fits, or fails, which
      `failures` counts. */
  class Stream {
    const script: seq<byte>
    var pos: nat
    var failures: nat
    var pings: nat
    var lapses: nat   // quiet select() periods still ahead

    ghost predicate Valid()
      reads this
    {
      pos <= |script|
    }

    function Rest(): (s: seq<byte>)
      requires Valid()
      reads this
    {
      script[pos..]
    }

    constructor (bytes: seq<byte>, quiet: nat)
      ensures Valid() && Rest() == bytes && failures == 0 && pings == 0 && lapses == quiet
    {
      script, pos, failures, pings, lapses := bytes, 0, 0, 0, quiet;
    }

    method Recv(n: nat) returns (r: Received)
      requires Valid() && n > 0
      modifies this`pos, this`failures
      ensures Valid()
      ensures failures == old(failures) + if r.OsError? then 1 else 0
      ensures r.OsError? ==> Rest() == old(Rest())
      ensures r.Chunk? ==> old(Rest()) == r.bytes + Rest() && |r.bytes| <= n
      ensures r.Chunk? ==> (r.bytes == [] <==> old(Rest()) == [])
    {
      if * {
        failures := failures + 1;
        return OsError;
      }
      var most := if |script| - pos < n then |script| - pos else n;
      if most == 0 {
        return Chunk([]);
      }
      var k :| 1 <= k <= most;
      r := Chunk(script[pos..pos + k]);
      pos := pos + k;
    }

    /** `select([sock], [], [], PING_INTERVAL_S)`: false means the interval lapsed. */
    method Select() returns (readable: bool)
      modifies this`lapses
      ensures readable ==> lapses == old(lapses)
      ensures !readable ==> lapses == old(lapses) - 1
    {
      if lapses > 0 {
        if * {
          lapses := lapses - 1;
          return false;
        }
      }
      readable := true;
    }
  }

  datatype Exact = Full(buf: seq<byte>) | AtEof | MidFrame | Broken

  function ExactSpec(s: seq<byte>, n: nat): Exact {
    if |s| >= n then Full(s[..n]) else if s == [] then AtEof else MidFrame
  }

  /** guest_cmd.py `_recv_exact`. */
  method RecvExact(sock: Stream, n: nat) returns (r: Exact)
    requires sock.Valid() && n > 0
    modifies sock`pos, sock`failures
    ensures sock.Valid() && sock.pos >= old(sock.pos)
    ensures sock.failures == old(sock.failures) + if r.Broken? then 1 else 0
    ensures r != Broken ==> r == ExactSpec(old(sock.Rest()), n)
    ensures r.Full? ==> old(sock.Rest()) == r.buf + sock.Rest()
  {
    var buf: seq<byte> := [];
    ghost var all := sock.Rest();
    while |buf| < n
      invariant sock.Valid() && sock.pos >= old(sock.pos) && sock.failures == old(sock.failures)
      invariant |buf| <= n && all == buf + sock.Rest()
      decreases n - |buf|
    {
      var got := sock.Recv(n - |buf|);
      if got.OsError? {
        return Broken;
      }
      if got.bytes == [] {
        return if buf == [] then AtEof else MidFrame;
      }
      buf := buf + got.bytes;
    }
    r := Full(buf);
  }

  datatype ReadResult = Done(d: Decoded) | IoError

  /** What each reader promises when no recv() failed: the outcome is the dialect's, and
      a returned frame leaves the stream on the next boundary. */
  ghost predicate ReadsAs(d: Dialect, before: seq<byte>, r: ReadResult, after: seq<byte>) {
    r.Done? ==> r.d == DecodeNext(d, before) && (r.d.Msg? ==> after == before[r.d.used..])
  }

  /** guest_cmd.py `read_frame`. */
  method ReadFrameGuestCmd(sock: Stream) returns (r: ReadResult)
    requires sock.Valid()
    modifies sock`pos, sock`failures
    ensures sock.Valid() && sock.pos >= old(sock.pos)
    ensures sock.failures == old(sock.failures) + if r.IoError? then 1 else 0
    ensures ReadsAs(GuestCmd, old(sock.Rest()), r, sock.Rest())
  {
    ghost var all := sock.Rest();
    var hdr := RecvExact(sock, HEADER_LEN);
    match hdr {
      case AtEof => return Done(Closed);
      case MidFrame => return Done(Bad(ShortHeader));
      case Broken => return IoError;
      case Full(h) =>
        var ftype, length := h[0], FromBigEndian(h[1..5]);
        assert h[1..5] == all[1..5];
        if length > MAX_FRAME_LEN {
          return Done(Bad(Oversize));
        }
        if length == 0 {
          assert all[5..5] == [];
          return Done(Msg(Frame(ftype, []), HEADER_LEN));
        }
        assert sock.Rest() == all[5..];
        var payload := RecvExact(sock, length);
        match payload {
          case Full(p) =>
            assert p == all[5..5 + length];
            return Done(Msg(Frame(ftype, p), HEADER_LEN + length));
          case Broken => return IoError;
          case _ => return Done(Bad(ShortPayload));
        }
    }
  }

  datatype Fill = Filled | UnexpectedEof | FillFailed

  method CopyInto(buf: array<byte>, at: nat, bytes: seq<byte>)
    requires at + |bytes| <= buf.Length
    modifies buf
    ensures buf[..at + |bytes|] == old(buf[..at]) + bytes
  {
    forall i | 0 <= i < |bytes| {
      buf[at + i] := bytes[i];
    }
  }

  /** Tokio's `read_exact`: fill the caller's buffer in place. */
  method ReadExact(sock: Stream, buf: array<byte>) returns (r: Fill)
    requires sock.Valid()
    modifies sock`pos, sock`failures, buf
    ensures sock.Valid() && sock.pos >= old(sock.pos)
    ensures sock.failures == old(sock.failures) + if r.FillFailed? then 1 else 0
    ensures r.Filled? ==> old(sock.Rest()) == buf[..] + sock.Rest()
    ensures r.UnexpectedEof? ==> |old(sock.Rest())| < buf.Length
  {
    ghost var all := sock.Rest();
    var filled := 0;
    while filled < buf.Length
      invariant sock.Valid() && sock.pos >= old(sock.pos) && sock.failures == old(sock.failures)
      invariant filled <= buf.Length && Cut(all, buf[..filled], sock.Rest())
      decreases buf.Length - filled
    {
      var got := sock.Recv(buf.Length - filled);
      if got.OsError? {
        return FillFailed;
      }
      if got.bytes == [] {
        return UnexpectedEof;
      }
      CutMore(all, buf[..filled], got.bytes, sock.Rest());
      CopyInto(buf, filled, got.bytes);
      filled := filled + |got.bytes|;
    }
    assert buf[..filled] == buf[..];
    r := Filled;
  }

  /** src/frame.rs `read_frame`. */
  method ReadFrameAgent(sock: Stream, cap: nat) returns (r: ReadResult)
    requires sock.Valid()
    modifies sock`pos, sock`failures
    ensures sock.Valid() && sock.pos >= old(sock.pos)
    ensures sock.failures == old(sock.failures) + if r.IoError? then 1 else 0
    ensures ReadsAs(RustAgent(cap), old(sock.Rest()), r, sock.Rest())
  {
    ghost var all := sock.Rest();
    var hdr := new byte[5];
    var got := ReadExact(sock, hdr);
    match got {
      case UnexpectedEof => return Done(Closed);
      case FillFailed => return IoError;
      case Filled =>
    }
    assert hdr[..] == all[..5] && sock.Rest() == all[5..];
    var ftype, len := hdr[0], FromBigEndian(hdr[1..5]);
    assert hdr[1..5] == all[1..5];
    if len > cap {
      return Done(Bad(Oversize));
    }
    var payload := new byte[len];
    if len > 0 {
      var rest := ReadExact(sock, payload);
      match rest {
        case UnexpectedEof => return Done(Bad(ShortPayload));
        case FillFailed => return IoError;
        case Filled =>
      }
    } else {
      assert payload[..] == [];
    }
    assert payload[..] == all[5..5 + len];
    return Done(Msg(Frame(ftype, payload[..]), HEADER_LEN + len));
  }

  datatype Whole = Whole(bytes: seq<byte>) | Incomplete | Lost

  /** asyncio's `readexactly`: whole, or the IncompleteReadError. */
  method ReadExactly(sock: Stream, n: nat) returns (r: Whole)
    requires sock.Valid()
    modifies sock`pos, sock`failures
    ensures sock.Valid() && sock.pos >= old(sock.pos)
    ensures sock.failures == old(sock.failures) + if r.Lost? then 1 else 0
    ensures r.Whole? ==> old(sock.Rest()) == r.bytes + sock.Rest() && |r.bytes| == n
    ensures r.Incomplete? ==> |old(sock.Rest())| < n
  {
    ghost var all := sock.Rest();
    var buffered: seq<byte> := [];
    while |buffered| < n
      invariant sock.Valid() && sock.pos >= old(sock.pos) && sock.failures == old(sock.failures)
      invariant |buffered| <= n && all == buffered + sock.Rest()
      decreases n - |buffered|
    {
      var got := sock.Recv(n - |buffered|);
      if got.OsError? {
        return Lost;
      }
      if got.bytes == [] {
        return Incomplete;
      }
      buffered := buffered + got.bytes;
    }
    r := Whole(buffered);
  }

  /** ssh_gateway.py `read_frame`. */
  method ReadFrameSsh(sock: Stream) returns (r: ReadResult)
    requires sock.Valid()
    modifies sock`pos, sock`failures
    ensures sock.Valid() && sock.pos >= old(sock.pos)
    ensures sock.failures == old(sock.failures) + if r.IoError? then 1 else 0
    ensures ReadsAs(SshGateway, old(sock.Rest()), r, sock.Rest())
  {
    ghost var all := sock.Rest();
    var hdr := ReadExactly(sock, HEADER_LEN);
    match hdr {
      case Incomplete => return Done(Closed);
      case Lost => return IoError;
      case Whole(h) =>
        var ftype, length := h[0], FromBigEndian(h[1..5]);
        assert h[1..5] == all[1..5] && sock.Rest() == all[5..];
        if length > MAX_FRAME_LEN {
          return Done(Bad(Oversize));
        }
        if length == 0 {
          assert all[5..5] == [];
          return Done(Msg(Frame(ftype, []), HEADER_LEN));
        }
        var payload := ReadExactly(sock, length);
        match payload {
          case Incomplete => return Done(Bad(ShortPayload));
          case Lost => return IoError;
          case Whole(p) =>
            assert p == all[5..5 + length];
            return Done(Msg(Frame(ftype, p), HEADER_LEN + length));
        }
    }
  }

  /** Each implementation's own reader. */
  method ReadFrame(sock: Stream, d: Dialect) returns (r: ReadResult)
    requires sock.Valid()
    modifies sock`pos, sock`failures
    ensures sock.Valid() && sock.pos >= old(sock.pos)
    ensures sock.failures == old(sock.failures) + if r.IoError? then 1 else 0
    ensures ReadsAs(d, old(sock.Rest()), r, sock.Rest())
  {
    match d {
      case RustAgent(cap) => r := ReadFrameAgent(sock, cap);
      case GuestCmd => r := ReadFrameGuestCmd(sock);
      case SshGateway => r := ReadFrameSsh(sock);
    }
  }

  lemma DecodeAllStep(d: Dialect, before: seq<Frame>, s: seq<byte>)
    requires DecodeNext(d, s).Msg?
    ensures var m := DecodeNext(d, s);
            before + DecodeAll(d, s).frames == before + [m.frame] + DecodeAll(d, s[m.used..]).frames
  {
    var m := DecodeNext(d, s);
    var rest := DecodeAll(d, s[m.used..]).frames;
    assert before + ([m.frame] + rest) == before + [m.frame] + rest;
  }

  /** Reading until there is no further frame, as the agent's input tasks do and the other
      readers' loops unless an EXIT comes first: on a stream that never fails exactly what
      the bytes decode to is returned, and a failure only cuts that list short. */
  method ReadFrames(sock: Stream, d: Dialect) returns (frames: seq<Frame>, last: ReadResult)
    requires sock.Valid()
    modifies sock`pos, sock`failures
    ensures sock.failures == old(sock.failures) + if last.IoError? then 1 else 0
    ensures frames <= DecodeAll(d, old(sock.Rest())).frames
    ensures last.Done? ==> Reads(frames, last.d) == DecodeAll(d, old(sock.Rest()))
  {
    frames := [];
    ghost var all := DecodeAll(d, sock.Rest());
    assert [] + all.frames == all.frames;
    while true
      invariant sock.Valid() && sock.failures == old(sock.failures)
      invariant all == Reads(frames + DecodeAll(d, sock.Rest()).frames, DecodeAll(d, sock.Rest()).last)
      decreases |sock.Rest()|
    {
      ghost var rest := sock.Rest();
      last := ReadFrame(sock, d);
      if last.IoError? || !last.d.Msg? {
        assert last.Done? ==> frames + [] == frames;
        return;
      }
      DecodeAllStep(d, frames, rest);
      frames := frames + [last.d.frame];
    }
  }

  /** `_recv_line`: how many bytes the handshake line takes. */
  function LineLen(s: seq<byte>, limit: nat): (n: nat)
    ensures n <= |s| && n <= limit
    decreases limit
  {
    if limit == 0 || s == [] then 0
    else if s[0] == 10 then 1
    else 1 + LineLen(s[1..], limit - 1)
  }

  method RecvLine(sock: Stream, limit: nat) returns (line: Option<seq<byte>>)
    requires sock.Valid()
    modifies sock`pos, sock`failures
    ensures sock.Valid()
    ensures sock.failures == old(sock.failures) + if line.None? then 1 else 0
    ensures line.Some? ==> var all := old(sock.Rest()); var n := LineLen(all, limit);
                           line.value == all[..n] && sock.Rest() == all[n..]
  {
    hide LineLen;
    ghost var all := sock.Rest();
    var buf: seq<byte> := [];
    var ended := false;
    LineLenEnds(sock.Rest());
    while |buf| < limit && !ended
      invariant sock.Valid() && sock.failures == old(sock.failures)
      invariant |buf| <= limit && Cut(all, buf, sock.Rest())
      invariant |buf| + (if ended then 0 else LineLen(sock.Rest(), limit - |buf|)) == LineLen(all, limit)
      decreases limit - |buf|, !ended
    {
      ghost var rest := sock.Rest();
      LineLenStep(rest, limit - |buf|);
      var got := sock.Recv(1);
      if got.OsError? {
        return None;
      }
      Advance(all, buf, rest, got.bytes, sock.Rest());
      buf := buf + got.bytes;
      ended := got.bytes == [] || got.bytes == [10];
    }
    return Some(buf);
  }

  predicate Cut(all: seq<byte>, buf: seq<byte>, rest: seq<byte>) {
    |buf| <= |all| && buf == all[..|buf|] && rest == all[|buf|..]
  }

  lemma CutMore(all: seq<byte>, buf: seq<byte>, got: seq<byte>, after: seq<byte>)
    requires Cut(all, buf, got + after)
    ensures Cut(all, buf + got, after)
  {
  }

  lemma Advance(all: seq<byte>, buf: seq<byte>, rest: seq<byte>, got: seq<byte>, after: seq<byte>)
    requires Cut(all, buf, rest) && rest == got + after && |got| <= 1
    ensures Cut(all, buf + got, after)
    ensures got != [] ==> rest != [] && got == [rest[0]] && after == rest[1..]
  {
  }

  lemma LineLenEnds(s: seq<byte>)
    ensures LineLen(s, 0) == 0
  {
  }

  lemma LineLenStep(s: seq<byte>, limit: nat)
    requires limit > 0
    ensures LineLen(s, limit) == if s == [] then 0 else if s[0] == 10 then 1 else 1 + LineLen(s[1..], limit - 1)
  {
  }

  /** The line ends with its first newline, or where the limit or the stream does. */
  lemma {:induction false} LineLenMeans(s: seq<byte>, limit: nat)
    ensures var n := LineLen(s, limit);
            && (forall i :: 0 <= i < n - 1 ==> s[i] != 10)
            && (n == limit || n == |s| || (n > 0 && s[n - 1] == 10))
    decreases limit
  {
    if limit > 0 && s != [] && s[0] != 10 {
      LineLenMeans(s[1..], limit - 1);
      var n := LineLen(s[1..], limit - 1);
      assert forall i :: 0 < i <= n ==> s[1..][i - 1] == s[i];
    }
  }

  /** Reading the OK line never swallows a byte of the first frame, even when the
      transport delivers both at once. */
  lemma {:induction false} HandshakeKeepsSync(ok: seq<byte>, frames: seq<byte>, limit: nat)
    requires 0 < |ok| <= limit && ok[|ok| - 1] == 10
    requires forall i :: 0 <= i < |ok| - 1 ==> ok[i] != 10
    ensures LineLen(ok + frames, limit) == |ok|
    decreases |ok|
  {
    if |ok| > 1 {
      assert (ok + frames)[1..] == ok[1..] + frames;
      HandshakeKeepsSync(ok[1..], frames, limit - 1);
    }
  }

  // ------------------------------------------------------------- _collect_result

  datatype Collected =
    | Result(stdout: seq<byte>, stderr: seq<byte>, code: int, reason: Option<Reason>)
    | Raised

  type Parser = seq<byte> -> Doc

  /** The drain loop as a function of the frames delivered. */
  function CollectFrames(parse: Parser, fs: seq<Frame>, out: seq<byte>, err: seq<byte>): Collected
    decreases |fs|
  {
    if fs == [] then Raised
    else
      var f := fs[0];
      if f.ftype == FRAME_STDOUT then CollectFrames(parse, fs[1..], out + f.payload, err)
      else if f.ftype == FRAME_STDERR then CollectFrames(parse, fs[1..], out, err + f.payload)
      else if f.ftype == FRAME_EXIT then
        var doc := parse(f.payload);
        if doc.Doc? && doc.code.Some? then Result(out, err, doc.code.value, doc.reason) else Raised
      else if f.ftype == FRAME_ERROR then Raised
      else CollectFrames(parse, fs[1..], out, err)
  }

  /** What `_collect_result` returns for a peer that sends `s` and closes. */
  function Collect(parse: Parser, s: seq<byte>): Collected {
    CollectFrames(parse, DecodeAll(GuestCmd, s).frames, [], [])
  }

  /** The drain loop on the bytes still unread. */
  function CollectFrom(parse: Parser, s: seq<byte>, out: seq<byte>, err: seq<byte>): Collected {
    CollectFrames(parse, DecodeAll(GuestCmd, s).frames, out, err)
  }

  lemma CollectStep(parse: Parser, s: seq<byte>, out: seq<byte>, err: seq<byte>)
    ensures CollectFrom(parse, s, out, err) ==
            match DecodeNext(GuestCmd, s)
            case Msg(f, used) =>
              if f.ftype == FRAME_STDOUT then CollectFrom(parse, s[used..], out + f.payload, err)
              else if f.ftype == FRAME_STDERR then CollectFrom(parse, s[used..], out, err + f.payload)
              else if f.ftype == FRAME_EXIT then
                var doc := parse(f.payload);
                if doc.Doc? && doc.code.Some? then Result(out, err, doc.code.value, doc.reason) else Raised
              else if f.ftype == FRAME_ERROR then Raised
              else CollectFrom(parse, s[used..], out, err)
            case _ => Raised
  {
    if DecodeNext(GuestCmd, s).Msg? {
      var Msg(f, used) := DecodeNext(GuestCmd, s);
      var rest := DecodeAll(GuestCmd, s[used..]).frames;
      assert DecodeAll(GuestCmd, s).frames == [f] + rest;
      assert ([f] + rest)[1..] == rest;
      hide DecodeNext, DecodeAll;
    }
  }

  lemma CollectStarts(parse: Parser, s: seq<byte>)
    ensures CollectFrom(parse, s, [], []) == Collect(parse, s)
  {
  }

  /** guest_cmd.py `_collect_result`: one PING per quiet interval, and the outcome a
      function of the bytes alone, however the transport splits them. */
  method CollectResult(sock: Stream, parse: Parser) returns (r: Collected, failed: bool)
    requires sock.Valid()
    modifies sock
    ensures sock.Valid()
    ensures sock.failures == old(sock.failures) + if failed then 1 else 0
    ensures r == if failed then Raised else Collect(parse, old(sock.Rest()))
    ensures sock.pings - old(sock.pings) == old(sock.lapses) - sock.lapses
  {
    hide CollectFrom, DecodeNext;
    CollectStarts(parse, sock.Rest());
    failed := false;
    var stdout: seq<byte> := [];
    var stderr: seq<byte> := [];
    while true
      invariant sock.Valid() && sock.failures == old(sock.failures)
      invariant CollectFrom(parse, sock.Rest(), stdout, stderr) == Collect(parse, old(sock.Rest()))
      invariant sock.pings - old(sock.pings) == old(sock.lapses) - sock.lapses
      decreases sock.lapses, |sock.Rest()|
    {
      var readable := sock.Select();
      if !readable {
        sock.pings := sock.pings + 1;
        continue;
      }
      ghost var rest := sock.Rest();
      CollectStep(parse, rest, stdout, stderr);
      var frame := ReadFrameGuestCmd(sock);
      if frame.IoError? {
        return Raised, true;
      }
      if !frame.d.Msg? {
        return Raised, false;
      }
      var Frame(ftype, payload) := frame.d.frame;
      if ftype == FRAME_STDOUT {
        stdout := stdout + payload;
      } else if ftype == FRAME_STDERR {
        stderr := stderr + payload;
      } else if ftype == FRAME_EXIT {
        var doc := parse(payload);
        if !(doc.Doc? && doc.code.Some?) {
          return Raised, false;
        }
        return Result(stdout, stderr, doc.code.value, doc.reason), false;
      } else if ftype == FRAME_ERROR {
        return Raised, false;
      }
    }
  }

  /** The frames up to and including the first EXIT or ERROR. */
  function UntilTerminal(fs: seq<Frame>): (r: seq<Frame>)
    ensures r <= fs
  {
    if fs == [] then []
    else if fs[0].ftype == FRAME_EXIT || fs[0].ftype == FRAME_ERROR then [fs[0]]
    else [fs[0]] + UntilTerminal(fs[1..])
  }

  lemma StreamOfStep(fs: seq<Frame>, t: byte, before: seq<byte>)
    requires fs != []
    ensures before + StreamOf(fs, t) ==
            (if fs[0].ftype == t then before + fs[0].payload else before) + StreamOf(fs[1..], t)
  {
    var rest := StreamOf(fs[1..], t);
    assert before + (fs[0].payload + rest) == before + fs[0].payload + rest;
    assert [] + rest == rest;
  }

  /** A result is returned only for a well-formed EXIT, and then carries exactly the
      STDOUT and STDERR payloads before it. */
  lemma {:induction false} CollectMeaning(parse: Parser, fs: seq<Frame>, out: seq<byte>, err: seq<byte>)
    ensures var r := CollectFrames(parse, fs, out, err);
            var u := UntilTerminal(fs);
            && (r.Result? <==> u != [] && u[|u| - 1].ftype == FRAME_EXIT &&
                               parse(u[|u| - 1].payload).Doc? && parse(u[|u| - 1].payload).code.Some?)
            && (r.Result? ==> r.stdout == out + StreamOf(u, FRAME_STDOUT) &&
                              r.stderr == err + StreamOf(u, FRAME_STDERR) &&
                              Doc(Some(r.code), r.reason) == parse(u[|u| - 1].payload))
    decreases |fs|
  {
    if fs != [] {
      var f, u := fs[0], UntilTerminal(fs);
      if f.ftype == FRAME_EXIT || f.ftype == FRAME_ERROR {
        assert u[1..] == [];
        assert out + [] == out && err + [] == err;
      } else {
        var o := if f.ftype == FRAME_STDOUT then out + f.payload else out;
        var e := if f.ftype == FRAME_STDERR then err + f.payload else err;
        CollectMeaning(parse, fs[1..], o, e);
        var t := UntilTerminal(fs[1..]);
        assert u[1..] == t;
        assert t != [] ==> u[|u| - 1] == t[|t| - 1];
        hide CollectFrames, UntilTerminal;
        StreamOfStep(u, FRAME_STDOUT, out);
        StreamOfStep(u, FRAME_STDERR, err);
      }
    }
  }
}
