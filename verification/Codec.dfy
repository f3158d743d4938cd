/** The wire format of src/frame.rs, guest_cmd.py and ssh_gateway.py: one frame is
    `[type: u8][len: u32 big-endian][payload]`.  The three implementations share the
    encoding; they differ in the payload cap and in what they make of an EOF inside
    the five header bytes. */
module Codec {
  import opened Wrappers

  type byte = b: int | 0 <= b < 256

  const FRAME_REQUEST: byte := 1
  const FRAME_STDIN: byte := 2
  const FRAME_STDIN_EOF: byte := 3
  const FRAME_PING: byte := 4
  const FRAME_RESIZE: byte := 5
  const FRAME_STDOUT: byte := 16
  const FRAME_STDERR: byte := 17
  const FRAME_EXIT: byte := 18
  const FRAME_ERROR: byte := 19

  const HEADER_LEN := 5
  const MAX_FRAME_LEN := 16 * 1024 * 1024
  const DEFAULT_MAX_INBOUND_FRAME_LEN := 1024 * 1024
  const MIN_INBOUND_FRAME_LEN := 64 * 1024
  const U32 := 0x1_0000_0000

  datatype Frame = Frame(ftype: byte, payload: seq<byte>)

  // ---------------------------------------------------------------- encoding

  function BigEndian(n: nat): (h: seq<byte>)
    requires n < U32
    ensures |h| == 4
  {
    [n / 0x100_0000, n / 0x1_0000 % 0x100, n / 0x100 % 0x100, n % 0x100]
  }

  function FromBigEndian(h: seq<byte>): (n: nat)
    requires |h| == 4
    ensures n < U32
  {
    (((h[0] as int) * 0x100 + h[1] as int) * 0x100 + h[2] as int) * 0x100 + h[3] as int
  }

  lemma BigEndianInverse(n: nat)
    requires n < U32
    ensures FromBigEndian(BigEndian(n)) == n
  {
    var a, b, c := n / 0x100, n / 0x1_0000, n / 0x100_0000;
    assert a / 0x100 == b && b / 0x100 == c;
    assert a == b * 0x100 + a % 0x100 && b == c * 0x100 + b % 0x100;
  }

  /** The bytes of a frame.  The length goes through an `as u32` cast, so an
      oversized payload would truncate here; the writers below guard against it. */
  function Encode(f: Frame): (s: seq<byte>)
    ensures |s| == HEADER_LEN + |f.payload|
  {
    [f.ftype] + BigEndian(|f.payload| % U32) + f.payload
  }

  function EncodeAll(fs: seq<Frame>): seq<byte> {
    if fs == [] then [] else Encode(fs[0]) + EncodeAll(fs[1..])
  }

  lemma EncodeAllCons(f: Frame, fs: seq<Frame>)
    ensures EncodeAll([f] + fs) == Encode(f) + EncodeAll(fs)
  {
    assert ([f] + fs)[1..] == fs;
  }

  lemma {:induction false} EncodeAllAppend(a: seq<Frame>, b: seq<Frame>)
    ensures EncodeAll(a + b) == EncodeAll(a) + EncodeAll(b)
  {
    if a == [] {
      assert a + b == b;
    } else {
      assert (a + b)[1..] == a[1..] + b;
      EncodeAllAppend(a[1..], b);
    }
  }

  lemma EncodeAllSnoc(a: seq<Frame>, f: Frame)
    ensures EncodeAll(a + [f]) == EncodeAll(a) + Encode(f)
  {
    EncodeAllAppend(a, [f]);
    assert EncodeAll([f]) == Encode(f) + EncodeAll([]);
  }

  datatype WriterKind = RustWriter | GuestCmdWriter | SshWriter

  /** What each `write_frame` puts on the wire; `None` is the raised error.  Rust and
      the SSH gateway refuse a payload over MAX_FRAME_LEN, guest_cmd.py only one that
      `struct.pack(">I")` cannot express. */
  function WriteFrame(w: WriterKind, f: Frame): Option<seq<byte>> {
    match w
    case RustWriter => if |f.payload| > MAX_FRAME_LEN then None else Some(Encode(f))
    case SshWriter => if |f.payload| > MAX_FRAME_LEN then None else Some(Encode(f))
    case GuestCmdWriter => if |f.payload| >= U32 then None else Some(Encode(f))
  }

  // ---------------------------------------------------------------- decoding

  datatype Dialect = RustAgent(cap: nat) | GuestCmd | SshGateway {
    function Cap(): nat {
      match this
      case RustAgent(cap) => cap
      case _ => MAX_FRAME_LEN
    }

    /** guest_cmd.py raises on an EOF after 1..4 header bytes; the other two report
        a closed peer. */
    predicate StrictHeader() { GuestCmd? }
  }

  datatype Fault = Oversize | ShortHeader | ShortPayload

  datatype Decoded =
    | Msg(frame: Frame, used: nat)
    | Closed
    | Bad(fault: Fault)

  /** What one `read_frame` makes of a peer that sends exactly `s` and then closes. */
  function DecodeNext(d: Dialect, s: seq<byte>): (r: Decoded)
    ensures r.Msg? ==> HEADER_LEN <= r.used <= |s|
  {
    if |s| < HEADER_LEN then
      if s == [] || !d.StrictHeader() then Closed else Bad(ShortHeader)
    else
      var len := FromBigEndian(s[1..5]);
      if len > d.Cap() then Bad(Oversize)
      else if |s| < HEADER_LEN + len then Bad(ShortPayload)
      else Msg(Frame(s[0], s[HEADER_LEN..HEADER_LEN + len]), HEADER_LEN + len)
  }

  /** The frames returned by repeated reads, and how the last read ended. */
  datatype Reads = Reads(frames: seq<Frame>, last: Decoded)

  function DecodeAll(d: Dialect, s: seq<byte>): (r: Reads)
    decreases |s|
  {
    match DecodeNext(d, s)
    case Msg(f, used) =>
      var rest := DecodeAll(d, s[used..]);
      Reads([f] + rest.frames, rest.last)
    case other => Reads([], other)
  }

  predicate FitsAll(cap: nat, fs: seq<Frame>) {
    forall i :: 0 <= i < |fs| ==> |fs[i].payload| <= cap
  }

  predicate Sane(d: Dialect) { d.Cap() <= MAX_FRAME_LEN }

  /** The three parts of an encoded frame, with the length as a reader sees it. */
  lemma EncodedParts(f: Frame)
    requires |f.payload| < U32
    ensures Encode(f)[0] == f.ftype
    ensures FromBigEndian(Encode(f)[1..5]) == |f.payload|
    ensures Encode(f)[5..] == f.payload
  {
    assert |f.payload| % U32 == |f.payload|;
    var h := BigEndian(|f.payload|);
    assert Encode(f) == [f.ftype] + h + f.payload;
    assert Encode(f)[1..5] == h;
    BigEndianInverse(|f.payload|);
  }

  /** The number four header bytes spell, most significant first. */
  function Spelled(s: seq<byte>): nat
    requires |s| >= HEADER_LEN
  {
    s[1] as int * 0x100_0000 + s[2] as int * 0x1_0000 + s[3] as int * 0x100 + s[4] as int
  }

  /** The frame on the wire: its type, its length in network byte order, its payload. */
  lemma WireLayout(f: Frame)
    requires |f.payload| < U32
    ensures var e := Encode(f);
            e[0] == f.ftype && Spelled(e) == |f.payload| && e[HEADER_LEN..] == f.payload
  {
    EncodedParts(f);
    var e := Encode(f);
    var h := e[1..5];
    assert h[0] == e[1] && h[1] == e[2] && h[2] == e[3] && h[3] == e[4];
    Positional(h[0] as int, h[1] as int, h[2] as int, h[3] as int);
  }

  lemma Positional(a: nat, b: nat, c: nat, d: nat)
    ensures ((a * 0x100 + b) * 0x100 + c) * 0x100 + d == a * 0x100_0000 + b * 0x1_0000 + c * 0x100 + d
  {
  }

  /** What each reader accepts and refuses, in the terms of the wire: the agent's limit is
      its configured cap, the hosts' is MAX_FRAME_LEN. */
  lemma ReaderLimits(d: Dialect, s: seq<byte>)
    ensures |s| < HEADER_LEN ==>
              DecodeNext(d, s) == if d.GuestCmd? && s != [] then Bad(ShortHeader) else Closed
    ensures |s| >= HEADER_LEN ==>
              var len, limit := Spelled(s), if d.RustAgent? then d.cap else 16 * 1024 * 1024;
              && (DecodeNext(d, s) == Bad(Oversize) <==> len > limit)
              && (DecodeNext(d, s) == Bad(ShortPayload) <==> len <= limit && |s| < 5 + len)
              && (DecodeNext(d, s).Msg? <==> len <= limit && |s| >= 5 + len)
              && (DecodeNext(d, s).Msg? ==> DecodeNext(d, s) == Msg(Frame(s[0], s[5..5 + len]), 5 + len))
  {
    if |s| >= HEADER_LEN {
      var h := s[1..5];
      assert h[0] == s[1] && h[1] == s[2] && h[2] == s[3] && h[3] == s[4];
      Positional(h[0] as int, h[1] as int, h[2] as int, h[3] as int);
    }
  }

  /** Decoding inverts encoding in front of any further bytes. */
  lemma DecodeEncoded(d: Dialect, f: Frame, rest: seq<byte>)
    requires Sane(d) && |f.payload| <= d.Cap()
    ensures DecodeNext(d, Encode(f) + rest) == Msg(f, |Encode(f)|)
  {
    var e := Encode(f);
    EncodedParts(f);
    assert (e + rest)[1..5] == e[1..5];
    assert (e + rest)[5..5 + |f.payload|] == e[5..];
  }

  /** A proper prefix of an encoded frame decodes to nothing. */
  lemma DecodeTruncated(d: Dialect, f: Frame, s: seq<byte>)
    requires Sane(d) && |f.payload| <= d.Cap()
    requires s < Encode(f)
    ensures !DecodeNext(d, s).Msg? && DecodeNext(d, s) != Bad(Oversize)
  {
    EncodedParts(f);
    if |s| >= HEADER_LEN {
      assert s[1..5] == Encode(f)[1..5];
    }
  }

  /** Any frame list within the cap comes back exactly, ending in a clean close. */
  lemma {:induction false} StreamRoundTrip(d: Dialect, fs: seq<Frame>)
    requires Sane(d) && FitsAll(d.Cap(), fs)
    ensures DecodeAll(d, EncodeAll(fs)) == Reads(fs, Closed)
  {
    if fs != [] {
      var s := EncodeAll(fs);
      DecodeEncoded(d, fs[0], EncodeAll(fs[1..]));
      assert s[|Encode(fs[0])|..] == EncodeAll(fs[1..]);
      StreamRoundTrip(d, fs[1..]);
    }
  }

  /** The bytes left unread when the reads stop. */
  function Residue(d: Dialect, s: seq<byte>): seq<byte>
    decreases |s|
  {
    match DecodeNext(d, s)
    case Msg(_, used) => Residue(d, s[used..])
    case _ => s
  }

  lemma BigEndianUnique(h: seq<byte>)
    requires |h| == 4
    ensures BigEndian(FromBigEndian(h)) == h
  {
    var n := FromBigEndian(h);
    var a, b, c: int := h[0] as int, h[1] as int, h[2] as int;
    assert n / 0x100 == (a * 0x100 + b) * 0x100 + c;
    assert n / 0x1_0000 == a * 0x100 + b;
    assert n / 0x100_0000 == a;
  }

  lemma EncodeParts(t: byte, h: seq<byte>, payload: seq<byte>)
    requires |h| == 4 && FromBigEndian(h) == |payload|
    ensures Encode(Frame(t, payload)) == [t] + h + payload
  {
    BigEndianUnique(h);
    assert |payload| % U32 == |payload|;
  }

  /** A decoded frame is exactly the bytes consumed, and within the cap. */
  lemma DecodedIsEncoded(d: Dialect, s: seq<byte>)
    requires DecodeNext(d, s).Msg?
    ensures var m := DecodeNext(d, s);
            Encode(m.frame) == s[..m.used] && |m.frame.payload| <= d.Cap()
  {
    var h, used := s[1..5], DecodeNext(d, s).used;
    var payload := s[5..used];
    EncodeParts(s[0], h, payload);
    assert s[..used] == [s[0]] + h + payload;
  }

  /** Every decode starts on a frame boundary, for arbitrary input: the bytes read
      are the encoding of the frames returned, and the reads stop with a clean close
      exactly when what is left is empty (guest_cmd.py) or shorter than a header
      (the agent and the SSH gateway). */
  lemma {:induction false} StreamSync(d: Dialect, s: seq<byte>)
    ensures s == EncodeAll(DecodeAll(d, s).frames) + Residue(d, s)
    ensures FitsAll(d.Cap(), DecodeAll(d, s).frames)
    ensures DecodeAll(d, s).last == Closed <==>
            if d.StrictHeader() then Residue(d, s) == [] else |Residue(d, s)| < HEADER_LEN
    decreases |s|
  {
    match DecodeNext(d, s) {
      case Msg(f, used) =>
        StreamSync(d, s[used..]);
        SyncStep(d, s);
      case _ =>
        assert [] + s == s;
    }
  }

  lemma SyncStep(d: Dialect, s: seq<byte>)
    requires DecodeNext(d, s).Msg?
    requires var rest := s[DecodeNext(d, s).used..];
             rest == EncodeAll(DecodeAll(d, rest).frames) + Residue(d, rest)
    ensures s == EncodeAll(DecodeAll(d, s).frames) + Residue(d, s)
    ensures |DecodeNext(d, s).frame.payload| <= d.Cap()
  {
    var Msg(f, used) := DecodeNext(d, s);
    var rest := s[used..];
    var frames := DecodeAll(d, rest).frames;
    DecodedIsEncoded(d, s);
    EncodeAllCons(f, frames);
    Regroup(s, used, EncodeAll(frames), Residue(d, rest));
  }

  lemma Regroup(s: seq<byte>, used: nat, mid: seq<byte>, tail: seq<byte>)
    requires used <= |s| && s[used..] == mid + tail
    ensures s == (s[..used] + mid) + tail
  {
    assert s == s[..used] + s[used..];
  }

  /** A frame over the reader's cap is refused from its header alone, and nothing after
      it is read. */
  lemma DecodeTooBig(d: Dialect, f: Frame, s: seq<byte>, rest: seq<byte>)
    requires Sane(d) && d.Cap() < |f.payload| < U32
    requires s <= Encode(f) + rest
    ensures DecodeAll(d, s).frames == []
    ensures |s| >= HEADER_LEN ==> DecodeAll(d, s).last == Bad(Oversize)
  {
    EncodedParts(f);
    if |s| >= HEADER_LEN {
      assert (Encode(f) + rest)[1..5] == Encode(f)[1..5];
      assert s[1..5] == Encode(f)[1..5];
    }
  }

  lemma WholeFrame(d: Dialect, fs: seq<Frame>, s: seq<byte>)
    requires Sane(d) && fs != [] && |fs[0].payload| <= d.Cap()
    requires s <= EncodeAll(fs) && |s| >= |Encode(fs[0])|
    ensures DecodeNext(d, s) == Msg(fs[0], |Encode(fs[0])|)
    ensures s[|Encode(fs[0])|..] <= EncodeAll(fs[1..])
  {
    var e := Encode(fs[0]);
    var rest := s[|e|..];
    assert s == e + rest;
    DecodeEncoded(d, fs[0], rest);
    assert EncodeAll(fs)[|e|..] == EncodeAll(fs[1..]);
  }

  /** Truncating an encoded stream anywhere only removes frames from the end. */
  lemma {:induction false} DecodePrefix(d: Dialect, fs: seq<Frame>, s: seq<byte>)
    requires Sane(d) && FitsAll(MAX_FRAME_LEN, fs)
    requires s <= EncodeAll(fs)
    ensures DecodeAll(d, s).frames <= fs
    ensures FitsAll(d.Cap(), fs) ==> DecodeAll(d, s).last != Bad(Oversize)
  {
    if fs != [] {
      var e := Encode(fs[0]);
      if |fs[0].payload| > d.Cap() {
        DecodeTooBig(d, fs[0], s, EncodeAll(fs[1..]));
      } else if |s| >= |e| {
        WholeFrame(d, fs, s);
        hide Encode, EncodeAll, DecodeNext;
        DecodePrefix(d, fs[1..], s[|e|..]);
      } else {
        assert s < e;
        DecodeTruncated(d, fs[0], s);
      }
    }
  }

  /** More bytes only add frames: nothing already returned is revised. */
  lemma {:induction false} DecodeMonotone(d: Dialect, s: seq<byte>, t: seq<byte>)
    requires Sane(d)
    ensures DecodeAll(d, s).frames <= DecodeAll(d, s + t).frames
    decreases |s|
  {
    match DecodeNext(d, s) {
      case Msg(f, used) =>
        NextMonotone(d, s, t);
        DecodeMonotone(d, s[used..], t);
        hide DecodeNext;
      case _ =>
    }
  }

  lemma NextMonotone(d: Dialect, s: seq<byte>, t: seq<byte>)
    requires DecodeNext(d, s).Msg?
    ensures var used := DecodeNext(d, s).used;
            DecodeNext(d, s + t) == DecodeNext(d, s) && (s + t)[used..] == s[used..] + t
  {
    var used := DecodeNext(d, s).used;
    assert (s + t)[1..5] == s[1..5];
    assert (s + t)[5..used] == s[5..used];
  }

  /** The three writers emit identical bytes up to MAX_FRAME_LEN, whatever they emit
      is decoded by every reader whose cap admits it and refused by the others, and
      the guarded writers refuse exactly what no reader could take back. */
  lemma WritersAgree(w: WriterKind, d: Dialect, f: Frame)
    requires Sane(d)
    ensures |f.payload| <= MAX_FRAME_LEN ==> WriteFrame(w, f) == Some(Encode(f))
    ensures WriteFrame(w, f).Some? ==>
              DecodeAll(d, WriteFrame(w, f).value) ==
              if |f.payload| <= d.Cap() then Reads([f], Closed) else Reads([], Bad(Oversize))
    ensures w.GuestCmdWriter? ==> (WriteFrame(w, f).Some? <==> |f.payload| < U32)
    ensures !w.GuestCmdWriter? ==>
              (WriteFrame(w, f).Some? <==> DecodeAll(GuestCmd, Encode(f)).frames == [f])
  {
    assert EncodeAll([f]) == Encode(f) + EncodeAll([]) == Encode(f);
    if |f.payload| <= MAX_FRAME_LEN {
      StreamRoundTrip(GuestCmd, [f]);
    } else {
      StreamSync(GuestCmd, Encode(f));
      assert [f][0] == f;
    }
    if |f.payload| <= d.Cap() {
      StreamRoundTrip(d, [f]);
    } else if |f.payload| < U32 {
      assert Encode(f) + [] == Encode(f);
      DecodeTooBig(d, f, Encode(f), []);
    }
  }

  // ------------------------------------------------- the payloads of one stream

  function StreamOf(fs: seq<Frame>, t: byte): seq<byte> {
    if fs == [] then []
    else (if fs[0].ftype == t then fs[0].payload else []) + StreamOf(fs[1..], t)
  }

  lemma {:induction false} StreamOfAppend(a: seq<Frame>, b: seq<Frame>, t: byte)
    ensures StreamOf(a + b, t) == StreamOf(a, t) + StreamOf(b, t)
  {
    if a == [] {
      assert a + b == b;
    } else {
      assert (a + b)[1..] == a[1..] + b;
      StreamOfAppend(a[1..], b, t);
    }
  }

  lemma StreamOfSnoc(a: seq<Frame>, f: Frame, t: byte)
    ensures StreamOf(a + [f], t) == StreamOf(a, t) + if f.ftype == t then f.payload else []
  {
    StreamOfAppend(a, [f], t);
    assert StreamOf([f], t) == (if f.ftype == t then f.payload else []) + StreamOf([], t);
  }

  lemma StreamOfPrefix(a: seq<Frame>, fs: seq<Frame>, t: byte)
    requires a <= fs
    ensures StreamOf(a, t) <= StreamOf(fs, t)
  {
    assert fs == a + fs[|a|..];
    StreamOfAppend(a, fs[|a|..], t);
  }

  // ---------------------------------------------------------- the inbound cap

  function Clamp(v: nat): (c: nat)
    ensures MIN_INBOUND_FRAME_LEN <= c <= MAX_FRAME_LEN
  {
    if v < MIN_INBOUND_FRAME_LEN then MIN_INBOUND_FRAME_LEN
    else if v > MAX_FRAME_LEN then MAX_FRAME_LEN
    else v
  }

  function Distance(a: nat, b: nat): nat { if a < b then b - a else a - b }

  /** No admissible cap is closer to the one asked for, and an admissible one is kept. */
  lemma ClampIsNearest(v: nat, c: nat)
    requires MIN_INBOUND_FRAME_LEN <= c <= MAX_FRAME_LEN
    ensures Distance(Clamp(v), v) <= Distance(c, v)
    ensures Distance(Clamp(v), v) == Distance(c, v) ==> c == Clamp(v)
    ensures Sane(RustAgent(Clamp(v)))
  {
  }

  /** The process-wide cap that `set_max_inbound_frame_len` stores to. */
  class InboundCap {
    var cap: nat

    predicate Valid()
      reads this
    {
      MIN_INBOUND_FRAME_LEN <= cap <= MAX_FRAME_LEN
    }

    constructor ()
      ensures Valid() && cap == DEFAULT_MAX_INBOUND_FRAME_LEN
    {
      cap := DEFAULT_MAX_INBOUND_FRAME_LEN;
    }

    method Set(v: nat)
      modifies this
      ensures Valid() && cap == Clamp(v)
    {
      cap := Clamp(v);
    }
  }
}
