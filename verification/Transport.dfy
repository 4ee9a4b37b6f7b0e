/**
 The connected launch transport: a frame is one tag byte carrying at most one
 descriptor, a big-endian length and that many body bytes. `Channel` charges
 every frame to session-wide byte, frame and time budgets and latches the first failure.
 */
module Transport {
  import opened Bytes

  const MAX_EVENT_BYTES := 32 * 1024
  const MAX_SESSION_BYTES := 256 * 1024
  const MAX_OPERATIONS := 16
  const MAX_FRAMES := MAX_OPERATIONS * 8
  const TOTAL_IO_TIME := 5_000_000_000  // nanoseconds

  /** One stream byte with the ancillary data delivered on it. */
  datatype WireByte = WireByte(value: byte, rights: nat, unsupported: bool)

  datatype Frame = Frame(body: Bytes, descriptor: bool)

  predicate Sendable(body: Bytes) {
    0 < |body| <= MAX_EVENT_BYTES
  }

  function Plain(b: Bytes): (r: seq<WireByte>)
    ensures |r| == |b|
  {
    seq(|b|, i requires 0 <= i < |b| => WireByte(b[i], 0, false))
  }

  function Values(s: seq<WireByte>): (r: Bytes)
    ensures |r| == |s|
  {
    seq(|s|, i requires 0 <= i < |s| => s[i].value)
  }

  predicate Bare(s: seq<WireByte>) {
    forall i :: 0 <= i < |s| ==> s[i].rights == 0 && !s[i].unsupported
  }

  function Tag(descriptor: bool): WireByte {
    if descriptor then WireByte(1, 1, false) else WireByte(0, 0, false)
  }

  function EncodeFrame(f: Frame): (r: seq<WireByte>)
    requires Sendable(f.body)
    ensures |r| == 5 + |f.body|
  {
    [Tag(f.descriptor)] + Plain(BigEndian32(|f.body|)) + Plain(f.body)
  }

  /** What the reader makes of a stream: the leading frame and its length, or rejection. */
  function DecodeFrame(s: seq<WireByte>): (r: Option<(Frame, nat)>)
    ensures r.Some? ==> 5 < r.value.1 <= |s| && r.value.1 == 5 + |r.value.0.body|
  {
    if |s| < 1 || s[0].unsupported || s[0].value > 1 || s[0].rights != s[0].value then None
    else if |s| < 5 || !Bare(s[1..5]) then None
    else
      var length := FromBigEndian32(Values(s[1..5]));
      if length == 0 || length > MAX_EVENT_BYTES then None
      else if |s| < 5 + length || !Bare(s[5..5 + length]) then None
      else Some((Frame(Values(s[5..5 + length]), s[0].value == 1), 5 + length))
  }

  lemma PlainValues(s: seq<WireByte>)
    requires Bare(s)
    ensures Plain(Values(s)) == s
  {
  }

  lemma FrameRoundTrip(f: Frame, rest: seq<WireByte>)
    requires Sendable(f.body)
    ensures DecodeFrame(EncodeFrame(f) + rest) == Some((f, 5 + |f.body|))
  {
    var s := EncodeFrame(f) + rest;
    assert s[1..5] == Plain(BigEndian32(|f.body|));
    assert Values(Plain(BigEndian32(|f.body|))) == BigEndian32(|f.body|);
    BigEndianRoundTrip(|f.body|);
    assert s[5..5 + |f.body|] == Plain(f.body);
    assert Values(Plain(f.body)) == f.body;
  }

  lemma PrefixDecodes(f: Frame, s: seq<WireByte>)
    requires Sendable(f.body) && EncodeFrame(f) <= s
    ensures DecodeFrame(s) == Some((f, 5 + |f.body|))
  {
    hide DecodeFrame, EncodeFrame, Sendable;
    assert s == EncodeFrame(f) + s[|EncodeFrame(f)|..];
    FrameRoundTrip(f, s[|EncodeFrame(f)|..]);
  }

  /** Every accepted prefix is the one encoding of the frame it decodes to. */
  lemma FrameCanonical(s: seq<WireByte>)
    requires DecodeFrame(s).Some?
    ensures var (f, n) := DecodeFrame(s).value;
            Sendable(f.body) && s[..n] == EncodeFrame(f)
  {
    var (f, n) := DecodeFrame(s).value;
    PlainValues(s[1..5]);
    PlainValues(s[5..n]);
    BigEndianCanonical(Values(s[1..5]));
    assert s[..n] == [s[0]] + s[1..5] + s[5..n];
  }

  predicate AllSendable(fs: seq<Frame>) {
    forall i :: 0 <= i < |fs| ==> Sendable(fs[i].body)
  }

  function EncodeAll(fs: seq<Frame>): seq<WireByte>
    requires AllSendable(fs)
  {
    if fs == [] then [] else EncodeAll(fs[..|fs| - 1]) + EncodeFrame(fs[|fs| - 1])
  }

  function DecodeAll(s: seq<WireByte>): (seq<Frame>, seq<WireByte>)
    decreases |s|
  {
    match DecodeFrame(s)
    case None => ([], s)
    case Some((f, n)) =>
      var (fs, rest) := DecodeAll(s[n..]);
      ([f] + fs, rest)
  }

  lemma {:induction false} EncodeAllCons(f: Frame, fs: seq<Frame>)
    requires Sendable(f.body) && AllSendable(fs)
    ensures EncodeAll([f] + fs) == EncodeFrame(f) + EncodeAll(fs)
  {
    hide EncodeFrame, Sendable;
    if fs == [] {
      assert ([f] + fs)[..0] == [];
      assert EncodeAll([f] + fs) == EncodeAll([]) + EncodeFrame(f);
    } else {
      var front := fs[..|fs| - 1];
      EncodeAllCons(f, front);
      assert ([f] + fs)[..|fs|] == [f] + front;
    }
  }

  /**
   Any run of frames followed by a tail that starts no whole frame decodes to
   exactly those frames: frame boundaries cannot be confused by their contents.
   */
  lemma {:induction false} StreamRoundTrip(fs: seq<Frame>, tail: seq<WireByte>)
    requires AllSendable(fs) && DecodeFrame(tail).None?
    ensures DecodeAll(EncodeAll(fs) + tail) == (fs, tail)
    decreases |fs|
  {
    if fs == [] {
      assert EncodeAll(fs) + tail == tail;
    } else {
      var f, more := fs[0], fs[1..];
      assert fs == [f] + more;
      EncodeAllCons(f, more);
      var s := EncodeAll(fs) + tail;
      assert s == EncodeFrame(f) + (EncodeAll(more) + tail);
      FrameRoundTrip(f, EncodeAll(more) + tail);
      assert s[5 + |f.body|..] == EncodeAll(more) + tail;
      StreamRoundTrip(more, tail);
    }
  }

  /** A frame cut anywhere before its end is not mistaken for a whole frame. */
  lemma TornFrameUnreadable(f: Frame, n: nat)
    requires Sendable(f.body) && n < 5 + |f.body|
    ensures DecodeFrame(EncodeFrame(f)[..n]).None?
  {
    if n >= 5 {
      var s, whole := EncodeFrame(f)[..n], EncodeFrame(f);
      assert s[1..5] == whole[1..5] == Plain(BigEndian32(|f.body|));
      assert Values(Plain(BigEndian32(|f.body|))) == BigEndian32(|f.body|);
      BigEndianRoundTrip(|f.body|);
    }
  }

  /** The wire holds exactly these frames, and behind them at most a part of one more, left by a failure. */
  predicate Carries(fs: seq<Frame>, wire: seq<WireByte>, failed: bool) {
    && AllSendable(fs) && EncodeAll(fs) <= wire && DecodeFrame(wire[|EncodeAll(fs)|..]).None?
    && (!failed ==> wire == EncodeAll(fs))
  }

  lemma CarriesMore(fs: seq<Frame>, wire: seq<WireByte>, f: Frame, failed: bool)
    requires Carries(fs, wire, false) && Sendable(f.body)
    ensures Carries(fs + [f], wire + EncodeFrame(f), failed)
  {
    hide EncodeFrame, Sendable;
    assert (fs + [f])[..|fs|] == fs;
    assert (wire + EncodeFrame(f))[|EncodeAll(fs + [f])|..] == [];
  }

  lemma CarriesTorn(fs: seq<Frame>, wire: seq<WireByte>, f: Frame, n: nat)
    requires Carries(fs, wire, false) && Sendable(f.body) && n < |EncodeFrame(f)|
    ensures Carries(fs, wire + EncodeFrame(f)[..n], true)
  {
    hide EncodeFrame, EncodeAll, Sendable;
    assert (wire + EncodeFrame(f)[..n])[|EncodeAll(fs)|..] == EncodeFrame(f)[..n];
    TornFrameUnreadable(f, n);
  }

  lemma CarriesFailed(fs: seq<Frame>, wire: seq<WireByte>, failed: bool)
    requires Carries(fs, wire, failed)
    ensures Carries(fs, wire, true)
  {
  }

  // ----- the channel as a state machine -----

  datatype ChannelState = ChannelState(
    bytes: nat, frames: nat, remaining: nat, failed: bool,
    /* every byte handed to the peer so far */ wire: seq<WireByte>)
  {
    predicate Within() {
      bytes <= MAX_SESSION_BYTES && frames <= MAX_FRAMES && remaining <= TOTAL_IO_TIME
    }

    predicate Open() {
      !failed && remaining > 0
    }

    predicate Affords(count: nat, frame: bool) {
      bytes + count <= MAX_SESSION_BYTES && (frame ==> frames < MAX_FRAMES)
    }

    function Charge(count: nat, frame: bool): ChannelState {
      this.(bytes := bytes + count, frames := frames + if frame then 1 else 0)
    }

    /** The shared epilogue of `send` and `receive`. */
    function Finish(elapsed: nat, ok: bool): ChannelState {
      this.(remaining := if elapsed <= remaining then remaining - elapsed else 0,
      failed := failed || !ok)
    }
  }

  const FreshChannel := ChannelState(0, 0, TOTAL_IO_TIME, false, [])

  datatype Delivery = Unsent | Torn | Sent

  /** The operating system's part in one send: time used and bytes it accepted. */
  datatype SendIo = SendIo(elapsed: nat, accepted: nat)

  function SendStep(c: ChannelState, f: Frame, io: SendIo): (r: (ChannelState, Delivery))
    ensures r.1.Sent? ==> Sendable(f.body)
  {
    if !c.Open() || !Sendable(f.body) || !c.Affords(|f.body| + 5, true) then
      (c.Finish(io.elapsed, false), Unsent)
    else
      var d := c.Charge(|f.body| + 5, true);
      if io.accepted < |f.body| + 5 then
        (d.(wire := d.wire + EncodeFrame(f)[..io.accepted]).Finish(io.elapsed, false), Torn)
      else
        (d.(wire := d.wire + EncodeFrame(f)).Finish(io.elapsed, true), Sent)
  }

  /** The peer's part in one receive: the bytes it yields before a close, an error or the deadline. */
  datatype ReceiveIo = ReceiveIo(elapsed: nat, stream: seq<WireByte>)

  /** The length announced by a stream whose first five bytes are acceptable. */
  function AnnouncedLength(s: seq<WireByte>): (r: Option<nat>)
    ensures r.Some? ==> 0 < r.value <= MAX_EVENT_BYTES && |s| >= 5
  {
    if |s| < 5 || s[0].unsupported || s[0].value > 1 || s[0].rights != s[0].value || !Bare(s[1..5]) then None
    else
      var length := FromBigEndian32(Values(s[1..5]));
      if length == 0 || length > MAX_EVENT_BYTES then None else Some(length)
  }

  /** The receive up to its shared epilogue. */
  function Received(c: ChannelState, stream: seq<WireByte>): (r: (ChannelState, Option<Frame>))
    ensures r.1.Some? ==> 5 + |r.1.value.body| <= |stream|
  {
    if !c.Open() || !c.Affords(5, true) then (c, None)
    else
      var d := c.Charge(5, true);
      match AnnouncedLength(stream)
      case None => (d, None)
      case Some(length) =>
        if !d.Affords(length, false) then (d, None)
        else
          match DecodeFrame(stream)
          case None => (d.Charge(length, false), None)
          case Some((f, _)) => (d.Charge(length, false), Some(f))
  }

  function ReceiveStep(c: ChannelState, io: ReceiveIo): (r: (ChannelState, Option<Frame>))
    ensures r.1.Some? ==> 5 + |r.1.value.body| <= |io.stream|
  {
    var (d, got) := Received(c, io.stream);
    (d.Finish(io.elapsed, got.Some?), got)
  }

  /** No call order and no peer or kernel behaviour takes the session past its caps or unlatches a failure. */
  lemma SendKeepsBudgets(c: ChannelState, f: Frame, io: SendIo)
    requires c.Within()
    ensures var (d, sent) := SendStep(c, f, io);
            && d.Within() && d.remaining <= c.remaining && c.bytes <= d.bytes && c.frames <= d.frames
            && (sent.Sent? <==> !d.failed)
            && (c.failed ==> d == c.Finish(io.elapsed, false) && sent.Unsent?)
  {
  }

  lemma ReceiveKeepsBudgets(c: ChannelState, io: ReceiveIo)
    requires c.Within()
    ensures var (d, got) := ReceiveStep(c, io);
            && d.Within() && d.remaining <= c.remaining && c.bytes <= d.bytes && c.frames <= d.frames
            && (got.Some? <==> !d.failed) && d.wire == c.wire
            && (c.failed ==> d == c.Finish(io.elapsed, false))
  {
  }

  /** A receive yields a frame exactly when the peer's stream starts with that frame's encoding and it is affordable. */
  lemma ReceiveExact(c: ChannelState, io: ReceiveIo, f: Frame)
    ensures ReceiveStep(c, io).1 == Some(f) <==>
            && c.Open() && Sendable(f.body) && c.Affords(5 + |f.body|, true)
            && EncodeFrame(f) <= io.stream
  {
    if Sendable(f.body) && EncodeFrame(f) <= io.stream { PrefixDecodes(f, io.stream); }
    if DecodeFrame(io.stream).Some? {
      FrameCanonical(io.stream);
    }
  }

  /** One receive of a run: the time it uses, and how much of the stream the kernel delivers to it. */
  datatype Hearing = Hearing(elapsed: nat, length: nat) {
    function Of(stream: seq<WireByte>): ReceiveIo {
      ReceiveIo(elapsed, if length <= |stream| then stream[..length] else stream)
    }
  }

  /** Receives one after the other on one stream, each taking off its frame: the frames, and what is left. */
  function ReceiveRun(c: ChannelState, stream: seq<WireByte>, hearings: seq<Hearing>)
    : (ChannelState, seq<Frame>, seq<WireByte>)
    decreases |hearings|
  {
    if hearings == [] then (c, [], stream)
    else
      var (d, got) := ReceiveStep(c, hearings[0].Of(stream));
      var left := if got.Some? then stream[5 + |got.value.body|..] else stream;
      var (e, more, rest) := ReceiveRun(d, left, hearings[1..]);
      (e, if got.Some? then [got.value] + more else more, rest)
  }

  lemma FrameThenRest(fs: seq<Frame>, tail: seq<WireByte>)
    requires fs != [] && AllSendable(fs)
    ensures var stream := EncodeAll(fs) + tail;
            EncodeFrame(fs[0]) <= stream && stream[5 + |fs[0].body|..] == EncodeAll(fs[1..]) + tail
  {
    hide EncodeFrame, EncodeAll, Sendable;
    assert fs == [fs[0]] + fs[1..];
    EncodeAllCons(fs[0], fs[1..]);
    var first, rest := EncodeFrame(fs[0]), EncodeAll(fs[1..]);
    assert (first + rest) + tail == first + (rest + tail);
  }

  lemma NoFrames(tail: seq<WireByte>)
    ensures EncodeAll([]) + tail == tail
  {
  }

  /** A run of frames starts with the encoding of its first frame and of no other. */
  lemma StartsWithFirst(f: Frame, fs: seq<Frame>, tail: seq<WireByte>)
    requires AllSendable(fs) && DecodeFrame(tail).None? && Sendable(f.body) && EncodeFrame(f) <= EncodeAll(fs) + tail
    ensures fs != [] && f == fs[0]
  {
    hide DecodeFrame, EncodeFrame, EncodeAll, Sendable;
    var stream := EncodeAll(fs) + tail;
    NoFrames(tail);
    PrefixDecodes(f, stream);
    FrameThenRest(fs, tail);
    PrefixDecodes(fs[0], stream);
  }

  /** What a receive takes from a run of frames is the first of them. */
  lemma ReceivesFirst(c: ChannelState, fs: seq<Frame>, tail: seq<WireByte>, h: Hearing)
    requires AllSendable(fs) && DecodeFrame(tail).None?
    ensures var got := ReceiveStep(c, h.Of(EncodeAll(fs) + tail)).1;
            got.Some? ==> && fs != [] && got.value == fs[0]
                          && (EncodeAll(fs) + tail)[5 + |got.value.body|..] == EncodeAll(fs[1..]) + tail
  {
    hide ReceiveStep, DecodeFrame, EncodeFrame, EncodeAll, Sendable;
    var stream := EncodeAll(fs) + tail;
    var got := ReceiveStep(c, h.Of(stream)).1;
    if got.Some? {
      ReceiveExact(c, h.Of(stream), got.value);
      assert EncodeFrame(got.value) <= stream;
      StartsWithFirst(got.value, fs, tail);
      FrameThenRest(fs, tail);
    }
  }

  /** The frames received and what is left make up the frames sent and the tail behind them. */
  predicate Yields(fs: seq<Frame>, tail: seq<WireByte>, got: seq<Frame>, rest: seq<WireByte>) {
    got <= fs && AllSendable(fs) && EncodeAll(got) + rest == EncodeAll(fs) + tail
  }

  lemma YieldsNothing(fs: seq<Frame>, tail: seq<WireByte>)
    requires AllSendable(fs)
    ensures Yields(fs, tail, [], EncodeAll(fs) + tail)
  {
    hide EncodeFrame, EncodeAll;
    NoFrames(EncodeAll(fs) + tail);
  }

  lemma YieldsFirst(fs: seq<Frame>, more: seq<Frame>, rest: seq<WireByte>, tail: seq<WireByte>)
    requires fs != [] && AllSendable(fs) && Yields(fs[1..], tail, more, rest)
    ensures Yields(fs, tail, [fs[0]] + more, rest)
  {
    hide EncodeFrame, EncodeAll, Sendable;
    assert fs == [fs[0]] + fs[1..];
    EncodeAllCons(fs[0], fs[1..]);
    EncodeAllCons(fs[0], more);
    assert EncodeFrame(fs[0]) + EncodeAll(more) + rest == EncodeFrame(fs[0]) + (EncodeAll(more) + rest);
    assert EncodeFrame(fs[0]) + EncodeAll(fs[1..]) + tail == EncodeFrame(fs[0]) + (EncodeAll(fs[1..]) + tail);
  }

  lemma YieldsAll(fs: seq<Frame>, tail: seq<WireByte>, rest: seq<WireByte>)
    requires Yields(fs, tail, fs, rest)
    ensures rest == tail
  {
    hide EncodeAll;
    assert (EncodeAll(fs) + rest)[|EncodeAll(fs)|..] == rest;
  }

  lemma RunStep(c: ChannelState, stream: seq<WireByte>, hearings: seq<Hearing>)
    requires hearings != []
    ensures var (d, got) := ReceiveStep(c, hearings[0].Of(stream));
            var left := if got.Some? then stream[5 + |got.value.body|..] else stream;
            var (e, more, rest) := ReceiveRun(d, left, hearings[1..]);
            ReceiveRun(c, stream, hearings) == (e, if got.Some? then [got.value] + more else more, rest)
    ensures var (d, got) := ReceiveStep(c, hearings[0].Of(stream));
            (c.failed ==> d.failed) && (got.Some? <==> !d.failed)
  {
  }

  /**
   However the stream is cut into receives, they yield the sender's frames in order and leave the rest, one frame a
   receive until the first failure.
   */
  lemma {:induction false} ReceivedInOrder(c: ChannelState, fs: seq<Frame>, tail: seq<WireByte>, hearings: seq<Hearing>)
    requires AllSendable(fs) && DecodeFrame(tail).None?
    ensures var (d, got, rest) := ReceiveRun(c, EncodeAll(fs) + tail, hearings);
            && Yields(fs, tail, got, rest) && (got == fs ==> rest == tail)
            && (c.failed ==> d.failed && got == []) && (!d.failed ==> |got| == |hearings|)
    decreases |hearings|
  {
    hide DecodeFrame, EncodeAll, Sendable, Yields, ReceiveStep;
    var stream := EncodeAll(fs) + tail;
    if hearings == [] {
      YieldsNothing(fs, tail);
    } else {
      hide ReceiveRun;
      RunStep(c, stream, hearings);
      var (d, got) := ReceiveStep(c, hearings[0].Of(stream));
      if got.Some? {
        ReceivesFirst(c, fs, tail, hearings[0]);
        ReceivedInOrder(d, fs[1..], tail, hearings[1..]);
        var (_, more, rest) := ReceiveRun(d, EncodeAll(fs[1..]) + tail, hearings[1..]);
        YieldsFirst(fs, more, rest, tail);
      } else {
        ReceivedInOrder(d, fs, tail, hearings[1..]);
      }
    }
    var (_, got, rest) := ReceiveRun(c, stream, hearings);
    if got == fs { YieldsAll(fs, tail, rest); }
  }

  // ----- the channel itself -----

  /** One OS transfer attempt: EINTR, a hard error or deadline, or some progress (none means closed). */
  datatype IoCall = Interrupted | Broken | Moved(count: nat)

  /** How many progressing calls come before the first one that ends the transfer. */
  function Ready(calls: seq<IoCall>): nat {
    if calls == [] || calls[0].Broken? || calls[0] == Moved(0) then 0
    else (if calls[0].Interrupted? then 0 else 1) + Ready(calls[1..])
  }

  class Channel {
    var bytes: nat
    var frames: nat
    var remaining: nat
    var failed: bool
    ghost var wire: seq<WireByte>

    ghost function Abs(): ChannelState
      reads this
    {
      ChannelState(bytes, frames, remaining, failed, wire)
    }

    constructor ()
      ensures Abs() == FreshChannel
    {
      bytes, frames, remaining, failed, wire := 0, 0, TOTAL_IO_TIME, false, [];
    }

    method Charge(count: nat, frame: bool) returns (ok: bool)
      requires Abs().Within()
      modifies this`bytes, this`frames
      ensures ok == old(Abs()).Affords(count, frame)
      ensures Abs() == if ok then old(Abs()).Charge(count, frame) else old(Abs())
    {
      if count > MAX_SESSION_BYTES - bytes || (frame && frames >= MAX_FRAMES) {
        return false;
      }
      bytes := bytes + count;
      frames := frames + if frame then 1 else 0;
      return true;
    }

    method Finish(elapsed: nat, ok: bool)
      modifies this`remaining, this`failed
      ensures Abs() == old(Abs()).Finish(elapsed, ok)
    {
      remaining := if elapsed <= remaining then remaining - elapsed else 0;
      if !ok {
        failed := true;
      }
    }

    /** One part of a frame, offered to the kernel until it is all accepted. */
    method WritePart(part: seq<WireByte>, calls: seq<IoCall>)
      returns (ok: bool, rest: seq<IoCall>, ghost written: nat)
      modifies this`wire
      ensures written <= |part| && wire == old(wire) + part[..written]
      ensures ok <==> written == |part|
      ensures Ready(calls) >= |part| ==> ok && Ready(rest) >= Ready(calls) - |part|
    {
      var offset: nat := 0;
      rest := calls;
      while offset < |part|
        invariant offset <= |part| && wire == old(wire) + part[..offset]
        invariant Ready(rest) + offset >= Ready(calls)
        decreases |rest|
      {
        if rest == [] {
          return false, rest, offset;
        }
        var call := rest[0];
        rest := rest[1..];
        match call
        case Interrupted =>
        case Broken =>
          return false, rest, offset;
        case Moved(count) =>
          if count == 0 {
            return false, rest, offset;
          }
          var moved := if count > |part| - offset then |part| - offset else count;
          assert part[..offset + moved] == part[..offset] + part[offset..offset + moved];
          wire := wire + part[offset..offset + moved];
          offset := offset + moved;
      }
      assert part[..offset] == part;
      return true, rest, offset;
    }

    /** The tag, then the length, then the body. */
    method WriteFrame(f: Frame, calls: seq<IoCall>) returns (ok: bool, ghost written: nat)
      requires Sendable(f.body)
      modifies this`wire
      ensures written <= |EncodeFrame(f)| && wire == old(wire) + EncodeFrame(f)[..written]
      ensures ok <==> written == |EncodeFrame(f)|
      ensures Ready(calls) >= |EncodeFrame(f)| ==> ok
    {
      var tag, length, body := [Tag(f.descriptor)], Plain(BigEndian32(|f.body|)), Plain(f.body);
      ghost var whole := EncodeFrame(f);
      assert whole == tag + length + body;
      var rest: seq<IoCall>;
      ok, rest, written := WritePart(tag, calls);
      assert tag[..written] == whole[..written];
      if !ok { return; }
      ok, rest, written := WritePart(length, rest);
      written := 1 + written;
      assert tag[..1] + length[..written - 1] == whole[..written];
      if !ok { return; }
      ok, rest, written := WritePart(body, rest);
      written := 5 + written;
      assert tag[..1] + length[..4] + body[..written - 5] == whole[..written];
    }

    /** However the kernel splits the writes, the peer is handed a prefix of one frame, whole iff the call succeeds. */
    method Send(f: Frame, elapsed: nat, calls: seq<IoCall>) returns (ok: bool, ghost io: SendIo)
      requires Abs().Within()
      modifies this
      ensures Abs().Within()
      ensures io.elapsed == elapsed
      ensures Abs() == SendStep(old(Abs()), f, io).0
      ensures ok == SendStep(old(Abs()), f, io).1.Sent?
      ensures old(Abs()).Open() && Sendable(f.body) && old(Abs()).Affords(|f.body| + 5, true)
              && Ready(calls) >= |f.body| + 5
              ==> ok
    {
      io := SendIo(elapsed, 0);
      if failed || remaining == 0 || |f.body| == 0 || |f.body| > MAX_EVENT_BYTES {
        Finish(elapsed, false);
        return false, io;
      }
      var affordable := Charge(|f.body| + 5, true);
      if !affordable {
        Finish(elapsed, false);
        return false, io;
      }
      ghost var written: nat;
      ok, written := WriteFrame(f, calls);
      if ok { assert EncodeFrame(f)[..written] == EncodeFrame(f); }
      io := SendIo(elapsed, written);
      Finish(elapsed, ok);
    }

    /** Fill one buffer from the stream, refusing ancillary data anywhere it is not allowed. */
    method ReadPart(want: nat, allowRights: bool, stream: seq<WireByte>, calls: seq<IoCall>)
      returns (ok: bool, part: seq<WireByte>, rest: seq<IoCall>, ghost starved: bool)
      requires allowRights ==> want == 1
      ensures ok ==> |part| == want && part <= stream
      ensures ok ==> if allowRights then !part[0].unsupported else Bare(part)
      ensures !ok && !starved ==>
                (if |stream| < want then true
                 else if allowRights then stream[0].unsupported else !Bare(stream[..want]))
      ensures Ready(calls) >= want ==> !starved && (ok ==> Ready(rest) >= Ready(calls) - want)
    {
      part, rest, starved := [], calls, false;
      assert part == stream[..0];
      while |part| < want
        invariant |part| <= want && part <= stream
        invariant if allowRights then |part| == 1 ==> !part[0].unsupported else Bare(part)
        invariant Ready(rest) + |part| >= Ready(calls)
        decreases |rest|
      {
        if rest == [] {
          return false, part, rest, true;
        }
        var call := rest[0];
        rest := rest[1..];
        match call
        case Interrupted =>
        case Broken =>
          return false, part, rest, true;
        case Moved(count) =>
          if count == 0 {
            return false, part, rest, true;
          }
          if |part| == |stream| {
            return false, part, rest, false;
          }
          var take := if count > want - |part| then want - |part| else count;
          take := if take > |stream| - |part| then |stream| - |part| else take;
          var chunk := stream[|part|..|part| + take];
          var clean := true;
          for i := 0 to |chunk|
            invariant clean <==> forall j :: 0 <= j < i ==>
                        !chunk[j].unsupported && (allowRights || chunk[j].rights == 0)
          {
            if chunk[i].unsupported || (!allowRights && chunk[i].rights != 0) {
              clean := false;
            }
          }
          if !clean {
            ghost var j :| 0 <= j < |chunk| && (chunk[j].unsupported || (!allowRights && chunk[j].rights != 0));
            assert stream[|part| + j] == chunk[j];
            return false, part, rest, false;
          }
          part := part + chunk;
      }
      ok := true;
    }

    /** The budgets, then the tag, the length and the body; `heard` is what was delivered of the stream. */
    method ReceiveInner(stream: seq<WireByte>, calls: seq<IoCall>)
      returns (frame: Option<Frame>, ghost heard: seq<WireByte>, ghost taken: nat)
      requires Abs().Within()
      modifies this`bytes, this`frames
      ensures (Abs(), frame) == Received(old(Abs()), heard)
      ensures heard <= stream && (Ready(calls) >= MAX_EVENT_BYTES + 5 ==> heard == stream)
      ensures taken <= |stream| && (frame.Some? ==> taken == 5 + |frame.value.body|)
    {
      hide FromBigEndian32;
      frame, heard, taken := None, stream, 0;
      if failed || remaining == 0 {
        return;
      }
      var affordable := Charge(5, true);
      if !affordable {
        return;
      }
      var ok, tag, rest, starved := ReadPart(1, true, stream, calls);
      if !ok || tag[0].value > 1 || tag[0].rights != tag[0].value {
        if starved { heard := []; }
        return;
      }
      taken := |tag|;
      var header: seq<WireByte>;
      ok, header, rest, starved := ReadPart(4, false, stream[1..], rest);
      if !ok {
        assert |stream| >= 5 ==> stream[1..][..4] == stream[1..5];
        if starved { heard := stream[..1]; }
        return;
      }
      assert header == stream[1..5];
      taken := taken + |header|;
      var length := FromBigEndian32(Values(header));
      if length == 0 || length > MAX_EVENT_BYTES {
        return;
      }
      affordable := Charge(length, false);
      if !affordable {
        return;
      }
      var body: seq<WireByte>;
      ok, body, rest, starved := ReadPart(length, false, stream[5..], rest);
      if !ok {
        assert |stream| >= 5 + length ==> stream[5..][..length] == stream[5..5 + length];
        if starved {
          heard := stream[..5];
          assert heard[1..5] == stream[1..5];
        }
        return;
      }
      assert body == stream[5..5 + length];
      return Some(Frame(Values(body), tag[0].value == 1)), stream, taken + |body|;
    }

    /**
     However the kernel chunks the reads, the outcome is the one `ReceiveStep` gives for the
     bytes that were available; `heard` is the stream unless the kernel itself gave up. A frame
     takes its own bytes off the stream and no more.
     */
    method Receive(elapsed: nat, stream: seq<WireByte>, calls: seq<IoCall>)
      returns (frame: Option<Frame>, ghost heard: seq<WireByte>, ghost taken: nat)
      requires Abs().Within()
      modifies this
      ensures Abs().Within()
      ensures (Abs(), frame) == ReceiveStep(old(Abs()), ReceiveIo(elapsed, heard))
      ensures heard <= stream && (Ready(calls) >= MAX_EVENT_BYTES + 5 ==> heard == stream)
      ensures taken <= |stream| && (frame.Some? ==> taken == 5 + |frame.value.body|)
    {
      frame, heard, taken := ReceiveInner(stream, calls);
      Finish(elapsed, frame.Some?);
    }
  }
}
