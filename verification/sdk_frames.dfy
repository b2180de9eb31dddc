/** The worker SDK's framed reader and writer, crates/godworks-worker-sdk/src/lib.rs, and how they
    agree with the incremental parser. */
module SdkFrames {
  import opened Wrappers
  import opened Frames

  const DEFAULT_MAX_FRAME_BYTES: nat := 0x10_0000

  /** Why a reader stops: the stream ended between frames, ended inside a payload, declared too long a
      frame, or held a payload that does not decode. */
  datatype Stop = EndOfStream | UnexpectedEof | FrameTooLarge(bytes: nat) | Undecodable

  /** The payload codec: decoding can fail, printing cannot. */
  datatype Codec<!Op> = Codec(decode: seq<byte> -> Option<Op>, encode: Op -> seq<byte>)

  // ---------------------------------------------------------------- writing

  function EncodeLenPrefixedFrame<Op>(c: Codec<Op>, op: Op): Result<seq<byte>, Stop> {
    var payload := c.encode(op);
    if |payload| > DEFAULT_MAX_FRAME_BYTES then Err(FrameTooLarge(|payload|)) else Ok(Frame(payload))
  }

  // ---------------------------------------------------------------- reading one operation

  datatype Read<Op> = Got(op: Op, rest: seq<byte>) | Stopped(why: Stop)

  function ReadOne<Op>(c: Codec<Op>, s: seq<byte>): (r: Read<Op>)
    ensures r.Got? ==> Complete(s) && r.rest == s[4 + Declared(s)..]
  {
    if |s| < 4 then Stopped(EndOfStream)
    else if Declared(s) > DEFAULT_MAX_FRAME_BYTES then Stopped(FrameTooLarge(Declared(s)))
    else if |s| < 4 + Declared(s) then Stopped(UnexpectedEof)
    else
      match c.decode(s[4..4 + Declared(s)])
      case Some(op) => Got(op, s[4 + Declared(s)..])
      case None => Stopped(Undecodable)
  }

  /** One mebibyte is the longest payload: the writer refuses any longer one, and the reader refuses its
      header without looking for the payload. */
  lemma {:induction false} OverlongRefused<Op>(c: Codec<Op>, op: Op, n: nat, rest: seq<byte>)
    requires n < TWO_TO_THE_32
    ensures EncodeLenPrefixedFrame(c, op) ==
      if |c.encode(op)| <= 1048576 then Ok(Frame(c.encode(op))) else Err(FrameTooLarge(|c.encode(op)|))
    ensures n > 1048576 <==> ReadOne(c, Header(n) + rest) == Stopped(FrameTooLarge(n))
  {
    DeclaredHeader(n, rest);
    hide Header, Declared, Frame;
  }

  /** A stream whose remaining bytes are known. */
  class ByteStream {
    var remaining: seq<byte>

    constructor (bytes: seq<byte>)
      ensures remaining == bytes
    {
      remaining := bytes;
    }

    /** Takes exactly n bytes, or everything that is left if there are fewer. */
    method ReadExact(n: nat) returns (bytes: Option<seq<byte>>)
      modifies this
      ensures if |old(remaining)| < n then bytes == None && remaining == []
              else bytes == Some(old(remaining)[..n]) && remaining == old(remaining)[n..]
    {
      if |remaining| < n {
        remaining := [];
        return None;
      }
      bytes := Some(remaining[..n]);
      remaining := remaining[n..];
    }

    method ReadOp<Op>(c: Codec<Op>) returns (r: Result<Op, Stop>)
      modifies this
      ensures
        match ReadOne(c, old(remaining))
        case Got(op, rest) => r == Ok(op) && remaining == rest
        case Stopped(why) => r == Err(why)
    {
      ghost var s := remaining;
      var header := ReadExact(4);
      if header.None? {
        return Err(EndOfStream);
      }
      assert Declared(header.value) == Declared(s);
      var len := Declared(header.value);
      if len > DEFAULT_MAX_FRAME_BYTES {
        return Err(FrameTooLarge(len));
      }
      var payload := ReadExact(len);
      if payload.None? {
        return Err(UnexpectedEof);
      }
      assert payload.value == s[4..4 + len] && remaining == s[4 + len..];
      var op := c.decode(payload.value);
      r := if op.Some? then Ok(op.value) else Err(Undecodable);
    }
  }

  // ---------------------------------------------------------------- reading a whole stream

  datatype Log<Op> = Log(ops: seq<Op>, stop: Stop)

  /** Operation after operation, until the reader stops. */
  function ReadAll<Op>(c: Codec<Op>, s: seq<byte>): Log<Op>
    decreases |s|
  {
    match ReadOne(c, s)
    case Stopped(why) => Log([], why)
    case Got(op, rest) => var log := ReadAll(c, rest); Log([op] + log.ops, log.stop)
  }

  predicate Acceptable<Op>(c: Codec<Op>, payload: seq<byte>) {
    |payload| <= DEFAULT_MAX_FRAME_BYTES && c.decode(payload).Some?
  }

  function Decoded<Op>(c: Codec<Op>, payloads: seq<seq<byte>>): (r: seq<Op>)
    requires forall p :: p in payloads ==> Acceptable(c, p)
    ensures |r| == |payloads| && forall i :: 0 <= i < |r| ==> c.decode(payloads[i]) == Some(r[i])
  {
    if payloads == [] then []
    else
      assert payloads[0] in payloads && Acceptable(c, payloads[0]);
      [c.decode(payloads[0]).value] + Decoded(c, payloads[1..])
  }

  /** How many frames at the front are acceptable. */
  function Accepted<Op>(c: Codec<Op>, payloads: seq<seq<byte>>): (k: nat)
    ensures k <= |payloads|
    ensures forall p :: p in payloads[..k] ==> Acceptable(c, p)
    ensures k < |payloads| ==> !Acceptable(c, payloads[k])
  {
    if payloads == [] || !Acceptable(c, payloads[0]) then 0
    else
      var k := Accepted(c, payloads[1..]);
      assert payloads[..k + 1] == [payloads[0]] + payloads[1..][..k];
      k + 1
  }

  /** Why reading stops after the acceptable frames. */
  function StopAfter(parts: Parts, k: nat): Stop
    requires k <= |parts.payloads|
  {
    if k < |parts.payloads| then
      if |parts.payloads[k]| > DEFAULT_MAX_FRAME_BYTES then FrameTooLarge(|parts.payloads[k]|) else Undecodable
    else if |parts.rest| < 4 then EndOfStream
    else if Declared(parts.rest) > DEFAULT_MAX_FRAME_BYTES then FrameTooLarge(Declared(parts.rest))
    else UnexpectedEof
  }

  /** On every byte string the SDK reader yields the decoded prefix of the frames the incremental
      parser finds there, up to the first one it does not accept, and stops for the reason given. */
  lemma {:induction false} ReadsWhatSplitFinds<Op>(c: Codec<Op>, s: seq<byte>)
    ensures
      var parts := Split(s);
      var k := Accepted(c, parts.payloads);
      ReadAll(c, s) == Log(Decoded(c, parts.payloads[..k]), StopAfter(parts, k))
    decreases |s|
  {
    var parts := Split(s);
    if Complete(s) {
      var n := Declared(s);
      var payload, later := s[4..4 + n], s[4 + n..];
      var tail := Split(later);
      assert parts.payloads == [payload] + tail.payloads && parts.rest == tail.rest;
      if Acceptable(c, payload) {
        ReadsWhatSplitFinds(c, later);
        AcceptedStep(c, payload, tail, parts);
      } else {
        assert Accepted(c, parts.payloads) == 0;
        assert Decoded(c, parts.payloads[..0]) == [];
      }
    }
  }

  lemma {:induction false} AcceptedStep<Op>(c: Codec<Op>, payload: seq<byte>, tail: Parts, parts: Parts)
    requires Acceptable(c, payload)
    requires parts == Parts([payload] + tail.payloads, tail.rest)
    ensures
      var k := Accepted(c, tail.payloads);
      && Accepted(c, parts.payloads) == k + 1
      && Decoded(c, parts.payloads[..k + 1]) == [c.decode(payload).value] + Decoded(c, tail.payloads[..k])
      && StopAfter(parts, k + 1) == StopAfter(tail, k)
  {
    assert parts.payloads[1..] == tail.payloads;
    var k := Accepted(c, tail.payloads);
    assert parts.payloads[..k + 1] == [payload] + tail.payloads[..k];
  }

  // ---------------------------------------------------------------- what is written is read

  ghost predicate Written<Op>(c: Codec<Op>, ops: seq<Op>, frames: seq<seq<byte>>) {
    |frames| == |ops| && forall i :: 0 <= i < |ops| ==> EncodeLenPrefixedFrame(c, ops[i]) == Ok(frames[i])
  }

  ghost predicate Faithful<Op>(c: Codec<Op>, ops: seq<Op>) {
    forall i :: 0 <= i < |ops| ==> c.decode(c.encode(ops[i])) == Some(ops[i])
  }

  lemma {:induction false} ReadFrame<Op>(c: Codec<Op>, op: Op, tail: seq<byte>)
    requires |c.encode(op)| <= DEFAULT_MAX_FRAME_BYTES && c.decode(c.encode(op)) == Some(op)
    ensures ReadOne(c, Frame(c.encode(op)) + tail) == Got(op, tail)
  {
    var p := c.encode(op);
    var s := Frame(p) + tail;
    assert s == Header(|p|) + (p + tail);
    DeclaredHeader(|p|, p + tail);
    assert s[4..4 + |p|] == p && s[4 + |p|..] == tail;
  }

  lemma {:induction false} ReadsWritten<Op>(c: Codec<Op>, ops: seq<Op>, frames: seq<seq<byte>>, tail: seq<byte>)
    requires Written(c, ops, frames) && Faithful(c, ops)
    ensures ReadAll(c, Joined(frames) + tail) == Log(ops + ReadAll(c, tail).ops, ReadAll(c, tail).stop)
  {
    hide ReadAll, EncodeLenPrefixedFrame, Faithful, Frame;
    if ops == [] {
      assert Joined(frames) + tail == tail;
      assert ops + ReadAll(c, tail).ops == ReadAll(c, tail).ops;
    } else {
      WrittenTail(c, ops, frames);
      ReadsWritten(c, ops[1..], frames[1..], tail);
      PrependWritten(c, ops, frames, tail);
    }
  }

  lemma {:induction false} PrependWritten<Op>(c: Codec<Op>, ops: seq<Op>, frames: seq<seq<byte>>, tail: seq<byte>)
    requires ops != [] && Written(c, ops, frames) && Faithful(c, ops)
    requires ReadAll(c, Joined(frames[1..]) + tail) == Log(ops[1..] + ReadAll(c, tail).ops, ReadAll(c, tail).stop)
    ensures ReadAll(c, Joined(frames) + tail) == Log(ops + ReadAll(c, tail).ops, ReadAll(c, tail).stop)
  {
    assert EncodeLenPrefixedFrame(c, ops[0]) == Ok(frames[0]);
    assert frames[0] == Frame(c.encode(ops[0]));
    ReadAllFrame(c, ops[0], Joined(frames[1..]) + tail);
    FramesThenTail(frames, tail);
    hide *;
    HeadFirst(ops, ReadAll(c, tail).ops);
  }

  lemma {:induction false} HeadFirst<T>(s: seq<T>, more: seq<T>)
    requires s != []
    ensures [s[0]] + (s[1..] + more) == s + more
  {}

  lemma {:induction false} ReadAllFrame<Op>(c: Codec<Op>, op: Op, tail: seq<byte>)
    requires |c.encode(op)| <= DEFAULT_MAX_FRAME_BYTES && c.decode(c.encode(op)) == Some(op)
    ensures ReadAll(c, Frame(c.encode(op)) + tail) == Log([op] + ReadAll(c, tail).ops, ReadAll(c, tail).stop)
  {
    ReadFrame(c, op, tail);
    hide ReadOne, Frame;
  }

  lemma {:induction false} WrittenTail<Op>(c: Codec<Op>, ops: seq<Op>, frames: seq<seq<byte>>)
    requires ops != [] && Written(c, ops, frames) && Faithful(c, ops)
    ensures Written(c, ops[1..], frames[1..]) && Faithful(c, ops[1..])
  {}

  lemma {:induction false} FramesThenTail(frames: seq<seq<byte>>, tail: seq<byte>)
    requires frames != []
    ensures Joined(frames) + tail == frames[0] + (Joined(frames[1..]) + tail)
  {
    var later := Joined(frames[1..]);
    assert Joined(frames) == frames[0] + later;
    hide Joined;
    assert frames[0] + later + tail == frames[0] + (later + tail);
  }

  /** A connection cut at any byte: every operation whose frame arrived whole is read, in order, and
      the reader reports a clean end exactly when at most three bytes of the next frame came through. */
  lemma {:induction false} CutStream<Op>(c: Codec<Op>, ops: seq<Op>, frames: seq<seq<byte>>, next: Op,
                                         frame: seq<byte>, n: nat)
    requires Written(c, ops, frames) && Faithful(c, ops)
    requires EncodeLenPrefixedFrame(c, next) == Ok(frame) && n < |frame|
    ensures ReadAll(c, Joined(frames) + frame[..n]) == Log(ops, if n < 4 then EndOfStream else UnexpectedEof)
  {
    ReadsWritten(c, ops, frames, frame[..n]);
    var p := c.encode(next);
    if n >= 4 {
      DeclaredHeader(|p|, p);
      assert Declared(frame[..n]) == Declared(frame) == |p|;
    }
    assert ops + [] == ops;
  }
}
