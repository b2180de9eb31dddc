/** Length-prefixed frames: the incremental parser of
    examples/agar_mit_clone/gw_authoritative_server.js and the blocking reader and writer of
    crates/godworks-worker-sdk/src/lib.rs, over the same bytes. */
module Frames {
  import opened Wrappers
  import opened Json

  newtype byte = b: int | 0 <= b < 256

  const TWO_TO_THE_32 := 0x1_0000_0000

  // ---------------------------------------------------------------- headers

  function Header(n: nat): (r: seq<byte>)
    requires n < TWO_TO_THE_32
    ensures |r| == 4
  {
    [(n / 0x1_00_0000) as byte, (n / 0x1_0000 % 256) as byte, (n / 256 % 256) as byte, (n % 256) as byte]
  }

  /** The big-endian length at the front of a buffer. */
  function Declared(s: seq<byte>): (n: nat)
    requires |s| >= 4
    ensures n < TWO_TO_THE_32
  {
    s[0] as int * 0x1_00_0000 + s[1] as int * 0x1_0000 + s[2] as int * 256 + s[3] as int
  }

  lemma {:induction false} DeclaredHeader(n: nat, rest: seq<byte>)
    requires n < TWO_TO_THE_32
    ensures Declared(Header(n) + rest) == n
  {
    assert n / 0x1_0000 == n / 256 / 256 && n / 0x1_00_0000 == n / 256 / 256 / 256;
  }

  lemma {:induction false} HeaderDeclared(s: seq<byte>)
    requires |s| >= 4
    ensures Header(Declared(s)) == s[..4]
  {
    var n := Declared(s);
    assert n / 256 == s[0] as int * 0x1_0000 + s[1] as int * 256 + s[2] as int;
    assert n / 0x1_0000 == n / 256 / 256 == s[0] as int * 256 + s[1] as int;
    assert n / 0x1_00_0000 == n / 0x1_0000 / 256 == s[0] as int;
  }

  /** The number that base-256 digits stand for, the first of them the most significant. */
  function Digits(s: seq<byte>): nat {
    if s == [] then 0 else Digits(s[..|s| - 1]) * 256 + s[|s| - 1] as int
  }

  lemma {:induction false} OneMoreDigit(s: seq<byte>, b: byte)
    ensures Digits(s + [b]) == Digits(s) * 256 + b as int
  {
    assert (s + [b])[..|s|] == s;
  }

  /** The length is the first four bytes read as a number, most significant byte first. */
  lemma {:induction false} MostSignificantFirst(s: seq<byte>)
    requires |s| >= 4
    ensures Declared(s) == Digits(s[..4])
  {
    OneMoreDigit(s[..3], s[3]);
    OneMoreDigit(s[..2], s[2]);
    OneMoreDigit(s[..1], s[1]);
    OneMoreDigit([], s[0]);
    assert s[..4] == s[..3] + [s[3]] && s[..3] == s[..2] + [s[2]] && s[..2] == s[..1] + [s[1]] && s[..1] == [] + [s[0]];
  }

  function Frame(payload: seq<byte>): seq<byte>
    requires |payload| < TWO_TO_THE_32
  {
    Header(|payload|) + payload
  }

  ghost predicate AllFit(payloads: seq<seq<byte>>, limit: nat) {
    forall i :: 0 <= i < |payloads| ==> |payloads[i]| < limit
  }

  function Stream(payloads: seq<seq<byte>>): seq<byte>
    requires AllFit(payloads, TWO_TO_THE_32)
  {
    if payloads == [] then [] else Frame(payloads[0]) + Stream(payloads[1..])
  }

  // ---------------------------------------------------------------- splitting a buffer

  predicate Complete(s: seq<byte>) { |s| >= 4 && |s| >= 4 + Declared(s) }

  datatype Parts = Parts(payloads: seq<seq<byte>>, rest: seq<byte>)

  /** Every complete frame at the front of the buffer, and what is left. */
  function Split(s: seq<byte>): (r: Parts)
    ensures !Complete(r.rest)
    ensures AllFit(r.payloads, TWO_TO_THE_32)
    decreases |s|
  {
    if !Complete(s) then Parts([], s)
    else
      var n := Declared(s);
      var tail := Split(s[4 + n..]);
      Parts([s[4..4 + n]] + tail.payloads, tail.rest)
  }

  /** Splitting loses nothing: the frames and the remainder are the buffer. */
  lemma {:induction false} SplitRestores(s: seq<byte>)
    ensures Stream(Split(s).payloads) + Split(s).rest == s
    decreases |s|
  {
    if Complete(s) {
      var n := Declared(s);
      SplitRestores(s[4 + n..]);
      OneFrame(s);
    } else {
      assert Stream([]) == [] && [] + s == s;
    }
  }

  lemma {:induction false} SplitFirst(s: seq<byte>)
    requires Complete(s)
    ensures var n, later := Declared(s), Split(s[4 + Declared(s)..]);
            Split(s) == Parts([s[4..4 + n]] + later.payloads, later.rest)
  {
    hide Declared, AllFit;
  }

  lemma {:induction false} FrameIs(s: seq<byte>)
    requires Complete(s)
    ensures Frame(s[4..4 + Declared(s)]) == s[..4] + s[4..4 + Declared(s)]
  {
    HeaderDeclared(s);
    hide Header, Declared;
  }

  lemma {:induction false} OneFrame(s: seq<byte>)
    requires Complete(s)
    requires var later := Split(s[4 + Declared(s)..]); Stream(later.payloads) + later.rest == s[4 + Declared(s)..]
    ensures Stream(Split(s).payloads) + Split(s).rest == s
  {
    hide Header, Declared, AllFit, Split, Stream, Frame;
    SplitFirst(s);
    FrameIs(s);
    var n, later := Declared(s), Split(s[4 + Declared(s)..]);
    StreamFirst(s[4..4 + n], later.payloads);
    FourPieces(s, n, Stream(later.payloads), later.rest);
  }

  lemma {:induction false} StreamFirst(payload: seq<byte>, later: seq<seq<byte>>)
    requires |payload| < TWO_TO_THE_32 && AllFit(later, TWO_TO_THE_32)
    ensures AllFit([payload] + later, TWO_TO_THE_32)
    ensures Stream([payload] + later) == Frame(payload) + Stream(later)
  {
    hide Frame;
    assert ([payload] + later)[1..] == later;
  }

  lemma {:induction false} FourPieces<T>(s: seq<T>, n: nat, x: seq<T>, y: seq<T>)
    requires 4 + n <= |s| && x + y == s[4 + n..]
    ensures s[..4] + s[4..4 + n] + x + y == s
  {
    assert s[..4] + s[4..4 + n] + x + y == s[..4] + s[4..4 + n] + (x + y);
  }

  lemma {:induction false} SplitFrame(payload: seq<byte>, more: seq<byte>)
    requires |payload| < TWO_TO_THE_32
    ensures Split(Frame(payload) + more) == Parts([payload] + Split(more).payloads, Split(more).rest)
  {
    var s := Frame(payload) + more;
    assert s == Header(|payload|) + (payload + more);
    DeclaredHeader(|payload|, payload + more);
    hide Header, Declared, AllFit;
    assert s[4..4 + |payload|] == payload && s[4 + |payload|..] == more;
  }

  /** Frames put in front of a buffer come off again. */
  lemma {:induction false} SplitStream(payloads: seq<seq<byte>>, tail: seq<byte>)
    requires AllFit(payloads, TWO_TO_THE_32)
    ensures Split(Stream(payloads) + tail) == Parts(payloads + Split(tail).payloads, Split(tail).rest)
  {
    hide Split, Frame, Complete;
    if payloads == [] {
      assert Stream(payloads) + tail == tail;
      assert payloads + Split(tail).payloads == Split(tail).payloads;
    } else {
      var p, rest := payloads[0], payloads[1..];
      assert AllFit(rest, TWO_TO_THE_32);
      assert payloads == [p] + rest;
      SplitStream(rest, tail);
      SplitFrame(p, Stream(rest) + tail);
      assert Stream(payloads) + tail == Frame(p) + (Stream(rest) + tail);
      assert [p] + (rest + Split(tail).payloads) == [p] + rest + Split(tail).payloads;
    }
  }

  /** Splitting early and going on later is the same as splitting at once. */
  lemma {:induction false} SplitLater(s: seq<byte>, more: seq<byte>)
    ensures Split(s + more) ==
      Parts(Split(s).payloads + Split(Split(s).rest + more).payloads, Split(Split(s).rest + more).rest)
  {
    SplitRestores(s);
    var parts := Split(s);
    assert s + more == Stream(parts.payloads) + (parts.rest + more);
    SplitStream(parts.payloads, parts.rest + more);
  }

  // ---------------------------------------------------------------- the incremental parser

  /** JavaScript's test of a parsed message. */
  predicate Truthy(v: Value) {
    match v
    case Null => false
    case Bool(b) => b
    case Num(Unsigned(n)) => n != 0
    case Num(Negative(i)) => i != 0
    case Num(Float(r)) => r != 0.0
    case Str(s) => s != ""
    case _ => true
  }

  type Parser = seq<byte> -> Option<Value>

  /** A payload that does not parse, or parses to a falsy value, is skipped. */
  function Deliver(parse: Parser, payload: seq<byte>): seq<Value> {
    var msg := parse(payload);
    if msg.Some? && Truthy(msg.value) then [msg.value] else []
  }

  function Messages(parse: Parser, payloads: seq<seq<byte>>): seq<Value> {
    if payloads == [] then [] else Deliver(parse, payloads[0]) + Messages(parse, payloads[1..])
  }

  lemma {:induction false} MessagesConcat(parse: Parser, a: seq<seq<byte>>, b: seq<seq<byte>>)
    ensures Messages(parse, a + b) == Messages(parse, a) + Messages(parse, b)
  {
    if a == [] {
      assert a + b == b;
    } else {
      assert (a + b)[1..] == a[1..] + b;
      MessagesConcat(parse, a[1..], b);
    }
  }

  /** What was delivered, followed by what the buffer still holds, is everything. */
  ghost predicate Underway(parse: Parser, all: seq<byte>, msgs: seq<Value>, buffer: seq<byte>) {
    && Messages(parse, Split(all).payloads) == msgs + Messages(parse, Split(buffer).payloads)
    && Split(all).rest == Split(buffer).rest
  }

  lemma {:induction false} UnderwayAtFirst(parse: Parser, all: seq<byte>)
    ensures Underway(parse, all, [], all)
  {
    hide Messages, Split;
  }

  lemma {:induction false} TakeFrame(parse: Parser, all: seq<byte>, msgs: seq<Value>, buffer: seq<byte>)
    requires Underway(parse, all, msgs, buffer) && Complete(buffer)
    ensures
      var n := Declared(buffer);
      Underway(parse, all, msgs + Deliver(parse, buffer[4..4 + n]), buffer[4 + n..])
  {
    hide Declared, Deliver, AllFit;
    var n := Declared(buffer);
    var payload, later := buffer[4..4 + n], Split(buffer[4 + n..]);
    assert Split(buffer) == Parts([payload] + later.payloads, later.rest);
    hide Split;
    FirstMessage(parse, payload, later.payloads);
    hide Messages;
    assert msgs + (Deliver(parse, payload) + Messages(parse, later.payloads))
      == msgs + Deliver(parse, payload) + Messages(parse, later.payloads);
  }

  lemma {:induction false} FirstMessage(parse: Parser, payload: seq<byte>, later: seq<seq<byte>>)
    ensures Messages(parse, [payload] + later) == Deliver(parse, payload) + Messages(parse, later)
  {
    hide Deliver;
    assert ([payload] + later)[1..] == later;
  }

  lemma {:induction false} NothingComplete(parse: Parser, all: seq<byte>, msgs: seq<Value>, buffer: seq<byte>)
    requires Underway(parse, all, msgs, buffer) && !Complete(buffer)
    ensures msgs == Messages(parse, Split(all).payloads) && buffer == Split(all).rest
  {
    assert Split(buffer) == Parts([], buffer);
    assert Messages(parse, []) == [];
    hide Split, Messages;
  }

  method ParseFrames(parse: Parser, held: seq<byte>, data: seq<byte>) returns (msgs: seq<Value>, buffer: seq<byte>)
    ensures msgs == Messages(parse, Split(held + data).payloads)
    ensures buffer == Split(held + data).rest
  {
    hide Messages, Split, Underway, Declared, Truthy;
    buffer := held + data;
    msgs := [];
    ghost var all := buffer;
    UnderwayAtFirst(parse, all);
    while |buffer| >= 4
      invariant Underway(parse, all, msgs, buffer)
      decreases |buffer|
    {
      var n := Declared(buffer);
      if |buffer| < 4 + n {
        break;
      }
      TakeFrame(parse, all, msgs, buffer);
      assert msgs + [] == msgs;
      var msg := parse(buffer[4..4 + n]);
      buffer := buffer[4 + n..];
      if msg.Some? && Truthy(msg.value) {
        msgs := msgs + [msg.value];
      }
    }
    NothingComplete(parse, all, msgs, buffer);
  }

  /** One socket's receive buffer; the two ghost fields record everything received and delivered. */
  class FrameBuffer {
    const parse: Parser
    var buffer: seq<byte>
    ghost var received: seq<byte>
    ghost var delivered: seq<Value>

    ghost predicate Valid()
      reads this
    {
      var parts := Split(received);
      delivered == Messages(parse, parts.payloads) && buffer == parts.rest
    }

    constructor (parse: Parser)
      ensures Valid() && this.parse == parse && received == [] && delivered == []
    {
      this.parse := parse;
      buffer, received, delivered := [], [], [];
    }

    method OnData(data: seq<byte>) returns (msgs: seq<Value>)
      requires Valid()
      modifies this
      ensures Valid() && received == old(received) + data && delivered == old(delivered) + msgs
    {
      SplitLater(received, data);
      MessagesConcat(parse, Split(received).payloads, Split(buffer + data).payloads);
      msgs, buffer := ParseFrames(parse, buffer, data);
      received := received + data;
      delivered := delivered + msgs;
    }
  }

  // ---------------------------------------------------------------- chunking and round trip

  function Joined(chunks: seq<seq<byte>>): seq<byte> {
    if chunks == [] then [] else chunks[0] + Joined(chunks[1..])
  }

  /** Chunk after chunk: the messages in order, and the final buffer. */
  function FeedAll(parse: Parser, held: seq<byte>, chunks: seq<seq<byte>>): (seq<Value>, seq<byte>)
    decreases |chunks|
  {
    if chunks == [] then ([], held)
    else
      var parts := Split(held + chunks[0]);
      var later := FeedAll(parse, parts.rest, chunks[1..]);
      (Messages(parse, parts.payloads) + later.0, later.1)
  }

  lemma {:induction false} FeedStep(parse: Parser, held: seq<byte>, chunks: seq<seq<byte>>)
    requires chunks != []
    ensures
      var parts := Split(held + chunks[0]);
      var later := FeedAll(parse, parts.rest, chunks[1..]);
      FeedAll(parse, held, chunks) == (Messages(parse, parts.payloads) + later.0, later.1)
  {
    hide Split, Messages, AllFit, Complete;
  }

  lemma {:induction false} JoinedStep(held: seq<byte>, chunks: seq<seq<byte>>)
    requires chunks != []
    ensures held + Joined(chunks) == held + chunks[0] + Joined(chunks[1..])
  {
    var later := Joined(chunks[1..]);
    assert Joined(chunks) == chunks[0] + later;
    hide Joined;
    assert held + (chunks[0] + later) == held + chunks[0] + later;
  }

  /** However the stream is cut into chunks, the messages and the leftover are those of one read. */
  lemma {:induction false} ChunkingIrrelevant(parse: Parser, held: seq<byte>, chunks: seq<seq<byte>>)
    requires !Complete(held)
    ensures
      var whole := Split(held + Joined(chunks));
      FeedAll(parse, held, chunks) == (Messages(parse, whole.payloads), whole.rest)
    decreases |chunks|
  {
    if chunks == [] {
      assert held + Joined(chunks) == held;
    } else {
      FeedStep(parse, held, chunks);
      JoinedStep(held, chunks);
      hide *;
      var first, later := held + chunks[0], Joined(chunks[1..]);
      var parts := Split(first);
      ChunkingIrrelevant(parse, parts.rest, chunks[1..]);
      SplitLater(first, later);
      MessagesConcat(parse, parts.payloads, Split(parts.rest + later).payloads);
    }
  }

  /** The frame writer fails where the 32-bit length field overflows. */
  function WriteFrame(print_: Value -> seq<byte>, v: Value): Option<seq<byte>> {
    if |print_(v)| < TWO_TO_THE_32 then Some(Frame(print_(v))) else None
  }

  ghost predicate Sent(print_: Value -> seq<byte>, msgs: seq<Value>, frames: seq<seq<byte>>) {
    |frames| == |msgs| && forall i :: 0 <= i < |msgs| ==> WriteFrame(print_, msgs[i]) == Some(frames[i])
  }

  ghost predicate ReadsBack(parse: Parser, print_: Value -> seq<byte>, msgs: seq<Value>) {
    forall i :: 0 <= i < |msgs| ==> parse(print_(msgs[i])) == Some(msgs[i])
  }

  /** The values that count as false in JavaScript: null, false, the empty string and the zeros. */
  predicate Falsy(v: Value) {
    || v == Null || v == Bool(false) || v == Str("")
    || v == Num(Unsigned(0)) || v == Num(Negative(0)) || v == Num(Float(0.0))
  }

  lemma {:induction false} TruthyIff(v: Value)
    ensures Truthy(v) <==> !Falsy(v)
  {}

  /** The messages that reach the handler. */
  function Heard(msgs: seq<Value>): seq<Value> {
    if msgs == [] then [] else (if Falsy(msgs[0]) then [] else [msgs[0]]) + Heard(msgs[1..])
  }

  /** Messages written as frames, delivered in any chunks, arrive in order, all but those that count as
      false, and leave nothing behind. */
  lemma {:induction false} SentIsDelivered(parse: Parser, print_: Value -> seq<byte>, msgs: seq<Value>,
                                           frames: seq<seq<byte>>, chunks: seq<seq<byte>>)
    requires Sent(print_, msgs, frames) && ReadsBack(parse, print_, msgs)
    requires Joined(chunks) == Joined(frames)
    ensures FeedAll(parse, [], chunks) == (Heard(msgs), [])
  {
    ChunkingIrrelevant(parse, [], chunks);
    assert [] + Joined(chunks) == Joined(frames);
    SplitSent(parse, print_, msgs, frames);
  }

  /** Objects and arrays all arrive. */
  lemma {:induction false} StructuresArrive(parse: Parser, print_: Value -> seq<byte>, msgs: seq<Value>,
                                            frames: seq<seq<byte>>, chunks: seq<seq<byte>>)
    requires Sent(print_, msgs, frames) && ReadsBack(parse, print_, msgs)
    requires Joined(chunks) == Joined(frames) && forall i :: 0 <= i < |msgs| ==> msgs[i].Obj? || msgs[i].Arr?
    ensures FeedAll(parse, [], chunks) == (msgs, [])
  {
    SentIsDelivered(parse, print_, msgs, frames, chunks);
    AllHeard(msgs);
  }

  lemma {:induction false} AllHeard(msgs: seq<Value>)
    requires forall i :: 0 <= i < |msgs| ==> msgs[i].Obj? || msgs[i].Arr?
    ensures Heard(msgs) == msgs
  {
    if msgs != [] {
      AllHeard(msgs[1..]);
    }
  }

  /** A frame whose payload is no JSON is passed over. */
  lemma {:induction false} NoiseSkipped(parse: Parser, before: seq<seq<byte>>, noise: seq<byte>, after: seq<seq<byte>>)
    requires parse(noise).None?
    ensures Messages(parse, before + [noise] + after) == Messages(parse, before + after)
  {
    MessagesConcat(parse, before, [noise] + after);
    assert before + ([noise] + after) == before + [noise] + after;
    FirstMessage(parse, noise, after);
    MessagesConcat(parse, before, after);
  }

  lemma {:induction false} SplitSent(parse: Parser, print_: Value -> seq<byte>, msgs: seq<Value>,
                                     frames: seq<seq<byte>>)
    requires Sent(print_, msgs, frames) && ReadsBack(parse, print_, msgs)
    ensures Split(Joined(frames)).rest == []
    ensures Messages(parse, Split(Joined(frames)).payloads) == Heard(msgs)
  {
    if msgs != [] {
      SentTail(parse, print_, msgs, frames);
      hide Sent, ReadsBack, Split, Messages, WriteFrame, Frame, Falsy;
      SplitSent(parse, print_, msgs[1..], frames[1..]);
      SentFirst(parse, print_, msgs[0], frames[0], Joined(frames[1..]), Heard(msgs[1..]));
    }
  }

  lemma {:induction false} SentTail(parse: Parser, print_: Value -> seq<byte>, msgs: seq<Value>, frames: seq<seq<byte>>)
    requires msgs != [] && Sent(print_, msgs, frames) && ReadsBack(parse, print_, msgs)
    ensures frames != [] && Sent(print_, msgs[1..], frames[1..]) && ReadsBack(parse, print_, msgs[1..])
    ensures WriteFrame(print_, msgs[0]) == Some(frames[0]) && parse(print_(msgs[0])) == Some(msgs[0])
  {
    hide WriteFrame;
  }

  lemma {:induction false} SentFirst(parse: Parser, print_: Value -> seq<byte>, m: Value, frame: seq<byte>,
                                     tail: seq<byte>, heard: seq<Value>)
    requires WriteFrame(print_, m) == Some(frame) && parse(print_(m)) == Some(m)
    requires Split(tail).rest == [] && Messages(parse, Split(tail).payloads) == heard
    ensures Split(frame + tail).rest == []
    ensures Messages(parse, Split(frame + tail).payloads) == (if Falsy(m) then [] else [m]) + heard
  {
    var p := print_(m);
    SplitFrame(p, tail);
    FirstMessage(parse, p, Split(tail).payloads);
    TruthyIff(m);
    hide Split, Messages, Truthy, Falsy;
  }
}
