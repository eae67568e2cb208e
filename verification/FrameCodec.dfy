/**
 * Length-prefixed frames: the broker protocol (src/main/broker.ts FrameReader, encodeFrame,
 * sendInput; src/host/attachHub.ts wholeFrames) and the sidecar's (src/main/embedderClient.ts).
 */
module FrameCodec {
  import opened Prelude

  const MAX_FRAME_PAYLOAD := 0x10_0000
  const MAX_INPUT_CHUNK := MAX_FRAME_PAYLOAD - 4
  const MAX_FRAME := 64 * 1024 * 1024
  const INPUT: byte := 0x10

  /** Broker: u32 BE, then type and payload. Sidecar: u32 LE, then a JSON body. */
  datatype Wire = Broker | Sidecar

  type u32 = n: int | 0 <= n < 0x1_0000_0000

  // ---------------------------------------------------------------- headers

  function BigEndian(n: u32): (s: seq<byte>)
    ensures |s| == 4
  {
    [n / 0x100_0000, n / 0x1_0000 % 0x100, n / 0x100 % 0x100, n % 0x100]
  }

  function ReadBigEndian(s: seq<byte>): u32
    requires |s| >= 4
  {
    s[0] as int * 0x100_0000 + s[1] as int * 0x1_0000 + s[2] as int * 0x100 + s[3] as int
  }

  function Header(w: Wire, n: u32): (s: seq<byte>)
    ensures |s| == 4
  {
    var b := BigEndian(n);
    if w == Broker then b else [b[3], b[2], b[1], b[0]]
  }

  function ReadHeader(w: Wire, s: seq<byte>): u32
    requires |s| >= 4
  {
    if w == Broker then ReadBigEndian(s) else s[0] as int + s[1] as int * 0x100 + s[2] as int * 0x1_0000 + s[3] as int * 0x100_0000
  }

  lemma HeaderRoundTrip(w: Wire, n: u32, rest: seq<byte>)
    ensures ReadHeader(w, Header(w, n) + rest) == n
  {
    var b := BigEndian(n);
    var s := Header(w, n) + rest;
    assert n / 0x1_0000 == n / 0x100_0000 * 0x100 + n / 0x1_0000 % 0x100;
    assert n / 0x100 == n / 0x1_0000 * 0x100 + n / 0x100 % 0x100;
    assert s[..4] == Header(w, n);
  }

  /** The broker's header is the length with its highest byte first, the sidecar's with its lowest. */
  lemma HeaderIsTheLength(w: Wire, n: u32)
    ensures var h := Header(w, n);
      n == if w == Broker then h[0] as int * 0x100_0000 + h[1] as int * 0x1_0000 + h[2] as int * 0x100 + h[3] as int
           else h[3] as int * 0x100_0000 + h[2] as int * 0x1_0000 + h[1] as int * 0x100 + h[0] as int
  {
    assert n / 0x1_0000 == n / 0x100_0000 * 0x100 + n / 0x1_0000 % 0x100;
    assert n / 0x100 == n / 0x1_0000 * 0x100 + n / 0x100 % 0x100;
  }

  /** A length the protocol refuses. */
  predicate BadLength(w: Wire, n: u32) {
    if w == Broker then n == 0 || n - 1 > MAX_FRAME_PAYLOAD else n > MAX_FRAME
  }

  // ---------------------------------------------------------------- frames of a byte string

  /** What follows a header: type and payload, or the JSON body. */
  type Body = seq<byte>

  predicate Fits(w: Wire, b: Body) { |b| < 0x1_0000_0000 && !BadLength(w, |b|) }

  /** The limits: a type byte and at most 1 MiB of payload; at most 64 MiB of JSON. */
  lemma FitsExactly(w: Wire, b: Body)
    ensures Fits(w, b) <==> if w == Broker then 1 <= |b| <= 1_048_577 else |b| <= 67_108_864
  {
  }

  function Frame(w: Wire, b: Body): seq<byte>
    requires Fits(w, b)
  {
    Header(w, |b|) + b
  }

  predicate AllFit(w: Wire, bs: seq<Body>) { forall i :: 0 <= i < |bs| ==> Fits(w, bs[i]) }

  function Frames(w: Wire, bs: seq<Body>): seq<byte>
    requires AllFit(w, bs)
  {
    if bs == [] then [] else Frame(w, bs[0]) + Frames(w, bs[1..])
  }

  datatype Parsed = Parsed(bodies: seq<Body>, rest: seq<byte>, bad: bool)

  /** A header announcing an acceptable length starts `buf`. */
  predicate Announced(w: Wire, buf: seq<byte>) { |buf| >= 4 && !BadLength(w, ReadHeader(w, buf)) }

  /** A whole frame starts `buf`. */
  predicate Complete(w: Wire, buf: seq<byte>) { Announced(w, buf) && |buf| >= 4 + ReadHeader(w, buf) }

  function First(w: Wire, buf: seq<byte>): Body
    requires Complete(w, buf)
  {
    buf[4..4 + ReadHeader(w, buf)]
  }

  function After(w: Wire, buf: seq<byte>): (rest: seq<byte>)
    requires Complete(w, buf)
    ensures |rest| < |buf|
  {
    buf[4 + ReadHeader(w, buf)..]
  }

  /** All complete frames at the front of `buf`, what is left, and whether that starts with a refused length. */
  function Drain(w: Wire, buf: seq<byte>): Parsed
    decreases |buf|
  {
    if Complete(w, buf) then
      var p := Drain(w, After(w, buf));
      Parsed([First(w, buf)] + p.bodies, p.rest, p.bad)
    else
      Parsed([], buf, |buf| >= 4 && !Announced(w, buf))
  }

  lemma CompleteGrows(w: Wire, x: seq<byte>, y: seq<byte>)
    requires Complete(w, x)
    ensures Complete(w, x + y) && First(w, x + y) == First(w, x) && After(w, x + y) == After(w, x) + y
  {
    assert ReadHeader(w, x + y) == ReadHeader(w, x);
  }

  /** Splitting the input anywhere and draining in two goes is draining once. */
  lemma {:induction false} DrainSplit(w: Wire, x: seq<byte>, y: seq<byte>)
    ensures var p := Drain(w, x);
      var q := Drain(w, p.rest + y);
      Drain(w, x + y) == Parsed(p.bodies + q.bodies, q.rest, q.bad)
    decreases |x|
  {
    if Complete(w, x) {
      CompleteGrows(w, x, y);
      DrainSplit(w, After(w, x), y);
      var p := Drain(w, After(w, x));
      Assoc([First(w, x)], p.bodies, Drain(w, p.rest + y).bodies);
    } else {
      Units(Drain(w, x + y).bodies);
    }
  }

  /** Having taken `out` from `all`, `rest` is still to drain. */
  ghost predicate Taken(w: Wire, all: seq<byte>, out: seq<Body>, rest: seq<byte>) {
    var d := Drain(w, rest);
    Drain(w, all) == Parsed(out + d.bodies, d.rest, d.bad)
  }

  lemma TakeNone(w: Wire, all: seq<byte>)
    ensures Taken(w, all, [], all)
  {
    Units(Drain(w, all).bodies);
  }

  lemma TakeFirst(w: Wire, all: seq<byte>, out: seq<Body>, rest: seq<byte>)
    requires Taken(w, all, out, rest) && Complete(w, rest)
    ensures Taken(w, all, out + [First(w, rest)], After(w, rest))
  {
    Assoc(out, [First(w, rest)], Drain(w, After(w, rest)).bodies);
  }

  lemma TakeLast(w: Wire, all: seq<byte>, out: seq<Body>, rest: seq<byte>)
    requires Taken(w, all, out, rest) && !Complete(w, rest)
    ensures Drain(w, all) == Parsed(out, rest, |rest| >= 4 && !Announced(w, rest))
  {
    Units(out);
  }

  /** Encoding and draining gives the frames back, and nothing else. */
  lemma {:induction false} FramesRoundTrip(w: Wire, bs: seq<Body>)
    requires AllFit(w, bs)
    ensures Drain(w, Frames(w, bs)) == Parsed(bs, [], false)
    decreases |bs|
  {
    if bs != [] {
      var b, rest := bs[0], Frames(w, bs[1..]);
      FramesRoundTrip(w, bs[1..]);
      HeaderRoundTrip(w, |b|, b + rest);
      var buf := Frames(w, bs);
      Assoc(Header(w, |b|), b, rest);
      assert buf == Header(w, |b|) + (b + rest);
      assert First(w, buf) == b && After(w, buf) == rest;
      assert bs == [bs[0]] + bs[1..];
    }
  }

  // ---------------------------------------------------------------- the streaming readers

  /** FrameReader and FrameDecoder: push a chunk, take out what is complete. */
  class FrameReader {
    const w: Wire
    var buf: seq<byte>
    ghost var received: seq<byte>    // every byte pushed so far
    ghost var yielded: seq<Body>     // every frame taken out of the buffer so far

    /** Reader and received bytes agree, up to the last take. */
    ghost predicate Valid()
      reads this
    {
      Taken(w, received, yielded, buf)
    }

    constructor (w: Wire)
      ensures Valid() && this.w == w && received == [] && yielded == []
    {
      this.w := w;
      buf, received, yielded := [], [], [];
    }

    method Push(chunk: seq<byte>)
      requires Valid()
      modifies this`buf, this`received
      ensures Valid() && received == old(received) + chunk
    {
      PushAgrees(w, received, buf, chunk, yielded);
      received := received + chunk;
      if |buf| == 0 {
        assert buf + chunk == chunk;
        buf := chunk;
        return;
      }
      buf := buf + chunk;
    }

    /**
     * consume(): every complete frame; `bad` is the thrown error. The broker's generator has handed out
     * the frames before it by then; the sidecar's push returns nothing when it throws.
     */
    method Consume() returns (out: seq<Body>, bad: bool)
      requires Valid()
      modifies this`buf, this`yielded
      ensures Valid() && bad == Drain(w, old(buf)).bad == Drain(w, received).bad && buf == Drain(w, old(buf)).rest
      ensures yielded == old(yielded) + Drain(w, old(buf)).bodies == Drain(w, received).bodies
      ensures out == if bad && w == Sidecar then [] else Drain(w, old(buf)).bodies
    {
      out, bad := [], false;
      TakeNone(w, buf);
      while true
        invariant Taken(w, old(buf), out, buf)
        decreases |buf|
        modifies this`buf
      {
        if |buf| < 4 {
          break;
        }
        var n := ReadHeader(w, buf);
        if BadLength(w, n) {
          bad := true;
          break;
        }
        if |buf| < 4 + n {
          break;
        }
        TakeFirst(w, old(buf), out, buf);
        out := out + [buf[4..4 + n]];
        buf := buf[4 + n..];
      }
      TakeLast(w, old(buf), out, buf);
      yielded := yielded + out;
      Units(yielded);
      if bad && w == Sidecar {
        out := [];
      }
    }
  }

  lemma PushAgrees(w: Wire, received: seq<byte>, buf: seq<byte>, chunk: seq<byte>, yielded: seq<Body>)
    requires Taken(w, received, yielded, buf)
    ensures Taken(w, received + chunk, yielded, buf + chunk)
  {
    DrainSplit(w, received, chunk);
    DrainSplit(w, buf, chunk);
    var p := Drain(w, buf);
    Assoc(yielded, p.bodies, Drain(w, p.rest + chunk).bodies);
  }

  /** A refused length at the front stays there, whatever follows. */
  lemma BadStays(w: Wire, chunks: seq<seq<byte>>, i: nat)
    requires i <= |chunks| && Drain(w, Flatten(chunks[..i])).bad
    ensures Drain(w, Flatten(chunks)).bad && Drain(w, Flatten(chunks)).bodies == Drain(w, Flatten(chunks[..i])).bodies
  {
    var x, y := Flatten(chunks[..i]), Flatten(chunks[i..]);
    assert chunks == chunks[..i] + chunks[i..];
    FlattenAppend(chunks[..i], chunks[i..]);
    DrainSplit(w, x, y);
    BadRest(w, x);
    var p := Drain(w, x);
    assert ReadHeader(w, p.rest + y) == ReadHeader(w, p.rest);
    Units(p.bodies);
  }

  lemma {:induction false} BadRest(w: Wire, x: seq<byte>)
    requires Drain(w, x).bad
    ensures |Drain(w, x).rest| >= 4 && !Announced(w, Drain(w, x).rest)
    decreases |x|
  {
    if Complete(w, x) { BadRest(w, After(w, x)); }
  }

  /**
   * A fresh reader fed `chunks`, emptied after every push until it throws: whatever frames the bytes encode
   * come out, in order and none else, however the bytes were cut.
   */
  method ReadChunks(w: Wire, chunks: seq<seq<byte>>) returns (out: seq<Body>, bad: bool)
    ensures bad == Drain(w, Flatten(chunks)).bad && out <= Drain(w, Flatten(chunks)).bodies
    ensures !bad || w == Broker ==> out == Drain(w, Flatten(chunks)).bodies
    ensures forall bs :: AllFit(w, bs) && Frames(w, bs) == Flatten(chunks) ==> out == bs && !bad
  {
    var r := new FrameReader(w);
    out, bad := [], false;
    var i := 0;
    while i < |chunks| && !bad
      invariant 0 <= i <= |chunks| && r.Valid() && r.w == w && fresh(r)
      invariant r.received == Flatten(chunks[..i]) && r.yielded == Drain(w, r.received).bodies
      invariant bad == Drain(w, r.received).bad && out <= r.yielded
      invariant !bad || w == Broker ==> out == r.yielded
    {
      FlattenPrefix(chunks, i);
      r.Push(chunks[i]);
      i := i + 1;
      assert r.received == Flatten(chunks[..i]);
      var more, b := r.Consume();
      out, bad := out + more, b;
    }
    if bad {
      BadStays(w, chunks, i);
    } else {
      assert chunks[..i] == chunks;
    }
    forall bs | AllFit(w, bs) && Frames(w, bs) == Flatten(chunks) ensures out == bs && !bad {
      FramesRoundTrip(w, bs);
    }
  }

  // ---------------------------------------------------------------- whole messages

  datatype Verdict = Whole | Partial | Malformed

  function EndOf(p: Parsed): Verdict { if p.bad then Malformed else if p.rest == [] then Whole else Partial }

  /** One turn of wholeFrames: what is at the front of the message from the offset on. */
  method Peek(rest: seq<byte>) returns (v: Verdict, n: nat)
    ensures v == Whole ==> Complete(Broker, rest) && n == ReadHeader(Broker, rest)
    ensures v != Whole ==> !Complete(Broker, rest) && (v == Malformed <==> |rest| >= 4 && !Announced(Broker, rest))
  {
    n := 0;
    if |rest| < 4 {
      return Partial, n;
    }
    n := ReadBigEndian(rest);
    if n == 0 || n - 1 > MAX_FRAME_PAYLOAD {
      return Malformed, n;
    }
    v := if |rest| < 4 + n then Partial else Whole;
  }

  lemma MessageEnds(msg: seq<byte>, out: seq<Body>, rest: seq<byte>, v: Verdict)
    requires Taken(Broker, msg, out, rest) && !Complete(Broker, rest)
    requires if rest == [] then v == Whole else v != Whole && (v == Malformed <==> |rest| >= 4 && !Announced(Broker, rest))
    ensures out == Drain(Broker, msg).bodies && v == EndOf(Drain(Broker, msg))
  {
    TakeLast(Broker, msg, out, rest);
  }

  /** wholeFrames: the frames of one message, and how the iteration ends; `rest` is the message from the offset on. */
  method WholeFrames(msg: seq<byte>) returns (out: seq<Body>, v: Verdict)
    ensures out == Drain(Broker, msg).bodies && v == EndOf(Drain(Broker, msg))
  {
    var rest := msg;
    out, v := [], Whole;
    TakeNone(Broker, msg);
    while |rest| > 0
      invariant Taken(Broker, msg, out, rest)
      decreases |rest|
    {
      var n;
      v, n := Peek(rest);
      if v != Whole {
        MessageEnds(msg, out, rest, v);
        return;
      }
      TakeFirst(Broker, msg, out, rest);
      out := out + [rest[4..4 + n]];
      rest := rest[4 + n..];
    }
    v := Whole;
    MessageEnds(msg, out, rest, v);
  }

  // ---------------------------------------------------------------- input

  function ChannelData(channel: u32, body: seq<byte>): seq<byte> { BigEndian(channel) + body }

  datatype Decoded = TooShort | Channel(channel: u32, body: seq<byte>)

  function DecodeChannelData(payload: seq<byte>): Decoded {
    if |payload| < 4 then TooShort else Channel(ReadBigEndian(payload), payload[4..])
  }

  /** A frame on the wire: the length of type and payload, highest byte first, then these. */
  lemma FrameOnTheWire(b: Body)
    requires Fits(Broker, b)
    ensures var f := Frame(Broker, b);
      && |f| == 4 + |b| && f[4..] == b
      && f[0] as int * 0x100_0000 + f[1] as int * 0x1_0000 + f[2] as int * 0x100 + f[3] as int == |b|
  {
    HeaderIsTheLength(Broker, |b|);
    var h := Header(Broker, |b|);
    assert (h + b)[..4] == h;
  }

  /** Channel data on the wire: the channel, highest byte first, then the body. */
  lemma ChannelOnTheWire(channel: u32, body: seq<byte>)
    ensures var d := ChannelData(channel, body);
      && |d| == 4 + |body| && d[4..] == body
      && d[0] as int * 0x100_0000 + d[1] as int * 0x1_0000 + d[2] as int * 0x100 + d[3] as int == channel
  {
    HeaderIsTheLength(Broker, channel);
    var h := BigEndian(channel);
    assert (h + body)[..4] == h;
  }

  lemma ChannelRoundTrip(channel: u32, body: seq<byte>)
    ensures DecodeChannelData(ChannelData(channel, body)) == Channel(channel, body)
  {
    HeaderRoundTrip(Broker, channel, body);
  }

  function InputBody(channel: u32, part: seq<byte>): Body { [INPUT] + ChannelData(channel, part) }

  /** sendInput: one write per frame, each within the limit, together exactly the data. */
  method SendInput(channel: u32, data: seq<byte>) returns (writes: seq<seq<byte>>, parts: seq<seq<byte>>)
    ensures Flatten(parts) == data && |writes| == |parts|
    ensures forall i :: 0 <= i < |parts| ==> 1 <= |parts[i]| <= MAX_INPUT_CHUNK
    ensures forall i :: 0 <= i < |parts| ==>
      Fits(Broker, InputBody(channel, parts[i])) && writes[i] == Frame(Broker, InputBody(channel, parts[i]))
  {
    writes, parts := [], [];
    var at := 0;
    while at < |data|
      invariant 0 <= at && |writes| == |parts| && Flatten(parts) == data[..Min(at, |data|)]
      invariant forall i :: 0 <= i < |parts| ==> 1 <= |parts[i]| <= MAX_INPUT_CHUNK
      invariant forall i :: 0 <= i < |parts| ==>
        Fits(Broker, InputBody(channel, parts[i])) && writes[i] == Frame(Broker, InputBody(channel, parts[i]))
    {
      var end := Min(at + MAX_INPUT_CHUNK, |data|);
      var part := data[at..end];
      FlattenSnoc(parts, part);
      assert data[..end] == data[..at] + part;
      writes := writes + [Frame(Broker, InputBody(channel, part))];
      parts := parts + [part];
      at := at + MAX_INPUT_CHUNK;
    }
  }

  /** The receiver takes every such write for exactly one whole frame carrying the channel and the part. */
  lemma InputIsUnderstood(channel: u32, part: seq<byte>)
    requires |part| <= MAX_INPUT_CHUNK
    ensures Fits(Broker, InputBody(channel, part))
    ensures Drain(Broker, Frame(Broker, InputBody(channel, part))) == Parsed([InputBody(channel, part)], [], false)
    ensures InputBody(channel, part)[0] == INPUT
    ensures DecodeChannelData(InputBody(channel, part)[1..]) == Channel(channel, part)
  {
    var b := InputBody(channel, part);
    FramesRoundTrip(Broker, [b]);
    assert Frames(Broker, [b]) == Frame(Broker, b) + [] == Frame(Broker, b);
    assert b[1..] == ChannelData(channel, part);
    ChannelRoundTrip(channel, part);
  }
}
