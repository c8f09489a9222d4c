/** Message frames and their plain framing protocol (packages/rpc/src/protocol.ts). */
module Frames {
  import opened Buffers
  import opened Options
  import opened ChunkStreams

  const HEADER_SIZE := 13
  const REGULAR: byte := 1
  const DISCONNECT: byte := 5
  const KEEP_ALIVE: byte := 9

  datatype Frame = Frame(typ: byte, id: nat, ack: nat, data: bytes)

  /** What the four-byte fields of a header keep of a frame. */
  function OnWire(f: Frame): Frame {
    f.(id := f.id % TWO_TO_32, ack := f.ack % TWO_TO_32)
  }

  ghost predicate Sendable(f: Frame) {
    |f.data| < TWO_TO_32
  }

  function Header(f: Frame): (r: bytes)
    ensures |r| == HEADER_SIZE
  {
    [f.typ] + UInt32BE(f.id) + UInt32BE(f.ack) + UInt32BE(|f.data|)
  }

  function Encode(f: Frame): (r: bytes)
    ensures |r| == HEADER_SIZE + |f.data|
  {
    Header(f) + f.data
  }

  function EncodeAll(fs: seq<Frame>): bytes {
    if fs == [] then [] else Encode(fs[0]) + EncodeAll(fs[1..])
  }

  /** The frame at the front of `b` with the bytes behind it, once it has arrived completely. */
  function TakeFrame(b: bytes): Option<(Frame, bytes)> {
    if |b| < HEADER_SIZE then None
    else
      var length := UInt32At(b, 9);
      if |b| < HEADER_SIZE + length then None
      else Some((Frame(b[0], UInt32At(b, 1), UInt32At(b, 5), b[HEADER_SIZE..HEADER_SIZE + length]),
                 b[HEADER_SIZE + length..]))
  }

  datatype Parsed = Parsed(frames: seq<Frame>, rest: bytes)

  /** All complete frames at the front of `b`, and the incomplete remainder. */
  function Split(b: bytes): Parsed
    decreases |b|
  {
    match TakeFrame(b)
    case None => Parsed([], b)
    case Some((f, rest)) => var p := Split(rest); Parsed([f] + p.frames, p.rest)
  }

  function OnWireAll(fs: seq<Frame>): (r: seq<Frame>)
    ensures |r| == |fs| && forall k :: 0 <= k < |fs| ==> r[k] == OnWire(fs[k])
  {
    seq(|fs|, k requires 0 <= k < |fs| => OnWire(fs[k]))
  }

  /** The payloads that reach onMessage. */
  function Payloads(fs: seq<Frame>): seq<bytes> {
    if fs == [] then []
    else (if fs[0].typ == REGULAR then [fs[0].data] else []) + Payloads(fs[1..])
  }

  /** How many of the frames lie wholly within the first `n` bytes. */
  function WholeFrames(fs: seq<Frame>, n: nat): (k: nat)
    ensures k <= |fs|
  {
    if fs == [] || n < |Encode(fs[0])| then 0 else 1 + WholeFrames(fs[1..], n - |Encode(fs[0])|)
  }

  /** A receiver's progress: what it has fired, and the bytes it holds. */
  datatype Receiver = Receiver(fired: seq<bytes>, held: bytes)

  /** Fires every complete frame that is held. */
  function Drain(r: Receiver): Receiver {
    var p := Split(r.held);
    Receiver(r.fired + Payloads(p.frames), p.rest)
  }

  function Feed(r: Receiver, chunk: bytes): Receiver {
    Drain(r.(held := r.held + chunk))
  }

  function FeedAll(r: Receiver, chunks: seq<bytes>): Receiver
    decreases |chunks|
  {
    if chunks == [] then r else FeedAll(Feed(r, chunks[0]), chunks[1..])
  }

  // ---------- a frame survives the wire ----------

  lemma FieldRoundTrip(before: bytes, value: nat, after: bytes)
    ensures UInt32At(before + UInt32BE(value) + after, |before|) == value % TWO_TO_32
  {
    hide UInt32At, UInt32BE;
    var b := before + UInt32BE(value) + after;
    assert b[|before|..|before| + 4] == UInt32BE(value);
    UInt32RoundTrip(b, |before|, value);
  }

  /** The layout on the wire: the type in one byte, then id, acknowledgement and length in four bytes each. */
  lemma HeaderFields(f: Frame, rest: bytes)
    requires Sendable(f)
    ensures var b := Encode(f) + rest;
      && b[0] == f.typ
      && UInt32At(b, 1) == f.id % TWO_TO_32
      && UInt32At(b, 5) == f.ack % TWO_TO_32
      && UInt32At(b, 9) == |f.data|
  {
    hide UInt32At, UInt32BE;
    var b := Encode(f) + rest;
    var id, ack, length := UInt32BE(f.id), UInt32BE(f.ack), UInt32BE(|f.data|);
    FieldRoundTrip([f.typ], f.id, ack + length + f.data + rest);
    assert b == [f.typ] + id + (ack + length + f.data + rest);
    FieldRoundTrip([f.typ] + id, f.ack, length + f.data + rest);
    assert b == [f.typ] + id + ack + (length + f.data + rest);
    FieldRoundTrip([f.typ] + id + ack, |f.data|, f.data + rest);
    assert b == [f.typ] + id + ack + length + (f.data + rest);
  }

  lemma TakeEncoded(f: Frame, rest: bytes)
    requires Sendable(f)
    ensures TakeFrame(Encode(f) + rest) == Some((OnWire(f), rest))
  {
    HeaderFields(f, rest);
    var b := Encode(f) + rest;
    assert b[HEADER_SIZE..HEADER_SIZE + |f.data|] == f.data;
    assert b[HEADER_SIZE + |f.data|..] == rest;
  }

  /** A frame cut short is never taken, wherever the cut is. */
  lemma TakeCutShort(f: Frame, n: nat)
    requires Sendable(f) && n < |Encode(f)|
    ensures TakeFrame(Encode(f)[..n]) == None
  {
    if n >= HEADER_SIZE {
      HeaderFields(f, []);
      assert Encode(f) + [] == Encode(f);
      var b := Encode(f)[..n];
      assert b[9..13] == Encode(f)[9..13];
    }
  }

  lemma FieldStays(a: bytes, b: bytes, k: nat)
    requires k + 4 <= |a|
    ensures UInt32At(a + b, k) == UInt32At(a, k)
  {
    assert (a + b)[k..k + 4] == a[k..k + 4];
  }

  lemma TakeMore(a: bytes, b: bytes)
    requires TakeFrame(a).Some?
    ensures TakeFrame(a + b) == Some((TakeFrame(a).value.0, TakeFrame(a).value.1 + b))
  {
    hide UInt32At;
    var length := UInt32At(a, 9);
    var ab := a + b;
    FieldStays(a, b, 9);
    FieldStays(a, b, 1);
    FieldStays(a, b, 5);
    assert ab[HEADER_SIZE..HEADER_SIZE + length] == a[HEADER_SIZE..HEADER_SIZE + length];
    assert ab[HEADER_SIZE + length..] == a[HEADER_SIZE + length..] + b;
  }

  // ---------- framing does not depend on chunking ----------

  /** A frame of type 1 hands its payload over, in its place; any other frame hands over nothing. */
  lemma PayloadsAre(before: seq<Frame>, f: Frame, after: seq<Frame>)
    ensures Payloads(before + [f] + after) == Payloads(before) + (if f.typ == 1 then [f.data] else []) + Payloads(after)
  {
    PayloadsAppend(before + [f], after);
    PayloadsAppend(before, [f]);
    assert [f][1..] == [];
  }

  /** Parsing in two goes is parsing in one. */
  lemma {:induction false} SplitAppend(a: bytes, b: bytes)
    ensures var p := Split(a); var q := Split(p.rest + b);
      Split(a + b) == Parsed(p.frames + q.frames, q.rest)
    decreases |a|
  {
    if TakeFrame(a).Some? {
      TakeMore(a, b);
      SplitAppend(TakeFrame(a).value.1, b);
      var p := Split(TakeFrame(a).value.1);
      var q := Split(p.rest + b);
      assert [TakeFrame(a).value.0] + (p.frames + q.frames) == [TakeFrame(a).value.0] + p.frames + q.frames;
    } else {
      assert [] + Split(a + b).frames == Split(a + b).frames;
    }
  }

  lemma {:induction false} PayloadsAppend(a: seq<Frame>, b: seq<Frame>)
    ensures Payloads(a + b) == Payloads(a) + Payloads(b)
  {
    if a == [] {
      assert a + b == b;
    } else {
      PayloadsAppend(a[1..], b);
      assert (a + b)[0] == a[0] && (a + b)[1..] == a[1..] + b;
      Regroup(if a[0].typ == REGULAR then [a[0].data] else [], Payloads(a[1..]), Payloads(b));
    }
  }

  lemma ParseInTwoGoes(fired: seq<bytes>, a: bytes, b: bytes)
    ensures var p := Split(a); var q := Split(p.rest + b); var whole := Split(a + b);
      && fired + Payloads(p.frames) + Payloads(q.frames) == fired + Payloads(whole.frames)
      && q.rest == whole.rest
  {
    hide Split, Payloads, TakeFrame;
    SplitAppend(a, b);
    var p := Split(a);
    var q := Split(p.rest + b);
    PayloadsAppend(p.frames, q.frames);
    assert fired + Payloads(p.frames) + Payloads(q.frames) == fired + (Payloads(p.frames) + Payloads(q.frames));
  }

  /** However the bytes are cut into chunks, the receiver ends up as if they came at once. */
  lemma {:induction false} FeedAllIsOneSplit(r: Receiver, chunks: seq<bytes>)
    requires TakeFrame(r.held) == None
    ensures var p := Split(r.held + Flatten(chunks));
      FeedAll(r, chunks) == Receiver(r.fired + Payloads(p.frames), p.rest)
    decreases |chunks|
  {
    hide Split, Payloads, TakeFrame;
    if chunks == [] {
      assert Split(r.held) == Parsed([], r.held) && Payloads([]) == [] by { NothingToTake(r.held); }
      assert r.held + [] == r.held;
      assert r.fired + [] == r.fired;
    } else {
      var first, later := r.held + chunks[0], Flatten(chunks[1..]);
      var p := Split(first);
      SplitRestIsIncomplete(first);
      FeedAllIsOneSplit(Feed(r, chunks[0]), chunks[1..]);
      assert first + later == r.held + Flatten(chunks);
      ParseInTwoGoes(r.fired, first, later);
    }
  }

  lemma NothingToTake(b: bytes)
    requires TakeFrame(b) == None || b == []
    ensures Split(b) == Parsed([], b) && Payloads([]) == []
  {
  }

  lemma {:induction false} SplitRestIsIncomplete(b: bytes)
    ensures TakeFrame(Split(b).rest) == None
    decreases |b|
  {
    if TakeFrame(b).Some? {
      SplitRestIsIncomplete(TakeFrame(b).value.1);
    }
  }

  /** A byte prefix of a frame list yields exactly the frames wholly inside it. */
  lemma {:induction false} SplitOfPrefix(fs: seq<Frame>, n: nat)
    requires forall k :: 0 <= k < |fs| ==> Sendable(fs[k])
    requires n <= |EncodeAll(fs)|
    ensures var k := WholeFrames(fs, n);
      && |EncodeAll(fs[..k])| <= n
      && Split(EncodeAll(fs)[..n]) == Parsed(OnWireAll(fs[..k]), EncodeAll(fs)[|EncodeAll(fs[..k])|..n])
    decreases |fs|
  {
    hide Encode, TakeFrame, Split, OnWireAll, OnWire;
    var all := EncodeAll(fs)[..n];
    if fs == [] {
      assert all == [];
      NothingToTake([]);
    } else if n < |Encode(fs[0])| {
      assert all == Encode(fs[0])[..n];
      TakeCutShort(fs[0], n);
      NothingToTake(all);
    } else {
      var f, size := fs[0], |Encode(fs[0])|;
      var tail := EncodeAll(fs[1..])[..n - size];
      assert all == Encode(f) + tail;
      TakeEncoded(f, tail);
      SplitOfPrefix(fs[1..], n - size);
      OneMoreFrame(all, OnWire(f), tail);
      var k := WholeFrames(fs[1..], n - size);
      assert fs[..k + 1][1..] == fs[1..][..k];
      assert OnWireAll(fs[..k + 1]) == [OnWire(f)] + OnWireAll(fs[1..][..k]);
      var inner := |EncodeAll(fs[1..][..k])|;
      assert EncodeAll(fs)[size + inner..n] == EncodeAll(fs[1..])[inner..n - size];
    }
  }

  lemma OneMoreFrame(b: bytes, f: Frame, rest: bytes)
    requires TakeFrame(b) == Some((f, rest))
    ensures Split(b) == Parsed([f] + Split(rest).frames, Split(rest).rest)
  {
  }

  lemma {:induction false} PayloadsOnWire(fs: seq<Frame>)
    ensures Payloads(OnWireAll(fs)) == Payloads(fs)
  {
    if fs != [] {
      PayloadsOnWire(fs[1..]);
      assert OnWireAll(fs)[1..] == OnWireAll(fs[1..]);
    }
  }

  /** WholeFrames counts what it says: frame number k ends within the first n bytes exactly when k is counted. */
  lemma {:induction false} WholeFramesAreInside(fs: seq<Frame>, n: nat, k: nat)
    requires k <= |fs|
    ensures k <= WholeFrames(fs, n) <==> |EncodeAll(fs[..k])| <= n
    decreases |fs|
  {
    if fs != [] && k > 0 {
      assert fs[..k][0] == fs[0] && fs[..k][1..] == fs[1..][..k - 1];
      if n >= |Encode(fs[0])| {
        WholeFramesAreInside(fs[1..], n - |Encode(fs[0])|, k - 1);
      }
    }
  }

  /** Framing is independent of chunking: cut any prefix of a frame list into any chunks, empty ones
      included, and exactly the Regular payloads of the frames wholly inside the prefix are fired, in order. */
  lemma {:induction false} FramingIsChunkingIndependent(fs: seq<Frame>, n: nat, chunks: seq<bytes>)
    requires forall k :: 0 <= k < |fs| ==> Sendable(fs[k])
    requires n <= |EncodeAll(fs)|
    requires Flatten(chunks) == EncodeAll(fs)[..n]
    ensures var k := WholeFrames(fs, n);
      && |EncodeAll(fs[..k])| <= n
      && FeedAll(Receiver([], []), chunks) == Receiver(Payloads(fs[..k]), EncodeAll(fs)[|EncodeAll(fs[..k])|..n])
  {
    hide Split, FeedAll, WholeFrames, EncodeAll, Flatten, TakeFrame, Payloads, OnWireAll;
    NothingHeldYet();
    FeedAllIsOneSplit(Receiver([], []), chunks);
    assert [] + Flatten(chunks) == Flatten(chunks);
    SplitOfPrefix(fs, n);
    PayloadsOnWire(fs[..WholeFrames(fs, n)]);
    assert [] + Payloads(fs[..WholeFrames(fs, n)]) == Payloads(fs[..WholeFrames(fs, n)]);
  }

  lemma NothingHeldYet()
    ensures TakeFrame([]) == None
  {
  }

  lemma {:induction false} EncodeAllAppend(a: seq<Frame>, b: seq<Frame>)
    ensures EncodeAll(a + b) == EncodeAll(a) + EncodeAll(b)
  {
    hide Encode;
    if a == [] {
      assert a + b == b;
    } else {
      EncodeAllAppend(a[1..], b);
      assert (a + b)[1..] == a[1..] + b;
    }
  }

  lemma DrainStep(before: Receiver, after: Receiver)
    requires TakeFrame(before.held).Some?
    requires var (f, rest) := TakeFrame(before.held).value;
      after == Receiver(before.fired + if f.typ == REGULAR then [f.data] else [], rest)
    ensures Drain(before) == Drain(after)
  {
    hide Split, Payloads, TakeFrame;
    var (f, rest) := TakeFrame(before.held).value;
    var p := Split(rest);
    OneMoreFrame(before.held, f, rest);
    PayloadsCons(f, p.frames);
    var own := if f.typ == REGULAR then [f.data] else [];
    assert before.fired + (own + Payloads(p.frames)) == before.fired + own + Payloads(p.frames);
  }

  lemma PayloadsCons(f: Frame, fs: seq<Frame>)
    ensures Payloads([f] + fs) == (if f.typ == REGULAR then [f.data] else []) + Payloads(fs)
  {
    assert ([f] + fs)[1..] == fs;
  }

  lemma NothingToDrain(r: Receiver)
    requires TakeFrame(r.held) == None
    ensures Drain(r) == r
  {
    NothingToTake(r.held);
    assert r.fired + [] == r.fired;
  }

  /** The length field can be read off the first thirteen bytes alone. */
  lemma PeekedHeader(b: bytes)
    requires |b| >= HEADER_SIZE
    ensures forall k :: 0 <= k <= 9 ==> UInt32At(b[..HEADER_SIZE], k) == UInt32At(b, k)
  {
    forall k | 0 <= k <= 9 ensures UInt32At(b[..HEADER_SIZE], k) == UInt32At(b, k) {
      assert b[..HEADER_SIZE][k..k + 4] == b[k..k + 4];
    }
  }

  lemma EncodeOneThen(f: Frame, fs: seq<Frame>)
    ensures EncodeAll([f]) == Encode(f)
    ensures EncodeAll([f] + fs) == Encode(f) + EncodeAll(fs)
  {
    hide Encode;
    assert ([f] + fs)[1..] == fs;
    assert [f][1..] == [];
  }

  // ---------- the code ----------

  /** writeProtocolMessage. */
  method WriteProtocolMessage(f: Frame) returns (r: bytes)
    ensures r == Encode(f)
  {
    var result := new byte[HEADER_SIZE + |f.data|](_ => 0);
    result[0] := f.typ;
    WriteUInt32BE(result, f.id, 1);
    WriteUInt32BE(result, f.ack, 5);
    WriteUInt32BE(result, |f.data|, 9);
    assert result[..HEADER_SIZE] == Header(f);
    Set(result, f.data, HEADER_SIZE);
    r := result[..];
  }

  /** The part of both read loops that waits for a complete frame and consumes it: the header is only
      peeked at until the body has arrived as well. */
  method NextFrame(chunkStream: ChunkStream) returns (r: Option<Frame>)
    requires chunkStream.Valid()
    modifies chunkStream
    ensures chunkStream.Valid()
    ensures TakeFrame(old(chunkStream.Contents())) ==
      if r == None then None else Some((r.value, chunkStream.Contents()))
    ensures r == None ==> chunkStream.Contents() == old(chunkStream.Contents())
  {
    hide UInt32At;
    ghost var held := chunkStream.Contents();
    var header := chunkStream.Peek(HEADER_SIZE);
    if header.None? {
      return None;
    }
    PeekedHeader(held);
    var typ := header.value[0];
    var id := ReadUInt32BE(header.value, 1);
    var ack := ReadUInt32BE(header.value, 5);
    var length := ReadUInt32BE(header.value, 9);
    if chunkStream.totalLength < HEADER_SIZE + length {
      return None;
    }
    var ok := chunkStream.Skip(HEADER_SIZE);
    var body: bytes := [];
    if length > 0 {
      var readBody := chunkStream.Read(length);
      body := readBody.value;
    }
    assert body == held[HEADER_SIZE..HEADER_SIZE + length];
    r := Some(Frame(typ, id, ack, body));
  }

  lemma TakingShrinks(b: bytes)
    ensures TakeFrame(b).Some? ==> |TakeFrame(b).value.1| < |b|
  {
  }

  /** The writing end of a socket: the bytes written so far. */
  class Socket {
    var written: bytes

    constructor ()
      ensures written == []
    {
      written := [];
    }

    method Write(b: bytes)
      modifies this
      ensures written == old(written) + b
    {
      written := written + b;
    }
  }

  /** Framing without acknowledgements. `fired` records the payloads handed to onMessage. */
  class SocketProtocol {
    const socket: Socket
    const chunkStream: ChunkStream
    var fired: seq<bytes>

    ghost predicate Valid()
      reads this, chunkStream
    {
      chunkStream.Valid()
    }

    ghost function State(): Receiver
      reads this, chunkStream
    {
      Receiver(fired, chunkStream.Contents())
    }

    constructor (socket: Socket)
      ensures Valid() && fresh(chunkStream) && this.socket == socket && State() == Receiver([], [])
    {
      this.socket := socket;
      chunkStream := new ChunkStream();
      fired := [];
    }

    method Send(buffer: bytes)
      modifies socket
      ensures socket.written == old(socket.written) + Encode(Frame(REGULAR, 0, 0, buffer))
    {
      var message := WriteProtocolMessage(Frame(REGULAR, 0, 0, buffer));
      socket.Write(message);
    }

    /** The data listener: one chunk from the socket. */
    method OnData(data: bytes)
      requires Valid()
      modifies this, chunkStream
      ensures Valid() && State() == Feed(old(State()), data)
    {
      chunkStream.AcceptChunk(data);
      ReadMessages();
    }

    method ReadMessages()
      requires Valid()
      modifies this, chunkStream
      ensures Valid() && State() == Drain(old(State()))
    {
      hide Split, Payloads, TakeFrame;
      while true
        invariant Valid()
        invariant Drain(old(State())) == Drain(State())
        decreases |chunkStream.Contents()|
      {
        ghost var before := State();
        var frame := NextFrame(chunkStream);
        if frame.None? {
          NothingToDrain(before);
          break;
        }
        TakingShrinks(before.held);
        if frame.value.typ == REGULAR {
          fired := fired + [frame.value.data];
        }
        DrainStep(before, State());
      }
    }
  }
}
