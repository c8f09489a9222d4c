/** The reliability layer over framing (packages/rpc/src/persistent-protocol.ts): sequence numbers,
    piggybacked acknowledgements, replay on a new socket, a bounded replay buffer and water marks.

    `Endpoint` and the functions on it specify one end; module PersistentProtocols holds the code, proved to
    follow them step by step.  The clock is a parameter. */
module Endpoints {
  import opened Buffers
  import opened Options
  import opened Frames

  /** The options of the constructor, in bytes and milliseconds. */
  datatype Config = Config(highWater: nat, lowWater: nat, replayMax: nat, replayGrace: nat)

  const ACK_TIMEOUT := 20000

  /** The options of the constructor with their defaults: one mebibyte, a quarter of the high mark, eight mebibytes
      and 45 seconds. */
  function Configured(high: Option<nat>, low: Option<nat>, max: Option<nat>, grace: Option<nat>): Config {
    var highWater := OrElse(high, 1024 * 1024);
    Config(highWater, OrElse(low, highWater / 4), OrElse(max, 8 * 1024 * 1024), OrElse(grace, 45000))
  }

  datatype Entry = Entry(msg: Frame, queuedAt: int)

  datatype Event = Message(body: bytes) | Closed | SocketClosed | Saturated | Drained

  /** `held` are the bytes received but not yet consumed; `events` is everything fired so far. */
  datatype Endpoint = Endpoint(
    lastId: nat, unack: seq<Entry>, ackIn: nat, unackBytes: int, saturated: bool, overflowed: bool,
    lastAckTime: int, held: bytes, events: seq<Event>)

  /** The endpoint after an operation, and the frames the operation wrote. */
  datatype Out = Out(ep: Endpoint, frames: seq<Frame>)

  function Fresh(now: int): Endpoint {
    Endpoint(0, [], 0, 0, false, false, now, [], [])
  }

  function Fire(s: Endpoint, e: Event): Endpoint {
    s.(events := s.events + [e])
  }

  function Abandon(s: Endpoint): Out {
    if s.overflowed then Out(s, [])
    else Out(Fire(s.(overflowed := true), Closed), [Frame(DISCONNECT, 0, s.ackIn, [])])
  }

  function Enqueue(s: Endpoint, data: bytes, now: int): Endpoint {
    s.(lastId := s.lastId + 1,
       unack := s.unack + [Entry(Frame(REGULAR, s.lastId + 1, s.ackIn, data), now)],
       unackBytes := s.unackBytes + |data|)
  }

  function Send(c: Config, s: Endpoint, data: bytes, now: int): Out {
    var queued := Enqueue(s, data, now);
    var msg := Frame(REGULAR, s.lastId + 1, s.ackIn, data);
    if queued.unackBytes > c.replayMax then
      var gone := Abandon(queued);
      Out(gone.ep, [msg] + gone.frames)
    else if !queued.saturated && queued.unackBytes > c.highWater then
      Out(Fire(queued.(saturated := true), Saturated), [msg])
    else Out(queued, [msg])
  }

  function Messages(entries: seq<Entry>): (r: seq<Frame>)
    ensures |r| == |entries| && forall k :: 0 <= k < |r| ==> r[k] == entries[k].msg
  {
    seq(|entries|, k requires 0 <= k < |entries| => entries[k].msg)
  }

  function ReplaceSocket(s: Endpoint): Out {
    Out(s.(held := []), Messages(s.unack))
  }

  function DropAcked(s: Endpoint, ack: nat): Endpoint
    decreases |s.unack|
  {
    if s.unack == [] || s.unack[0].msg.id > ack then s
    else DropAcked(s.(unack := s.unack[1..], unackBytes := s.unackBytes - |s.unack[0].msg.data|), ack)
  }

  function ProcessAck(c: Config, s: Endpoint, ack: nat): Endpoint {
    var dropped := DropAcked(s, ack);
    if dropped.saturated && dropped.unackBytes <= c.lowWater then Fire(dropped.(saturated := false), Drained)
    else dropped
  }

  /** The part of the read loop behind processAck: the frame goes to the listeners. */
  function Deliver(s: Endpoint, f: Frame, now: int): Endpoint {
    var handled :=
      if f.typ == REGULAR then Fire(s.(ackIn := f.id), Message(f.data))
      else if f.typ == DISCONNECT then Fire(s, Closed)
      else s;
    handled.(lastAckTime := now)
  }

  /** One complete frame, as read off the stream, when no listener acts in between. */
  function Receive(c: Config, s: Endpoint, f: Frame, now: int): Endpoint {
    Deliver(ProcessAck(c, s, f.ack), f, now)
  }

  /** One turn of the read loop, if a whole frame is there. */
  function ReadOne(c: Config, s: Endpoint, now: int): Endpoint {
    match TakeFrame(s.held)
    case None => s
    case Some((f, rest)) => Receive(c, s.(held := rest), f, now)
  }

  function ReadAll(c: Config, s: Endpoint, now: int): Endpoint
    decreases |s.held|
  {
    if TakeFrame(s.held) == None then s
    else
      ReceiveKeepsHeld(c, s.(held := TakeFrame(s.held).value.1), TakeFrame(s.held).value.0, now);
      ReadAll(c, ReadOne(c, s, now), now)
  }

  function Arrive(s: Endpoint, data: bytes): Endpoint {
    s.(held := s.held + data)
  }

  function KeepAlive(s: Endpoint): Out {
    Out(s, [Frame(KEEP_ALIVE, 0, s.ackIn, [])])
  }

  function AckCheck(c: Config, s: Endpoint, now: int): Out {
    var late := if s.unack != [] && now - s.lastAckTime > ACK_TIMEOUT then Fire(s, SocketClosed) else s;
    if s.unack != [] && now - s.unack[0].queuedAt > c.replayGrace then Abandon(late) else Out(late, [])
  }

  // ---------- what the operations leave alone ----------

  lemma {:induction false} DropAckedFrame(s: Endpoint, ack: nat) returns (n: nat)
    ensures n <= |s.unack|
    ensures DropAcked(s, ack) == s.(unack := s.unack[n..], unackBytes := DropAcked(s, ack).unackBytes)
    decreases |s.unack|
  {
    if s.unack == [] || s.unack[0].msg.id > ack {
      n := 0;
    } else {
      n := DropAckedFrame(s.(unack := s.unack[1..], unackBytes := s.unackBytes - |s.unack[0].msg.data|), ack);
      assert s.unack[1..][n..] == s.unack[n + 1..];
      n := n + 1;
    }
  }

  lemma ReceiveKeepsHeld(c: Config, s: Endpoint, f: Frame, now: int)
    ensures Receive(c, s, f, now).held == s.held
  {
    var _ := DropAckedFrame(s, f.ack);
  }

  lemma ReadAllUnfolds(c: Config, s: Endpoint, now: int)
    ensures ReadAll(c, s, now) ==
      if TakeFrame(s.held) == None then s
      else
        var (f, rest) := TakeFrame(s.held).value;
        ReadAll(c, Receive(c, s.(held := rest), f, now), now)
  {
  }
}
