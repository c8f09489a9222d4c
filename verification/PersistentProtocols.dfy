/** The code of packages/rpc/src/persistent-protocol.ts, following the specification in Endpoints. */
module PersistentProtocols {
  import opened Buffers
  import opened Options
  import opened ChunkStreams
  import opened Frames
  import opened Endpoints
  import BackPressure

  lemma NothingReplayed(entries: seq<Entry>)
    ensures EncodeAll(Messages(entries[..0])) == []
  {
  }

  lemma ReplayOneMore(entries: seq<Entry>, i: nat)
    requires i < |entries|
    ensures EncodeAll(Messages(entries[..i + 1])) == EncodeAll(Messages(entries[..i])) + Encode(entries[i].msg)
  {
    hide Encode, EncodeAll;
    assert Messages(entries[..i + 1]) == Messages(entries[..i]) + [entries[i].msg];
    EncodeAllAppend(Messages(entries[..i]), [entries[i].msg]);
    EncodeOneThen(entries[i].msg, []);
  }

  lemma AckFacts(config: Config, s: Endpoint, ack: nat)
    requires BackPressure.Sound(config, s)
    ensures var t := Endpoints.ProcessAck(config, s, ack);
      BackPressure.Sound(config, t) && forall e :: e in t.unack <==> e in s.unack && e.msg.id > ack
  {
    hide DropAcked;
    BackPressure.AckIsSound(config, s, ack);
    BackPressure.AckClearsExactly(s, ack);
    BackPressure.DroppingAccounts(s, ack);
  }

  class PersistentProtocol {
    const config: Config
    var socket: Socket
    var chunkStream: ChunkStream
    var outgoingMsgId: nat
    var outgoingUnackMsg: seq<Entry>
    var incomingAckId: nat
    var unackBytes: int
    var saturated: bool
    var overflowed: bool
    var lastAckTime: int
    var events: seq<Event>

    ghost predicate Readable()
      reads this, chunkStream
    {
      chunkStream.Valid()
    }

    /** What every run keeps: the queue holds consecutive ids up to the last one sent, their bytes are counted exactly
        and stay within the replay limit, and the notifications alternate. */
    ghost predicate Valid()
      reads this, chunkStream
    {
      Readable() && BackPressure.Sound(config, State())
    }

    ghost function State(): Endpoint
      reads this, chunkStream
    {
      Endpoint(outgoingMsgId, outgoingUnackMsg, incomingAckId, unackBytes, saturated, overflowed,
               lastAckTime, chunkStream.Contents(), events)
    }

    /** The options are numbers of bytes and of milliseconds, each with a default. */
    constructor (socket: Socket, high: Option<nat>, low: Option<nat>, max: Option<nat>, grace: Option<nat>, now: int)
      ensures Valid() && this.socket == socket && config == Configured(high, low, max, grace) && fresh(chunkStream)
      ensures config.highWater == OrElse(high, 1_048_576) && config.replayMax == OrElse(max, 8_388_608)
      ensures if low.Some? then config.lowWater == low.value else 4 * config.lowWater <= config.highWater < 4 * (config.lowWater + 1)
      ensures config.replayGrace == OrElse(grace, 45_000)
      ensures State() == Fresh(now)
    {
      this.socket, config := socket, Configured(high, low, max, grace);
      chunkStream := new ChunkStream();
      outgoingMsgId, outgoingUnackMsg, incomingAckId, unackBytes := 0, [], 0, 0;
      saturated, overflowed, lastAckTime, events := false, false, now, [];
    }

    method WriteMessage(msg: Frame)
      modifies socket
      ensures socket.written == old(socket.written) + Encode(msg)
    {
      var message := WriteProtocolMessage(msg);
      socket.Write(message);
    }

    /** The message is numbered, queued and written; whatever was queued stays queued.  The session is abandoned exactly
        if the queued bytes exceed the replay limit, and otherwise the sender is saturated exactly if they exceed its
        high mark; each is notified once, when it begins. */
    method Send(buffer: bytes, now: int)
      requires Valid()
      modifies this, socket
      ensures Valid() && socket == old(socket) && chunkStream == old(chunkStream)
      ensures outgoingMsgId == old(outgoingMsgId) + 1
      ensures outgoingUnackMsg == old(outgoingUnackMsg) + [Entry(Frame(REGULAR, outgoingMsgId, incomingAckId, buffer), now)]
      ensures old(socket.written) + Encode(Frame(REGULAR, outgoingMsgId, incomingAckId, buffer)) <= socket.written
      ensures unackBytes == old(unackBytes) + |buffer| && lastAckTime == old(lastAckTime) && incomingAckId == old(incomingAckId)
      ensures overflowed <==> old(overflowed) || unackBytes > config.replayMax
      ensures saturated <==> old(saturated) || config.highWater < unackBytes <= config.replayMax
      ensures events == old(events) + (if overflowed && !old(overflowed) then [Closed] else [])
                                    + (if saturated && !old(saturated) then [Saturated] else [])
      ensures var out := Endpoints.Send(config, old(State()), buffer, now);
        State() == out.ep && socket.written == old(socket.written) + EncodeAll(out.frames)
    {
      hide Encode, EncodeAll, BackPressure.Sound;
      BackPressure.SendIsSound(config, State(), buffer, now);
      outgoingMsgId := outgoingMsgId + 1;
      var msg := Frame(REGULAR, outgoingMsgId, incomingAckId, buffer);
      outgoingUnackMsg := outgoingUnackMsg + [Entry(msg, now)];
      unackBytes := unackBytes + |buffer|;
      WriteMessage(msg);
      EncodeOneThen(msg, Abandon(State()).frames);
      EncodeOneThen(msg, []);
      if unackBytes > config.replayMax {
        AbandonSession();
        return;
      }
      if !saturated && unackBytes > config.highWater {
        saturated := true;
        events := events + [Saturated];
      }
    }

    /** Nothing is lost or counted differently: the queue, in order, is all that goes to the new socket. */
    method ReplaceSocket(newSocket: Socket)
      requires Valid()
      modifies this, newSocket
      ensures Valid() && socket == newSocket && fresh(chunkStream)
      ensures outgoingUnackMsg == old(outgoingUnackMsg) && outgoingMsgId == old(outgoingMsgId) && events == old(events)
      ensures incomingAckId == old(incomingAckId) && lastAckTime == old(lastAckTime)
      ensures overflowed == old(overflowed) && saturated == old(saturated)
      ensures chunkStream.Contents() == [] && socket.written == old(newSocket.written) + EncodeAll(Messages(outgoingUnackMsg))
      ensures var out := Endpoints.ReplaceSocket(old(State()));
        State() == out.ep && socket.written == old(newSocket.written) + EncodeAll(out.frames)
    {
      hide Encode, EncodeAll, Messages, BackPressure.Sound;
      BackPressure.ReplaceIsSound(config, State());
      chunkStream := new ChunkStream();
      socket := newSocket;
      NothingReplayed(outgoingUnackMsg);
      var i := 0;
      while i < |outgoingUnackMsg|
        invariant 0 <= i <= |outgoingUnackMsg|
        invariant Readable() && socket == newSocket && fresh(chunkStream)
        invariant State() == Endpoints.ReplaceSocket(old(State())).ep
        invariant socket.written == old(newSocket.written) + EncodeAll(Messages(outgoingUnackMsg[..i]))
      {
        WriteMessage(outgoingUnackMsg[i].msg);
        ReplayOneMore(outgoingUnackMsg, i);
        i := i + 1;
      }
      assert outgoingUnackMsg[..i] == outgoingUnackMsg;
    }

    /** The data listener: one chunk from the socket. */
    method OnData(data: bytes, now: int)
      requires Valid()
      modifies this, chunkStream
      ensures Valid() && socket == old(socket) && chunkStream == old(chunkStream)
      ensures State() == ReadAll(config, Arrive(old(State()), data), now)
      ensures overflowed == old(overflowed)
    {
      BackPressure.ArriveIsSound(config, State(), data);
      hide BackPressure.Sound, ReadAll;
      chunkStream.AcceptChunk(data);
      ReadMessages(now);
    }

    method ReadMessages(now: int)
      requires Valid()
      modifies this, chunkStream
      ensures Valid() && socket == old(socket) && chunkStream == old(chunkStream)
      ensures State() == ReadAll(config, old(State()), now)
      ensures overflowed == old(overflowed)
    {
      hide TakeFrame, ReadAll, DropAcked, BackPressure.Sound;
      BackPressure.ReadAllIsSound(config, State(), now);
      while true
        invariant Readable() && socket == old(socket) && chunkStream == old(chunkStream)
        invariant ReadAll(config, State(), now) == ReadAll(config, old(State()), now)
        decreases |chunkStream.Contents()|
      {
        ghost var before := State();
        ReadAllUnfolds(config, before, now);
        TakingShrinks(before.held);
        var frame := NextFrame(chunkStream);
        if frame.None? {
          break;
        }
        ProcessAck(frame.value.ack);
        if frame.value.typ == REGULAR {
          incomingAckId := frame.value.id;
          events := events + [Message(frame.value.data)];
        } else if frame.value.typ == DISCONNECT {
          events := events + [Closed];
        }
        lastAckTime := now;
      }
    }

    /** From a consistent state, exactly the messages that the acknowledgement covers leave the queue.  A saturated sender
        is drained exactly if no more than the low mark remains, and is notified of it. */
    method ProcessAck(ack: nat)
      requires Readable()
      modifies this
      ensures Readable() && socket == old(socket) && chunkStream == old(chunkStream)
      ensures State() == Endpoints.ProcessAck(config, old(State()), ack)
      ensures old(Valid()) ==> Valid() && forall e :: e in outgoingUnackMsg <==> e in old(outgoingUnackMsg) && e.msg.id > ack
      ensures saturated <==> old(saturated) && unackBytes > config.lowWater
      ensures events == old(events) + if old(saturated) && !saturated then [Drained] else []
      ensures overflowed == old(overflowed) && lastAckTime == old(lastAckTime) && incomingAckId == old(incomingAckId)
    {
      hide BackPressure.Sound;
      if Valid() {
        AckFacts(config, State(), ack);
      }
      while |outgoingUnackMsg| > 0 && outgoingUnackMsg[0].msg.id <= ack
        invariant Readable() && socket == old(socket) && chunkStream == old(chunkStream)
        invariant DropAcked(State(), ack) == DropAcked(old(State()), ack)
        invariant saturated == old(saturated) && events == old(events) && overflowed == old(overflowed)
        invariant lastAckTime == old(lastAckTime) && incomingAckId == old(incomingAckId)
      {
        var entry := outgoingUnackMsg[0];
        outgoingUnackMsg := outgoingUnackMsg[1..];
        unackBytes := unackBytes - |entry.msg.data|;
      }
      if saturated && unackBytes <= config.lowWater {
        saturated := false;
        events := events + [Drained];
      }
    }

    /** One Disconnect frame, which is of type 5, and one close notification, the first time only. */
    method AbandonSession()
      requires Readable()
      modifies this, socket
      ensures Readable() && socket == old(socket) && chunkStream == old(chunkStream)
      ensures overflowed && events == old(events) + if old(overflowed) then [] else [Closed]
      ensures socket.written == old(socket.written) + if old(overflowed) then [] else Encode(Frame(5, 0, incomingAckId, []))
      ensures var out := Abandon(old(State()));
        State() == out.ep && socket.written == old(socket.written) + EncodeAll(out.frames)
    {
      if overflowed {
        return;
      }
      overflowed := true;
      EncodeOneThen(Frame(DISCONNECT, 0, incomingAckId, []), []);
      WriteMessage(Frame(DISCONNECT, 0, incomingAckId, []));
      events := events + [Closed];
    }

    /** The body of the keep-alive timer. */
    method KeepAliveTick()
      requires Valid()
      modifies socket
      ensures Valid()
      ensures socket.written == old(socket.written) + Encode(Frame(9, 0, incomingAckId, []))
      ensures socket.written == old(socket.written) + EncodeAll(KeepAlive(State()).frames)
    {
      EncodeOneThen(Frame(KEEP_ALIVE, 0, incomingAckId, []), []);
      WriteMessage(Frame(KEEP_ALIVE, 0, incomingAckId, []));
    }

    /** The body of the acknowledgement timer.  The session is abandoned exactly if the oldest queued message is older than
        the grace time, and the socket is reported silent exactly if something is queued and no frame has come for more
        than 20 seconds. */
    method AckCheckTick(now: int)
      requires Valid()
      modifies this, socket
      ensures Valid() && socket == old(socket) && chunkStream == old(chunkStream)
      ensures outgoingUnackMsg == old(outgoingUnackMsg)
      ensures overflowed <==>
        old(overflowed) || (outgoingUnackMsg != [] && now - outgoingUnackMsg[0].queuedAt > config.replayGrace)
      ensures events == old(events) + (if outgoingUnackMsg != [] && now - lastAckTime > 20000 then [SocketClosed] else [])
                                    + (if overflowed && !old(overflowed) then [Closed] else [])
      ensures saturated == old(saturated) && lastAckTime == old(lastAckTime) && unackBytes == old(unackBytes)
      ensures var out := AckCheck(config, old(State()), now);
        State() == out.ep && socket.written == old(socket.written) + EncodeAll(out.frames)
    {
      hide BackPressure.Sound;
      BackPressure.AckCheckIsSound(config, State(), now);
      if |outgoingUnackMsg| > 0 && now - lastAckTime > ACK_TIMEOUT {
        events := events + [SocketClosed];
      }
      if |outgoingUnackMsg| > 0 && now - outgoingUnackMsg[0].queuedAt > config.replayGrace {
        AbandonSession();
      }
    }
  }
}
