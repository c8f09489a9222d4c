/** Congestion accounting of one endpoint over every run, whatever bytes the peer sends
    (packages/rpc/src/persistent-protocol.ts:123-143, 224-249, 264-275). */
module BackPressure {
  import opened Buffers
  import opened Options
  import opened Frames
  import opened Endpoints

  /** Besides whole data events, the two halves of handling one frame are operations of their own, because listeners
      may send, replace the socket and so on between them. */
  datatype Op =
    | DoSend(data: bytes, now: int)
    | DoReplace
    | DoData(chunk: bytes, now: int)
    | DoAcknowledge(ack: nat)
    | DoDeliver(f: Frame, now: int)
    | DoKeepAlive
    | DoAckCheck(now: int)

  function Apply(c: Config, s: Endpoint, op: Op): Out {
    match op
    case DoSend(data, now) => Send(c, s, data, now)
    case DoReplace => ReplaceSocket(s)
    case DoData(chunk, now) => Out(ReadAll(c, Arrive(s, chunk), now), [])
    case DoAcknowledge(ack) => Out(ProcessAck(c, s, ack), [])
    case DoDeliver(f, now) => Out(Deliver(s, f, now), [])
    case DoKeepAlive => KeepAlive(s)
    case DoAckCheck(now) => AckCheck(c, s, now)
  }

  /** The endpoint after a run, with every frame it has written to any socket. */
  function Run(c: Config, ops: seq<Op>, start: int): Out {
    if ops == [] then Out(Fresh(start), [])
    else
      var before := Run(c, ops[..|ops| - 1], start);
      var out := Apply(c, before.ep, ops[|ops| - 1]);
      Out(out.ep, before.frames + out.frames)
  }

  function QueuedBytes(entries: seq<Entry>): nat {
    if entries == [] then 0 else |entries[0].msg.data| + QueuedBytes(entries[1..])
  }

  /** The queue holds consecutive ids up to the last one sent, and its bytes are counted exactly. */
  ghost predicate Accounted(s: Endpoint) {
    && |s.unack| <= s.lastId
    && (forall k :: 0 <= k < |s.unack| ==>
          s.unack[k].msg.typ == REGULAR && s.unack[k].msg.id == s.lastId - |s.unack| + 1 + k)
    && s.unackBytes == QueuedBytes(s.unack)
  }

  /** The flow-control notifications, in order. */
  function Edges(events: seq<Event>): seq<Event> {
    if events == [] then []
    else
      var before := Edges(events[..|events| - 1]);
      var e := events[|events| - 1];
      if e == Saturated || e == Drained then before + [e] else before
  }

  /** Saturated, Drained, Saturated, ... up to the present state. */
  ghost predicate Alternating(s: Endpoint) {
    && (forall k :: 0 <= k < |Edges(s.events)| ==>
          Edges(s.events)[k] == if k % 2 == 0 then Saturated else Drained)
    && (s.saturated <==> |Edges(s.events)| % 2 == 1)
  }

  ghost predicate WithinReplayLimit(c: Config, s: Endpoint) {
    s.overflowed || s.unackBytes <= c.replayMax
  }

  ghost predicate WaterMarksHold(c: Config, s: Endpoint) {
    && (s.saturated ==> s.unackBytes > c.lowWater)
    && (!s.saturated && !s.overflowed ==> s.unackBytes <= c.highWater)
  }

  /** What a caller can check about the options. */
  predicate Orderly(c: Config) {
    c.lowWater <= c.highWater || c.replayMax <= c.highWater
  }

  function Disconnects(fs: seq<Frame>): nat {
    if fs == [] then 0 else (if fs[0].typ == DISCONNECT then 1 else 0) + Disconnects(fs[1..])
  }

  ghost predicate Sound(c: Config, s: Endpoint) {
    && Accounted(s) && Alternating(s) && WithinReplayLimit(c, s)
    && (Orderly(c) ==> WaterMarksHold(c, s))
    && (c.replayMax <= c.highWater ==> !s.saturated)
  }

  lemma {:induction false} QueuedBytesAppend(a: seq<Entry>, b: seq<Entry>)
    ensures QueuedBytes(a + b) == QueuedBytes(a) + QueuedBytes(b)
  {
    if a == [] {
      assert a + b == b;
    } else {
      QueuedBytesAppend(a[1..], b);
      assert (a + b)[1..] == a[1..] + b;
    }
  }

  lemma EdgesOfFire(events: seq<Event>, e: Event)
    ensures Edges(events + [e]) == if e == Saturated || e == Drained then Edges(events) + [e] else Edges(events)
  {
    assert (events + [e])[..|events|] == events;
  }

  lemma EnqueueAccounts(s: Endpoint, data: bytes, now: int)
    requires Accounted(s)
    ensures Accounted(Enqueue(s, data, now)) && Enqueue(s, data, now).unackBytes == s.unackBytes + |data|
  {
    var e := Entry(Frame(REGULAR, s.lastId + 1, s.ackIn, data), now);
    QueuedBytesAppend(s.unack, [e]);
    assert QueuedBytes([e]) == |data|;
  }

  lemma AbandonIsSound(c: Config, s: Endpoint)
    requires Accounted(s) && Alternating(s) && (Orderly(c) && s.saturated ==> s.unackBytes > c.lowWater)
    requires c.replayMax <= c.highWater ==> !s.saturated
    ensures Sound(c, Abandon(s).ep) && Abandon(s).ep.overflowed
  {
    EdgesOfFire(s.events, Closed);
  }

  lemma SendIsSound(c: Config, s: Endpoint, data: bytes, now: int)
    requires Sound(c, s)
    ensures Sound(c, Send(c, s, data, now).ep)
  {
    hide Edges, QueuedBytes;
    var queued := Enqueue(s, data, now);
    EnqueueAccounts(s, data, now);
    if queued.unackBytes > c.replayMax {
      AbandonIsSound(c, queued);
    } else {
      EdgesOfFire(queued.events, Saturated);
    }
  }

  lemma {:induction false} DroppingAccounts(s: Endpoint, ack: nat)
    requires Accounted(s)
    ensures var d := DropAcked(s, ack);
      && Accounted(d) && d.unackBytes <= s.unackBytes
      && d == s.(unack := d.unack, unackBytes := d.unackBytes)
    decreases |s.unack|
  {
    if s.unack != [] && s.unack[0].msg.id <= ack {
      DroppingAccounts(s.(unack := s.unack[1..], unackBytes := s.unackBytes - |s.unack[0].msg.data|), ack);
    }
  }

  /** An acknowledgement clears exactly the entries it covers. */
  lemma {:induction false} AckClearsExactly(s: Endpoint, ack: nat)
    requires Accounted(s)
    ensures forall e :: e in DropAcked(s, ack).unack <==> e in s.unack && e.msg.id > ack
    decreases |s.unack|
  {
    if s.unack != [] {
      assert s.unack == [s.unack[0]] + s.unack[1..];
      if s.unack[0].msg.id <= ack {
        AckClearsExactly(s.(unack := s.unack[1..], unackBytes := s.unackBytes - |s.unack[0].msg.data|), ack);
      }
    }
  }

  lemma AckIsSound(c: Config, s: Endpoint, ack: nat)
    requires Sound(c, s)
    ensures Sound(c, ProcessAck(c, s, ack)) && ProcessAck(c, s, ack).overflowed == s.overflowed
  {
    hide Edges, QueuedBytes, DropAcked;
    DroppingAccounts(s, ack);
    EdgesOfFire(DropAcked(s, ack).events, Drained);
  }

  lemma DeliverIsSound(c: Config, s: Endpoint, f: Frame, now: int)
    requires Sound(c, s)
    ensures Sound(c, Deliver(s, f, now)) && Deliver(s, f, now).overflowed == s.overflowed
  {
    hide Edges, QueuedBytes;
    EdgesOfFire(s.events, Message(f.data));
    EdgesOfFire(s.events, Closed);
  }

  lemma ReceiveIsSound(c: Config, s: Endpoint, f: Frame, now: int)
    requires Sound(c, s)
    ensures Sound(c, Receive(c, s, f, now)) && Receive(c, s, f, now).overflowed == s.overflowed
  {
    hide Sound, ProcessAck, Deliver;
    AckIsSound(c, s, f.ack);
    DeliverIsSound(c, ProcessAck(c, s, f.ack), f, now);
  }

  lemma {:induction false} ReadAllIsSound(c: Config, s: Endpoint, now: int)
    requires Sound(c, s)
    ensures Sound(c, ReadAll(c, s, now)) && ReadAll(c, s, now).overflowed == s.overflowed
    decreases |s.held|
  {
    hide TakeFrame, Receive, Edges, QueuedBytes, ReadAll;
    ReadAllUnfolds(c, s, now);
    TakingShrinks(s.held);
    if TakeFrame(s.held).Some? {
      var (f, rest) := TakeFrame(s.held).value;
      ReceiveIsSound(c, s.(held := rest), f, now);
      ReceiveKeepsHeld(c, s.(held := rest), f, now);
      ReadAllIsSound(c, Receive(c, s.(held := rest), f, now), now);
    }
  }

  lemma {:induction false} DisconnectsAppend(a: seq<Frame>, b: seq<Frame>)
    ensures Disconnects(a + b) == Disconnects(a) + Disconnects(b)
  {
    if a == [] {
      assert a + b == b;
    } else {
      DisconnectsAppend(a[1..], b);
      assert (a + b)[1..] == a[1..] + b;
    }
  }

  lemma {:induction false} NoDisconnects(fs: seq<Frame>)
    requires forall k :: 0 <= k < |fs| ==> fs[k].typ != DISCONNECT
    ensures Disconnects(fs) == 0
  {
    if fs != [] {
      NoDisconnects(fs[1..]);
    }
  }

  /** One operation keeps the accounting, and writes a Disconnect exactly when it is the one that abandons. */
  lemma ApplyIsSound(c: Config, s: Endpoint, op: Op)
    requires Sound(c, s)
    ensures var out := Apply(c, s, op);
      && Sound(c, out.ep)
      && Disconnects(out.frames) == (if out.ep.overflowed then 1 else 0) - (if s.overflowed then 1 else 0)
  {
    hide ReadAll, Edges, QueuedBytes, Disconnects, Abandon, Sound, ProcessAck, Deliver;
    match op
    case DoSend(data, now) =>
      SendIsSound(c, s, data, now);
      SendDisconnects(c, s, data, now);
    case DoReplace =>
      ReplaceIsSound(c, s);
    case DoData(chunk, now) =>
      ArriveIsSound(c, s, chunk);
      ReadAllIsSound(c, Arrive(s, chunk), now);
      NoDisconnects([]);
    case DoAcknowledge(ack) =>
      AckIsSound(c, s, ack);
      NoDisconnects([]);
    case DoDeliver(f, now) =>
      DeliverIsSound(c, s, f, now);
      NoDisconnects([]);
    case DoKeepAlive =>
      NoDisconnects(KeepAlive(s).frames);
    case DoAckCheck(now) =>
      AckCheckIsSound(c, s, now);
  }

  lemma SendDisconnects(c: Config, s: Endpoint, data: bytes, now: int)
    ensures var out := Send(c, s, data, now);
      Disconnects(out.frames) == (if out.ep.overflowed then 1 else 0) - (if s.overflowed then 1 else 0)
  {
    var msg := Frame(REGULAR, s.lastId + 1, s.ackIn, data);
    DisconnectsAppend([msg], Abandon(Enqueue(s, data, now)).frames);
    NoDisconnects([msg]);
  }

  lemma ReplaceIsSound(c: Config, s: Endpoint)
    requires Sound(c, s)
    ensures Sound(c, ReplaceSocket(s).ep) && Disconnects(ReplaceSocket(s).frames) == 0
  {
    NoDisconnects(Messages(s.unack));
  }

  lemma ArriveIsSound(c: Config, s: Endpoint, chunk: bytes)
    requires Sound(c, s)
    ensures Sound(c, Arrive(s, chunk))
  {
  }

  lemma AckCheckIsSound(c: Config, s: Endpoint, now: int)
    requires Sound(c, s)
    ensures var out := AckCheck(c, s, now);
      && Sound(c, out.ep)
      && Disconnects(out.frames) == (if out.ep.overflowed then 1 else 0) - (if s.overflowed then 1 else 0)
  {
    hide Edges, QueuedBytes;
    var late := if s.unack != [] && now - s.lastAckTime > ACK_TIMEOUT then Fire(s, SocketClosed) else s;
    EdgesOfFire(s.events, SocketClosed);
    AbandonIsSound(c, late);
    NoDisconnects([]);
  }

  /** Over every run: consecutive ids, an exact byte count within the replay limit, alternating
      notifications, and at most one abandonment. */
  lemma {:induction false} EveryRunIsSound(c: Config, ops: seq<Op>, start: int)
    ensures var out := Run(c, ops, start);
      && Sound(c, out.ep)
      && Disconnects(out.frames) == if out.ep.overflowed then 1 else 0
  {
    if ops != [] {
      hide Apply, Sound, Disconnects;
      EveryRunIsSound(c, ops[..|ops| - 1], start);
      var before := Run(c, ops[..|ops| - 1], start);
      ApplyIsSound(c, before.ep, ops[|ops| - 1]);
      DisconnectsAppend(before.frames, Apply(c, before.ep, ops[|ops| - 1]).frames);
    }
  }

  // ---------- what abandons a session, and when a socket counts as silent ----------

  /** The two causes of giving a session up: a message that takes the queue above the replay limit, and a timer that finds
      the oldest queued message older than the grace time. */
  ghost predicate Cause(c: Config, s: Endpoint, op: Op) {
    match op
    case DoSend(data, _) => QueuedBytes(s.unack) + |data| > c.replayMax
    case DoAckCheck(now) => s.unack != [] && now - s.unack[0].queuedAt > c.replayGrace
    case _ => false
  }

  lemma AbandonsIff(c: Config, s: Endpoint, op: Op)
    requires Sound(c, s)
    ensures Apply(c, s, op).ep.overflowed <==> s.overflowed || Cause(c, s, op)
  {
    hide ReadAll, QueuedBytes, ProcessAck, Deliver, Edges;
    match op
    case DoData(chunk, now) =>
      ArriveIsSound(c, s, chunk);
      ReadAllIsSound(c, Arrive(s, chunk), now);
    case DoAcknowledge(ack) => AckIsSound(c, s, ack);
    case DoDeliver(f, now) => DeliverIsSound(c, s, f, now);
    case _ =>
  }

  /** Exactly when a sender is saturated after an operation: a message saturates it that takes the queue above the high mark
      and not above the replay limit, and an acknowledgement relieves it that leaves no more than the low mark. */
  lemma SaturatesIff(c: Config, s: Endpoint, op: Op)
    requires Sound(c, s) && !op.DoData?
    ensures Apply(c, s, op).ep.saturated <==>
      match op
      case DoSend(data, _) => s.saturated || c.highWater < QueuedBytes(s.unack) + |data| <= c.replayMax
      case DoAcknowledge(ack) => s.saturated && QueuedBytes(Apply(c, s, op).ep.unack) > c.lowWater
      case _ => s.saturated
  {
    hide ReadAll, QueuedBytes, DropAcked, Edges;
    if op.DoAcknowledge? {
      DroppingAccounts(s, op.ack);
    }
  }

  ghost predicate CausedAt(c: Config, ops: seq<Op>, start: int, k: nat)
    requires k < |ops|
  {
    Cause(c, Run(c, ops[..k], start).ep, ops[k])
  }

  lemma CausedOneMore(c: Config, ops: seq<Op>, start: int)
    requires ops != []
    ensures var n := |ops| - 1;
      (exists k :: 0 <= k < |ops| && CausedAt(c, ops, start, k))
        <==> (exists k :: 0 <= k < n && CausedAt(c, ops[..n], start, k)) || CausedAt(c, ops, start, n)
  {
    hide Run, Cause;
    var n := |ops| - 1;
    forall k | 0 <= k < n ensures CausedAt(c, ops[..n], start, k) <==> CausedAt(c, ops, start, k) {
      assert ops[..n][..k] == ops[..k];
    }
  }

  /** Over every run: a session is given up, and the one Disconnect frame written, if and only if one of the two causes
      has occurred. */
  lemma {:induction false} AbandonedIffCaused(c: Config, ops: seq<Op>, start: int)
    ensures var out := Run(c, ops, start);
      && (out.ep.overflowed <==> exists k :: 0 <= k < |ops| && CausedAt(c, ops, start, k))
      && Disconnects(out.frames) == if out.ep.overflowed then 1 else 0
  {
    EveryRunIsSound(c, ops, start);
    if ops != [] {
      hide Apply, Sound, Cause, Disconnects;
      var n := |ops| - 1;
      AbandonedIffCaused(c, ops[..n], start);
      EveryRunIsSound(c, ops[..n], start);
      AbandonsIff(c, Run(c, ops[..n], start).ep, ops[n]);
      CausedOneMore(c, ops, start);
    }
  }

  /** When the last frame was handled: the start, if there was none. */
  function LastHeard(c: Config, ops: seq<Op>, start: int): int {
    if ops == [] then start
    else
      var before := ops[..|ops| - 1];
      match ops[|ops| - 1]
      case DoDeliver(_, now) => now
      case DoData(chunk, now) =>
        if TakeFrame(Run(c, before, start).ep.held + chunk) == None then LastHeard(c, before, start) else now
      case _ => LastHeard(c, before, start)
  }

  lemma {:induction false} ReadingIsHeard(c: Config, s: Endpoint, now: int)
    ensures ReadAll(c, s, now).lastAckTime == if TakeFrame(s.held) == None then s.lastAckTime else now
    decreases |s.held|
  {
    hide TakeFrame, ReadAll, ProcessAck;
    ReadAllUnfolds(c, s, now);
    TakingShrinks(s.held);
    if TakeFrame(s.held).Some? {
      var (f, rest) := TakeFrame(s.held).value;
      ReceiveKeepsHeld(c, s.(held := rest), f, now);
      ReadingIsHeard(c, Receive(c, s.(held := rest), f, now), now);
    }
  }

  lemma {:induction false} HeardAtLast(c: Config, ops: seq<Op>, start: int)
    ensures Run(c, ops, start).ep.lastAckTime == LastHeard(c, ops, start)
  {
    if ops != [] {
      hide TakeFrame, ReadAll, DropAcked;
      HeardAtLast(c, ops[..|ops| - 1], start);
      var s := Run(c, ops[..|ops| - 1], start).ep;
      match ops[|ops| - 1]
      case DoData(chunk, now) => ReadingIsHeard(c, Arrive(s, chunk), now);
      case DoAcknowledge(ack) =>
        var _ := DropAckedFrame(s, ack);
      case _ =>
    }
  }

  /** Over every run: the timer reports the socket as silent if and only if something is queued and the last frame, or
      the start, was more than 20 seconds ago. */
  lemma {:induction false} SilenceIsReportedIff(c: Config, ops: seq<Op>, start: int, now: int)
    ensures var s := Run(c, ops, start).ep;
      var t := Apply(c, s, DoAckCheck(now)).ep;
      if s.unack != [] && now - LastHeard(c, ops, start) > 20000 then s.events + [SocketClosed] <= t.events
      else SocketClosed !in t.events[|s.events|..]
  {
    hide Run, LastHeard;
    HeardAtLast(c, ops, start);
  }

  // ---------- the water marks ----------

  /** The water marks mean what they say over all runs exactly when the options are orderly: with the low
      mark above the high one, a single message can saturate the sender below its own low mark. */
  lemma {:induction false} WaterMarksHoldIff(c: Config)
    ensures (forall ops, start :: WaterMarksHold(c, Run(c, ops, start).ep)) <==> Orderly(c)
  {
    if Orderly(c) {
      forall ops, start ensures WaterMarksHold(c, Run(c, ops, start).ep) {
        EveryRunIsSound(c, ops, start);
      }
    } else {
      var ops, start := OneLargeMessage(c);
      assert !WaterMarksHold(c, Run(c, ops, start).ep);
    }
  }

  /** In particular they do whenever the low mark is left to its default. */
  lemma MarksHoldByDefault(high: Option<nat>, max: Option<nat>, grace: Option<nat>, ops: seq<Op>, start: int)
    ensures var c := Configured(high, None, max, grace); WaterMarksHold(c, Run(c, ops, start).ep)
  {
    hide Run;
    WaterMarksHoldIff(Configured(high, None, max, grace));
  }

  lemma OneLargeMessage(c: Config) returns (ops: seq<Op>, start: int)
    requires !Orderly(c)
    ensures !WaterMarksHold(c, Run(c, ops, start).ep)
  {
    var data: bytes := seq(c.highWater + 1, _ => 0);
    ops, start := [DoSend(data, 0)], 0;
    assert ops[..0] == [];
    assert Run(c, ops[..0], start).ep == Fresh(start);
    var s := Run(c, ops, start).ep;
    assert s == Send(c, Fresh(start), data, 0).ep;
    assert s.saturated && s.unackBytes == c.highWater + 1;
  }
}
