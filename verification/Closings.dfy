/** When a session counts as closed: exactly when it was given up here, or the other side's Disconnect frame has been
    read (packages/rpc/src/persistent-protocol.ts:149-249, 264-275). */
module Closings {
  import opened Buffers
  import opened Options
  import opened Frames
  import opened Endpoints
  import opened Networks
  import opened NetworkSteps
  import B = BackPressure
  import Reconnects
  import Repetitions

  function Closes(events: seq<Event>): nat {
    if events == [] then 0 else Closes(events[..|events| - 1]) + if events[|events| - 1] == Closed then 1 else 0
  }

  /** The Disconnect frames on a pipe, among those that have been read or among all. */
  function DisconnectsOn(p: Pipe, read: bool): nat {
    B.Disconnects(if read && p.seen <= |p.frames| then p.frames[..p.seen] else p.frames)
  }

  function Total(pipes: seq<Pipe>, read: bool): nat {
    if pipes == [] then 0 else Total(pipes[..|pipes| - 1], read) + DisconnectsOn(pipes[|pipes| - 1], read)
  }

  function One(b: bool): nat {
    if b then 1 else 0
  }

  function InHandCloses(r: Side): nat {
    match r.hand
    case Some(InHand(f, _)) => One(f.typ == DISCONNECT)
    case None => 0
  }

  /** A side has written one Disconnect if it gave up and none otherwise, and has announced the end of the session once for
      that and once for every Disconnect it has read. */
  ghost predicate CloseOk(r: Side, out: seq<Pipe>, back: seq<Pipe>) {
    && Total(out, false) == One(r.ep.overflowed)
    && Closes(r.ep.events) + InHandCloses(r) == One(r.ep.overflowed) + Total(back, true)
  }

  // ---------- counting ----------

  lemma ClosesOfOneMore(events: seq<Event>, e: Event)
    ensures Closes(events + [e]) == Closes(events) + One(e == Closed)
  {
    assert (events + [e])[..|events|] == events;
  }

  lemma {:induction false} TotalUpdate(pipes: seq<Pipe>, c: nat, q: Pipe, read: bool)
    requires c < |pipes|
    ensures Total(pipes[c := q], read) + DisconnectsOn(pipes[c], read) == Total(pipes, read) + DisconnectsOn(q, read)
    decreases |pipes|
  {
    hide DisconnectsOn;
    var before := pipes[..|pipes| - 1];
    if c == |pipes| - 1 {
      assert pipes[c := q][..|pipes| - 1] == before;
    } else {
      TotalUpdate(before, c, q, read);
      assert pipes[c := q][..|pipes| - 1] == before[c := q];
    }
  }

  lemma GrowingCounts(pipes: seq<Pipe>, c: nat, read: bool)
    ensures Total(Grow(pipes, c), read) == Total(pipes, read)
  {
    if c == |pipes| {
      assert (pipes + [UNUSED])[..|pipes|] == pipes;
      assert UNUSED.frames[..0] == [];
    }
  }

  lemma {:induction false} ReadAreWritten(pipes: seq<Pipe>)
    ensures Total(pipes, true) <= Total(pipes, false)
  {
    if pipes != [] {
      var p := pipes[|pipes| - 1];
      ReadAreWritten(pipes[..|pipes| - 1]);
      if p.seen <= |p.frames| {
        B.DisconnectsAppend(p.frames[..p.seen], p.frames[p.seen..]);
        assert p.frames[..p.seen] + p.frames[p.seen..] == p.frames;
      }
    }
  }

  // ---------- every step ----------

  /** An operation announces the end of the session as often as it writes a Disconnect: once if it gives up. */
  ghost predicate ClosesAsItWrites(s: Endpoint, o: Out) {
    && Closes(o.ep.events) == Closes(s.events) + B.Disconnects(o.frames)
    && One(o.ep.overflowed) == One(s.overflowed) + B.Disconnects(o.frames)
  }

  lemma AbandonCloses(s: Endpoint)
    ensures ClosesAsItWrites(s, Abandon(s))
  {
    hide Closes;
    ClosesOfOneMore(s.events, Closed);
    OneFrame(Frame(DISCONNECT, 0, s.ackIn, []));
  }

  lemma SendCloses(c: Config, s: Endpoint, data: bytes, now: int)
    ensures ClosesAsItWrites(s, Send(c, s, data, now))
  {
    hide Closes, Abandon, B.Disconnects;
    var queued, msg := Enqueue(s, data, now), Frame(REGULAR, s.lastId + 1, s.ackIn, data);
    AbandonCloses(queued);
    B.NoDisconnects([msg]);
    B.DisconnectsAppend([msg], Abandon(queued).frames);
    ClosesOfOneMore(s.events, Saturated);
  }

  lemma AckCheckCloses(c: Config, s: Endpoint, now: int)
    ensures ClosesAsItWrites(s, AckCheck(c, s, now))
  {
    hide Closes, Abandon, B.Disconnects;
    AbandonCloses(s);
    AbandonCloses(Fire(s, SocketClosed));
    ClosesOfOneMore(s.events, SocketClosed);
    B.NoDisconnects([]);
  }

  lemma WritingKeepsCloses(n: Net, o: Out)
    requires Shape(n) && NetOk(n) && CloseOk(n.a, n.ab, n.ba) && CloseOk(n.b, n.ba, n.ab)
    requires ClosesAsItWrites(n.a.ep, o)
    ensures var m := Writing(n, o); CloseOk(m.a, m.ab, m.ba) && CloseOk(m.b, m.ba, m.ab)
  {
    hide Closes, Total, B.Disconnects, QueueOk, CurrentOk, AcksOk, FiredOk, HandOk, HeldOk, UnheardOk, Top;
    var p := n.ab[n.a.conn];
    assert PipeOk(p, n.a.sent, Reach(n.b));
    var q := p.(frames := p.frames + o.frames);
    B.DisconnectsAppend(p.frames, o.frames);
    assert q.frames[..p.seen] == p.frames[..p.seen];
    TotalUpdate(n.ab, n.a.conn, q, true);
    TotalUpdate(n.ab, n.a.conn, q, false);
  }

  lemma RebindingKeepsCloses(n: Net, c: nat)
    requires Shape(n) && NetOk(n) && CloseOk(n.a, n.ab, n.ba) && CloseOk(n.b, n.ba, n.ab)
    requires c <= |n.ab| && (c < |n.ab| ==> !n.ab[c].joined)
    ensures var m := Rebinding(n, c); CloseOk(m.a, m.ab, m.ba) && CloseOk(m.b, m.ba, m.ab)
  {
    hide Closes, Total, B.Disconnects, CurrentOk, AcksOk, FiredOk, HandOk, HeldOk, UnheardOk, Top, Labelled;
    var m, grown := Rebinding(n, c), Grow(n.ab, c);
    assert c < |n.ab| ==> PipeOk(n.ab[c], n.a.sent, Reach(n.b));
    assert grown[c].frames == [] && grown[c].seen == 0;
    B.NoDisconnects([]);
    B.NoDisconnects(m.ab[c].frames);
    assert m.ab[c].frames[..0] == [] && grown[c].frames[..0] == [];
    TotalUpdate(grown, c, m.ab[c], true);
    TotalUpdate(grown, c, m.ab[c], false);
    GrowingCounts(n.ab, c, true);
    GrowingCounts(n.ab, c, false);
    GrowingCounts(n.ba, c, true);
    GrowingCounts(n.ba, c, false);
  }

  lemma ReceivingKeepsCloses(n: Net, count: nat)
    requires Shape(n) && CloseOk(n.a, n.ab, n.ba) && CloseOk(n.b, n.ba, n.ab)
    requires n.ba[n.a.conn].arrived + count <= |EncodeAll(n.ba[n.a.conn].frames)|
    ensures var m := Receiving(n, count); CloseOk(m.a, m.ab, m.ba) && CloseOk(m.b, m.ba, m.ab)
  {
    hide Closes, Total, B.Disconnects, EncodeAll;
    var m := Receiving(n, count);
    TotalUpdate(n.ba, n.a.conn, m.ba[n.a.conn], true);
    TotalUpdate(n.ba, n.a.conn, m.ba[n.a.conn], false);
  }

  lemma AcksDoNotClose(c: Config, s: Endpoint, ack: nat)
    ensures Closes(ProcessAck(c, s, ack).events) == Closes(s.events) && ProcessAck(c, s, ack).overflowed == s.overflowed
  {
    hide Closes, DropAcked;
    var _ := DropAckedFrame(s, ack);
    ClosesOfOneMore(s.events, Drained);
  }

  lemma TakingKeepsCloses(c: Config, n: Net, f: Frame, rest: bytes)
    requires Shape(n) && NetOk(n) && CloseOk(n.a, n.ab, n.ba) && CloseOk(n.b, n.ba, n.ab)
    requires n.a.hand == None && TakeFrame(n.a.ep.held) == Some((f, rest))
    ensures var m := Taking(c, n, f, rest); CloseOk(m.a, m.ab, m.ba) && CloseOk(m.b, m.ba, m.ab)
  {
    hide Closes, Total, B.Disconnects, TakeFrame, NetOk, ProcessAck, Next;
    Reconnects.SomethingIsNext(n);
    var p := n.ba[n.a.conn];
    var q := p.(seen := p.seen + 1);
    assert p.frames[..p.seen + 1] == p.frames[..p.seen] + [p.frames[p.seen]];
    B.DisconnectsAppend(p.frames[..p.seen], [p.frames[p.seen]]);
    assert B.Disconnects([p.frames[p.seen]]) == One(f.typ == DISCONNECT) by { OneFrame(p.frames[p.seen]); }
    TotalUpdate(n.ba, n.a.conn, q, true);
    TotalUpdate(n.ba, n.a.conn, q, false);
    AcksDoNotClose(c, n.a.ep.(held := rest), f.ack);
  }

  lemma OneFrame(f: Frame)
    ensures B.Disconnects([f]) == One(f.typ == DISCONNECT)
  {
    assert [f][1..] == [];
  }

  lemma DeliveringKeepsCloses(n: Net, now: int)
    requires CloseOk(n.a, n.ab, n.ba) && CloseOk(n.b, n.ba, n.ab)
    ensures var m := HandedOver(n, now); CloseOk(m.a, m.ab, m.ba) && CloseOk(m.b, m.ba, m.ab)
  {
    hide Closes, Total;
    match n.a.hand
    case Some(InHand(f, id)) =>
      ClosesOfOneMore(n.a.ep.events, Message(f.data));
      ClosesOfOneMore(n.a.ep.events, Closed);
    case None =>
  }

  lemma StepOfAKeepsCloses(c: Config, n: Net, op: Op)
    requires Shape(n) && NetOk(n) && CloseOk(n.a, n.ab, n.ba) && CloseOk(n.b, n.ba, n.ab)
    ensures var m := StepOfA(c, n, op); CloseOk(m.a, m.ab, m.ba) && CloseOk(m.b, m.ba, m.ab)
  {
    hide CloseOk, TakeFrame, EncodeAll, NetOk, Send, AckCheck, ClosesAsItWrites;
    if Enabled(n, op) {
      match op
      case Sending(data, now) =>
        SendCloses(c, n.a.ep, data, now);
        SendingKeepsCloses(n, data, Send(c, n.a.ep, data, now));
      case Replacing(conn) => RebindingKeepsCloses(n, conn);
      case Arriving(count) => ReceivingKeepsCloses(n, count);
      case Acknowledging =>
        var (f, rest) := TakeFrame(n.a.ep.held).value;
        TakingKeepsCloses(c, n, f, rest);
      case Delivering(now) => DeliveringKeepsCloses(n, now);
      case KeepingAlive =>
        KeepAliveCloses(n.a.ep);
        WritingKeepsCloses(n, KeepAlive(n.a.ep));
      case Checking(now) =>
        AckCheckCloses(c, n.a.ep, now);
        WritingKeepsCloses(n, AckCheck(c, n.a.ep, now));
    }
  }

  lemma KeepAliveCloses(s: Endpoint)
    ensures ClosesAsItWrites(s, KeepAlive(s))
  {
    B.NoDisconnects(KeepAlive(s).frames);
  }

  lemma SendingKeepsCloses(n: Net, data: bytes, o: Out)
    requires Shape(n) && NetOk(n) && CloseOk(n.a, n.ab, n.ba) && CloseOk(n.b, n.ba, n.ab) && ClosesAsItWrites(n.a.ep, o)
    ensures var m := Writing(n.(a := n.a.(sent := n.a.sent + [data])), o); CloseOk(m.a, m.ab, m.ba) && CloseOk(m.b, m.ba, m.ab)
  {
    hide Closes, Total, NetOk, ClosesAsItWrites;
    WritingKeepsCloses(n, o);
  }

  lemma {:induction false} EveryRunCloses(ca: Config, cb: Config, acts: seq<Act>, now: int)
    ensures var n := Run(ca, cb, acts, now); CloseOk(n.a, n.ab, n.ba) && CloseOk(n.b, n.ba, n.ab)
  {
    if acts == [] {
      NothingClosed(now);
    } else {
      hide StepOfA, NetOk, CloseOk;
      EveryRunCloses(ca, cb, acts[..|acts| - 1], now);
      EveryRunIsOk(ca, cb, acts[..|acts| - 1], now);
      var n, act := Run(ca, cb, acts[..|acts| - 1], now), acts[|acts| - 1];
      if act.byA {
        StepOfAKeepsCloses(ca, n, act.op);
      } else {
        Repetitions.SwapKeepsOk(n);
        StepOfAKeepsCloses(cb, Swap(n), act.op);
      }
    }
  }

  lemma NothingClosed(now: int)
    ensures var n := Start(now); CloseOk(n.a, n.ab, n.ba) && CloseOk(n.b, n.ba, n.ab)
  {
    var p := Pipe(true, 1, [], 0, 0);
    assert [p][..0] == [] && p.frames[..0] == [];
  }

  /** Over every run, whatever happens to the sockets: a side announces the end of the session once if it gives up itself
      and once if it reads that the other side did, and never otherwise.  The Disconnect of the other side is read at most
      once, and only if it was written. */
  lemma {:induction false} ClosedIff(ca: Config, cb: Config, acts: seq<Act>, now: int)
    ensures var n := Run(ca, cb, acts, now);
      && Closes(n.a.ep.events) + InHandCloses(n.a) == One(n.a.ep.overflowed) + Total(n.ba, true)
      && Total(n.ba, true) <= Total(n.ba, false) == One(n.b.ep.overflowed)
      && Closes(n.b.ep.events) + InHandCloses(n.b) == One(n.b.ep.overflowed) + Total(n.ab, true)
      && Total(n.ab, true) <= Total(n.ab, false) == One(n.a.ep.overflowed)
  {
    hide Run, Closes, Total;
    EveryRunCloses(ca, cb, acts, now);
    var n := Run(ca, cb, acts, now);
    ReadAreWritten(n.ab);
    ReadAreWritten(n.ba);
  }
}
