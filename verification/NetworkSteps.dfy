/** Every step of two connected endpoints keeps the invariant of both directions
    (packages/rpc/src/persistent-protocol.ts:108-275). */
module NetworkSteps {
  import opened Buffers
  import opened Options
  import opened Frames
  import opened Endpoints
  import opened Networks

  // ---------- small facts ----------

  lemma RegularsOfOneMore(fs: seq<Frame>, f: Frame)
    ensures Regulars(fs + [f]) == Regulars(fs) + if f.typ == REGULAR then 1 else 0
  {
    assert (fs + [f])[..|fs|] == fs;
  }

  lemma {:induction false} RegularsOfAll(fs: seq<Frame>)
    requires forall k :: 0 <= k < |fs| ==> fs[k].typ == REGULAR
    ensures Regulars(fs) == |fs|
  {
    if fs != [] {
      RegularsOfAll(fs[..|fs| - 1]);
    }
  }

  lemma TopOfOneMore(fired: seq<nat>, id: nat)
    ensures Top(fired + [id]) == Max(Top(fired), id)
  {
    assert (fired + [id])[..|fired|] == fired;
  }

  lemma BodiesOfFire(events: seq<Event>, e: Event)
    ensures Bodies(events + [e]) == Bodies(events) + match e case Message(body) => [body] case _ => []
  {
    assert (events + [e])[..|events|] == events;
  }

  lemma EncodedPrefix(fs: seq<Frame>, k: nat)
    requires k < |fs|
    ensures |EncodeAll(fs[..k + 1])| == |EncodeAll(fs[..k])| + |Encode(fs[k])| <= |EncodeAll(fs)|
    ensures EncodeAll(fs)[|EncodeAll(fs[..k])|..] == Encode(fs[k]) + EncodeAll(fs[k + 1..])
  {
    hide Encode;
    EncodeAllAppend(fs[..k], fs[k..]);
    assert fs[..k] + fs[k..] == fs;
    assert fs[k..][1..] == fs[k + 1..];
    EncodeAllAppend(fs[..k], [fs[k]]);
    assert fs[..k] + [fs[k]] == fs[..k + 1];
    EncodeOneThen(fs[k], []);
  }

  lemma SteadyPrefix(fired: seq<nat>, n: nat)
    requires Steady(fired) && n <= |fired|
    ensures Steady(fired[..n])
  {
    var before := fired[..n];
    forall j | 0 <= j < |before| ensures StepAt(before, j) {
      assert before[..j] == fired[..j];
      assert StepAt(fired, j);
    }
  }

  lemma SteadyOneMore(fired: seq<nat>, id: nat)
    requires Steady(fired) && 1 <= id <= Top(fired) + 1
    ensures Steady(fired + [id])
  {
    hide Top;
    var more := fired + [id];
    forall j | 0 <= j < |more| ensures StepAt(more, j) {
      assert more[..j] == fired[..j];
      if j < |fired| {
        assert StepAt(fired, j);
      } else {
        assert fired[..j] == fired;
      }
    }
  }

  /** A log that never jumps ahead by more than one contains every id up to its highest. */
  lemma {:induction false} NoGaps(fired: seq<nat>)
    requires Steady(fired)
    ensures forall id :: id in fired <==> 1 <= id <= Top(fired)
  {
    if fired != [] {
      var before, last := fired[..|fired| - 1], fired[|fired| - 1];
      SteadyPrefix(fired, |fired| - 1);
      NoGaps(before);
      assert StepAt(fired, |fired| - 1);
      assert fired == before + [last];
    }
  }

  // ---------- a side writes ----------

  lemma LabelsOfOneMore(fs: seq<Frame>, f: Frame, base: nat, sent: seq<bytes>)
    requires forall m :: 0 <= m < |fs| ==> Labelled(fs, base, sent, m)
    requires Sendable(f) && (f.typ == REGULAR ==> Carries(f, sent, base + Regulars(fs)))
    ensures forall m :: 0 <= m < |fs + [f]| ==> Labelled(fs + [f], base, sent, m)
  {
    hide Regulars, Carries;
    forall m | 0 <= m < |fs + [f]| ensures Labelled(fs + [f], base, sent, m) {
      if m < |fs| {
        assert Labelled(fs, base, sent, m);
        assert (fs + [f])[..m] == fs[..m];
      } else {
        assert (fs + [f])[..m] == fs;
      }
    }
  }

  lemma PipeTakesFrame(p: Pipe, f: Frame, sent: seq<bytes>, top: nat)
    requires PipeOk(p, sent, top) && p.joined
    requires Sendable(f) && (f.typ == REGULAR ==> Carries(f, sent, p.base + Regulars(p.frames)))
    ensures PipeOk(p.(frames := p.frames + [f]), sent, top)
  {
    hide Regulars, Labelled, Carries;
    LabelsOfOneMore(p.frames, f, p.base, sent);
    assert (p.frames + [f])[..p.seen] == p.frames[..p.seen];
  }

  lemma PipesTakeFrame(out: seq<Pipe>, conn: nat, f: Frame, sent: seq<bytes>, top: nat)
    requires conn < |out| && PipesOk(out, sent, top) && out[conn].joined
    requires Sendable(f) && (f.typ == REGULAR ==> Carries(f, sent, out[conn].base + Regulars(out[conn].frames)))
    ensures PipesOk(Append(out, conn, [f]), sent, top)
  {
    hide PipeOk, Regulars, Carries;
    PipeTakesFrame(out[conn], f, sent, top);
  }

  lemma HeldAfterAppend(out: seq<Pipe>, conn: nat, frames: seq<Frame>, r: Side)
    requires conn < |out| && HeldOk(out, r)
    ensures HeldOk(Append(out, conn, frames), r)
  {
    hide EncodeAll;
    if conn == r.conn {
      var p := out[conn];
      EncodeAllAppend(p.frames, frames);
      assert (p.frames + frames)[..p.seen] == p.frames[..p.seen];
    }
  }

  lemma AppendTwice(out: seq<Pipe>, conn: nat, f: Frame, g: seq<Frame>)
    requires conn < |out|
    ensures Append(Append(out, conn, [f]), conn, g) == Append(out, conn, [f] + g)
  {
    assert out[conn].frames + [f] + g == out[conn].frames + ([f] + g);
  }

  /** A frame that is not Regular goes onto the current pipe. */
  lemma SenderWritesControl(s: Side, ep: Endpoint, out: seq<Pipe>, r: Side, back: seq<Pipe>, f: Frame)
    requires DirOk(s, out, r, back)
    requires ep.lastId == s.ep.lastId && ep.unack == s.ep.unack
    requires f.typ != REGULAR && Sendable(f)
    ensures DirOk(s.(ep := ep), Append(out, s.conn, [f]), r, back)
  {
    hide PipeOk, EncodeAll, Regulars, Top, AcksOk, FiredOk, HeldOk, HandOk, Reach;
    PipesTakeFrame(out, s.conn, f, s.sent, Reach(r));
    HeldAfterAppend(out, s.conn, [f], r);
    RegularsOfOneMore(out[s.conn].frames, f);
  }

  lemma SenderUntouched(s: Side, ep: Endpoint, out: seq<Pipe>, r: Side, back: seq<Pipe>)
    requires DirOk(s, out, r, back)
    requires ep.lastId == s.ep.lastId && ep.unack == s.ep.unack
    ensures DirOk(s.(ep := ep), Append(out, s.conn, []), r, back)
  {
    assert out[s.conn].frames + [] == out[s.conn].frames;
    assert Append(out, s.conn, []) == out;
  }

  /** The receiving direction of a side that writes frames: only its acknowledgement numbers matter. */
  lemma ReceiverWrites(s: Side, out: seq<Pipe>, r: Side, ep: Endpoint, sent: seq<bytes>, back: seq<Pipe>, frames: seq<Frame>)
    requires DirOk(s, out, r, back) && r.conn < |back| && back[r.conn].joined
    requires ep.held == r.ep.held && ep.ackIn == r.ep.ackIn && Bodies(ep.events) == Bodies(r.ep.events)
    requires forall j :: 0 <= j < |ep.unack| ==> ep.unack[j].msg.ack <= Top(r.fired)
    requires forall m :: 0 <= m < |frames| ==> frames[m].ack <= Top(r.fired)
    ensures DirOk(s, out, r.(ep := ep, sent := sent), Append(back, r.conn, frames))
  {
    hide Top, PipeOk, EncodeAll, Bodies, Regulars, QueueOk;
    assert Reach(r.(ep := ep, sent := sent)) == Reach(r);
  }

  // ---------- send ----------

  lemma PipesUnderLongerLog(out: seq<Pipe>, sent: seq<bytes>, data: bytes, top: nat)
    requires PipesOk(out, sent, top)
    ensures PipesOk(out, sent + [data], top)
  {
    hide Regulars;
    forall c | 0 <= c < |out| ensures PipeOk(out[c], sent + [data], top) {
      var p := out[c];
      assert PipeOk(p, sent, top);
      forall m | 0 <= m < |p.frames| ensures Labelled(p.frames, p.base, sent + [data], m) {
        assert Labelled(p.frames, p.base, sent, m);
      }
    }
  }

  lemma FiredUnderLongerLog(r: Side, sent: seq<bytes>, data: bytes)
    requires FiredOk(r, sent) && HandOk(r, sent)
    ensures FiredOk(r, sent + [data]) && HandOk(r, sent + [data])
  {
    hide Top, Bodies;
  }

  lemma QueueTakesMessage(s: Side, data: bytes, now: int, top: nat)
    requires QueueOk(s, top) && |data| < TWO_TO_32
    ensures QueueOk(s.(sent := s.sent + [data], ep := Enqueue(s.ep, data, now)), top)
  {
  }

  lemma SenderQueues(s: Side, data: bytes, now: int, out: seq<Pipe>, r: Side, back: seq<Pipe>)
    requires DirOk(s, out, r, back) && |data| < TWO_TO_32
    ensures s.conn < |out|
    ensures DirOk(s.(sent := s.sent + [data], ep := Enqueue(s.ep, data, now)),
                  Append(out, s.conn, [Frame(REGULAR, s.ep.lastId + 1, s.ep.ackIn, data)]), r, back)
  {
    hide PipeOk, EncodeAll, Regulars, Top, AcksOk, FiredOk, HeldOk, HandOk, Enqueue, Reach;
    var top := Top(r.fired);
    var msg := Frame(REGULAR, s.ep.lastId + 1, s.ep.ackIn, data);
    PipesUnderLongerLog(out, s.sent, data, Reach(r));
    FiredUnderLongerLog(r, s.sent, data);
    PipesTakeFrame(out, s.conn, msg, s.sent + [data], Reach(r));
    HeldAfterAppend(out, s.conn, [msg], r);
    RegularsOfOneMore(out[s.conn].frames, msg);
    QueueTakesMessage(s, data, now, top);
    assert Enqueue(s.ep, data, now).lastId == s.ep.lastId + 1 by { EnqueueCounts(s.ep, data, now); }
  }

  lemma EnqueueCounts(ep: Endpoint, data: bytes, now: int)
    ensures Enqueue(ep, data, now).lastId == ep.lastId + 1
  {
  }

  /** What `send` does beyond queueing and writing the message: possibly one Disconnect frame. */
  lemma SendShape(c: Config, ep: Endpoint, data: bytes, now: int)
    ensures var out := Send(c, ep, data, now); var queued := Enqueue(ep, data, now);
      var msg := Frame(REGULAR, ep.lastId + 1, ep.ackIn, data);
      && out.ep.lastId == queued.lastId && out.ep.unack == queued.unack
      && out.ep.held == ep.held && out.ep.ackIn == ep.ackIn && Bodies(out.ep.events) == Bodies(ep.events)
      && (out.frames == [msg] + [] || out.frames == [msg] + [Frame(DISCONNECT, 0, ep.ackIn, [])])
  {
    hide Bodies;
    BodiesOfFire(ep.events, Closed);
    BodiesOfFire(ep.events, Saturated);
  }

  lemma SenderSends(c: Config, s: Side, data: bytes, now: int, out: seq<Pipe>, r: Side, back: seq<Pipe>)
    requires s.conn < |out| && DirOk(s, out, r, back) && |data| < TWO_TO_32
    ensures var o := Send(c, s.ep, data, now);
      DirOk(s.(sent := s.sent + [data], ep := o.ep), Append(out, s.conn, o.frames), r, back)
  {
    hide DirOk, Endpoints.Send, Enqueue;
    var msg := Frame(REGULAR, s.ep.lastId + 1, s.ep.ackIn, data);
    var queued := s.(sent := s.sent + [data], ep := Enqueue(s.ep, data, now));
    var o := Endpoints.Send(c, s.ep, data, now);
    var written := Append(out, s.conn, [msg]);
    SenderQueues(s, data, now, out, r, back);
    SendShape(c, s.ep, data, now);
    if o.frames == [msg] + [] {
      SenderUntouched(queued, o.ep, written, r, back);
      AppendTwice(out, s.conn, msg, []);
    } else {
      var gone := Frame(DISCONNECT, 0, s.ep.ackIn, []);
      SenderWritesControl(queued, o.ep, written, r, back, gone);
      AppendTwice(out, s.conn, msg, [gone]);
    }
  }

  lemma SendingKeeps(c: Config, n: Net, data: bytes, now: int)
    requires Shape(n) && NetOk(n) && |data| < TWO_TO_32
    ensures NetOk(StepOfA(c, n, Sending(data, now)))
  {
    hide Endpoints.Send, PipeOk, Regulars, QueueOk, FiredOk, HeldOk, Bodies, Top;
    var o := Endpoints.Send(c, n.a.ep, data, now);
    SenderSends(c, n.a, data, now, n.ab, n.b, n.ba);
    SendShape(c, n.a.ep, data, now);
    assert Enqueue(n.a.ep, data, now).unack == n.a.ep.unack + [Entry(Frame(REGULAR, n.a.ep.lastId + 1, n.a.ep.ackIn, data), now)];
    ReceiverWrites(n.b, n.ba, n.a, o.ep, n.a.sent + [data], n.ab, o.frames);
  }

  /** Timers write at most one control frame carrying the current acknowledgement. */
  lemma ControlKeeps(n: Net, o: Out)
    requires Shape(n) && NetOk(n)
    requires o.ep.lastId == n.a.ep.lastId && o.ep.unack == n.a.ep.unack && o.ep.held == n.a.ep.held
    requires o.ep.ackIn == n.a.ep.ackIn && Bodies(o.ep.events) == Bodies(n.a.ep.events)
    requires o.frames == [] || exists t: byte :: t != REGULAR && o.frames == [Frame(t, 0, n.a.ep.ackIn, [])]
    ensures NetOk(Writing(n, o))
  {
    hide PipeOk, Regulars, QueueOk, FiredOk, HeldOk, Bodies, Top;
    if o.frames == [] {
      SenderUntouched(n.a, o.ep, n.ab, n.b, n.ba);
    } else {
      SenderWritesControl(n.a, o.ep, n.ab, n.b, n.ba, o.frames[0]);
    }
    ReceiverWrites(n.b, n.ba, n.a, o.ep, n.a.sent, n.ab, o.frames);
  }

  lemma TimersKeep(c: Config, n: Net, op: Op)
    requires Shape(n) && NetOk(n) && (op.KeepingAlive? || op.Checking?)
    ensures NetOk(StepOfA(c, n, op))
  {
    hide NetOk, Bodies;
    match op
    case KeepingAlive =>
      ControlKeeps(n, KeepAlive(n.a.ep));
    case Checking(now) =>
      BodiesOfFire(n.a.ep.events, SocketClosed);
      var late := Fire(n.a.ep, SocketClosed);
      BodiesOfFire(n.a.ep.events, Closed);
      BodiesOfFire(late.events, Closed);
      ControlKeeps(n, AckCheck(c, n.a.ep, now));
  }

  // ---------- replaceSocket ----------

  lemma ReplayedLabels(s: Side, top: nat)
    requires QueueOk(s, top)
    ensures var fs := Messages(s.ep.unack); var base := s.ep.lastId - |s.ep.unack| + 1;
      && Regulars(fs) == |fs|
      && forall m :: 0 <= m < |fs| ==> Labelled(fs, base, s.sent, m)
  {
    hide Regulars;
    var fs, base := Messages(s.ep.unack), s.ep.lastId - |s.ep.unack| + 1;
    RegularsOfAll(fs);
    forall m | 0 <= m < |fs| ensures Labelled(fs, base, s.sent, m) {
      RegularsOfAll(fs[..m]);
      assert Carries(s.ep.unack[m].msg, s.sent, base + m);
    }
  }

  lemma ReplayedPipe(s: Side, arrived: nat, top: nat, reach: nat)
    requires QueueOk(s, top) && top <= reach
    ensures var p := Pipe(true, s.ep.lastId - |s.ep.unack| + 1, Messages(s.ep.unack), arrived, 0);
      PipeOk(p, s.sent, reach) && p.base + Regulars(p.frames) == s.ep.lastId + 1
  {
    hide Regulars, Labelled;
    ReplayedLabels(s, top);
    RegularsOfAll([]);
    assert Messages(s.ep.unack)[..0] == [];
  }

  /** Nothing has been read from a pipe on which nothing has arrived. */
  lemma NothingHeld(p: Pipe)
    requires p.arrived == 0 && p.seen == 0
    ensures EncodeAll(p.frames[..p.seen]) == [] && EncodeAll(p.frames)[0..p.arrived] == []
  {
    assert p.frames[..0] == [];
  }

  lemma RebindingAsSender(n: Net, c: nat)
    requires Shape(n) && NetOk(n) && c <= |n.ab| && (c < |n.ab| ==> !n.ab[c].joined)
    ensures var m := Rebinding(n, c); DirOk(m.a, m.ab, m.b, m.ba)
  {
    hide Regulars, Top, Labelled, EncodeAll, FiredOk, HandOk;
    var m, top, reach := Rebinding(n, c), Top(n.b.fired), Reach(n.b);
    var arrived := if c < |n.ab| then n.ab[c].arrived else 0;
    ReplayedPipe(n.a, arrived, top, reach);
    assert c < |n.ab| ==> PipeOk(n.ab[c], n.a.sent, reach);
    assert m.ab[c] == Pipe(true, n.a.ep.lastId - |n.a.ep.unack| + 1, Messages(n.a.ep.unack), arrived, 0);
    assert PipesOk(m.ab, n.a.sent, reach) by {
      hide PipeOk;
      UnusedIsOk(n.a.sent, reach);
    }
    assert CurrentOk(m.a, m.ab);
    assert AcksOk(m.b, m.ba, top);
    if n.b.conn == c {
      NothingHeld(n.ab[c]);
      NothingHeld(m.ab[c]);
    }
    assert HeldOk(m.ab, m.b);
  }

  lemma UnusedIsOk(sent: seq<bytes>, top: nat)
    ensures PipeOk(UNUSED, sent, top)
  {
  }

  lemma RebindingAsReceiver(n: Net, c: nat)
    requires Shape(n) && NetOk(n) && c <= |n.ab| && (c < |n.ab| ==> !n.ab[c].joined)
    ensures var m := Rebinding(n, c); DirOk(m.b, m.ba, m.a, m.ab)
  {
    hide Regulars, Top, Labelled, EncodeAll, QueueOk, PipeOk, Bodies, HandOk;
    var m, top := Rebinding(n, c), Top(n.a.fired);
    assert Reach(m.a) == Reach(n.a);
    UnusedIsOk(n.b.sent, Reach(n.a));
    assert PipesOk(m.ba, n.b.sent, Reach(n.a));
    assert HandOk(m.a, n.b.sent) by { HandSame(n.a, m.a, n.b.sent); }
    assert CurrentOk(m.b, m.ba);
    assert AcksOk(m.a, m.ab, top);
    assert FiredOk(m.a, m.b.sent);
    NothingHeld(m.ba[c]);
    assert HeldOk(m.ba, m.a);
    assert UnheardOk(m.ba, m.ab);
  }

  // ---------- bytes arrive and are consumed ----------

  lemma FiredSame(r: Side, r': Side, sent: seq<bytes>)
    requires FiredOk(r, sent) && r'.fired == r.fired && r'.ep.events == r.ep.events
    ensures FiredOk(r', sent)
  {
  }

  lemma HandSame(r: Side, r': Side, sent: seq<bytes>)
    requires HandOk(r, sent) && r'.fired == r.fired && r'.hand == r.hand
    ensures HandOk(r', sent)
  {
  }

  lemma ReceivingKeeps(n: Net, count: nat)
    requires Shape(n) && NetOk(n)
    requires n.ba[n.a.conn].arrived + count <= |EncodeAll(n.ba[n.a.conn].frames)|
    ensures NetOk(Receiving(n, count))
  {
    hide Regulars, Top, Labelled, EncodeAll, Bodies, FiredOk, HandOk;
    var m, p := Receiving(n, count), n.ba[n.a.conn];
    assert Reach(m.a) == Reach(n.a);
    var from, all := |EncodeAll(p.frames[..p.seen])|, EncodeAll(p.frames);
    assert all[from..p.arrived] + all[p.arrived..p.arrived + count] == all[from..p.arrived + count];
    assert HeldOk(m.ba, m.a);
    assert PipesOk(m.ba, n.b.sent, Reach(n.a));
    FiredSame(n.a, m.a, n.b.sent);
    HandSame(n.a, m.a, n.b.sent);
    assert UnheardOk(m.ba, m.ab);
  }

  /** f is the next unread frame of the pipe as it came over the wire, and `rest` what has arrived behind it. */
  ghost predicate IsNext(p: Pipe, f: Frame, rest: bytes) {
    && p.seen < |p.frames| && p.joined
    && |EncodeAll(p.frames[..p.seen + 1])| <= p.arrived <= |EncodeAll(p.frames)|
    && f == OnWire(p.frames[p.seen])
    && rest == EncodeAll(p.frames)[|EncodeAll(p.frames[..p.seen + 1])|..p.arrived]
  }

  /** The bytes in hand begin with the next unread frame: if that frame is complete, it is the one taken. */
  lemma NextFrameIsTaken(p: Pipe, held: bytes, sent: seq<bytes>, top: nat)
    requires PipeOk(p, sent, top)
    requires |EncodeAll(p.frames[..p.seen])| <= p.arrived <= |EncodeAll(p.frames)|
    requires held == EncodeAll(p.frames)[|EncodeAll(p.frames[..p.seen])|..p.arrived]
    ensures TakeFrame(held).Some? ==> IsNext(p, TakeFrame(held).value.0, TakeFrame(held).value.1)
  {
    hide Encode, TakeFrame, EncodeAll, Regulars, OnWire, Carries;
    if TakeFrame(held) == None {
      return;
    }
    var all, from := EncodeAll(p.frames), |EncodeAll(p.frames[..p.seen])|;
    if p.seen == |p.frames| {
      assert p.frames[..p.seen] == p.frames;
      assert held == [];
      NothingToTakeFromNothing();
      assert false;
    }
    var f := p.frames[p.seen];
    assert Labelled(p.frames, p.base, sent, p.seen);
    EncodedPrefix(p.frames, p.seen);
    assert all[from..] == Encode(f) + EncodeAll(p.frames[p.seen + 1..]);
    if |held| < |Encode(f)| {
      assert held == all[from..][..|held|] == Encode(f)[..|held|];
      TakeCutShort(f, |held|);
      assert false;
    }
    var rest := all[from + |Encode(f)|..p.arrived];
    assert held == Encode(f) + rest by {
      assert held == all[from..][..|held|];
    }
    TakeEncoded(f, rest);
  }

  lemma NothingToTakeFromNothing()
    ensures TakeFrame([]) == None
  {
  }

  lemma {:induction false} DropAckedDrops(s: Side, ack: nat, top: nat)
    requires QueueOk(s, top) && ack <= top
    ensures QueueOk(s.(ep := DropAcked(s.ep, ack)), top)
    ensures var d := DropAcked(s.ep, ack); d == s.ep.(unack := d.unack, unackBytes := d.unackBytes)
    ensures forall j :: 0 <= j < |DropAcked(s.ep, ack).unack| ==> DropAcked(s.ep, ack).unack[j] in s.ep.unack
    decreases |s.ep.unack|
  {
    if s.ep.unack != [] && s.ep.unack[0].msg.id <= ack {
      assert Carries(s.ep.unack[0].msg, s.sent, s.ep.lastId - |s.ep.unack| + 1);
      var next := s.ep.(unack := s.ep.unack[1..], unackBytes := s.ep.unackBytes - |s.ep.unack[0].msg.data|);
      DropAckedDrops(s.(ep := next), ack, top);
    }
  }

  /** What processing an acknowledgement does to the endpoint, in the terms of the invariant. */
  lemma AckShape(c: Config, s: Side, ack: nat, top: nat)
    requires QueueOk(s, top) && ack <= top
    ensures var ep := ProcessAck(c, s.ep, ack);
      && QueueOk(s.(ep := ep), top)
      && ep.lastId == s.ep.lastId && ep.held == s.ep.held && ep.ackIn == s.ep.ackIn
      && Bodies(ep.events) == Bodies(s.ep.events)
      && forall j :: 0 <= j < |ep.unack| ==> ep.unack[j] in s.ep.unack
  {
    hide Bodies, DropAcked;
    DropAckedDrops(s, ack, top);
    BodiesOfFire(s.ep.events, Drained);
  }

  /** What handing a frame over does to the endpoint. */
  lemma DeliverShape(ep: Endpoint, f: Frame, now: int)
    ensures var d := Deliver(ep, f, now);
      && d.lastId == ep.lastId && d.unack == ep.unack && d.held == ep.held
      && d.ackIn == (if f.typ == REGULAR then f.id else ep.ackIn)
      && Bodies(d.events) == Bodies(ep.events) + (if f.typ == REGULAR then [f.data] else [])
  {
    hide Bodies;
    BodiesOfFire(ep.events, Message(f.data));
    BodiesOfFire(ep.events, Closed);
  }

  lemma ReceivedMessageIsNext(p: Pipe, sent: seq<bytes>, top: nat)
    requires PipeOk(p, sent, top) && p.joined && p.seen < |p.frames|
    ensures var f := p.frames[p.seen]; var top' := if f.typ == REGULAR then Max(top, f.id) else top;
      && PipeOk(p.(seen := p.seen + 1), sent, top')
      && (f.typ == REGULAR ==> f.id <= top + 1 && Carries(f, sent, f.id))
  {
    hide Regulars;
    var f := p.frames[p.seen];
    assert Labelled(p.frames, p.base, sent, p.seen);
    assert p.frames[..p.seen + 1] == p.frames[..p.seen] + [f];
    RegularsOfOneMore(p.frames[..p.seen], f);
  }

  lemma PipesUnderHigherTop(out: seq<Pipe>, sent: seq<bytes>, top: nat, top': nat)
    requires PipesOk(out, sent, top) && top <= top'
    ensures PipesOk(out, sent, top')
  {
    hide Regulars, Labelled;
    forall c | 0 <= c < |out| ensures PipeOk(out[c], sent, top') {
      assert PipeOk(out[c], sent, top);
    }
  }

  lemma FiredOneMore(r: Side, r': Side, sent: seq<bytes>, f: Frame, id: nat)
    requires FiredOk(r, sent)
    requires f.typ == REGULAR ==> 1 <= id <= Top(r.fired) + 1 && id <= |sent| && f.data == sent[id - 1]
    requires r'.fired == r.fired + if f.typ == REGULAR then [id] else []
    requires Bodies(r'.ep.events) == Bodies(r.ep.events) + if f.typ == REGULAR then [f.data] else []
    ensures FiredOk(r', sent)
  {
    hide Top, Bodies, Steady;
    if f.typ == REGULAR {
      SteadyOneMore(r.fired, id);
    } else {
      assert r'.fired == r.fired;
    }
  }

  /** A frame is taken: the direction in which it travelled. */
  lemma TakingAsReceiver(c: Config, n: Net, wire: Frame, rest: bytes)
    requires Shape(n) && NetOk(n) && n.a.hand == None && IsNext(n.ba[n.a.conn], wire, rest)
    ensures var m := Taking(c, n, wire, rest); DirOk(m.b, m.ba, m.a, m.ab)
  {
    hide Regulars, Top, EncodeAll, Labelled, ProcessAck, Bodies, PipeOk;
    var m, p, top := Taking(c, n, wire, rest), n.ba[n.a.conn], Top(n.a.fired);
    var f := p.frames[p.seen];
    AckShape(c, n.a.(ep := n.a.ep.(held := rest)), wire.ack, Top(n.b.fired));
    ReceivedMessageIsNext(p, n.b.sent, top);
    assert Reach(m.a) == if f.typ == REGULAR then Max(top, f.id) else top;
    PipesUnderHigherTop(n.ba, n.b.sent, top, Reach(m.a));
    assert PipesOk(m.ba, n.b.sent, Reach(m.a));
    assert AcksOk(m.a, m.ab, top);
    assert HeldOk(m.ba, m.a);
    assert n.a.fired + [] == n.a.fired;
    FiredOneMore(n.a, m.a, n.b.sent, wire.(typ := KEEP_ALIVE), 0);
  }

  /** The opposite direction: the frame's acknowledgement clears part of the queue. */
  lemma TakingAsSender(c: Config, n: Net, wire: Frame, rest: bytes)
    requires Shape(n) && NetOk(n) && IsNext(n.ba[n.a.conn], wire, rest)
    ensures var m := Taking(c, n, wire, rest); DirOk(m.a, m.ab, m.b, m.ba)
  {
    hide Regulars, Top, EncodeAll, Labelled, ProcessAck, Bodies, FiredOk, HandOk, Reach;
    assert wire.ack <= n.ba[n.a.conn].frames[n.ba[n.a.conn].seen].ack;
    AckShape(c, n.a.(ep := n.a.ep.(held := rest)), wire.ack, Top(n.b.fired));
  }

  lemma AcknowledgingKeeps(c: Config, n: Net)
    requires Shape(n) && NetOk(n) && n.a.hand == None
    ensures NetOk(Acknowledged(c, n))
  {
    hide TakeFrame, EncodeAll, PipeOk, IsNext, QueueOk, AcksOk, FiredOk, HandOk, UnheardOk, CurrentOk, ProcessAck;
    var p := n.ba[n.a.conn];
    assert PipeOk(p, n.b.sent, Top(n.a.fired));
    NextFrameIsTaken(p, n.a.ep.held, n.b.sent, Top(n.a.fired));
    if TakeFrame(n.a.ep.held).Some? {
      var (f, rest) := TakeFrame(n.a.ep.held).value;
      hide DirOk;
      TakingAsReceiver(c, n, f, rest);
      TakingAsSender(c, n, f, rest);
    }
  }

  /** The frame in hand is delivered: the direction in which it travelled. */
  lemma DeliveringAsReceiver(n: Net, now: int)
    requires Shape(n) && NetOk(n) && n.a.hand.Some?
    ensures var m := HandedOver(n, now); DirOk(m.b, m.ba, m.a, m.ab)
  {
    hide Regulars, Top, EncodeAll, Labelled, Deliver, Bodies, PipeOk;
    var m, top := HandedOver(n, now), Top(n.a.fired);
    var InHand(f, id) := n.a.hand.value;
    DeliverShape(n.a.ep, f, now);
    TopOfOneMore(n.a.fired, id);
    assert n.a.fired + [] == n.a.fired;
    assert Top(m.a.fired) == Reach(n.a) == Reach(m.a);
    assert QueueOk(m.b, Top(m.a.fired));
    assert AcksOk(m.a, m.ab, Top(m.a.fired));
    FiredOneMore(n.a, m.a, n.b.sent, f, id);
  }

  /** The opposite direction knows nothing of it. */
  lemma DeliveringAsSender(n: Net, now: int)
    requires Shape(n) && NetOk(n) && n.a.hand.Some?
    ensures var m := HandedOver(n, now); DirOk(m.a, m.ab, m.b, m.ba)
  {
    hide Regulars, Top, EncodeAll, Labelled, Deliver, Bodies, FiredOk, HandOk, Reach, PipeOk;
    DeliverShape(n.a.ep, n.a.hand.value.frame, now);
  }

  // ---------- every run ----------

  lemma StepOfAKeeps(c: Config, n: Net, op: Op)
    requires Shape(n) && NetOk(n)
    ensures NetOk(StepOfA(c, n, op))
  {
    if Enabled(n, op) {
      hide DirOk, TakeFrame, EncodeAll;
      match op
      case Sending(data, now) =>
        SendingKeeps(c, n, data, now);
      case Replacing(conn) =>
        RebindingAsSender(n, conn);
        RebindingAsReceiver(n, conn);
      case Arriving(count) =>
        ReceivingKeeps(n, count);
      case Acknowledging =>
        AcknowledgingKeeps(c, n);
      case Delivering(now) =>
        DeliveringAsReceiver(n, now);
        DeliveringAsSender(n, now);
      case KeepingAlive =>
        TimersKeep(c, n, op);
      case Checking(now) =>
        TimersKeep(c, n, op);
    }
  }

  lemma {:induction false} EveryRunIsOk(ca: Config, cb: Config, acts: seq<Act>, now: int)
    ensures NetOk(Run(ca, cb, acts, now))
  {
    if acts == [] {
      StartIsOk(now);
    } else {
      hide DirOk, StepOfA;
      EveryRunIsOk(ca, cb, acts[..|acts| - 1], now);
      var n, act := Run(ca, cb, acts[..|acts| - 1], now), acts[|acts| - 1];
      if act.byA {
        StepOfAKeeps(ca, n, act.op);
      } else {
        StepOfAKeeps(cb, Swap(n), act.op);
      }
    }
  }

  lemma StartIsOk(now: int)
    ensures NetOk(Start(now))
  {
    NothingHeld(Start(now).ab[0]);
  }
}
