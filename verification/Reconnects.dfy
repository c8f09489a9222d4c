/** What the persistent protocol is for, over every run of two endpoints and any sequence of sockets
    (packages/rpc/src/persistent-protocol.ts). */
module Reconnects {
  import opened Buffers
  import opened Options
  import opened Frames
  import opened Endpoints
  import opened Networks
  import opened NetworkSteps

  // ---------- what the invariant means ----------

  /** Message number i+1 of s has been handed to r's listener, with its own payload. */
  ghost predicate Delivered(s: Side, r: Side, i: nat)
    requires i < |s.sent| && |Bodies(r.ep.events)| == |r.fired|
  {
    exists j :: 0 <= j < |r.fired| && r.fired[j] == i + 1 && Bodies(r.ep.events)[j] == s.sent[i]
  }

  ghost predicate Queued(s: Side, i: nat)
    requires i < |s.sent|
  {
    exists j :: 0 <= j < |s.ep.unack| && s.ep.unack[j].msg.id == i + 1 && s.ep.unack[j].msg.data == s.sent[i]
  }

  /** Nothing passed to send is lost. */
  ghost predicate NothingLost(s: Side, r: Side) {
    && |Bodies(r.ep.events)| == |r.fired|
    && forall i :: 0 <= i < |s.sent| ==> Delivered(s, r, i) || Queued(s, i)
  }

  /** The delivered ids are exactly 1..k, each with the payload sent under that id, and an id that is new
      when it is delivered is the successor of all the earlier ones. */
  ghost predicate InOrder(s: Side, r: Side) {
    && |Bodies(r.ep.events)| == |r.fired|
    && (forall id :: id in r.fired <==> 1 <= id <= Top(r.fired))
    && (forall j :: 0 <= j < |r.fired| ==>
          1 <= r.fired[j] <= |s.sent| && Bodies(r.ep.events)[j] == s.sent[r.fired[j] - 1])
    && (forall j :: 0 <= j < |r.fired| ==> FirstIsNext(r.fired, j))
  }

  /** If entry j is new there, the entries before it are exactly the ids below it. */
  ghost predicate FirstIsNext(fired: seq<nat>, j: nat)
    requires j < |fired|
  {
    fired[j] !in fired[..j] ==> forall id :: id in fired[..j] <==> 1 <= id < fired[j]
  }

  ghost predicate Delivers(r: Side, ack: nat) {
    forall id :: 1 <= id <= ack ==> id in r.fired
  }

  /** Every acknowledgement r holds, has on the wire, or may still replay, covers delivered ids only. */
  ghost predicate TruthfulAcks(r: Side, back: seq<Pipe>) {
    && Delivers(r, r.ep.ackIn)
    && (forall c, m :: 0 <= c < |back| && 0 <= m < |back[c].frames| ==> Delivers(r, back[c].frames[m].ack))
    && (forall j :: 0 <= j < |r.ep.unack| ==> Delivers(r, r.ep.unack[j].msg.ack))
  }

  lemma FullLog(r: Side, sent: seq<bytes>)
    requires FiredOk(r, sent)
    ensures forall id :: id in r.fired <==> 1 <= id <= Top(r.fired)
  {
    NoGaps(r.fired);
  }

  lemma DirectionLosesNothing(s: Side, out: seq<Pipe>, r: Side, back: seq<Pipe>)
    requires DirOk(s, out, r, back)
    ensures NothingLost(s, r)
  {
    FullLog(r, s.sent);
    hide Top, Bodies, PipesOk, HeldOk, UnheardOk, AcksOk;
    forall i | 0 <= i < |s.sent| ensures Delivered(s, r, i) || Queued(s, i) {
      var cleared := s.ep.lastId - |s.ep.unack|;
      if i < cleared {
        assert i + 1 in r.fired;
        var j :| 0 <= j < |r.fired| && r.fired[j] == i + 1;
        assert Bodies(r.ep.events)[j] == s.sent[i];
      } else {
        assert Carries(s.ep.unack[i - cleared].msg, s.sent, i + 1);
      }
    }
  }

  lemma DirectionDeliversInOrder(s: Side, out: seq<Pipe>, r: Side, back: seq<Pipe>)
    requires DirOk(s, out, r, back)
    ensures InOrder(s, r)
  {
    FullLog(r, s.sent);
    hide Bodies, PipesOk, HeldOk, UnheardOk, AcksOk, QueueOk, Top, Steady, FirstIsNext;
    FirstDeliveries(r.fired);
  }

  lemma FirstDeliveries(fired: seq<nat>)
    requires Steady(fired)
    ensures forall j :: 0 <= j < |fired| ==> FirstIsNext(fired, j)
  {
    hide Steady;
    forall j | 0 <= j < |fired| ensures FirstIsNext(fired, j) {
      if fired[j] !in fired[..j] {
        FirstDelivery(fired, j);
      }
    }
  }

  lemma FirstDelivery(fired: seq<nat>, j: nat)
    requires Steady(fired) && j < |fired| && fired[j] !in fired[..j]
    ensures forall id :: id in fired[..j] <==> 1 <= id < fired[j]
  {
    hide Top;
    SteadyPrefix(fired, j);
    NoGaps(fired[..j]);
    assert StepAt(fired, j);
  }

  lemma DirectionAcksTruthfully(s: Side, out: seq<Pipe>, r: Side, back: seq<Pipe>)
    requires DirOk(s, out, r, back)
    ensures TruthfulAcks(r, back)
  {
    FullLog(r, s.sent);
    hide Top, Bodies, PipesOk, HeldOk, UnheardOk, QueueOk;
  }

  /** No message is lost across reconnects. */
  lemma {:induction false} NoMessageIsLost(ca: Config, cb: Config, acts: seq<Act>, now: int)
    ensures var n := Run(ca, cb, acts, now); NothingLost(n.a, n.b) && NothingLost(n.b, n.a)
  {
    hide DirOk, Run;
    EveryRunIsOk(ca, cb, acts, now);
    var n := Run(ca, cb, acts, now);
    DirectionLosesNothing(n.a, n.ab, n.b, n.ba);
    DirectionLosesNothing(n.b, n.ba, n.a, n.ab);
  }

  /** First deliveries come gap-free in send order, whatever is replayed. */
  lemma {:induction false} DeliveriesAreInOrder(ca: Config, cb: Config, acts: seq<Act>, now: int)
    ensures var n := Run(ca, cb, acts, now); InOrder(n.a, n.b) && InOrder(n.b, n.a)
  {
    hide DirOk, Run;
    EveryRunIsOk(ca, cb, acts, now);
    var n := Run(ca, cb, acts, now);
    DirectionDeliversInOrder(n.a, n.ab, n.b, n.ba);
    DirectionDeliversInOrder(n.b, n.ba, n.a, n.ab);
  }

  /** Acknowledgements are never ahead of deliveries, stale ones included. */
  lemma {:induction false} AcksAreTruthful(ca: Config, cb: Config, acts: seq<Act>, now: int)
    ensures var n := Run(ca, cb, acts, now); TruthfulAcks(n.b, n.ba) && TruthfulAcks(n.a, n.ab)
  {
    hide DirOk, Run;
    EveryRunIsOk(ca, cb, acts, now);
    var n := Run(ca, cb, acts, now);
    DirectionAcksTruthfully(n.a, n.ab, n.b, n.ba);
    DirectionAcksTruthfully(n.b, n.ba, n.a, n.ab);
  }

  // ---------- the code's data event is a run of these steps ----------

  /** k turns of the read loop of one side, without interruption. */
  ghost function Turns(byA: bool, k: nat, now: int): seq<Act> {
    seq(2 * k, i => Act(byA, if i % 2 == 0 then Acknowledging else Delivering(now)))
  }

  /** What the data listener does with a chunk when no other listener interferes is one arrival followed by turns of
      the loop, so every lemma about runs covers the code as written. */
  lemma {:induction false} DataEventIsARun(ca: Config, cb: Config, acts: seq<Act>, now: int, count: nat, at: int) returns (k: nat)
    ensures var n := Run(ca, cb, acts, now); var m := Run(ca, cb, acts + [Act(true, Arriving(count))] + Turns(true, k, at), now);
      var p := n.ba[n.a.conn];
      n.a.hand == None && p.arrived + count <= |EncodeAll(p.frames)| ==>
        m.a.ep == ReadAll(ca, Arrive(n.a.ep, EncodeAll(p.frames)[p.arrived..p.arrived + count]), at)
  {
    hide EncodeAll, ReadAll, Run;
    var n := Run(ca, cb, acts, now);
    var p := n.ba[n.a.conn];
    RunOneMore(ca, cb, acts, Act(true, Arriving(count)), now);
    k := 0;
    if n.a.hand == None {
      k := ReadAllIsSomeTurns(ca, cb, acts + [Act(true, Arriving(count))], now, at);
    }
  }

  lemma RunOneMore(ca: Config, cb: Config, acts: seq<Act>, act: Act, now: int)
    ensures Run(ca, cb, acts + [act], now) == Step(ca, cb, Run(ca, cb, acts, now), act)
  {
    assert (acts + [act])[..|acts|] == acts;
  }

  /** One whole turn. */
  lemma RunOneTurn(ca: Config, cb: Config, acts: seq<Act>, now: int, at: int)
    requires Run(ca, cb, acts, now).a.hand == None && TakeFrame(Run(ca, cb, acts, now).a.ep.held).Some?
    ensures var n, m := Run(ca, cb, acts, now), Run(ca, cb, acts + [Act(true, Acknowledging)] + [Act(true, Delivering(at))], now);
      var (f, rest) := TakeFrame(n.a.ep.held).value;
      && OnlyRead(n, m) && m.a.hand == None && m.a.ep == Receive(ca, n.a.ep.(held := rest), f, at)
      && m.a.fired == n.a.fired + (if f.typ == REGULAR then [Next(n.ba[n.a.conn])] else [])
      && Next(m.ba[m.a.conn]) == Next(n.ba[n.a.conn]) + if f.typ == REGULAR then 1 else 0
  {
    hide Run, TakeFrame, ProcessAck, Deliver, Next;
    EveryRunIsOk(ca, cb, acts, now);
    SomethingIsNext(Run(ca, cb, acts, now));
    RunOneMore(ca, cb, acts, Act(true, Acknowledging), now);
    RunOneMore(ca, cb, acts + [Act(true, Acknowledging)], Act(true, Delivering(at)), now);
  }

  /** A frame that can be taken off the stream is the next one of its pipe, and a Regular one carries the next id. */
  lemma SomethingIsNext(n: Net)
    requires NetOk(n) && n.a.conn < |n.ba| && TakeFrame(n.a.ep.held).Some?
    ensures var p := n.ba[n.a.conn]; var f := TakeFrame(n.a.ep.held).value.0;
      && p.seen < |p.frames| && f.typ == p.frames[p.seen].typ
      && (f.typ == REGULAR ==> p.frames[p.seen].id == Next(p))
      && Next(p.(seen := p.seen + 1)) == Next(p) + if f.typ == REGULAR then 1 else 0
  {
    hide TakeFrame, EncodeAll, PipeOk, Top;
    var p := n.ba[n.a.conn];
    assert PipeOk(p, n.b.sent, Reach(n.a));
    NextFrameIsTaken(p, n.a.ep.held, n.b.sent, Reach(n.a));
    NextOfOneMore(p, n.b.sent, Reach(n.a));
  }

  lemma NextOfOneMore(p: Pipe, sent: seq<bytes>, top: nat)
    requires PipeOk(p, sent, top) && p.seen < |p.frames|
    ensures var f := p.frames[p.seen];
      && (f.typ == REGULAR ==> f.id == Next(p))
      && Next(p.(seen := p.seen + 1)) == Next(p) + if f.typ == REGULAR then 1 else 0
  {
    hide Regulars;
    assert Labelled(p.frames, p.base, sent, p.seen);
    assert p.frames[..p.seen + 1] == p.frames[..p.seen] + [p.frames[p.seen]];
    RegularsOfOneMore(p.frames[..p.seen], p.frames[p.seen]);
  }

  lemma {:induction false} ReadAllIsSomeTurns(ca: Config, cb: Config, acts: seq<Act>, now: int, at: int) returns (k: nat)
    requires Run(ca, cb, acts, now).a.hand == None
    ensures var n, m := Run(ca, cb, acts, now), Run(ca, cb, acts + Turns(true, k, at), now);
      && OnlyRead(n, m) && m.a.hand == None && m.a.ep == ReadAll(ca, n.a.ep, at)
      && Next(n.ba[n.a.conn]) <= Next(m.ba[m.a.conn])
      && m.a.fired == n.a.fired + Ids(Next(n.ba[n.a.conn]), Next(m.ba[m.a.conn]) - Next(n.ba[n.a.conn]))
    decreases |Run(ca, cb, acts, now).a.ep.held|
  {
    hide TakeFrame, Receive, ReadAll, Run, Step, Next;
    var ep := Run(ca, cb, acts, now).a.ep;
    ReadAllUnfolds(ca, ep, at);
    TakingShrinks(ep.held);
    if TakeFrame(ep.held).Some? {
      var (f, rest) := TakeFrame(ep.held).value;
      ReceiveKeepsHeld(ca, ep.(held := rest), f, at);
      RunOneTurn(ca, cb, acts, now, at);
      var turned := acts + [Act(true, Acknowledging)] + [Act(true, Delivering(at))];
      k := ReadAllIsSomeTurns(ca, cb, turned, now, at);
      assert turned + Turns(true, k, at) == acts + Turns(true, k + 1, at);
      k := k + 1;
      var n, m, z := Run(ca, cb, acts, now), Run(ca, cb, turned, now), Run(ca, cb, acts + Turns(true, k, at), now);
      IdsFollow(Next(n.ba[n.a.conn]), Next(m.ba[m.a.conn]), Next(z.ba[z.a.conn]), n.a.fired);
    } else {
      k := 0;
      assert acts + Turns(true, 0, at) == acts;
    }
  }

  /** Consecutive ids. */
  function Ids(from: nat, count: nat): seq<nat> {
    seq(count, i => from + i)
  }

  lemma IdsFollow(a: nat, b: nat, c: nat, before: seq<nat>)
    requires a <= b <= a + 1 && b <= c
    ensures before + (if a < b then [a] else []) + Ids(b, c - b) == before + Ids(a, c - a)
  {
  }

  // ---------- a reconnect that gets through delivers everything ----------

  /** Reading leaves everything alone but a's endpoint and log and the count of consumed frames. */
  ghost predicate OnlyRead(n: Net, m: Net) {
    && Shape(n) && m.b == n.b && m.ab == n.ab && m.a.conn == n.a.conn && m.a.sent == n.a.sent && |m.ba| == |n.ba|
    && m.ba[m.a.conn].frames == n.ba[n.a.conn].frames && m.ba[m.a.conn].arrived == n.ba[n.a.conn].arrived
  }

  lemma {:induction false} ReadAllReadsAll(c: Config, s: Endpoint, now: int)
    ensures TakeFrame(ReadAll(c, s, now).held) == None
    decreases |s.held|
  {
    hide TakeFrame, Receive, ReadAll;
    ReadAllUnfolds(c, s, now);
    TakingShrinks(s.held);
    if TakeFrame(s.held).Some? {
      var (f, rest) := TakeFrame(s.held).value;
      ReceiveKeepsHeld(c, s.(held := rest), f, now);
      ReadAllReadsAll(c, Receive(c, s.(held := rest), f, now), now);
    }
  }

  /** When every byte has arrived and no complete frame is left, every frame has been consumed. */
  lemma AllConsumed(p: Pipe, held: bytes, sent: seq<bytes>, top: nat)
    requires PipeOk(p, sent, top) && p.arrived == |EncodeAll(p.frames)|
    requires |EncodeAll(p.frames[..p.seen])| <= p.arrived
    requires held == EncodeAll(p.frames)[|EncodeAll(p.frames[..p.seen])|..p.arrived]
    ensures TakeFrame(held) == None ==> p.seen == |p.frames|
  {
    hide Encode, TakeFrame, EncodeAll, Regulars, OnWire, Carries;
    if p.seen < |p.frames| {
      assert Labelled(p.frames, p.base, sent, p.seen);
      EncodedPrefix(p.frames, p.seen);
      var rest := EncodeAll(p.frames[p.seen + 1..]);
      assert held == Encode(p.frames[p.seen]) + rest;
      TakeEncoded(p.frames[p.seen], rest);
    }
  }

  /** On a connection that both sides have joined, once everything written has arrived and been handed over,
      everything the writer ever sent has been delivered. */
  lemma QuietConnectionHasDelivered(n: Net)
    requires Shape(n) && NetOk(n) && n.a.conn == n.b.conn
    requires n.ba[n.a.conn].arrived == |EncodeAll(n.ba[n.a.conn].frames)|
    ensures n.a.hand == None && TakeFrame(n.a.ep.held) == None ==> Top(n.a.fired) == |n.b.sent|
  {
    hide TakeFrame, EncodeAll, Labelled, Top, Bodies, Regulars;
    var p := n.ba[n.a.conn];
    assert PipeOk(p, n.b.sent, Reach(n.a));
    AllConsumed(p, n.a.ep.held, n.b.sent, Reach(n.a));
    assert p.seen == |p.frames| ==> p.frames[..p.seen] == p.frames;
  }

  /** Everything b ever sent has been delivered to a. */
  ghost predicate CaughtUp(n: Net) {
    forall id :: id in n.a.fired <==> 1 <= id <= |n.b.sent|
  }

  /** Side a, on the same connection as b, receives the rest of the bytes and reads them. */
  lemma SideCatchesUp(ca: Config, cb: Config, acts: seq<Act>, now: int, at: int) returns (count: nat, k: nat)
    requires var n := Run(ca, cb, acts, now); n.a.conn == n.b.conn && n.a.hand == None
    ensures var n, m := Run(ca, cb, acts, now), Run(ca, cb, acts + [Act(true, Arriving(count))] + Turns(true, k, at), now);
      && m.b == n.b && m.ab == n.ab && m.a.conn == n.a.conn && m.a.sent == n.a.sent && CaughtUp(m)
      && Next(n.ba[n.a.conn]) <= |n.b.sent| + 1
      && m.a.fired == n.a.fired + Ids(Next(n.ba[n.a.conn]), |n.b.sent| + 1 - Next(n.ba[n.a.conn]))
  {
    hide Run, EncodeAll, ReadAll, TakeFrame, Top, NetOk, Next;
    var n := Run(ca, cb, acts, now);
    EveryRunIsOk(ca, cb, acts, now);
    var p := n.ba[n.a.conn];
    assert p.arrived <= |EncodeAll(p.frames)| by { ArrivedIsWritten(n); }
    count := |EncodeAll(p.frames)| - p.arrived;
    var one := acts + [Act(true, Arriving(count))];
    RunOneMore(ca, cb, acts, Act(true, Arriving(count)), now);
    k := ReadAllIsSomeTurns(ca, cb, one, now, at);
    ReadAllReadsAll(ca, Run(ca, cb, one, now).a.ep, at);
    var m := Run(ca, cb, one + Turns(true, k, at), now);
    EveryRunIsOk(ca, cb, one + Turns(true, k, at), now);
    QuietConnectionHasDelivered(m);
    FullLogOfNet(m);
    QuietConnectionIsRead(m);
    assert Next(Run(ca, cb, one, now).ba[n.a.conn]) == Next(p) by { ArrivingLeavesNext(p, p.arrived + count); }
  }

  lemma ArrivingLeavesNext(p: Pipe, arrived: nat)
    ensures Next(p.(arrived := arrived)) == Next(p)
  {
  }

  lemma QuietConnectionIsRead(n: Net)
    requires Shape(n) && NetOk(n) && n.a.conn == n.b.conn
    requires n.ba[n.a.conn].arrived == |EncodeAll(n.ba[n.a.conn].frames)|
    ensures n.a.hand == None && TakeFrame(n.a.ep.held) == None ==> Next(n.ba[n.a.conn]) == |n.b.sent| + 1
  {
    hide TakeFrame, EncodeAll, Labelled, Top, Bodies, Regulars;
    var p := n.ba[n.a.conn];
    assert PipeOk(p, n.b.sent, Reach(n.a));
    AllConsumed(p, n.a.ep.held, n.b.sent, Reach(n.a));
    assert p.seen == |p.frames| ==> p.frames[..p.seen] == p.frames;
  }

  lemma ArrivedIsWritten(n: Net)
    requires NetOk(n) && n.a.conn < |n.ba|
    ensures n.ba[n.a.conn].arrived <= |EncodeAll(n.ba[n.a.conn].frames)|
  {
  }

  lemma FullLogOfNet(n: Net)
    requires NetOk(n)
    ensures forall id :: id in n.a.fired <==> 1 <= id <= Top(n.a.fired)
  {
    FullLog(n.a, n.b.sent);
  }

  /** The same acts with the two sides exchanged. */
  function Mirror(acts: seq<Act>): seq<Act> {
    seq(|acts|, i requires 0 <= i < |acts| => Act(!acts[i].byA, acts[i].op))
  }

  lemma {:induction false} MirroredRun(ca: Config, cb: Config, acts: seq<Act>, now: int)
    ensures Run(cb, ca, Mirror(acts), now) == Swap(Run(ca, cb, acts, now))
  {
    if acts != [] {
      hide StepOfA;
      MirroredRun(ca, cb, acts[..|acts| - 1], now);
      assert Mirror(acts)[..|acts| - 1] == Mirror(acts[..|acts| - 1]);
      assert Swap(Swap(Run(ca, cb, acts[..|acts| - 1], now))) == Run(ca, cb, acts[..|acts| - 1], now);
    }
  }

  lemma OtherSideCatchesUp(ca: Config, cb: Config, acts: seq<Act>, now: int, at: int) returns (count: nat, k: nat)
    requires var n := Run(ca, cb, acts, now); n.a.conn == n.b.conn && n.b.hand == None
    ensures var n, m := Run(ca, cb, acts, now), Run(ca, cb, acts + [Act(false, Arriving(count))] + Turns(false, k, at), now);
      && m.a == n.a && m.b.conn == n.b.conn && m.b.sent == n.b.sent && CaughtUp(Swap(m))
      && Next(n.ab[n.b.conn]) <= |n.a.sent| + 1
      && m.b.fired == n.b.fired + Ids(Next(n.ab[n.b.conn]), |n.a.sent| + 1 - Next(n.ab[n.b.conn]))
  {
    hide Run;
    MirroredRun(ca, cb, acts, now);
    count, k := SideCatchesUp(cb, ca, Mirror(acts), now, at);
    var more := acts + [Act(false, Arriving(count))] + Turns(false, k, at);
    MirroredRun(ca, cb, more, now);
    assert Mirror(more) == Mirror(acts) + [Act(true, Arriving(count))] + Turns(true, k, at);
  }

  /** Both sides finish the frame they are in the middle of, if any, and move to connection c. */
  function Reconnecting(c: nat, at: int): seq<Act> {
    [Act(true, Delivering(at)), Act(false, Delivering(at)), Act(false, Replacing(c)), Act(true, Replacing(c))]
  }

  /** The ids that a side replays on a new connection: those of its queue. */
  function Replayed(s: Side): seq<nat>
    requires |s.ep.unack| <= |s.sent|
  {
    Ids(|s.sent| - |s.ep.unack| + 1, |s.ep.unack|)
  }

  /** From any reachable state: move both sides to a new connection, let both replays arrive in full and be read, and
      everything either side ever sent has been delivered to the other.  What was delivered on the way is exactly the
      frame each side was in the middle of, and then the other side's queue. */
  lemma {:induction false} ReconnectRecovers(ca: Config, cb: Config, acts: seq<Act>, now: int, at: int)
      returns (toA: nat, i: nat, toB: nat, j: nat)
    ensures var n := Run(ca, cb, acts, now);
      var m := Run(ca, cb, acts + Reconnecting(|n.ab|, at)
                           + [Act(true, Arriving(toA))] + Turns(true, i, at) + [Act(false, Arriving(toB))] + Turns(false, j, at), now);
      && m.a.sent == n.a.sent && m.b.sent == n.b.sent && CaughtUp(m) && CaughtUp(Swap(m))
      && |n.a.ep.unack| <= |n.a.sent| && |n.b.ep.unack| <= |n.b.sent|
      && m.a.fired == Log(n.a) + Replayed(n.b) && m.b.fired == Log(n.b) + Replayed(n.a)
  {
    hide Run, CaughtUp, Next, Log;
    var n := Run(ca, cb, acts, now);
    ReconnectingJoins(ca, cb, acts, now, at);
    var joined := acts + Reconnecting(|n.ab|, at);
    toA, i := SideCatchesUp(ca, cb, joined, now, at);
    var half := joined + [Act(true, Arriving(toA))] + Turns(true, i, at);
    var h := Run(ca, cb, half, now);
    toB, j := OtherSideCatchesUp(ca, cb, half, now, at);
    var m := Run(ca, cb, half + [Act(false, Arriving(toB))] + Turns(false, j, at), now);
    assert CaughtUp(m) by { StillCaughtUp(h, m); }
  }

  lemma StillCaughtUp(n: Net, m: Net)
    requires CaughtUp(n) && m.a == n.a && m.b.sent == n.b.sent
    ensures CaughtUp(m)
  {
  }

  /** What a side keeps when it finishes the frame in hand or moves to another connection. */
  ghost predicate KeepsQueue(s: Side, t: Side) {
    t.sent == s.sent && t.ep.unack == s.ep.unack && t.ep.lastId == s.ep.lastId && Log(t) == Log(s)
  }

  lemma DeliveringClears(c: Config, n: Net, at: int)
    requires Shape(n)
    ensures var m := StepOfA(c, n, Delivering(at));
      && m.a.hand == None && KeepsQueue(n.a, m.a) && m.a.fired == Log(n.a)
      && m.b == n.b && m.ab == n.ab && m.ba == n.ba && m.a.conn == n.a.conn
  {
    hide Deliver;
    if n.a.hand.Some? {
      DeliverShape(n.a.ep, n.a.hand.value.frame, at);
      assert n.a.fired + [] == n.a.fired;
    }
  }

  /** A side moves to a connection on which it has not written anything. */
  lemma JoiningReplays(c: Config, n: Net, conn: nat)
    requires Shape(n) && conn <= |n.ab| && (conn < |n.ab| ==> n.ab[conn] == UNUSED) && |n.a.ep.unack| <= n.a.ep.lastId
    ensures var m := StepOfA(c, n, Replacing(conn));
      && m.a.conn == conn && m.a.hand == n.a.hand && KeepsQueue(n.a, m.a) && m.b == n.b && conn < |m.ab| && conn < |m.ba|
      && Next(m.ab[conn]) == n.a.ep.lastId - |n.a.ep.unack| + 1
      && m.ba[conn] == if conn < |n.ba| then n.ba[conn] else UNUSED
  {
    hide Messages;
    var fs := Messages(n.a.ep.unack);
    assert fs[..0] == [] && Regulars([]) == 0;
  }

  lemma ReconnectingJoins(ca: Config, cb: Config, acts: seq<Act>, now: int, at: int)
    ensures var n := Run(ca, cb, acts, now); var m := Run(ca, cb, acts + Reconnecting(|n.ab|, at), now);
      && m.a.conn == m.b.conn && m.a.hand == None && m.b.hand == None
      && m.a.sent == n.a.sent && m.b.sent == n.b.sent
      && |n.a.ep.unack| <= |n.a.sent| && |n.b.ep.unack| <= |n.b.sent|
      && m.a.fired == Log(n.a) && m.b.fired == Log(n.b)
      && Next(m.ba[m.a.conn]) == |n.b.sent| - |n.b.ep.unack| + 1
      && Next(m.ab[m.b.conn]) == |n.a.sent| - |n.a.ep.unack| + 1
  {
    hide Run, StepOfA, NetOk, Next, Regulars;
    var n := Run(ca, cb, acts, now);
    EveryRunIsOk(ca, cb, acts, now);
    QueuesAreShort(n);
    var c := |n.ab|;
    var one := acts + [Act(true, Delivering(at))];
    var two := one + [Act(false, Delivering(at))];
    var three := two + [Act(false, Replacing(c))];
    RunOneMore(ca, cb, acts, Act(true, Delivering(at)), now);
    RunOneMore(ca, cb, one, Act(false, Delivering(at)), now);
    RunOneMore(ca, cb, two, Act(false, Replacing(c)), now);
    RunOneMore(ca, cb, three, Act(true, Replacing(c)), now);
    DeliveringClears(ca, n, at);
    DeliveringClears(cb, Swap(Run(ca, cb, one, now)), at);
    JoiningReplays(cb, Swap(Run(ca, cb, two, now)), c);
    JoiningReplays(ca, Run(ca, cb, three, now), c);
    assert three + [Act(true, Replacing(c))] == acts + Reconnecting(c, at);
  }

  lemma QueuesAreShort(n: Net)
    requires NetOk(n)
    ensures |n.a.ep.unack| <= n.a.ep.lastId == |n.a.sent| && |n.b.ep.unack| <= n.b.ep.lastId == |n.b.sent|
  {
  }

  // ---------- delivery is at least once, not exactly once ----------

  /** The first frame of a fresh pipe arrives at a and is read. */
  lemma FirstFrameIsRead(ca: Config, cb: Config, acts: seq<Act>, now: int, f: Frame) returns (more: seq<Act>)
    requires Sendable(f) && f.typ == REGULAR
    requires var n := Run(ca, cb, acts, now); var p := n.ba[n.a.conn];
      p.frames != [] && p.frames[0] == f && p.arrived == 0 && p.seen == 0 && n.a.ep.held == [] && n.a.hand == None
    ensures var n, m := Run(ca, cb, acts, now), Run(ca, cb, more, now);
      && m.b == n.b && m.ab == n.ab && |m.ba| == |n.ba| && m.a.fired == n.a.fired + [f.id] && m.a.hand == None
  {
    hide Run, TakeFrame, Encode, EncodeAll, Receive, Next, NetOk;
    var n := Run(ca, cb, acts, now);
    var fs := n.ba[n.a.conn].frames;
    var arrive := Act(true, Arriving(|Encode(f)|));
    more := acts + [arrive] + [Act(true, Acknowledging)] + [Act(true, Delivering(now))];
    RunOneMore(ca, cb, acts, arrive, now);
    EncodedPrefix(fs, 0);
    EncodeOneThen(f, fs[1..]);
    assert fs == [f] + fs[1..];
    assert EncodeAll(fs)[..|Encode(f)|] == Encode(f);
    TakeEncoded(f, []);
    assert Run(ca, cb, acts + [arrive], now).a.ep.held == Encode(f) + [];
    EveryRunIsOk(ca, cb, acts + [arrive], now);
    SomethingIsNext(Run(ca, cb, acts + [arrive], now));
    RunOneTurn(ca, cb, acts + [arrive], now, now);
  }

  /** A message that was delivered but not acknowledged is delivered again after a reconnect; `Repetitions` says exactly
      when that happens. */
  lemma ReplayFiresAgain(ca: Config, cb: Config, data: bytes, now: int) returns (acts: seq<Act>)
    requires |data| < TWO_TO_32
    ensures var n := Run(ca, cb, acts, now); n.b.sent == [data] && n.a.fired == [1, 1]
  {
    hide Run, Encode, EncodeAll, TakeFrame;
    var f := Frame(REGULAR, 1, 0, data);
    var send, replaceB, replaceA := Act(false, Sending(data, now)), Act(false, Replacing(1)), Act(true, Replacing(1));
    FirstSend(ca, cb, data, now);
    acts := FirstFrameIsRead(ca, cb, [send], now, f);
    RunOneMore(ca, cb, acts, replaceB, now);
    RunOneMore(ca, cb, acts + [replaceB], replaceA, now);
    acts := FirstFrameIsRead(ca, cb, acts + [replaceB] + [replaceA], now, f);
  }

  lemma FirstSend(ca: Config, cb: Config, data: bytes, now: int)
    requires |data| < TWO_TO_32
    ensures var n := Run(ca, cb, [Act(false, Sending(data, now))], now); var f := Frame(REGULAR, 1, 0, data);
      && n.b.sent == [data] && Messages(n.b.ep.unack) == [f] && |n.ab| == |n.ba| == 1 && n.a == Start(now).a
      && n.ba[0].frames != [] && n.ba[0].frames[0] == f && n.ba[0].arrived == 0 && n.ba[0].seen == 0
  {
    hide Run, Send, EncodeAll;
    var send := Act(false, Sending(data, now));
    assert [] + [send] == [send];
    RunOfNothing(ca, cb, now);
    RunOneMore(ca, cb, [], send, now);
    FirstSendShape(cb, data, now);
  }

  lemma RunOfNothing(ca: Config, cb: Config, now: int)
    ensures Run(ca, cb, [], now) == Start(now)
  {
  }

  lemma FirstSendShape(c: Config, data: bytes, now: int)
    ensures var out := Send(c, Fresh(now), data, now); var f := Frame(REGULAR, 1, 0, data);
      out.frames != [] && out.frames[0] == f && Messages(out.ep.unack) == [f]
  {
  }
}
