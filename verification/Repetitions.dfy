/** Exactly when a message is delivered more than once: when it is read on more than one connection
    (packages/rpc/src/persistent-protocol.ts:149-160, 200-207). */
module Repetitions {
  import opened Buffers
  import opened Options
  import opened Frames
  import opened Endpoints
  import opened Networks
  import opened NetworkSteps
  import opened Reconnects

  /** The message with this id has been read on this pipe. */
  predicate ReadOn(p: Pipe, id: nat) {
    p.base <= id < Next(p)
  }

  /** On how many of the pipes it has been read. */
  function Times(pipes: seq<Pipe>, id: nat): nat {
    if pipes == [] then 0 else Times(pipes[..|pipes| - 1], id) + if ReadOn(pipes[|pipes| - 1], id) then 1 else 0
  }

  /** Every message is in the log as often as there are connections on which it has been read. */
  ghost predicate LogOk(r: Side, out: seq<Pipe>) {
    forall id :: multiset(Log(r))[id] == Times(out, id)
  }

  // ---------- counting ----------

  lemma {:induction false} TimesUpdate(pipes: seq<Pipe>, c: nat, q: Pipe, id: nat)
    requires c < |pipes|
    ensures Times(pipes[c := q], id) + (if ReadOn(pipes[c], id) then 1 else 0)
         == Times(pipes, id) + if ReadOn(q, id) then 1 else 0
    decreases |pipes|
  {
    hide ReadOn;
    var before := pipes[..|pipes| - 1];
    if c == |pipes| - 1 {
      assert pipes[c := q][..|pipes| - 1] == before;
    } else {
      TimesUpdate(before, c, q, id);
      assert pipes[c := q][..|pipes| - 1] == before[c := q];
    }
  }

  lemma TimesOfOneMore(pipes: seq<Pipe>, p: Pipe, id: nat)
    ensures Times(pipes + [p], id) == Times(pipes, id) + if ReadOn(p, id) then 1 else 0
  {
    assert (pipes + [p])[..|pipes|] == pipes;
  }

  /** Pipes on which the same has been read. */
  lemma {:induction false} TimesSame(pipes: seq<Pipe>, others: seq<Pipe>, id: nat)
    requires |pipes| == |others| && forall c :: 0 <= c < |pipes| ==> (ReadOn(pipes[c], id) <==> ReadOn(others[c], id))
    ensures Times(pipes, id) == Times(others, id)
    decreases |pipes|
  {
    hide ReadOn;
    if pipes != [] {
      TimesSame(pipes[..|pipes| - 1], others[..|others| - 1], id);
    }
  }

  lemma {:induction false} SomewhereRead(pipes: seq<Pipe>, id: nat)
    ensures Times(pipes, id) >= 1 <==> exists c :: 0 <= c < |pipes| && ReadOn(pipes[c], id)
  {
    hide ReadOn;
    if pipes != [] {
      var before := pipes[..|pipes| - 1];
      SomewhereRead(before, id);
      if Times(before, id) >= 1 {
        var c :| 0 <= c < |before| && ReadOn(before[c], id);
        assert ReadOn(pipes[c], id);
      }
      if exists c :: 0 <= c < |pipes| && ReadOn(pipes[c], id) {
        var c :| 0 <= c < |pipes| && ReadOn(pipes[c], id);
        assert c < |before| ==> ReadOn(before[c], id);
      }
    }
  }

  ghost predicate ReadTwice(pipes: seq<Pipe>, id: nat) {
    exists c, d :: 0 <= c < d < |pipes| && ReadOn(pipes[c], id) && ReadOn(pipes[d], id)
  }

  lemma {:induction false} TwiceRead(pipes: seq<Pipe>, id: nat)
    ensures Times(pipes, id) >= 2 <==> ReadTwice(pipes, id)
  {
    hide ReadOn;
    if pipes != [] {
      var before, n := pipes[..|pipes| - 1], |pipes| - 1;
      TwiceRead(before, id);
      SomewhereRead(before, id);
      if ReadTwice(before, id) {
        var c, d :| 0 <= c < d < |before| && ReadOn(before[c], id) && ReadOn(before[d], id);
        assert ReadOn(pipes[c], id) && ReadOn(pipes[d], id);
      } else if Times(before, id) >= 1 && ReadOn(pipes[n], id) {
        var c :| 0 <= c < |before| && ReadOn(before[c], id);
        assert ReadOn(pipes[c], id) && ReadOn(pipes[n], id);
      }
      if ReadTwice(pipes, id) {
        var c, d :| 0 <= c < d < |pipes| && ReadOn(pipes[c], id) && ReadOn(pipes[d], id);
        assert ReadOn(before[c], id);
        assert d < n ==> ReadOn(before[d], id);
      }
    }
  }

  ghost predicate Repeats(log: seq<nat>, id: nat) {
    exists i, j :: 0 <= i < j < |log| && log[i] == id == log[j]
  }

  lemma {:induction false} TwiceLogged(log: seq<nat>, id: nat)
    ensures multiset(log)[id] >= 2 <==> Repeats(log, id)
  {
    if log != [] {
      var before, last := log[..|log| - 1], log[|log| - 1];
      TwiceLogged(before, id);
      assert log == before + [last];
      if Repeats(before, id) {
        var i, j :| 0 <= i < j < |before| && before[i] == id == before[j];
        assert log[i] == id == log[j];
      } else if last == id && id in before {
        var i :| 0 <= i < |before| && before[i] == id;
        assert log[i] == id == log[|log| - 1];
      }
      if Repeats(log, id) {
        var i, j :| 0 <= i < j < |log| && log[i] == id == log[j];
        assert before[i] == id && (j < |before| ==> before[j] == id);
      }
    }
  }

  // ---------- every step ----------

  /** Writing to a pipe does not change what has been read on it. */
  lemma AppendingReadsNothing(out: seq<Pipe>, conn: nat, frames: seq<Frame>, sent: seq<bytes>, top: nat, id: nat)
    requires conn < |out| && PipesOk(out, sent, top)
    ensures Times(Append(out, conn, frames), id) == Times(out, id)
  {
    hide Regulars, Labelled;
    var p := out[conn];
    assert PipeOk(p, sent, top);
    assert (p.frames + frames)[..p.seen] == p.frames[..p.seen];
    TimesSame(out, Append(out, conn, frames), id);
  }

  lemma WritingKeepsLogs(n: Net, o: Out)
    requires Shape(n) && NetOk(n) && LogOk(n.a, n.ba) && LogOk(n.b, n.ab)
    ensures var m := Writing(n, o); LogOk(m.a, m.ba) && LogOk(m.b, m.ab)
  {
    hide Times, PipeOk, QueueOk, CurrentOk, AcksOk, FiredOk, HandOk, HeldOk, UnheardOk, Top;
    forall id ensures multiset(Log(n.b))[id] == Times(Append(n.ab, n.a.conn, o.frames), id) {
      AppendingReadsNothing(n.ab, n.a.conn, o.frames, n.a.sent, Reach(n.b), id);
    }
    assert Log(n.a.(ep := o.ep)) == Log(n.a);
  }

  lemma RebindingKeepsLogs(n: Net, c: nat)
    requires Shape(n) && NetOk(n) && LogOk(n.a, n.ba) && LogOk(n.b, n.ab)
    requires c <= |n.ab| && (c < |n.ab| ==> !n.ab[c].joined)
    ensures var m := Rebinding(n, c); LogOk(m.a, m.ba) && LogOk(m.b, m.ab)
  {
    hide Times, QueueOk, CurrentOk, AcksOk, FiredOk, HandOk, HeldOk, UnheardOk, Top, Labelled, Messages;
    var m := Rebinding(n, c);
    assert Log(m.a) == Log(n.a);
    assert c < |n.ab| ==> PipeOk(n.ab[c], n.a.sent, Reach(n.b));
    var grown := Grow(n.ab, c);
    assert Regulars([]) == 0 && Next(grown[c]) == grown[c].base && grown[c].seen == 0;
    assert m.ab[c].frames[..0] == [] && Next(m.ab[c]) == m.ab[c].base;
    forall id ensures Times(m.ab, id) == Times(n.ab, id) && Times(m.ba, id) == Times(n.ba, id) {
      GrowingReadsNothing(n.ab, c, id);
      GrowingReadsNothing(n.ba, c, id);
      TimesUpdate(grown, c, m.ab[c], id);
    }
  }

  lemma GrowingReadsNothing(pipes: seq<Pipe>, c: nat, id: nat)
    ensures Times(Grow(pipes, c), id) == Times(pipes, id)
  {
    hide Times;
    if c == |pipes| {
      assert Next(UNUSED) == 0;
      TimesOfOneMore(pipes, UNUSED, id);
    }
  }

  lemma ReceivingKeepsLogs(n: Net, count: nat)
    requires Shape(n) && LogOk(n.a, n.ba) && LogOk(n.b, n.ab)
    requires n.ba[n.a.conn].arrived + count <= |EncodeAll(n.ba[n.a.conn].frames)|
    ensures var m := Receiving(n, count); LogOk(m.a, m.ba) && LogOk(m.b, m.ab)
  {
    hide Times, EncodeAll;
    var m := Receiving(n, count);
    assert Log(m.a) == Log(n.a);
    forall id ensures Times(m.ba, id) == Times(n.ba, id) {
      ArrivingLeavesNext(n.ba[n.a.conn], m.ba[n.a.conn].arrived);
      TimesSame(n.ba, m.ba, id);
    }
  }

  /** Taking a Regular frame adds its id to the log, and reads it on this pipe and no other. */
  lemma TakingKeepsLogs(c: Config, n: Net, f: Frame, rest: bytes)
    requires Shape(n) && NetOk(n) && LogOk(n.a, n.ba) && LogOk(n.b, n.ab)
    requires n.a.hand == None && TakeFrame(n.a.ep.held) == Some((f, rest))
    ensures var m := Taking(c, n, f, rest); LogOk(m.a, m.ba) && LogOk(m.b, m.ab)
  {
    hide Times, TakeFrame, NetOk, ProcessAck, Next;
    SomethingIsNext(n);
    var m, p := Taking(c, n, f, rest), n.ba[n.a.conn];
    var q := p.(seen := p.seen + 1);
    assert p.base <= Next(p) by { NextIsAbove(p); }
    forall id ensures multiset(Log(m.a))[id] == Times(m.ba, id) {
      TimesUpdate(n.ba, n.a.conn, q, id);
      assert ReadOn(q, id) <==> ReadOn(p, id) || (f.typ == REGULAR && id == Next(p));
      assert Log(m.a) == Log(n.a) + if f.typ == REGULAR then [Next(p)] else [];
    }
  }

  lemma NextIsAbove(p: Pipe)
    ensures p.base <= Next(p)
  {
  }

  lemma DeliveringKeepsLogs(n: Net, now: int)
    requires LogOk(n.a, n.ba) && LogOk(n.b, n.ab)
    ensures var m := HandedOver(n, now); LogOk(m.a, m.ba) && LogOk(m.b, m.ab)
  {
    hide Deliver, Times;
    assert Log(HandedOver(n, now).a) == Log(n.a) by {
      assert n.a.fired + [] == n.a.fired;
    }
  }

  lemma StepOfAKeepsLogs(c: Config, n: Net, op: Op)
    requires Shape(n) && NetOk(n) && LogOk(n.a, n.ba) && LogOk(n.b, n.ab)
    ensures var m := StepOfA(c, n, op); LogOk(m.a, m.ba) && LogOk(m.b, m.ab)
  {
    hide LogOk, TakeFrame, EncodeAll, Times, NetOk;
    if Enabled(n, op) {
      match op
      case Sending(data, now) =>
        SendingWrites(c, n, data, now);
      case Replacing(conn) =>
        RebindingKeepsLogs(n, conn);
      case Arriving(count) =>
        ReceivingKeepsLogs(n, count);
      case Acknowledging =>
        var (f, rest) := TakeFrame(n.a.ep.held).value;
        TakingKeepsLogs(c, n, f, rest);
      case Delivering(now) =>
        DeliveringKeepsLogs(n, now);
      case KeepingAlive =>
        WritingKeepsLogs(n, KeepAlive(n.a.ep));
      case Checking(now) =>
        WritingKeepsLogs(n, AckCheck(c, n.a.ep, now));
    }
  }

  lemma SendingWrites(c: Config, n: Net, data: bytes, now: int)
    requires Shape(n) && NetOk(n) && LogOk(n.a, n.ba) && LogOk(n.b, n.ab)
    ensures var m := Writing(n.(a := n.a.(sent := n.a.sent + [data])), Send(c, n.a.ep, data, now));
      LogOk(m.a, m.ba) && LogOk(m.b, m.ab)
  {
    hide Send, Times, NetOk;
    WritingKeepsLogs(n, Send(c, n.a.ep, data, now));
    var o := Send(c, n.a.ep, data, now);
    assert Log(n.a.(sent := n.a.sent + [data], ep := o.ep)) == Log(n.a);
  }

  /** Over every run, every message has been fired exactly as often as there are connections on which it has been read,
      the one in hand counted. */
  lemma {:induction false} FiredAsOftenAsRead(ca: Config, cb: Config, acts: seq<Act>, now: int)
    ensures var n := Run(ca, cb, acts, now); LogOk(n.a, n.ba) && LogOk(n.b, n.ab)
  {
    if acts == [] {
      NothingRead(now);
    } else {
      hide StepOfA, NetOk, LogOk;
      FiredAsOftenAsRead(ca, cb, acts[..|acts| - 1], now);
      EveryRunIsOk(ca, cb, acts[..|acts| - 1], now);
      var n, act := Run(ca, cb, acts[..|acts| - 1], now), acts[|acts| - 1];
      if act.byA {
        StepOfAKeepsLogs(ca, n, act.op);
      } else {
        SwapKeepsOk(n);
        StepOfAKeepsLogs(cb, Swap(n), act.op);
      }
    }
  }

  lemma SwapKeepsOk(n: Net)
    requires NetOk(n)
    ensures NetOk(Swap(n))
  {
  }

  lemma NothingRead(now: int)
    ensures var n := Start(now); LogOk(n.a, n.ba) && LogOk(n.b, n.ab)
  {
    var p := Pipe(true, 1, [], 0, 0);
    assert p.frames[..0] == [] && Regulars([]) == 0;
    forall id: nat ensures Times([p], id) == 0 {
      assert [] + [p] == [p];
      TimesOfOneMore([], p, id);
    }
  }

  /** Exactly when a message is delivered again: when it has been read on two connections. */
  lemma {:induction false} DeliveredAgainIff(ca: Config, cb: Config, acts: seq<Act>, now: int, id: nat)
    ensures var n := Run(ca, cb, acts, now);
      && (Repeats(Log(n.a), id) <==> ReadTwice(n.ba, id))
      && (Repeats(Log(n.b), id) <==> ReadTwice(n.ab, id))
  {
    hide Run, Repeats, ReadTwice, Log, Times;
    FiredAsOftenAsRead(ca, cb, acts, now);
    var n := Run(ca, cb, acts, now);
    TwiceLogged(Log(n.a), id);
    TwiceRead(n.ba, id);
    TwiceLogged(Log(n.b), id);
    TwiceRead(n.ab, id);
  }

  /** The ids 1, 2, 3 and so on, each once. */
  ghost predicate EachOnce(log: seq<nat>) {
    forall j :: 0 <= j < |log| ==> log[j] == j + 1
  }

  /** Exactly when delivery is exactly once: when no message has been read on two connections. */
  lemma {:induction false} ExactlyOnceIff(ca: Config, cb: Config, acts: seq<Act>, now: int)
    ensures var n := Run(ca, cb, acts, now);
      && (EachOnce(Log(n.a)) <==> forall id :: !ReadTwice(n.ba, id))
      && (EachOnce(Log(n.b)) <==> forall id :: !ReadTwice(n.ab, id))
  {
    hide Run, ReadTwice, Log, Repeats, EachOnce, NetOk;
    var n := Run(ca, cb, acts, now);
    forall id ensures (Repeats(Log(n.a), id) <==> ReadTwice(n.ba, id)) && (Repeats(Log(n.b), id) <==> ReadTwice(n.ab, id)) {
      DeliveredAgainIff(ca, cb, acts, now, id);
    }
    EveryRunIsOk(ca, cb, acts, now);
    LogIsSteady(n);
    SwapKeepsOk(n);
    LogIsSteady(Swap(n));
    OnceIfNoRepeats(Log(n.a));
    OnceIfNoRepeats(Log(n.b));
  }

  lemma LogIsSteady(n: Net)
    requires NetOk(n)
    ensures Steady(Log(n.a))
  {
    hide Steady, Top;
    match n.a.hand
    case Some(InHand(f, id)) =>
      if f.typ == REGULAR {
        SteadyOneMore(n.a.fired, id);
      }
    case None =>
  }

  lemma OnceIfNoRepeats(log: seq<nat>)
    requires Steady(log)
    ensures EachOnce(log) <==> forall id :: !Repeats(log, id)
  {
    if forall id :: !Repeats(log, id) {
      StepsWithoutRepeats(log);
    }
  }

  lemma RepeatsPrefix(log: seq<nat>, n: nat, id: nat)
    requires n <= |log|
    ensures Repeats(log[..n], id) ==> Repeats(log, id)
  {
    if Repeats(log[..n], id) {
      var i, j :| 0 <= i < j < n && log[..n][i] == id == log[..n][j];
      assert log[i] == id == log[j];
    }
  }

  lemma RepeatsAtEnd(log: seq<nat>, k: nat)
    requires k < |log| - 1
    ensures log[k] == log[|log| - 1] ==> Repeats(log, log[k])
  {
  }

  lemma {:induction false} StepsWithoutRepeats(log: seq<nat>)
    requires Steady(log) && forall id :: !Repeats(log, id)
    ensures EachOnce(log) && Top(log) == |log|
  {
    if log != [] {
      hide Repeats;
      var before, last := log[..|log| - 1], log[|log| - 1];
      SteadyPrefix(log, |log| - 1);
      forall id ensures !Repeats(before, id) {
        RepeatsPrefix(log, |log| - 1, id);
      }
      StepsWithoutRepeats(before);
      assert StepAt(log, |log| - 1);
      if before != [] {
        RepeatsAtEnd(log, if last <= |before| then last - 1 else 0);
      }
    }
  }

  /** Without a reconnect every message is delivered exactly once, in order. */
  lemma {:induction false} ExactlyOnceWithoutReconnect(ca: Config, cb: Config, acts: seq<Act>, now: int)
    requires forall k :: 0 <= k < |acts| ==> !acts[k].op.Replacing?
    ensures var n := Run(ca, cb, acts, now); EachOnce(n.a.fired) && EachOnce(n.b.fired)
  {
    hide Run, ReadOn, Log, EachOnce;
    OneConnection(ca, cb, acts, now);
    ExactlyOnceIff(ca, cb, acts, now);
    var n := Run(ca, cb, acts, now);
    LogExtends(n.a);
    LogExtends(n.b);
  }

  lemma LogExtends(r: Side)
    ensures EachOnce(Log(r)) ==> EachOnce(r.fired)
  {
    if EachOnce(Log(r)) {
      forall j | 0 <= j < |r.fired| ensures r.fired[j] == j + 1 {
        assert Log(r)[j] == r.fired[j];
      }
    }
  }

  lemma {:induction false} OneConnection(ca: Config, cb: Config, acts: seq<Act>, now: int)
    requires forall k :: 0 <= k < |acts| ==> !acts[k].op.Replacing?
    ensures |Run(ca, cb, acts, now).ab| == |Run(ca, cb, acts, now).ba| == 1
  {
    if acts != [] {
      hide TakeFrame, EncodeAll, Send, AckCheck, ProcessAck, Deliver;
      OneConnection(ca, cb, acts[..|acts| - 1], now);
    }
  }

  /** Exactly when a reconnect that gets through delivers something again: when the queue that is replayed is not empty
      and its first message has been delivered already.  The log before is that of the receiver, the message in hand
      included. */
  lemma {:induction false} ReconnectRepeatsIff(ca: Config, cb: Config, acts: seq<Act>, now: int)
    ensures var n := Run(ca, cb, acts, now);
      && |n.b.ep.unack| <= |n.b.sent|
      && ((exists id :: id in Replayed(n.b) && id in Log(n.a)) <==>
            n.b.ep.unack != [] && n.b.ep.unack[0].msg.id <= Top(Log(n.a)))
  {
    hide Run, NetOk, Top, Log, Steady;
    EveryRunIsOk(ca, cb, acts, now);
    var n := Run(ca, cb, acts, now);
    QueuesAreShort(n);
    LogIsSteady(n);
    NoGaps(Log(n.a));
    var ids, log := Replayed(n.b), Log(n.a);
    if n.b.ep.unack != [] {
      QueueBegins(n);
      var first := n.b.ep.unack[0].msg.id;
      assert ids[0] == first && forall id :: id in ids ==> first <= id;
      if first <= Top(log) {
        assert first in ids && first in log;
      }
    }
  }

  lemma QueueBegins(n: Net)
    requires NetOk(n) && n.b.ep.unack != []
    ensures n.b.ep.unack[0].msg.id == |n.b.sent| - |n.b.ep.unack| + 1 >= 1
  {
    hide PipesOk, HeldOk, UnheardOk, AcksOk, FiredOk, HandOk, CurrentOk, Top;
    assert Carries(n.b.ep.unack[0].msg, n.b.sent, n.b.ep.lastId - |n.b.ep.unack| + 1);
  }
}
