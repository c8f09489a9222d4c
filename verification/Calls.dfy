/** What callers may rely on, over every run of client and server, messages repeated after reconnects included
    (packages/rpc/src/channelClient.ts:60-274, packages/rpc/src/channelServer.ts:100-273). */
module Calls {
  import opened Serialization
  import opened Channels
  import opened ChannelSteps

  /** A call settles at most once; while the client lives it is pending or settled, and after dispose every
      call ever issued is settled. */
  lemma {:induction false} CallsSettleOnce(deferInit: bool, acts: seq<Act>)
    ensures var c := Run(Start(deferInit), acts).client;
      && SettledOnce(c)
      && (forall id :: 0 <= id < |c.calls| ==> id in c.pending || IsSettled(c, id))
      && (forall id :: id in c.pending ==> !IsSettled(c, id))
      && (c.disposed ==> forall id :: 0 <= id < |c.calls| ==> IsSettled(c, id))
  {
    hide Run;
    EveryRunIsOk(deferInit, acts);
  }

  /** An answer to a call is the result that the server computed for that same id, channel, method and argument, or
      the timeout error naming its channel. */
  ghost predicate Genuine(c: Client, s: Server, id: nat, kind: Kind, body: Body) {
    && id < |c.calls|
    && match body
       case Payload(data) => exists job :: job in s.received && job.id == id && job.call == c.calls[id] && Computation(job, kind, data) in s.computed
       case UnknownChannel(channel) => kind == ErrorRecord && channel == c.calls[id].channel
  }

  /** Every call settled by an answer got a genuine one. */
  lemma {:induction false} AnswersAreGenuine(deferInit: bool, acts: seq<Act>)
    ensures var y := Run(Start(deferInit), acts);
      forall k :: 0 <= k < |y.client.settled| && y.client.settled[k].outcome.Answered? ==>
        Genuine(y.client, y.server, y.client.settled[k].id, y.client.settled[k].outcome.kind, y.client.settled[k].outcome.body)
  {
    hide Run, Genuine;
    EveryRunIsOk(deferInit, acts);
    var y := Run(Start(deferInit), acts);
    var c := y.client;
    forall k | 0 <= k < |c.settled| && c.settled[k].outcome.Answered?
      ensures Genuine(c, y.server, c.settled[k].id, c.settled[k].outcome.kind, c.settled[k].outcome.body)
    {
      SentAnswerIsGenuine(y, c.settled[k].id, c.settled[k].outcome.kind, c.settled[k].outcome.body);
    }
  }

  lemma SentAnswerIsGenuine(y: System, id: nat, kind: Kind, body: Body)
    requires SystemOk(y) && Answer(kind, id, body) in y.server.sent
    ensures Genuine(y.client, y.server, id, kind, body)
  {
    hide SettledOnce, SentOnce, Deferred, HeldOk, HeldOnce, StartedOk, StartedOnce, Taken, IsSettled;
    assert Backed(y.server.received, y.server.computed, id, kind, body);
    match body
    case Payload(data) =>
      var job :| job in y.server.received && job.id == id && Computation(job, kind, data) in y.server.computed;
      assert WasSent(y.client, job);
    case UnknownChannel(channel) =>
      var job :| job in y.server.received && job.id == id && job.call.channel == channel;
      assert WasSent(y.client, job);
  }

  // ---------- how often a request runs ----------

  /** Whatever is repeated, the server never runs one delivery twice and never forgets one: each delivery is held or
      started, not both; each invocation is running or answered, not both; and it runs only what the client called. */
  lemma {:induction false} DeliveriesRunOnce(deferInit: bool, acts: seq<Act>)
    ensures var y := Run(Start(deferInit), acts); var s := y.server;
      && Numbered(s.received) && StartedOnce(s.started)
      && (forall job :: job in s.received <==> job in s.started || IsHeld(s.held, job))
      && (forall job :: !(job in s.started && IsHeld(s.held, job)))
      && multiset(s.started) == multiset(s.running) + multiset(Jobs(s.computed))
      && (forall job :: job in s.received ==> job.id < |y.client.calls| && y.client.calls[job.id] == job.call)
  {
    hide Run, AnswersOk;
    EveryRunIsOk(deferInit, acts);
    var y := Run(Start(deferInit), acts);
    forall job | job in y.server.received ensures job.id < |y.client.calls| && y.client.calls[job.id] == job.call {
      assert WasSent(y.client, job);
    }
  }

  ghost predicate IsRepeated(jobs: seq<Job>, id: nat) {
    exists i, j :: 0 <= i < j < |jobs| && jobs[i].id == id == jobs[j].id
  }

  /** Exactly when a request runs more than once: when it is handed over more than once, as soon as none of its
      deliveries is held back for a late channel. */
  lemma {:induction false} RunsAgainIff(deferInit: bool, acts: seq<Act>, id: nat)
    requires forall job :: IsHeld(Run(Start(deferInit), acts).server.held, job) ==> job.id != id
    ensures var s := Run(Start(deferInit), acts).server;
      IsRepeated(s.started, id) <==> IsRepeated(s.received, id)
  {
    hide Run, IsHeld;
    DeliveriesRunOnce(deferInit, acts);
    var s := Run(Start(deferInit), acts).server;
    if IsRepeated(s.started, id) {
      Renumbered(s.started, s.received, id);
    }
    if IsRepeated(s.received, id) {
      var i, j :| 0 <= i < j < |s.received| && s.received[i].id == id == s.received[j].id;
      assert s.received[i] in s.started && s.received[j] in s.started;
      assert s.received[i].delivery == i && s.received[j].delivery == j;
    }
  }

  lemma Renumbered(started: seq<Job>, received: seq<Job>, id: nat)
    requires IsRepeated(started, id) && StartedOnce(started) && forall job :: job in started ==> job in received
    ensures IsRepeated(received, id)
  {
    var i, j :| 0 <= i < j < |started| && started[i].id == id == started[j].id;
    assert started[i] in received && started[j] in received;
  }

  /** So over runs in which nothing is replayed to the server, every request runs at most once. */
  lemma {:induction false} RequestsRunOnce(deferInit: bool, acts: seq<Act>)
    requires forall k :: 0 <= k < |acts| ==> !acts[k].DoReplayToServer?
    ensures var s := Run(Start(deferInit), acts).server;
      forall id :: !IsRepeated(s.received, id) && !IsRepeated(s.started, id)
  {
    hide Run;
    NothingIsRepeated(deferInit, acts);
    DeliveriesRunOnce(deferInit, acts);
    var s := Run(Start(deferInit), acts).server;
    forall id ensures !IsRepeated(s.started, id) {
      if IsRepeated(s.started, id) {
        Renumbered(s.started, s.received, id);
        assert false;
      }
    }
  }

  /** Without replays the server reads on where it stopped, and has been handed distinct requests. */
  ghost predicate ReadsOn(y: System) {
    && y.toServer == y.heardByServer <= |y.client.sent|
    && (forall job :: job in y.server.received ==> PromiseRequest(job.id, job.call) in y.client.sent[..y.toServer])
    && forall id :: !IsRepeated(y.server.received, id)
  }

  lemma {:induction false} NothingIsRepeated(deferInit: bool, acts: seq<Act>)
    requires forall k :: 0 <= k < |acts| ==> !acts[k].DoReplayToServer?
    ensures SystemOk(Run(Start(deferInit), acts)) && ReadsOn(Run(Start(deferInit), acts))
    decreases |acts|
  {
    EveryRunIsOk(deferInit, acts);
    if acts != [] {
      hide SystemOk, ReadsOn, Step;
      var before, act := acts[..|acts| - 1], acts[|acts| - 1];
      NothingIsRepeated(deferInit, before);
      var y := Run(Start(deferInit), before);
      StepKeeps(y, act);
      StepReadsOn(y, act);
    }
  }

  lemma StepReadsOn(y: System, act: Act)
    requires SystemOk(y) && ReadsOn(y) && !act.DoReplayToServer?
    ensures ReadsOn(Step(y, act))
  {
    if act.DoServe? {
      ServingReadsOn(y);
    } else {
      hide ServerOk, ClientOk, Linked, IsRepeated, StartAll, RejectBelow;
      FlushServes(y.server);
      var z := Step(y, act);
      assert y.client.sent <= z.client.sent;
      assert z.client.sent[..y.toServer] == y.client.sent[..y.toServer];
    }
  }

  lemma ServingReadsOn(y: System)
    requires SystemOk(y) && ReadsOn(y)
    ensures ReadsOn(Step(y, DoServe))
  {
    hide ServerOk, Linked, IsRepeated, SettledOnce, Deferred, IsSettled;
    var z := Step(y, DoServe);
    if y.toServer < |y.client.sent| {
      var r := y.client.sent[y.toServer];
      assert y.client.sent[..y.toServer + 1] == y.client.sent[..y.toServer] + [r];
      if r.PromiseRequest? && !y.server.disposed {
        var job := Job(|y.server.received|, r.id, r.call);
        assert z.server.received == y.server.received + [job];
        forall other | other in y.server.received ensures other.id != job.id {
          var k :| 0 <= k < y.toServer && y.client.sent[k] == PromiseRequest(other.id, other.call);
        }
        OneMoreId(y.server.received, job);
      }
    }
  }

  lemma OneMoreId(received: seq<Job>, job: Job)
    requires (forall id :: !IsRepeated(received, id)) && forall other :: other in received ==> other.id != job.id
    ensures forall id :: !IsRepeated(received + [job], id)
  {
    forall id ensures !IsRepeated(received + [job], id) {
      assert !IsRepeated(received, id);
    }
  }

  /** The condition is needed: a request that is replayed to a registered channel runs twice. */
  lemma ReplayedRequestRunsTwice(call: Call) returns (acts: seq<Act>)
    ensures Run(Start(false), acts).server.started == [Job(0, 0, call), Job(1, 0, call)]
  {
    hide Run;
    var start, idle, asked, ch := Start(false), NEW_CLIENT.(idle := true), Asked(call), call.channel;
    var s0 := NewServer(false).(channels := {ch}, flushes := [ch]);
    var one, two := Job(0, 0, call), Job(1, 0, call);
    var s1 := s0.(received := [one], running := [one], started := [one], active := {0});
    var s2 := s1.(received := [one, two], running := [one, two], started := [one, two]);
    acts := Then([], DoRegister(ch), start, start, System(NEW_CLIENT, s0, 0, 0, 0, 0));
    acts := Then(acts, DoDeliver, start, System(NEW_CLIENT, s0, 0, 0, 0, 0), System(idle, s0, 0, 0, 1, 1));
    acts := Then(acts, DoInvoke(call, false), start, System(idle, s0, 0, 0, 1, 1), System(asked, s0, 0, 0, 1, 1));
    acts := Then(acts, DoServe, start, System(asked, s0, 0, 0, 1, 1), System(asked, s1, 1, 1, 1, 1));
    acts := Then(acts, DoReplayToServer(0), start, System(asked, s1, 1, 1, 1, 1), System(asked, s1, 0, 1, 1, 1));
    acts := Then(acts, DoServe, start, System(asked, s1, 0, 1, 1, 1), System(asked, s2, 1, 1, 1, 1));
  }

  // ---------- rejected before Initialize, never sent ----------

  /** Settled without having been sent. */
  ghost predicate GivenUp(c: Client, id: nat) {
    IsSettled(c, id) && !IsSent(c, id)
  }

  lemma GivenUpUnderSettle(c: Client, id: nat, other: nat, outcome: Outcome)
    requires GivenUp(c, id)
    ensures GivenUp(Settle(c, other, outcome), id)
  {
    SettledGrows(c, Settle(c, other, outcome), id);
  }

  lemma GivenUpUnderDoRequest(c: Client, id: nat, other: nat)
    requires CallsOk(c) && GivenUp(c, id)
    ensures GivenUp(DoRequest(c, other), id)
  {
    var d := DoRequest(c, other);
    if d != c {
      assert id != other;
      SettledGrows(c, d, id);
    }
  }

  lemma GivenUpSame(c: Client, d: Client, id: nat)
    requires GivenUp(c, id) && c.settled <= d.settled && c.sent == d.sent
    ensures GivenUp(d, id)
  {
    SettledGrows(c, d, id);
  }

  lemma GivenUpStays(y: System, act: Act, id: nat)
    requires SystemOk(y) && GivenUp(y.client, id)
    ensures GivenUp(Step(y, act).client, id)
  {
    hide GivenUp, ServerOk, RejectBelow;
    var c := y.client;
    match act
    case DoInvoke(call, alreadyCancelled) =>
      if !c.disposed {
        GivenUpSame(c, Invoke(c, call, true), id);
        if !alreadyCancelled {
          var d := c.(calls := c.calls + [call], pending := c.pending + {|c.calls|});
          GivenUpSame(c, d, id);
          GivenUpUnderDoRequest(d, id, |c.calls|);
          GivenUpSame(c, d.(waiting := d.waiting + [|c.calls|]), id);
        }
      }
    case DoRunDeferred =>
      if c.ready != [] {
        var d := c.(ready := c.ready[1..]);
        GivenUpSame(c, d, id);
        ReleasedIsOwed(c);
        GivenUpUnderDoRequest(d, id, c.ready[0]);
      }
    case DoCancel(other) =>
      if other in c.pending {
        var d := c.(sent := c.sent + [PromiseCancel(other)]);
        GivenUpUnderCancel(c, id, other);
        GivenUpUnderSettle(d, id, other, Cancelled);
      }
    case DoDeliver =>
      if y.toClient < |y.server.sent| {
        var d := Deliver(c, y.server.sent[y.toClient]);
        assert c.settled <= d.settled && c.sent == d.sent;
        GivenUpSame(c, d, id);
      }
    case DoDispose =>
      GivenUpSame(c, Dispose(c), id);
    case _ =>
  }

  lemma GivenUpUnderCancel(c: Client, id: nat, other: nat)
    requires GivenUp(c, id)
    ensures GivenUp(c.(sent := c.sent + [PromiseCancel(other)]), id)
  {
    SettledGrows(c, c.(sent := c.sent + [PromiseCancel(other)]), id);
  }

  /** A call that is cancelled or disposed before its request went out is never sent, whatever happens next. */
  lemma {:induction false} GivenUpIsNeverSent(deferInit: bool, acts: seq<Act>, later: seq<Act>, id: nat)
    requires GivenUp(Run(Start(deferInit), acts).client, id)
    ensures GivenUp(Run(Start(deferInit), acts + later).client, id)
    decreases |later|
  {
    hide GivenUp, Step, SystemOk;
    if later == [] {
      assert acts + later == acts;
    } else {
      var shorter := later[..|later| - 1];
      assert (acts + later)[..|acts + later| - 1] == acts + shorter;
      GivenUpIsNeverSent(deferInit, acts, shorter, id);
      EveryRunIsOk(deferInit, acts + shorter);
      GivenUpStays(Run(Start(deferInit), acts + shorter), later[|later| - 1], id);
    }
  }

  /** Until Initialize arrives nothing but cancellations leaves the client. */
  ghost predicate Silent(c: Client) {
    c.ready == [] && forall k :: 0 <= k < |c.sent| ==> c.sent[k].PromiseCancel?
  }

  lemma NewIsSilent(deferInit: bool)
    ensures Silent(Start(deferInit).client)
  {
  }

  lemma StepStaysSilent(y: System, act: Act)
    requires !y.client.idle ==> Silent(y.client)
    ensures var c := Step(y, act).client; !c.idle ==> Silent(c)
  {
    hide Flush, OnRequest, TimerFires, Finish;
  }

  lemma {:induction false} SilentBeforeInitialize(deferInit: bool, acts: seq<Act>)
    ensures var c := Run(Start(deferInit), acts).client; !c.idle ==> Silent(c)
    decreases |acts|
  {
    hide Step, Silent;
    if acts == [] {
      NewIsSilent(deferInit);
    } else {
      SilentBeforeInitialize(deferInit, acts[..|acts| - 1]);
      StepStaysSilent(Run(Start(deferInit), acts[..|acts| - 1]), acts[|acts| - 1]);
    }
  }

  /** A call cancelled or disposed before Initialize is never sent. */
  lemma {:induction false} RejectedBeforeInitializeIsNeverSent(deferInit: bool, acts: seq<Act>, later: seq<Act>, id: nat)
    requires var c := Run(Start(deferInit), acts).client; !c.idle && IsSettled(c, id)
    ensures !IsSent(Run(Start(deferInit), acts + later).client, id)
  {
    hide Run;
    SilentBeforeInitialize(deferInit, acts);
    GivenUpIsNeverSent(deferInit, acts, later, id);
  }

  lemma RunOneMore(y: System, acts: seq<Act>, act: Act)
    ensures Run(y, acts + [act]) == Step(Run(y, acts), act)
  {
    assert (acts + [act])[..|acts|] == acts;
  }

  /** The client after its first call, still unanswered. */
  function Asked(call: Call): Client {
    NEW_CLIENT.(idle := true, pending := {0}, handlers := {0}, calls := [call], sent := [PromiseRequest(0, call)])
  }

  /** A server whose only request has timed out, and is still held. */
  function TimedOut(call: Call): Server {
    NewServer(false).(held := map[call.channel := [Held(Job(0, 0, call), false)]], received := [Job(0, 0, call)], timedOut := [Job(0, 0, call)],
                      sent := [Initialize, Answer(ErrorRecord, 0, UnknownChannel(call.channel))])
  }

  lemma RequestTimesOut(call: Call) returns (acts: seq<Act>)
    ensures Run(Start(false), acts) == System(Asked(call), TimedOut(call), 1, 1, 1, 1)
  {
    hide Run;
    var start, idle, asked, ch := Start(false), NEW_CLIENT.(idle := true), Asked(call), call.channel;
    var s0 := NewServer(false);
    var s1 := s0.(held := map[ch := [Held(Job(0, 0, call), true)]], received := [Job(0, 0, call)]);
    acts := Then([], DoDeliver, start, start, System(idle, s0, 0, 0, 1, 1));
    acts := Then(acts, DoInvoke(call, false), start, System(idle, s0, 0, 0, 1, 1), System(asked, s0, 0, 0, 1, 1));
    HoldingOne(s0, ch, call, s1);
    acts := Then(acts, DoServe, start, System(asked, s0, 0, 0, 1, 1), System(asked, s1, 1, 1, 1, 1));
    TimingOutOne(s1, ch, call, TimedOut(call));
    acts := Then(acts, DoTimer(ch, 0), start, System(asked, s1, 1, 1, 1, 1), System(asked, TimedOut(call), 1, 1, 1, 1));
  }

  /** Two answers to one request do occur: the timeout's, and the channel's own when it registers late; `ServerAnswers`
      says exactly when. */
  lemma ServerMayAnswerTwice(call: Call, data: Data) returns (acts: seq<Act>)
    ensures var y := Run(Start(false), acts);
      && y.server.sent == [Initialize, Answer(ErrorRecord, 0, UnknownChannel(call.channel)), Answer(Success, 0, Payload(data))]
      && y.client.settled == [Settlement(0, Answered(ErrorRecord, UnknownChannel(call.channel)))]
  {
    acts := RequestTimesOut(call);
    hide Run, Start;
    var ch, timeout, result := call.channel, Answer(ErrorRecord, 0, UnknownChannel(call.channel)), Answer(Success, 0, Payload(data));
    var start, asked, s2 := Start(false), Asked(call), TimedOut(call);
    var answered := asked.(pending := {}, handlers := {}, settled := [Settlement(0, Answered(ErrorRecord, UnknownChannel(ch)))]);
    var s3 := s2.(channels := {ch}, flushes := [ch]);
    var s4 := s3.(held := map[], flushes := [], running := [Job(0, 0, call)], started := [Job(0, 0, call)], active := {0});
    var s5 := s4.(running := [], active := {}, computed := [Computation(Job(0, 0, call), Success, data)], sent := [Initialize, timeout, result]);
    acts := Then(acts, DoRegister(ch), start, System(asked, s2, 1, 1, 1, 1), System(asked, s3, 1, 1, 1, 1));
    FlushingOne(s3, ch, call, s4);
    acts := Then(acts, DoFlush, start, System(asked, s3, 1, 1, 1, 1), System(asked, s4, 1, 1, 1, 1));
    acts := Then(acts, DoFinish(0, Success, data), start, System(asked, s4, 1, 1, 1, 1), System(asked, s5, 1, 1, 1, 1));
    acts := Then(acts, DoDeliver, start, System(asked, s5, 1, 1, 1, 1), System(answered, s5, 1, 1, 2, 2));
    acts := Then(acts, DoDeliver, start, System(answered, s5, 1, 1, 2, 2), System(answered, s5, 1, 1, 3, 3));
  }

  /** One more step of a run that stands at y. */
  lemma Then(acts: seq<Act>, act: Act, start: System, y: System, z: System) returns (more: seq<Act>)
    requires (acts == [] && y == start) || Run(start, acts) == y
    requires Step(y, act) == z
    ensures more == acts + [act] && Run(start, more) == z
  {
    more := acts + [act];
    RunOneMore(start, acts, act);
    assert acts == [] ==> Run(start, acts) == start;
  }

  lemma HoldingOne(s: Server, ch: string, call: Call, t: Server)
    requires call.channel == ch && ch !in s.channels && s.held == map[] && !s.disposed && s.received == []
    requires t == s.(held := map[ch := [Held(Job(0, 0, call), true)]], received := [Job(0, 0, call)])
    ensures OnRequest(s, PromiseRequest(0, call)) == t
  {
    assert HeldFor(s, ch) + [Held(Job(0, 0, call), true)] == [Held(Job(0, 0, call), true)];
  }

  lemma TimingOutOne(s: Server, ch: string, call: Call, t: Server)
    requires call.channel == ch && s.held == map[ch := [Held(Job(0, 0, call), true)]]
    requires s.timedOut == []
    requires t == s.(held := map[ch := [Held(Job(0, 0, call), false)]], timedOut := [Job(0, 0, call)],
                     sent := s.sent + [Answer(ErrorRecord, 0, UnknownChannel(ch))])
    ensures TimerFires(s, ch, 0) == t
  {
    var all := HeldFor(s, ch);
    assert all[0 := all[0].(timer := false)] == [Held(Job(0, 0, call), false)];
    assert s.held[ch := [Held(Job(0, 0, call), false)]] == map[ch := [Held(Job(0, 0, call), false)]];
  }

  lemma FlushingOne(s: Server, ch: string, call: Call, t: Server)
    requires call.channel == ch && s.channels == {ch} && s.flushes == [ch] && s.held == map[ch := [Held(Job(0, 0, call), false)]]
    requires t == s.(held := map[], flushes := [], running := s.running + [Job(0, 0, call)],
                     started := s.started + [Job(0, 0, call)], active := s.active + {0})
    ensures Flush(s) == t
  {
    HeldOneStarts(s.(flushes := []), ch, call);
    assert s.flushes[1..] == [];
    assert s.held - {ch} == map[];
  }

  lemma HeldOneStarts(s: Server, channel: string, call: Call)
    requires call.channel == channel && channel in s.channels
    ensures StartAll(s, [Held(Job(0, 0, call), false)]) == StartJob(s, Job(0, 0, call))
  {
    assert [Held(Job(0, 0, call), false)][1..] == [];
  }
}
