/** Where a call stands, and when it is certain to have settled, over every run of client and server
    (packages/rpc/src/channelClient.ts:69-147, 232-240, packages/rpc/src/channelServer.ts:100-190). */
module Completions {
  import opened Serialization
  import opened Channels
  import opened ChannelSteps
  import opened ServerAnswers

  // ---------- one answer ----------

  /** An answer settles its call exactly if that has gone out and nothing else has settled it. */
  lemma AnswerSettlesIff(c: Client, kind: Kind, id: nat, body: Body)
    requires ClientOk(c) && !c.disposed
    ensures Deliver(c, Answer(kind, id, body)).settled
         == c.settled + if IsSent(c, id) && !IsSettled(c, id) then [Settlement(id, Answered(kind, body))] else []
  {
    hide SettledOnce, SentOnce, Deferred;
    if IsSent(c, id) {
      var k :| 0 <= k < |c.sent| && c.sent[k].PromiseRequest? && c.sent[k].id == id;
    }
  }

  /** After an answer its call is settled, and cannot be settled by another one. */
  lemma AnsweredIsSettled(c: Client, kind: Kind, id: nat, body: Body)
    requires ClientOk(c) && IsSent(c, id)
    ensures var d := Deliver(c, Answer(kind, id, body)); IsSettled(d, id) && id !in d.handlers
  {
    var d := Deliver(c, Answer(kind, id, body));
    var k :| 0 <= k < |c.sent| && c.sent[k].PromiseRequest? && c.sent[k].id == id;
    if !c.disposed {
      AnswerSettlesIff(c, kind, id, body);
      if !IsSettled(c, id) {
        assert d.settled[|c.settled|].id == id;
      } else {
        SettledGrows(c, d, id);
      }
    }
  }

  lemma AnswerCloses(c: Client, kind: Kind, id: nat, body: Body)
    requires ClientOk(c)
    ensures var d := Deliver(c, Answer(kind, id, body));
      && (!c.disposed ==>
            d.settled == c.settled + if IsSent(c, id) && !IsSettled(c, id) then [Settlement(id, Answered(kind, body))] else [])
      && (IsSent(d, id) ==> IsSettled(d, id) && id !in d.handlers)
  {
    hide ClientOk, IsSettled;
    assert IsSent(Deliver(c, Answer(kind, id, body)), id) ==> IsSent(c, id);
    if !c.disposed {
      AnswerSettlesIff(c, kind, id, body);
    }
    if IsSent(c, id) {
      AnsweredIsSettled(c, kind, id, body);
    }
  }

  // ---------- what has been heard ----------

  /** Every answer the client has heard belongs to a call that is settled, and Initialize was not missed. */
  ghost predicate ClientHeard(c: Client, sent: seq<Response>, heard: nat) {
    forall k :: 0 <= k < heard && k < |sent| ==>
      && (sent[k].Answer? ==> IsSettled(c, sent[k].id))
      && (sent[k].Initialize? ==> c.idle || c.disposed)
  }

  ghost predicate IsReceived(s: Server, id: nat, call: Call) {
    exists job :: job in s.received && job.id == id && job.call == call
  }

  /** Every request the server has heard was recorded, as long as it listens. */
  ghost predicate ServerHeard(s: Server, sent: seq<Request>, heard: nat) {
    !s.disposed ==> forall k :: 0 <= k < heard && k < |sent| && sent[k].PromiseRequest? ==> IsReceived(s, sent[k].id, sent[k].call)
  }

  ghost predicate Heard(y: System) {
    ClientHeard(y.client, y.server.sent, y.heardByClient) && ServerHeard(y.server, y.client.sent, y.heardByServer)
  }

  lemma StepHears(y: System, act: Act)
    requires SystemOk(y) && Heard(y)
    ensures Heard(Step(y, act))
  {
    hide ClientOk, ServerOk, Linked, Heard, Step;
    match act
    case DoDeliver => DeliveringHears(y);
    case DoServe => ServingHears(y);
    case _ => OtherwiseHears(y, act);
  }

  lemma OtherwiseHears(y: System, act: Act)
    requires Heard(y) && y.heardByClient <= |y.server.sent| && y.heardByServer <= |y.client.sent|
    requires !act.DoDeliver? && !act.DoServe?
    ensures Heard(Step(y, act))
  {
    hide ClientHeard, ServerHeard, Step;
    var z := Step(y, act);
    ActsGrow(y, act);
    ClientStillHeard(y.client, z.client, y.server.sent, z.server.sent, y.heardByClient);
    ServerStillHeard(y.server, z.server, y.client.sent, z.client.sent, y.heardByServer);
  }

  /** Acts other than the arrival of a message: histories grow, and nobody listens again. */
  lemma ActsGrow(y: System, act: Act)
    requires !act.DoDeliver? && !act.DoServe?
    ensures var z := Step(y, act);
      && y.client.sent <= z.client.sent && y.client.settled <= z.client.settled && y.server.sent <= z.server.sent
      && (y.client.idle ==> z.client.idle) && (y.client.disposed ==> z.client.disposed)
      && z.server.received == y.server.received && (y.server.disposed ==> z.server.disposed)
      && z.heardByClient == y.heardByClient && z.heardByServer == y.heardByServer
  {
    hide RejectBelow, StartAll;
    FlushServes(y.server);
    FlushKeepsListening(y.server);
  }

  lemma FlushKeepsListening(s: Server)
    ensures Flush(s).disposed == s.disposed
  {
    if s.flushes != [] && s.flushes[0] in s.held {
      StartAllKeepsListening(s.(flushes := s.flushes[1..]), s.held[s.flushes[0]]);
    }
  }

  lemma {:induction false} StartAllKeepsListening(s: Server, requests: seq<Held>)
    ensures StartAll(s, requests).disposed == s.disposed
    decreases |requests|
  {
    if requests != [] {
      StartAllKeepsListening(OnPromise(s, requests[0].job), requests[1..]);
    }
  }

  lemma ClientStillHeard(c: Client, d: Client, sent: seq<Response>, more: seq<Response>, heard: nat)
    requires ClientHeard(c, sent, heard) && heard <= |sent| && sent <= more && c.settled <= d.settled
    requires (c.idle ==> d.idle) && (c.disposed ==> d.disposed)
    ensures ClientHeard(d, more, heard)
  {
    hide IsSettled;
    forall k | 0 <= k < heard && more[k].Answer? ensures IsSettled(d, more[k].id) {
      assert more[k] == sent[k];
      SettledGrows(c, d, sent[k].id);
    }
  }

  lemma ServerStillHeard(s: Server, t: Server, sent: seq<Request>, more: seq<Request>, heard: nat)
    requires ServerHeard(s, sent, heard) && heard <= |sent| && sent <= more
    requires forall job :: job in s.received ==> job in t.received
    requires s.disposed ==> t.disposed
    ensures ServerHeard(t, more, heard)
  {
    if !t.disposed {
      forall k | 0 <= k < heard && more[k].PromiseRequest? ensures IsReceived(t, more[k].id, more[k].call) {
        assert more[k] == sent[k] && IsReceived(s, sent[k].id, sent[k].call);
      }
    }
  }

  lemma DeliveringHears(y: System)
    requires SystemOk(y) && Heard(y)
    ensures Heard(Step(y, DoDeliver))
  {
    hide ServerHeard, ClientHeard, IsSettled, ClientOk, ServerOk, Linked;
    if y.toClient < |y.server.sent| {
      var c, r := y.client, y.server.sent[y.toClient];
      var d := Deliver(c, r);
      ClientStillHeard(c, d, y.server.sent, y.server.sent, y.heardByClient);
      if r.Answer? {
        AnswerWasAskedFor(y, y.toClient);
        AnsweredIsSettled(c, r.kind, r.id, r.body);
      }
      OneMoreHeard(d, y.server.sent, y.heardByClient, y.toClient);
    }
  }

  lemma OneMoreHeard(d: Client, sent: seq<Response>, heard: nat, k: nat)
    requires ClientHeard(d, sent, heard) && k <= heard && k < |sent|
    requires sent[k].Answer? ==> IsSettled(d, sent[k].id)
    requires sent[k].Initialize? ==> d.idle || d.disposed
    ensures ClientHeard(d, sent, Max(heard, k + 1))
  {
    hide IsSettled;
  }

  /** Whatever the server answers was sent by the client. */
  lemma AnswerWasAskedFor(y: System, k: nat)
    requires SystemOk(y) && k < |y.server.sent| && y.server.sent[k].Answer?
    ensures IsSent(y.client, y.server.sent[k].id)
  {
    hide ClientOk, HeldOk, HeldOnce, StartedOk, StartedOnce, Taken;
    var r := y.server.sent[k];
    assert Backed(y.server.received, y.server.computed, r.id, r.kind, r.body);
    var job :| job in y.server.received && job.id == r.id;
    assert WasSent(y.client, job);
    var n :| 0 <= n < |y.client.sent| && y.client.sent[n] == PromiseRequest(job.id, job.call);
    assert y.client.sent[n].PromiseRequest? && y.client.sent[n].id == r.id;
  }

  lemma ServingHears(y: System)
    requires SystemOk(y) && Heard(y)
    ensures Heard(Step(y, DoServe))
  {
    hide ClientHeard, ClientOk, ServerOk, Linked, ServerHeard, IsReceived;
    if y.toServer < |y.client.sent| {
      var s, r := y.server, y.client.sent[y.toServer];
      var t := OnRequest(s, r);
      RequestIsReceived(s, r);
      ServerStillHeard(s, t, y.client.sent, y.client.sent, y.heardByServer);
      OneMoreServed(t, y.client.sent, y.heardByServer, y.toServer);
    }
  }

  lemma RequestIsReceived(s: Server, r: Request)
    ensures var t := OnRequest(s, r);
      && (forall job :: job in s.received ==> job in t.received)
      && t.disposed == s.disposed && t.sent == s.sent
      && (!s.disposed && r.PromiseRequest? ==> IsReceived(t, r.id, r.call))
  {
    if !s.disposed && r.PromiseRequest? {
      var t := OnRequest(s, r);
      assert t.received[|s.received|] == Job(|s.received|, r.id, r.call);
    }
  }

  lemma OneMoreServed(t: Server, sent: seq<Request>, heard: nat, k: nat)
    requires ServerHeard(t, sent, heard) && k <= heard && k < |sent|
    requires !t.disposed && sent[k].PromiseRequest? ==> IsReceived(t, sent[k].id, sent[k].call)
    ensures ServerHeard(t, sent, Max(heard, k + 1))
  {
    hide IsReceived;
  }

  lemma {:induction false} EveryRunHears(deferInit: bool, acts: seq<Act>)
    ensures Heard(Run(Start(deferInit), acts))
    decreases |acts|
  {
    if acts != [] {
      hide Heard, Step, SystemOk;
      EveryRunHears(deferInit, acts[..|acts| - 1]);
      EveryRunIsOk(deferInit, acts[..|acts| - 1]);
      StepHears(Run(Start(deferInit), acts[..|acts| - 1]), acts[|acts| - 1]);
    }
  }

  // ---------- what follows over every run ----------

  /** The next message delivered, if it is an answer and the client still listens, settles its call exactly if that has
      gone out and nothing else has settled it; and whatever answer the client has ever heard, its call is settled. */
  lemma {:induction false} AnswersSettleTheirCalls(deferInit: bool, acts: seq<Act>)
    ensures var y := Run(Start(deferInit), acts); var c := y.client;
      && (forall k :: 0 <= k < y.heardByClient && k < |y.server.sent| && y.server.sent[k].Answer? ==> IsSettled(c, y.server.sent[k].id))
      && (!c.disposed && y.toClient < |y.server.sent| && y.server.sent[y.toClient].Answer? ==>
            var r := y.server.sent[y.toClient];
            Step(y, DoDeliver).client.settled
              == c.settled + if IsSettled(c, r.id) then [] else [Settlement(r.id, Answered(r.kind, r.body))])
  {
    hide Run, IsSettled, ClientOk, ServerOk, Linked, Deliver;
    EveryRunIsOk(deferInit, acts);
    EveryRunHears(deferInit, acts);
    var y := Run(Start(deferInit), acts);
    if !y.client.disposed && y.toClient < |y.server.sent| && y.server.sent[y.toClient].Answer? {
      var r := y.server.sent[y.toClient];
      AnswerWasAskedFor(y, y.toClient);
      AnswerSettlesIff(y.client, r.kind, r.id, r.body);
    }
  }

  /** A request on its way: sent, and not heard by the server yet. */
  ghost predicate Travelling(y: System, id: nat) {
    exists k :: y.heardByServer <= k < |y.client.sent| && y.client.sent[k].PromiseRequest? && y.client.sent[k].id == id
  }

  ghost predicate Served(jobs: seq<Job>, id: nat) {
    exists job :: job in jobs && job.id == id
  }

  ghost predicate HeldUp(held: map<string, seq<Held>>, id: nat) {
    exists job :: IsHeld(held, job) && job.id == id
  }

  /** An answer on its way: sent, and not heard by the client yet. */
  ghost predicate Returning(y: System, id: nat) {
    exists k :: y.heardByClient <= k < |y.server.sent| && y.server.sent[k].Answer? && y.server.sent[k].id == id
  }

  /** A call that is still pending is always somewhere: held back by the client, on its way to the server, held or running
      there, or its answer is on the way back.  Only a disposed server loses requests. */
  lemma {:induction false} PendingIsSomewhere(deferInit: bool, acts: seq<Act>, id: nat)
    requires var y := Run(Start(deferInit), acts); id in y.client.pending && !y.server.disposed
    ensures var y := Run(Start(deferInit), acts);
      || id in y.client.ready + y.client.waiting || Travelling(y, id)
      || HeldUp(y.server.held, id) || Served(y.server.running, id) || Returning(y, id)
  {
    hide Run, ServerOk, Booked, ServerHeard, ClientHeard, Travelling, Served, HeldUp, Returning, Linked;
    EveryRunIsBooked(deferInit, acts);
    EveryRunHears(deferInit, acts);
    var y := Run(Start(deferInit), acts);
    if id !in y.client.ready + y.client.waiting {
      var k := PendingWasSent(y.client, id);
      if k >= y.heardByServer {
        assert Travelling(y, id) by { ThereIs(y, k); }
      } else {
        ReceivedIsServed(y, k);
      }
    }
  }

  lemma ThereIs(y: System, k: nat)
    requires y.heardByServer <= k < |y.client.sent| && y.client.sent[k].PromiseRequest?
    ensures Travelling(y, y.client.sent[k].id)
  {
  }

  lemma PendingWasSent(c: Client, id: nat) returns (k: nat)
    requires ClientOk(c) && id in c.pending && id !in c.ready + c.waiting
    ensures k < |c.sent| && c.sent[k].PromiseRequest? && c.sent[k].id == id && !IsSettled(c, id)
  {
    assert IsSent(c, id);
    k :| 0 <= k < |c.sent| && c.sent[k].PromiseRequest? && c.sent[k].id == id;
  }

  lemma ReceivedIsServed(y: System, k: nat)
    requires ServerOk(y.server) && Booked(y.server) && Heard(y) && !y.server.disposed
    requires k < y.heardByServer && k < |y.client.sent| && y.client.sent[k].PromiseRequest? && !IsSettled(y.client, y.client.sent[k].id)
    ensures var id := y.client.sent[k].id;
      HeldUp(y.server.held, id) || Served(y.server.running, id) || Returning(y, id)
  {
    hide IsHeld, HeldOk, HeldOnce, StartedOnce, AnswersOk, IsSettled, TimeoutsOk, Booked;
    var s, id := y.server, y.client.sent[k].id;
    assert IsReceived(s, id, y.client.sent[k].call);
    var job :| job in s.received && job.id == id;
    assert Taken(s, job);
    if !IsHeld(s.held, job) && job !in s.running {
      assert job in multiset(s.started);
      assert job in multiset(Jobs(s.computed));
      var n := ComputedIsAnswered(s, job);
      assert n >= y.heardByClient;
    }
  }

  /** A settled invocation has been answered. */
  lemma ComputedIsAnswered(s: Server, job: Job) returns (n: nat)
    requires Booked(s) && job in Jobs(s.computed)
    ensures n < |s.sent| && s.sent[n].Answer? && s.sent[n].id == job.id
  {
    hide AnswersIn, TimeoutsOk;
    var k :| 0 <= k < |s.computed| && Jobs(s.computed)[k] == job;
    var r := ResultAnswer(s.computed[k]);
    assert ResultAnswers(s.computed)[k] == r;
    assert r in multiset(ResultAnswers(s.computed));
    assert r in multiset(AnswersIn(s.sent));
    n := AnswerIsSent(s.sent, r);
  }

  lemma {:induction false} AnswerIsSent(sent: seq<Response>, r: Response) returns (n: nat)
    requires r in AnswersIn(sent)
    ensures n < |sent| && sent[n] == r && r.Answer?
  {
    var last := sent[|sent| - 1];
    if last.Answer? && last == r {
      n := |sent| - 1;
    } else {
      n := AnswerIsSent(sent[..|sent| - 1], r);
    }
  }

  /** What is held for a channel that serves by now is about to be flushed. */
  ghost predicate Scheduled(s: Server) {
    forall ch :: ch in s.held && ch in s.channels ==> ch in s.flushes
  }

  lemma StepSchedules(y: System, act: Act)
    requires SystemOk(y) && Scheduled(y.server)
    ensures Scheduled(Step(y, act).server)
  {
    hide ClientOk, Linked, ServerOk, StartAll, RejectBelow;
    var s := y.server;
    match act
    case DoFlush =>
      if s.flushes != [] {
        assert s.flushes == [s.flushes[0]] + s.flushes[1..];
        if s.flushes[0] in s.held {
          FlushStarts(s);
        }
        FlushKeepsChannels(s);
      }
    case DoRegister(channel) =>
      assert forall ch :: ch in s.flushes + [channel] <==> ch in s.flushes || ch == channel;
    case _ =>
  }

  lemma FlushKeepsChannels(s: Server)
    requires s.flushes != []
    ensures Flush(s).channels == s.channels && Flush(s).flushes == s.flushes[1..]
  {
    if s.flushes[0] in s.held {
      StartAllKeepsChannels(s.(flushes := s.flushes[1..]), s.held[s.flushes[0]]);
    }
  }

  lemma {:induction false} StartAllKeepsChannels(s: Server, requests: seq<Held>)
    ensures StartAll(s, requests).channels == s.channels && StartAll(s, requests).flushes == s.flushes
    decreases |requests|
  {
    if requests != [] {
      StartAllKeepsChannels(OnPromise(s, requests[0].job), requests[1..]);
    }
  }

  /** Over every run: a request is held only while its channel is unknown, or until the flush that is to come. */
  lemma {:induction false} HeldIsScheduled(deferInit: bool, acts: seq<Act>)
    ensures Scheduled(Run(Start(deferInit), acts).server)
    decreases |acts|
  {
    if acts != [] {
      hide Scheduled, Step, SystemOk;
      HeldIsScheduled(deferInit, acts[..|acts| - 1]);
      EveryRunIsOk(deferInit, acts[..|acts| - 1]);
      StepSchedules(Run(Start(deferInit), acts[..|acts| - 1]), acts[|acts| - 1]);
    }
  }

  /** Nothing is under way any more: everything sent has been heard, Initialize included, no released call is still to
      run, and a server that listens neither holds nor runs anything. */
  ghost predicate Quiet(y: System) {
    && y.heardByServer == |y.client.sent| && y.heardByClient == |y.server.sent| && Initialize in y.server.sent
    && y.client.ready == [] && !y.server.disposed && y.server.running == []
    && forall job :: !IsHeld(y.server.held, job)
  }

  /** In a quiet system every call ever made has settled. */
  lemma {:induction false} QuietMeansSettled(deferInit: bool, acts: seq<Act>)
    requires Quiet(Run(Start(deferInit), acts))
    ensures var c := Run(Start(deferInit), acts).client; forall id :: 0 <= id < |c.calls| ==> IsSettled(c, id)
  {
    hide Run, IsSettled, IsHeld, ServerOk, Linked, ServerHeard;
    EveryRunIsOk(deferInit, acts);
    EveryRunHears(deferInit, acts);
    var y := Run(Start(deferInit), acts);
    var c := y.client;
    assert c.idle || c.disposed;
    assert c.idle ==> c.ready + c.waiting == [];
    forall id | 0 <= id < |c.calls| ensures IsSettled(c, id) {
      if id in c.pending {
        PendingIsSomewhere(deferInit, acts, id);
        assert false;
      }
    }
  }
}
