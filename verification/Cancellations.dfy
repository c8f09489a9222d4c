/** What becomes of a cancellation, over every run of client and server (packages/rpc/src/channelClient.ts:129-137,
    packages/rpc/src/channelServer.ts:114-201). */
module Cancellations {
  import opened Serialization
  import opened Channels
  import opened ChannelSteps
  import Calls
  import Completions
  import ServerAnswers

  // ---------- the client announces what it gives up ----------

  ghost predicate Announced(c: Client, id: nat) {
    PromiseCancel(id) in c.sent
  }

  ghost predicate WasCancelled(c: Client, id: nat) {
    Settlement(id, Cancelled) in c.settled
  }

  /** Only cancelled calls are announced, and every cancelled call that has gone out is. */
  ghost predicate AnnouncesOk(c: Client) {
    forall id :: (Announced(c, id) ==> WasCancelled(c, id)) && (IsSent(c, id) && WasCancelled(c, id) ==> Announced(c, id))
  }

  lemma StepAnnounces(y: System, act: Act)
    requires SystemOk(y) && AnnouncesOk(y.client)
    ensures AnnouncesOk(Step(y, act).client)
  {
    hide ServerOk, Linked, ClientOk, RejectBelow, AnnouncesOk;
    var c := y.client;
    match act
    case DoInvoke(call, alreadyCancelled) => InvokeAnnounces(c, call, alreadyCancelled);
    case DoRunDeferred =>
      if c.ready != [] {
        ReleasedIsOwed(c);
        NothingNew(c, c.(ready := c.ready[1..]));
        DoRequestAnnounces(c.(ready := c.ready[1..]), c.ready[0]);
      }
    case DoCancel(id) => CancelAnnounces(c, id);
    case DoDeliver =>
      if y.toClient < |y.server.sent| {
        DeliverAnnounces(c, y.server.sent[y.toClient]);
      }
    case DoDispose => DisposeAnnounces(c);
    case _ =>
  }

  /** Changes that send nothing and cancel nothing. */
  lemma NothingNew(c: Client, d: Client)
    requires AnnouncesOk(c) && d.sent == c.sent && c.settled <= d.settled
    requires forall k :: |c.settled| <= k < |d.settled| ==> d.settled[k].outcome != Cancelled
    ensures AnnouncesOk(d)
  {
    forall id ensures (Announced(d, id) ==> WasCancelled(d, id)) && (IsSent(d, id) && WasCancelled(d, id) ==> Announced(d, id)) {
      assert IsSent(d, id) == IsSent(c, id);
      assert WasCancelled(d, id) <==> WasCancelled(c, id);
    }
  }

  lemma DoRequestAnnounces(c: Client, id: nat)
    requires ClientOwes(c, id) && AnnouncesOk(c)
    ensures AnnouncesOk(DoRequest(c, id))
  {
    var d := DoRequest(c, id);
    if d != c {
      OneMoreIsSent(c, d, id);
      assert !WasCancelled(c, id);
      assert forall x :: Announced(d, x) <==> Announced(c, x);
    }
  }

  lemma InvokeAnnounces(c: Client, call: Call, alreadyCancelled: bool)
    requires ClientOk(c) && AnnouncesOk(c)
    ensures AnnouncesOk(Invoke(c, call, alreadyCancelled))
  {
    if !c.disposed {
      var id, issued := |c.calls|, c.(calls := c.calls + [call]);
      if alreadyCancelled {
        var d := Invoke(c, call, true);
        assert !IsSent(d, id) by {
          assert !IsSent(c, id);
        }
        forall x ensures (Announced(d, x) ==> WasCancelled(d, x)) && (IsSent(d, x) && WasCancelled(d, x) ==> Announced(d, x)) {
          assert IsSent(d, x) == IsSent(c, x);
          assert WasCancelled(d, x) <==> WasCancelled(c, x) || x == id;
        }
      } else {
        var started := issued.(pending := issued.pending + {id});
        NothingNew(c, started);
        if c.idle {
          IssuedIsOwed(c, call);
          DoRequestAnnounces(started, id);
        } else {
          NothingNew(c, started.(waiting := started.waiting + [id]));
        }
      }
    }
  }

  lemma CancelAnnounces(c: Client, id: nat)
    requires AnnouncesOk(c)
    ensures AnnouncesOk(Cancel(c, id))
  {
    if id in c.pending {
      var d := Cancel(c, id);
      forall x ensures (Announced(d, x) ==> WasCancelled(d, x)) && (IsSent(d, x) && WasCancelled(d, x) ==> Announced(d, x)) {
        assert Announced(d, x) <==> Announced(c, x) || x == id;
        assert WasCancelled(d, x) <==> WasCancelled(c, x) || x == id;
        if IsSent(d, x) {
          var k :| 0 <= k < |d.sent| && d.sent[k].PromiseRequest? && d.sent[k].id == x;
          assert c.sent[k] == d.sent[k];
        }
      }
    }
  }

  lemma DeliverAnnounces(c: Client, r: Response)
    requires AnnouncesOk(c)
    ensures AnnouncesOk(Deliver(c, r))
  {
    NothingNew(c, Deliver(c, r));
  }

  lemma DisposeAnnounces(c: Client)
    requires ClientOk(c) && AnnouncesOk(c)
    ensures AnnouncesOk(Dispose(c))
  {
    hide ClientOk, AnnouncesOk, RejectBelow;
    if !c.disposed {
      DisposeRejects(c);
      var d := Dispose(c);
      var late := d.settled[|c.settled|..];
      assert forall k :: |c.settled| <= k < |d.settled| ==> d.settled[k] == late[k - |c.settled|];
      NothingNew(c, d);
    }
  }

  /** Over every run: the cancellation of a call that has gone out is announced to the server if and only if the call was
      settled by being cancelled. */
  lemma {:induction false} CancelledIffAnnounced(deferInit: bool, acts: seq<Act>, id: nat)
    ensures var c := Run(Start(deferInit), acts).client;
      && (Announced(c, id) ==> WasCancelled(c, id))
      && (IsSent(c, id) ==> (WasCancelled(c, id) <==> Announced(c, id)))
  {
    hide Run, Announced, WasCancelled, IsSent;
    EveryRunAnnounces(deferInit, acts);
  }

  lemma {:induction false} EveryRunAnnounces(deferInit: bool, acts: seq<Act>)
    ensures AnnouncesOk(Run(Start(deferInit), acts).client)
    decreases |acts|
  {
    if acts != [] {
      hide AnnouncesOk, Step, SystemOk;
      EveryRunAnnounces(deferInit, acts[..|acts| - 1]);
      EveryRunIsOk(deferInit, acts[..|acts| - 1]);
      StepAnnounces(Run(Start(deferInit), acts[..|acts| - 1]), acts[|acts| - 1]);
    }
  }

  // ---------- the server knows what can be cancelled ----------

  ghost predicate IsRunning(s: Server, id: nat) {
    exists job :: job in s.running && job.id == id
  }

  /** Every id that can be cancelled belongs to a running invocation. */
  ghost predicate ActiveRuns(s: Server) {
    forall id :: id in s.active ==> IsRunning(s, id)
  }

  ghost predicate CancelHeard(y: System, id: nat) {
    exists k :: 0 <= k < y.heardByServer && k < |y.client.sent| && y.client.sent[k] == PromiseCancel(id)
  }

  /** As long as the server listens, a running invocation can be cancelled unless it has been. */
  ghost predicate Cancellable(y: System) {
    !y.server.disposed ==> forall job :: job in y.server.running ==> job.id in y.server.active || CancelHeard(y, job.id)
  }

  lemma StepRuns(y: System, act: Act)
    requires SystemOk(y) && ActiveRuns(y.server)
    ensures ActiveRuns(Step(y, act).server)
  {
    hide ClientOk, Linked, ServerOk, StartAll, ActiveRuns;
    var s := y.server;
    match act
    case DoServe =>
      if y.toServer < |y.client.sent| {
        RequestRuns(s, y.client.sent[y.toServer]);
      }
    case DoFlush => FlushRuns(s);
    case DoFinish(k, kind, data) => FinishRuns(s, k, kind, data);
    case DoTimer(channel, k) => SameRuns(s, TimerFires(s, channel, k));
    case DoRegister(channel) => SameRuns(s, RegisterChannel(s, channel));
    case DoReady => SameRuns(s, Respond(s, Initialize));
    case DoDisposeServer => NothingActive(DisposeServer(s));
    case _ =>
  }

  lemma SameRuns(s: Server, t: Server)
    requires ActiveRuns(s) && t.active == s.active && t.running == s.running
    ensures ActiveRuns(t)
  {
    hide IsRunning;
    assert forall id :: IsRunning(t, id) == IsRunning(s, id) by {
      forall id ensures IsRunning(t, id) == IsRunning(s, id) {
        SameRunning(s, t, id);
      }
    }
  }

  lemma SameRunning(s: Server, t: Server, id: nat)
    requires t.running == s.running
    ensures IsRunning(t, id) == IsRunning(s, id)
  {
  }

  lemma NothingActive(s: Server)
    requires s.active == {}
    ensures ActiveRuns(s)
  {
  }

  lemma MoreRuns(s: Server, t: Server, jobs: seq<Job>)
    requires ActiveRuns(s) && t.running == s.running + jobs && t.active <= s.active + set job | job in jobs :: job.id
    ensures ActiveRuns(t)
  {
    forall id | id in t.active ensures IsRunning(t, id) {
      if id in s.active {
        var job :| job in s.running && job.id == id;
        assert job in t.running;
      } else {
        var job :| job in jobs && job.id == id;
        assert job in t.running;
      }
    }
  }

  lemma RequestRuns(s: Server, r: Request)
    requires ActiveRuns(s)
    ensures ActiveRuns(OnRequest(s, r))
  {
    hide ActiveRuns;
    var t := OnRequest(s, r);
    if !s.disposed {
      match r
      case PromiseRequest(id, call) =>
        var job := Job(|s.received|, id, call);
        MoreRuns(s, t, if call.channel in s.channels then [job] else []);
      case PromiseCancel(id) => MoreRuns(s, t, []);
    }
  }

  lemma FlushRuns(s: Server)
    requires ServerOk(s) && ActiveRuns(s)
    ensures ActiveRuns(Flush(s))
  {
    hide ActiveRuns, ServerOk, StartAll;
    if s.flushes != [] {
      if s.flushes[0] in s.held {
        FlushStarts(s);
        MoreRuns(s, Flush(s), HeldJobs(s.held[s.flushes[0]]));
      } else {
        SameRuns(s, Flush(s));
      }
    }
  }

  lemma FinishRuns(s: Server, k: nat, kind: Kind, data: Data)
    requires ActiveRuns(s)
    ensures ActiveRuns(Finish(s, k, kind, data))
  {
    if k < |s.running| {
      var t := Finish(s, k, kind, data);
      assert s.running == s.running[..k] + [s.running[k]] + s.running[k + 1..];
      forall id | id in t.active ensures IsRunning(t, id) {
        var job :| job in s.running && job.id == id;
        assert job in t.running;
      }
    }
  }

  /** Over every run, replays included: what can be cancelled is running. */
  lemma {:induction false} OnlyRunningIsCancelled(deferInit: bool, acts: seq<Act>)
    ensures ActiveRuns(Run(Start(deferInit), acts).server)
    decreases |acts|
  {
    hide ActiveRuns, Step, SystemOk;
    if acts == [] {
      NothingActive(NewServer(deferInit));
    } else {
      OnlyRunningIsCancelled(deferInit, acts[..|acts| - 1]);
      EveryRunIsOk(deferInit, acts[..|acts| - 1]);
      StepRuns(Run(Start(deferInit), acts[..|acts| - 1]), acts[|acts| - 1]);
    }
  }

  // ---------- and it can cancel what runs ----------

  /** Where nothing is replayed, running invocations have different ids. */
  lemma RunningDiffer(s: Server, k: nat, other: Job)
    requires ServerOk(s) && k < |s.running| && forall id :: !Calls.IsRepeated(s.started, id)
    requires other in s.running[..k] + s.running[k + 1..]
    ensures other.id != s.running[k].id
  {
    hide HeldOk, HeldOnce, AnswersOk, Taken, Calls.IsRepeated;
    var job, rest := s.running[k], s.running[..k] + s.running[k + 1..];
    assert s.running == s.running[..k] + [job] + s.running[k + 1..];
    assert multiset(s.running) == multiset(rest) + multiset{job};
    ServerAnswers.OnceEach(s.started, job);
    assert multiset(s.running)[job] <= multiset(s.started)[job];
    assert other != job;
    assert other in multiset(s.started) && job in multiset(s.started);
    var i :| 0 <= i < |s.started| && s.started[i] == job;
    var j :| 0 <= j < |s.started| && s.started[j] == other;
    RepeatedAt(s.started, i, j);
  }

  lemma RepeatedAt(jobs: seq<Job>, i: nat, j: nat)
    requires i < |jobs| && j < |jobs| && i != j
    ensures jobs[i].id == jobs[j].id ==> Calls.IsRepeated(jobs, jobs[i].id)
  {
    if jobs[i].id == jobs[j].id {
      assert i < j ==> jobs[i].id == jobs[i].id == jobs[j].id;
      assert j < i ==> jobs[j].id == jobs[i].id == jobs[i].id;
    }
  }

  lemma StillHeard(y: System, z: System, id: nat)
    requires CancelHeard(y, id) && y.heardByServer <= z.heardByServer && y.heardByServer <= |y.client.sent| && y.client.sent <= z.client.sent
    ensures CancelHeard(z, id)
  {
    var k :| 0 <= k < y.heardByServer && k < |y.client.sent| && y.client.sent[k] == PromiseCancel(id);
    assert z.client.sent[k] == PromiseCancel(id);
  }

  /** Steps after which nothing else runs, and nothing else has been cancelled. */
  lemma StaysCancellable(y: System, z: System, jobs: seq<Job>)
    requires Cancellable(y) && y.heardByServer <= z.heardByServer && y.heardByServer <= |y.client.sent| && y.client.sent <= z.client.sent
    requires z.server.disposed == y.server.disposed
    requires forall job :: job in z.server.running ==> job in y.server.running || job in jobs
    requires forall job :: job in z.server.running && job.id in y.server.active ==> job.id in z.server.active || CancelHeard(z, job.id)
    requires forall job :: job in jobs ==> job.id in z.server.active
    ensures Cancellable(z)
  {
    hide CancelHeard;
    if !z.server.disposed {
      forall job | job in z.server.running ensures job.id in z.server.active || CancelHeard(z, job.id) {
        if job !in jobs && job.id !in y.server.active {
          StillHeard(y, z, job.id);
        }
      }
    }
  }

  lemma StepCancellable(y: System, act: Act)
    requires SystemOk(y) && Cancellable(y) && Calls.ReadsOn(y) && (forall id :: !Calls.IsRepeated(y.server.started, id))
    ensures Cancellable(Step(y, act))
  {
    hide ClientOk, Linked, ServerOk, StartAll, RejectBelow, Cancellable, Calls.IsRepeated, CancelHeard;
    var s, z := y.server, Step(y, act);
    match act
    case DoServe => ServingCancellable(y);
    case DoFlush =>
      Completions.FlushKeepsListening(s);
      if s.flushes != [] && s.flushes[0] in s.held {
        FlushStarts(s);
        StaysCancellable(y, z, HeldJobs(s.held[s.flushes[0]]));
      } else {
        StaysCancellable(y, z, []);
      }
    case DoFinish(k, kind, data) =>
      if k < |s.running| {
        assert s.running == s.running[..k] + [s.running[k]] + s.running[k + 1..];
        forall job | job in z.server.running ensures job.id != s.running[k].id {
          RunningDiffer(s, k, job);
        }
      }
      StaysCancellable(y, z, []);
    case DoDisposeServer => DisposedCancellable(z);
    case _ => StaysCancellable(y, z, []);
  }

  lemma DisposedCancellable(y: System)
    requires y.server.disposed
    ensures Cancellable(y)
  {
  }

  lemma ServingCancellable(y: System)
    requires SystemOk(y) && Cancellable(y) && Calls.ReadsOn(y)
    ensures Cancellable(Step(y, DoServe))
  {
    hide ClientOk, Linked, ServerOk, Cancellable, Calls.IsRepeated;
    if y.toServer < |y.client.sent| {
      var s, r, z := y.server, y.client.sent[y.toServer], Step(y, DoServe);
      if r.PromiseCancel? {
        assert z.client.sent[y.toServer] == PromiseCancel(r.id);
        assert CancelHeard(z, r.id);
        StaysCancellable(y, z, []);
      } else if !s.disposed && r.call.channel in s.channels {
        StaysCancellable(y, z, [Job(|s.received|, r.id, r.call)]);
      } else {
        StaysCancellable(y, z, []);
      }
    }
  }

  /** Over every run without replays: a running invocation of a server that listens can be cancelled, unless its
      cancellation has been heard already. */
  lemma {:induction false} RunningCanBeCancelled(deferInit: bool, acts: seq<Act>)
    requires forall k :: 0 <= k < |acts| ==> !acts[k].DoReplayToServer?
    ensures Cancellable(Run(Start(deferInit), acts))
    decreases |acts|
  {
    if acts != [] {
      hide Cancellable, Step, SystemOk, Calls.ReadsOn, Calls.IsRepeated;
      var before := acts[..|acts| - 1];
      RunningCanBeCancelled(deferInit, before);
      Calls.NothingIsRepeated(deferInit, before);
      Calls.RequestsRunOnce(deferInit, before);
      StepCancellable(Run(Start(deferInit), before), acts[|acts| - 1]);
    }
  }
}
