/** The event handlers of ChannelClient and ChannelServer (packages/rpc/src/channelClient.ts,
    packages/rpc/src/channelServer.ts).  Each keeps the invariant of its object and follows its step in Channels.
    `sent`, `settled`, `received`, `started` and `computed` record what passes through the object: messages, promise
    settlements and channel invocations. */
module ChannelEndpoints {
  import opened Serialization
  import C = Channels
  import S = ChannelSteps
  import B = ServerAnswers
  import Completions

  lemma RejectsNobody(pending: set<nat>)
    ensures C.RejectBelow(pending, 0) == []
  {
  }

  lemma RejectsNext(pending: set<nat>, id: nat)
    ensures C.RejectBelow(pending, id + 1)
         == C.RejectBelow(pending, id) + if id in pending then [C.Settlement(id, C.Disposed)] else []
  {
  }

  class ChannelClient {
    var idle: bool
    var isDisposed: bool
    var handlers: set<nat>
    var pendingRejections: set<nat>
    var lastRequestId: nat
    var waiting: seq<nat>
    var ready: seq<nat>
    var calls: seq<C.Call>
    var sent: seq<C.Request>
    var settled: seq<C.Settlement>

    /** Every call is pending or settled, not both, settles at most once and is sent at most once. */
    ghost predicate Valid()
      reads this
    {
      lastRequestId == |calls| && S.ClientOk(State())
    }

    ghost function State(): C.Client
      reads this
    {
      C.Client(idle, isDisposed, pendingRejections, handlers, calls, waiting, ready, sent, settled)
    }

    constructor ()
      ensures Valid() && State() == C.NEW_CLIENT
    {
      idle, isDisposed, handlers, pendingRejections, lastRequestId := false, false, {}, {}, 0;
      waiting, ready, calls, sent, settled := [], [], [], [], [];
    }

    /** The call takes the next id.  It is rejected at once exactly if it was cancelled before, and sent at once exactly
        if the client is initialized and it was not; otherwise it is pending. */
    method RequestPromise(call: C.Call, alreadyCancelled: bool)
      requires Valid()
      modifies this
      ensures Valid() && State() == C.Invoke(old(State()), call, alreadyCancelled)
      ensures !isDisposed ==>
        && lastRequestId == old(lastRequestId) + 1 && calls == old(calls) + [call]
        && (old(lastRequestId) in pendingRejections <==> !alreadyCancelled)
        && (S.IsSettled(State(), old(lastRequestId)) <==> alreadyCancelled)
        && (S.IsSent(State(), old(lastRequestId)) <==> old(idle) && !alreadyCancelled)
    {
      hide S.ClientOk, S.IsSent, S.IsSettled;
      if isDisposed {
        return;
      }
      S.InvokeKeeps(State(), call, alreadyCancelled);
      S.InvokeSettlesOrSends(State(), call, alreadyCancelled);
      S.IssuedIsOwed(State(), call);
      var id := lastRequestId;
      lastRequestId := lastRequestId + 1;
      calls := calls + [call];
      if alreadyCancelled {
        settled := settled + [C.Settlement(id, C.Cancelled)];
        return;
      }
      pendingRejections := pendingRejections + {id};
      if idle {
        DoRequest(id);
      } else {
        waiting := waiting + [id];
      }
    }

    /** Sends the call exactly if it has not been given up in the meantime. */
    method DoRequest(id: nat)
      requires lastRequestId == |calls| && S.ClientOwes(State(), id)
      modifies this
      ensures Valid() && State() == C.DoRequest(old(State()), id)
      ensures S.IsSent(State(), id) <==> !isDisposed && id in pendingRejections
    {
      hide S.ClientOk, S.IsSent, S.CallsOk, S.Tracked;
      S.DoRequestKeeps(State(), id);
      S.DoRequestSendsIff(State(), id);
      if isDisposed || id !in pendingRejections {
        return;
      }
      assert id < lastRequestId by { S.PendingIsIssued(State(), id); }
      handlers := handlers + {id};
      sent := sent + [C.PromiseRequest(id, calls[id])];
    }

    /** One of the continuations released by Initialize: it sends its call exactly if that has not been given up. */
    method RunDeferred()
      requires Valid()
      modifies this
      ensures Valid() && State() == C.RunDeferred(old(State()))
      ensures old(ready) != [] ==>
        ready == old(ready)[1..] && (S.IsSent(State(), old(ready)[0]) <==> !isDisposed && old(ready)[0] in pendingRejections)
    {
      hide S.ClientOk, S.IsSent;
      if ready == [] {
        return;
      }
      S.ReleasedIsOwed(State());
      var id := ready[0];
      ready := ready[1..];
      DoRequest(id);
    }

    /** A call is settled afterwards, by this or by what came before, and no later answer can settle it. */
    method OnCancellationRequested(id: nat)
      requires Valid()
      modifies this
      ensures Valid() && State() == C.Cancel(old(State()), id)
      ensures id < lastRequestId ==> S.IsSettled(State(), id) && id !in pendingRejections && id !in handlers
      ensures id in old(pendingRejections) ==>
        sent == old(sent) + [C.PromiseCancel(id)] && settled == old(settled) + [C.Settlement(id, C.Cancelled)]
      ensures id !in old(pendingRejections) ==> State() == old(State())
    {
      hide S.ClientOk, S.IsSettled;
      S.CancelKeeps(State(), id);
      if id < lastRequestId {
        S.CancelSettles(State(), id);
      }
      if id !in pendingRejections {
        return;
      }
      sent := sent + [C.PromiseCancel(id)];
      handlers := handlers - {id};
      pendingRejections := pendingRejections - {id};
      settled := settled + [C.Settlement(id, C.Cancelled)];
    }

    /** An answer settles its call exactly if that has gone out and nothing else has settled it; nobody can answer it again.
        Initialize releases the waiting calls. */
    method OnResponse(response: C.Response)
      requires Valid()
      modifies this
      ensures Valid() && State() == C.Deliver(old(State()), response)
      ensures response.Answer? && !isDisposed ==>
        settled == old(settled) + if S.IsSent(old(State()), response.id) && !S.IsSettled(old(State()), response.id)
                                  then [C.Settlement(response.id, C.Answered(response.kind, response.body))] else []
      ensures response.Answer? && S.IsSent(State(), response.id) ==>
        S.IsSettled(State(), response.id) && response.id !in handlers
      ensures response.Initialize? && !isDisposed ==>
        idle && waiting == [] && ready == old(ready) + old(waiting) && settled == old(settled)
    {
      hide S.ClientOk, S.IsSent, S.IsSettled;
      S.DeliverKeeps(State(), response);
      if response.Answer? {
        Completions.AnswerCloses(State(), response.kind, response.id, response.body);
      }
      if isDisposed {
        return;
      }
      match response
      case Initialize =>
        idle := true;
        ready, waiting := ready + waiting, [];
      case Answer(kind, id, body) =>
        if id in handlers {
          handlers := handlers - {id};
          pendingRejections := pendingRejections - {id};
          settled := settled + [C.Settlement(id, C.Answered(kind, body))];
        }
      case EventFire(_, _) =>
    }

    /** The pending requests are rejected in the order of issue, and every call ever made is settled. */
    method Dispose()
      requires Valid()
      modifies this
      ensures Valid() && State() == C.Dispose(old(State()))
      ensures pendingRejections == {} && forall id :: 0 <= id < lastRequestId ==> S.IsSettled(State(), id)
      ensures sent == old(sent) && old(settled) <= settled
      ensures !old(isDisposed) ==> S.Rejects(settled[|old(settled)|..], old(pendingRejections), lastRequestId)
    {
      hide S.CallsOk, S.Tracked, S.IsSettled, S.Rejects, C.RejectBelow;
      S.DisposeKeeps(State());
      if isDisposed {
        S.DisposedIsSettled(State());
        return;
      }
      S.DisposeRejects(State());
      forall id | id in pendingRejections ensures id < lastRequestId {
        S.PendingIsIssued(State(), id);
      }
      RejectsNobody(pendingRejections);
      isDisposed := true;
      var id := 0;
      while id < lastRequestId
        invariant 0 <= id <= lastRequestId == old(lastRequestId)
        invariant State() == old(State()).(
          disposed := true, pending := pendingRejections, handlers := handlers, settled := settled)
        invariant pendingRejections == set p | p in old(pendingRejections) && p >= id
        invariant handlers == set h | h in old(handlers) && (h >= id || h !in old(pendingRejections))
        invariant settled == old(settled) + C.RejectBelow(old(pendingRejections), id)
      {
        if id in pendingRejections {
          pendingRejections := pendingRejections - {id};
          handlers := handlers - {id};
          settled := settled + [C.Settlement(id, C.Disposed)];
        }
        RejectsNext(old(pendingRejections), id);
        id := id + 1;
      }
      assert pendingRejections == {};
      assert handlers == old(handlers) - old(pendingRejections);
      S.DisposedIsSettled(State());
    }
  }

  class ChannelServer {
    var channels: set<string>
    var activeRequests: set<nat>
    var pendingRequests: map<string, seq<C.Held>>
    var flushes: seq<string>
    var running: seq<C.Job>
    var disposed: bool
    var received: seq<C.Job>
    var started: seq<C.Job>
    var computed: seq<C.Computation>
    var timedOut: seq<C.Job>
    var sent: seq<C.Response>

    ghost function State(): C.Server
      reads this
    {
      C.Server(channels, pendingRequests, flushes, running, activeRequests, disposed, received, started, computed, timedOut, sent)
    }

    /** Every request handed over is held or started, never both and never twice; every invocation is running or
        answered; and the answers sent are exactly one for every timeout and one for every result. */
    ghost predicate Valid()
      reads this
    {
      S.ServerOk(State()) && B.Booked(State())
    }

    constructor (deferInit: bool)
      ensures Valid() && State() == C.NewServer(deferInit)
      ensures sent == if deferInit then [] else [C.Initialize]
    {
      channels, activeRequests, pendingRequests, flushes, running := {}, {}, map[], [], [];
      disposed, received, started, computed, timedOut := false, [], [], [], [];
      sent := if deferInit then [] else [C.Initialize];
      new;
      hide S.ServerOk, B.Booked;
      S.NewServerIsOk(deferInit);
      B.NewIsBooked(deferInit);
    }

    /** Initialize goes out. */
    method Ready()
      requires Valid()
      modifies this
      ensures Valid() && State() == C.Respond(old(State()), C.Initialize)
      ensures sent == old(sent) + [C.Initialize]
    {
      hide S.ServerOk, B.Booked;
      S.RespondKeeps(State(), C.Initialize);
      B.InitializeBooked(State());
      sent := sent + [C.Initialize];
    }

    /** The channel serves from now on, and a flush of what is held for it is to come. */
    method RegisterChannel(channelName: string)
      requires Valid()
      modifies this
      ensures Valid() && State() == C.RegisterChannel(old(State()), channelName)
      ensures channels == old(channels) + {channelName} && flushes == old(flushes) + [channelName]
      ensures pendingRequests == old(pendingRequests) && started == old(started) && sent == old(sent)
    {
      hide S.ServerOk, B.Booked;
      S.RegisterKeeps(State(), channelName);
      B.UnrelatedBooked(State(), C.RegisterChannel(State(), channelName));
      channels := channels + {channelName};
      flushes := flushes + [channelName];
    }

    /** A request is recorded and from then on held or started: started at once exactly if its channel is registered.
        A disposed server does not listen. */
    method OnRawMessage(request: C.Request)
      requires Valid()
      modifies this
      ensures Valid() && State() == C.OnRequest(old(State()), request)
      ensures disposed ==> State() == old(State())
      ensures request.PromiseRequest? && !disposed ==>
        var job := C.Job(|old(received)|, request.id, request.call);
        && received == old(received) + [job] && S.Taken(State(), job)
        && started == old(started) + (if request.call.channel in channels then [job] else [])
        && activeRequests == old(activeRequests) + if request.call.channel in channels then {request.id} else {}
      ensures request.PromiseCancel? && !disposed ==>
        && activeRequests == old(activeRequests) - {request.id} && received == old(received) && started == old(started)
        && pendingRequests == old(pendingRequests)
      ensures sent == old(sent)
    {
      hide S.ServerOk, B.Booked, S.Taken, S.Owing;
      S.OnRequestKeeps(State(), request);
      B.RequestBooked(State(), request);
      if disposed {
        return;
      }
      match request {
        case PromiseRequest(id, call) =>
          var job := C.Job(|received|, id, call);
          received := received + [job];
          OnPromise(job);
          assert S.Taken(State(), job) by { S.ReceivedIsTaken(State(), job); }
        case PromiseCancel(id) =>
          activeRequests := activeRequests - {id};
      }
    }

    method OnPromise(job: C.Job)
      modifies this
      ensures State() == C.OnPromise(old(State()), job)
      ensures S.Owing(old(State()), job) ==> S.ServerOk(State())
    {
      hide S.ServerOk, B.Booked, S.Owing;
      if S.Owing(State(), job) {
        S.OnPromiseKeeps(State(), job);
      }
      if job.call.channel !in channels {
        CollectPendingRequest(job);
        return;
      }
      running := running + [job];
      started := started + [job];
      activeRequests := activeRequests + {job.id};
    }

    method CollectPendingRequest(job: C.Job)
      modifies this
      ensures State() == C.Hold(old(State()), job)
      ensures S.Owing(old(State()), job) ==> S.ServerOk(State())
    {
      hide S.ServerOk, B.Booked, S.Owing;
      if S.Owing(State(), job) {
        S.HoldingRequestKeeps(State(), job);
      }
      var channelName := job.call.channel;
      var requests := if channelName in pendingRequests then pendingRequests[channelName] else [];
      pendingRequests := pendingRequests[channelName := requests + [C.Held(job, true)]];
    }

    /** The timeout of a collected request answers it with an error once, and the request stays held. */
    method OnTimeout(channelName: string, k: nat)
      requires Valid()
      modifies this
      ensures Valid() && State() == C.TimerFires(old(State()), channelName, k)
      ensures forall job :: S.IsHeld(pendingRequests, job) <==> S.IsHeld(old(pendingRequests), job)
      ensures sent != old(sent) ==>
        exists job :: && S.IsHeld(pendingRequests, job)
                      && sent == old(sent) + [C.Answer(C.ErrorRecord, job.id, C.UnknownChannel(job.call.channel))]
      ensures channelName in pendingRequests && k < |pendingRequests[channelName]| ==> !pendingRequests[channelName][k].timer
    {
      hide S.ServerOk, B.Booked, S.IsHeld;
      S.TimerKeeps(State(), channelName, k);
      B.TimerBooked(State(), channelName, k);
      S.TimerLeavesHeld(State(), channelName, k);
      if channelName !in pendingRequests || k >= |pendingRequests[channelName]| || !pendingRequests[channelName][k].timer {
        return;
      }
      var job := pendingRequests[channelName][k].job;
      assert S.IsHeld(pendingRequests, job) by { S.HeldAt(pendingRequests, channelName, k); }
      pendingRequests := pendingRequests[channelName := pendingRequests[channelName][k := C.Held(job, false)]];
      timedOut := timedOut + [job];
      sent := sent + [C.TimeoutAnswer(job)];
    }

    /** Everything held for the channel is started, in the order in which it came, and no longer held; nothing is answered
        yet. */
    method FlushPendingRequests()
      requires Valid()
      modifies this
      ensures Valid() && State() == C.Flush(old(State()))
      ensures old(flushes) != [] && old(flushes)[0] in old(pendingRequests) ==>
        var jobs := S.HeldJobs(old(pendingRequests)[old(flushes)[0]]);
        && pendingRequests == old(pendingRequests) - {old(flushes)[0]}
        && started == old(started) + jobs && running == old(running) + jobs
        && activeRequests == old(activeRequests) + set job | job in jobs :: job.id
      ensures sent == old(sent) && received == old(received)
    {
      hide S.ServerOk, B.Booked, S.Owing;
      S.FlushKeeps(State());
      B.FlushBooked(State());
      S.FlushServes(State());
      if flushes == [] {
        return;
      }
      if flushes[0] in pendingRequests {
        S.FlushStarts(State());
      }
      var channelName := flushes[0];
      flushes := flushes[1..];
      if channelName !in pendingRequests {
        return;
      }
      var requests := pendingRequests[channelName];
      ghost var goal := C.StartAll(State(), requests);
      var i := 0;
      while i < |requests|
        invariant 0 <= i <= |requests|
        invariant C.StartAll(State(), requests[i..]) == goal
      {
        assert requests[i..][1..] == requests[i + 1..];
        OnPromise(requests[i].job);
        i := i + 1;
      }
      assert requests[i..] == [];
      pendingRequests := pendingRequests - {channelName};
    }

    /** The promise of running invocation k settles: it is answered under the id of its request, and runs no longer. */
    method OnSettled(k: nat, kind: C.Kind, data: Data)
      requires Valid()
      modifies this
      ensures Valid() && State() == C.Finish(old(State()), k, kind, data)
      ensures k < |old(running)| ==>
        && sent == old(sent) + [C.Answer(kind, old(running)[k].id, C.Payload(data))]
        && multiset(old(running)) == multiset(running) + multiset{old(running)[k]}
        && activeRequests == old(activeRequests) - {old(running)[k].id}
      ensures received == old(received) && started == old(started)
    {
      hide S.ServerOk, B.Booked;
      S.FinishKeeps(State(), k, kind, data);
      B.FinishBooked(State(), k, kind, data);
      if k >= |running| {
        return;
      }
      var job := running[k];
      assert running == running[..k] + [job] + running[k + 1..];
      computed := computed + [C.Computation(job, kind, data)];
      sent := sent + [C.Answer(kind, job.id, C.Payload(data))];
      activeRequests := activeRequests - {job.id};
      running := running[..k] + running[k + 1..];
    }

    /** The server no longer listens, and no cancellation is left to be asked for. */
    method Dispose()
      requires Valid()
      modifies this
      ensures Valid() && State() == C.DisposeServer(old(State()))
      ensures disposed && activeRequests == {} && sent == old(sent)
    {
      hide S.ServerOk, B.Booked;
      S.OnlyTokensChange(State(), {}, true);
      B.UnrelatedBooked(State(), C.DisposeServer(State()));
      disposed := true;
      activeRequests := {};
    }
  }
}
