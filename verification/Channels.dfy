/** Promise calls over a FIFO pair: the client and server of packages/rpc/src/channelClient.ts and
    packages/rpc/src/channelServer.ts as state machines whose steps are the handlers of single events. */
module Channels {
  import opened Serialization

  datatype Call = Call(channel: string, name: string, arg: Data)

  datatype Request = PromiseRequest(id: nat, call: Call) | PromiseCancel(id: nat)

  /** What an answer carries: a value from the channel, or the server's own timeout error. */
  datatype Body = Payload(data: Data) | UnknownChannel(channel: string)

  datatype Kind = Success | ErrorRecord | ErrorObject

  datatype Response = Initialize | Answer(kind: Kind, id: nat, body: Body) | EventFire(id: nat, data: Data)

  datatype Outcome = Answered(kind: Kind, body: Body) | Cancelled | Disposed

  datatype Settlement = Settlement(id: nat, outcome: Outcome)

  /** `calls[id]` is the call issued under an id; `waiting` are requests held back until Initialize, `ready`
      those released by it but not run yet; `sent` and `settled` are the complete histories. */
  datatype Client = Client(
    idle: bool, disposed: bool, pending: set<nat>, handlers: set<nat>, calls: seq<Call>,
    waiting: seq<nat>, ready: seq<nat>, sent: seq<Request>, settled: seq<Settlement>)

  const NEW_CLIENT := Client(false, false, {}, {}, [], [], [], [], [])

  function Settle(c: Client, id: nat, outcome: Outcome): Client {
    c.(pending := c.pending - {id}, handlers := c.handlers - {id}, settled := c.settled + [Settlement(id, outcome)])
  }

  /** The deferred part of a call: nothing happens if it was rejected in the meantime. */
  function DoRequest(c: Client, id: nat): Client {
    if c.disposed || id !in c.pending || id >= |c.calls| then c
    else c.(handlers := c.handlers + {id}, sent := c.sent + [PromiseRequest(id, c.calls[id])])
  }

  /** call() on a channel.  After dispose it rejects without taking an id. */
  function Invoke(c: Client, call: Call, alreadyCancelled: bool): Client {
    if c.disposed then c
    else
      var id := |c.calls|;
      var issued := c.(calls := c.calls + [call]);
      if alreadyCancelled then issued.(settled := issued.settled + [Settlement(id, Cancelled)])
      else
        var started := issued.(pending := issued.pending + {id});
        if c.idle then DoRequest(started, id) else started.(waiting := started.waiting + [id])
  }

  function RunDeferred(c: Client): Client {
    if c.ready == [] then c else DoRequest(c.(ready := c.ready[1..]), c.ready[0])
  }

  function Cancel(c: Client, id: nat): Client {
    if id !in c.pending then c
    else Settle(c.(sent := c.sent + [PromiseCancel(id)]), id, Cancelled)
  }

  /** A message from the server; after dispose nobody listens. */
  function Deliver(c: Client, r: Response): Client {
    if c.disposed then c
    else match r
      case Initialize => c.(idle := true, ready := c.ready + c.waiting, waiting := [])
      case Answer(kind, id, body) => if id in c.handlers then Settle(c, id, Answered(kind, body)) else c
      case EventFire(_, _) => c
  }

  /** Rejections of all pending ids below n, in the order of issue. */
  function RejectBelow(pending: set<nat>, n: nat): seq<Settlement> {
    if n == 0 then []
    else RejectBelow(pending, n - 1) + if n - 1 in pending then [Settlement(n - 1, Disposed)] else []
  }

  function Dispose(c: Client): Client {
    if c.disposed then c
    else c.(disposed := true, pending := {}, handlers := c.handlers - c.pending,
            settled := c.settled + RejectBelow(c.pending, |c.calls|))
  }

  // ---------- the server ----------

  /** A request as it was handed over; `delivery` numbers the hand-overs, since a request may come more than once. */
  datatype Job = Job(delivery: nat, id: nat, call: Call)

  /** A request kept for a channel that is not registered yet; its timer may still be running. */
  datatype Held = Held(job: Job, timer: bool)

  datatype Computation = Computation(job: Job, kind: Kind, data: Data)

  /** `received` records every request handed over, `started` and `computed` every invocation of a channel and its
      result, `timedOut` the requests whose timer has fired. */
  datatype Server = Server(
    channels: set<string>, held: map<string, seq<Held>>, flushes: seq<string>, running: seq<Job>, active: set<nat>,
    disposed: bool, received: seq<Job>, started: seq<Job>, computed: seq<Computation>, timedOut: seq<Job>, sent: seq<Response>)

  function NewServer(deferInit: bool): Server {
    Server({}, map[], [], [], {}, false, [], [], [], [], if deferInit then [] else [Initialize])
  }

  function HeldFor(s: Server, channel: string): seq<Held> {
    if channel in s.held then s.held[channel] else []
  }

  function StartJob(s: Server, job: Job): Server {
    s.(running := s.running + [job], started := s.started + [job], active := s.active + {job.id})
  }

  function Hold(s: Server, job: Job): Server {
    s.(held := s.held[job.call.channel := HeldFor(s, job.call.channel) + [Held(job, true)]])
  }

  function OnPromise(s: Server, job: Job): Server {
    if job.call.channel in s.channels then StartJob(s, job) else Hold(s, job)
  }

  function OnRequest(s: Server, r: Request): Server {
    if s.disposed then s
    else match r
      case PromiseRequest(id, call) =>
        var job := Job(|s.received|, id, call);
        OnPromise(s.(received := s.received + [job]), job)
      case PromiseCancel(id) => s.(active := s.active - {id})
  }

  function TimeoutAnswer(job: Job): Response {
    Answer(ErrorRecord, job.id, UnknownChannel(job.call.channel))
  }

  function ResultAnswer(c: Computation): Response {
    Answer(c.kind, c.job.id, Payload(c.data))
  }

  function Respond(s: Server, r: Response): Server {
    s.(sent := s.sent + [r])
  }

  /** The timer of a held request: the error goes out, and the request stays. */
  function TimerFires(s: Server, channel: string, k: nat): Server {
    var all := HeldFor(s, channel);
    if k >= |all| || !all[k].timer then s
    else Respond(s.(held := s.held[channel := all[k := all[k].(timer := false)]], timedOut := s.timedOut + [all[k].job]),
                 TimeoutAnswer(all[k].job))
  }

  function RegisterChannel(s: Server, channel: string): Server {
    s.(channels := s.channels + {channel}, flushes := s.flushes + [channel])
  }

  function StartAll(s: Server, requests: seq<Held>): Server
    decreases |requests|
  {
    if requests == [] then s else StartAll(OnPromise(s, requests[0].job), requests[1..])
  }

  /** The delayed flush after a registration. */
  function Flush(s: Server): Server {
    if s.flushes == [] then s
    else
      var channel, t := s.flushes[0], s.(flushes := s.flushes[1..]);
      if channel !in t.held then t
      else
        var u := StartAll(t, t.held[channel]);
        u.(held := u.held - {channel})
  }

  /** A channel's promise settles; the answer is sent even if the caller has cancelled. */
  function Finish(s: Server, k: nat, kind: Kind, data: Data): Server {
    if k >= |s.running| then s
    else
      var job := s.running[k];
      Respond(s.(running := s.running[..k] + s.running[k + 1..], active := s.active - {job.id},
                 computed := s.computed + [Computation(job, kind, data)]),
              ResultAnswer(Computation(job, kind, data)))
  }

  function DisposeServer(s: Server): Server {
    s.(disposed := true, active := {})
  }

  // ---------- both, joined by two queues ----------

  /** The next message the server is handed is number `toServer` of the client's history, and conversely.  The
      protocol below hands over every message, first in order, but after a reconnect it may repeat some: `heardBy...`
      says how far each side has got. */
  datatype System = System(
    client: Client, server: Server, toServer: nat, heardByServer: nat, toClient: nat, heardByClient: nat)

  datatype Act =
    | DoInvoke(call: Call, alreadyCancelled: bool)
    | DoRunDeferred
    | DoCancel(id: nat)
    | DoDeliver
    | DoDispose
    | DoServe
    | DoTimer(channel: string, k: nat)
    | DoRegister(channel: string)
    | DoFlush
    | DoFinish(k: nat, kind: Kind, data: Data)
    | DoReady
    | DoDisposeServer
    | DoReplayToServer(from: nat)
    | DoReplayToClient(from: nat)

  function Max(x: nat, y: nat): nat {
    if x < y then y else x
  }

  function Step(y: System, act: Act): System {
    match act
    case DoInvoke(call, alreadyCancelled) => y.(client := Invoke(y.client, call, alreadyCancelled))
    case DoRunDeferred => y.(client := RunDeferred(y.client))
    case DoCancel(id) => y.(client := Cancel(y.client, id))
    case DoDeliver =>
      if y.toClient >= |y.server.sent| then y
      else y.(client := Deliver(y.client, y.server.sent[y.toClient]), toClient := y.toClient + 1,
              heardByClient := Max(y.heardByClient, y.toClient + 1))
    case DoDispose => y.(client := Dispose(y.client))
    case DoServe =>
      if y.toServer >= |y.client.sent| then y
      else y.(server := OnRequest(y.server, y.client.sent[y.toServer]), toServer := y.toServer + 1,
              heardByServer := Max(y.heardByServer, y.toServer + 1))
    case DoTimer(channel, k) => y.(server := TimerFires(y.server, channel, k))
    case DoRegister(channel) => y.(server := RegisterChannel(y.server, channel))
    case DoFlush => y.(server := Flush(y.server))
    case DoFinish(k, kind, data) => y.(server := Finish(y.server, k, kind, data))
    case DoReady => y.(server := Respond(y.server, Initialize))
    case DoDisposeServer => y.(server := DisposeServer(y.server))
    case DoReplayToServer(from) => if from <= y.heardByServer then y.(toServer := from) else y
    case DoReplayToClient(from) => if from <= y.heardByClient then y.(toClient := from) else y
  }

  function Run(y: System, acts: seq<Act>): System
    decreases |acts|
  {
    if acts == [] then y else Step(Run(y, acts[..|acts| - 1]), acts[|acts| - 1])
  }

  function Start(deferInit: bool): System {
    System(NEW_CLIENT, NewServer(deferInit), 0, 0, 0, 0)
  }
}
