/** When calls made over sockets that break and are replaced are certain to have settled
    (packages/rpc/src/persistent-protocol.ts:123-207, packages/rpc/src/channelClient.ts:178-240,
    packages/rpc/src/channelServer.ts:43-190). */
module EndToEnd {
  import opened Options
  import opened Frames
  import opened Endpoints
  import N = Networks
  import NS = NetworkSteps
  import R = Reconnects
  import C = Channels
  import S = ChannelSteps
  import Completions
  import L = Layers

  lemma FiredIsUpToTop(n: N.Net)
    requires N.NetOk(n)
    ensures forall id :: id in n.a.fired <==> 1 <= id <= N.Top(n.a.fired)
    ensures N.Top(n.a.fired) <= |n.b.sent|
  {
    hide N.PipesOk, N.HeldOk, N.UnheardOk, N.AcksOk, N.CurrentOk, N.Top;
    NS.NoGaps(n.a.fired);
  }

  /** The call of every answer that has ever been handed over, on whatever socket, is settled. */
  lemma {:induction false} HeardAnswersAreSettled(codec: L.Codec, ca: Config, cb: Config, moves: seq<L.Move>, now: int, n: nat)
    requires var s := L.Run(codec, ca, cb, moves, now);
      1 <= n <= |s.calls.server.sent| && n in s.net.a.fired && s.calls.server.sent[n - 1].Answer?
    ensures var y := L.Run(codec, ca, cb, moves, now).calls; S.IsSettled(y.client, y.server.sent[n - 1].id)
  {
    hide L.Run, C.Run, N.Run, N.NetOk, N.Top, S.IsSettled;
    var below, above := L.StackIsTwoRuns(codec, ca, cb, moves, now);
    NS.EveryRunIsOk(ca, cb, below, now);
    FiredIsUpToTop(L.Run(codec, ca, cb, moves, now).net);
    Completions.AnswersSettleTheirCalls(true, above);
  }

  /** Whatever happens to the sockets: an answer that is handed over to a client that listens settles its call, exactly
      if nothing else has. */
  lemma {:induction false} AnswerSettlesOnArrival(codec: L.Codec, ca: Config, cb: Config, moves: seq<L.Move>, now: int,
                                                  f: Frame, n: nat, at: int)
    requires L.Run(codec, ca, cb, moves, now).net.a.hand == Some(N.InHand(f, n)) && f.typ == REGULAR
    requires codec.toResponse(f.data).Answer? && !L.Run(codec, ca, cb, moves, now).calls.client.disposed
    ensures var s := L.Run(codec, ca, cb, moves, now); var c, r := s.calls.client, codec.toResponse(f.data);
      && S.IsSent(c, r.id)
      && L.Step(codec, ca, cb, s, L.Below(N.Act(true, N.Delivering(at)))).calls.client.settled
           == c.settled + if S.IsSettled(c, r.id) then [] else [C.Settlement(r.id, C.Answered(r.kind, r.body))]
  {
    hide L.Run, C.Run, N.Run, N.NetOk, S.ClientOk, S.ServerOk, S.Linked, L.Matched, N.Step, C.Deliver, S.IsSent, S.IsSettled;
    var below, above := L.StackIsTwoRuns(codec, ca, cb, moves, now);
    NS.EveryRunIsOk(ca, cb, below, now);
    S.EveryRunIsOk(true, above);
    var s := L.Run(codec, ca, cb, moves, now);
    L.HandIsKnown(codec, s, true);
    var r := codec.toResponse(f.data);
    Completions.AnswerWasAskedFor(s.calls, n - 1);
    Completions.AnswerSettlesIff(s.calls.client, r.kind, r.id, r.body);
  }

  /** Nothing is under way above the network: Initialize was sent, no released call is still to run, and the server
      listens, holds nothing and runs nothing. */
  ghost predicate Idle(y: C.System) {
    && C.Initialize in y.server.sent && y.client.ready == [] && !y.server.disposed && y.server.running == []
    && forall job :: !S.IsHeld(y.server.held, job)
  }

  /** Once both directions have caught up and nothing is under way above, every call ever made has settled, however often
      the sockets were replaced. */
  lemma {:induction false} CaughtUpMeansSettled(codec: L.Codec, ca: Config, cb: Config, moves: seq<L.Move>, now: int)
    requires var s := L.Run(codec, ca, cb, moves, now);
      R.CaughtUp(s.net) && R.CaughtUp(N.Swap(s.net)) && Idle(s.calls)
    ensures var c := L.Run(codec, ca, cb, moves, now).calls.client;
      forall id :: 0 <= id < |c.calls| ==> S.IsSettled(c, id)
  {
    hide L.Run, C.Run, N.Run, N.NetOk, S.IsHeld, S.IsSettled;
    var below, above := L.StackIsTwoRuns(codec, ca, cb, moves, now);
    NS.EveryRunIsOk(ca, cb, below, now);
    var s := L.Run(codec, ca, cb, moves, now);
    SwapIsOk(s.net);
    CaughtUpIsHeard(s.net);
    CaughtUpIsHeard(N.Swap(s.net));
    Completions.QuietMeansSettled(true, above);
  }

  lemma SwapIsOk(n: N.Net)
    requires N.NetOk(n)
    ensures N.NetOk(N.Swap(n))
  {
  }

  lemma CaughtUpIsHeard(n: N.Net)
    requires N.NetOk(n) && R.CaughtUp(n)
    ensures N.Top(n.a.fired) == |n.b.sent|
  {
    hide N.NetOk, N.Top;
    FiredIsUpToTop(n);
    var all := |n.b.sent|;
    assert all > 0 ==> all in n.a.fired;
  }
}
