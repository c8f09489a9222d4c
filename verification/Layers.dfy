/** The call protocol on top of the persistent one: a client and a server whose messages travel through two persistent
    protocols over any sequence of sockets (packages/rpc/src/persistent-protocol.ts:123-207,
    packages/rpc/src/channelClient.ts:178-240, packages/rpc/src/channelServer.ts:43-98). */
module Layers {
  import opened Buffers
  import opened Options
  import opened Frames
  import opened Endpoints
  import N = Networks
  import NS = NetworkSteps
  import C = Channels
  import S = ChannelSteps
  import Calls
  import Completions
  import SA = ServerAnswers
  import P = Repetitions

  /** How messages are written into buffers and read back. */
  datatype Codec = Codec(
    request: C.Request -> bytes, toRequest: bytes -> C.Request, response: C.Response -> bytes, toResponse: bytes -> C.Response)

  /** Side a of the network belongs to the client, side b to the server. */
  datatype Stack = Stack(net: N.Net, calls: C.System)

  /** What may happen: the network moves, or client or server act on their own. */
  datatype Move = Below(lower: N.Act) | Above(upper: C.Act, now: int)

  ghost predicate CarriesRequest(codec: Codec, r: C.Request) {
    |codec.request(r)| < TWO_TO_32 && codec.toRequest(codec.request(r)) == r
  }

  ghost predicate CarriesResponse(codec: Codec, r: C.Response) {
    |codec.response(r)| < TWO_TO_32 && codec.toResponse(codec.response(r)) == r
  }

  ghost predicate CarriesAll(codec: Codec, requests: seq<C.Request>, responses: seq<C.Response>) {
    (forall r :: r in requests ==> CarriesRequest(codec, r)) && (forall r :: r in responses ==> CarriesResponse(codec, r))
  }

  /** Acts that do not consist in the arrival of a message. */
  predicate IsLocal(act: C.Act) {
    !act.DoServe? && !act.DoDeliver? && !act.DoReplayToServer? && !act.DoReplayToClient?
  }

  /** What client and server have sent only grows. */
  lemma LocalActsExtend(y: C.System, act: C.Act)
    requires IsLocal(act)
    ensures var z := C.Step(y, act);
      && y.client.sent <= z.client.sent && y.server.sent <= z.server.sent
      && z.heardByServer == y.heardByServer && z.heardByClient == y.heardByClient
  {
    hide C.StartAll, C.RejectBelow;
    S.FlushServes(y.server);
  }

  ghost function SendRequests(codec: Codec, ca: Config, cb: Config, n: N.Net, requests: seq<C.Request>, now: int): (m: N.Net)
    requires N.Shape(n)
    ensures N.Shape(m)
  {
    if requests == [] then n
    else
      var before := SendRequests(codec, ca, cb, n, requests[..|requests| - 1], now);
      N.Step(ca, cb, before, N.Act(true, N.Sending(codec.request(requests[|requests| - 1]), now)))
  }

  ghost function SendResponses(codec: Codec, ca: Config, cb: Config, n: N.Net, responses: seq<C.Response>, now: int): (m: N.Net)
    requires N.Shape(n)
    ensures N.Shape(m)
  {
    if responses == [] then n
    else
      var before := SendResponses(codec, ca, cb, n, responses[..|responses| - 1], now);
      N.Step(ca, cb, before, N.Act(false, N.Sending(codec.response(responses[|responses| - 1]), now)))
  }

  /** Client or server act, and whatever messages that produces are passed to `send`.  An act whose messages are too long
      for a frame, or do not survive the codec, does not happen. */
  ghost function ActAbove(codec: Codec, ca: Config, cb: Config, s: Stack, act: C.Act, now: int): (t: Stack)
    requires N.Shape(s.net)
    ensures N.Shape(t.net)
  {
    if !IsLocal(act) then s
    else
      LocalActsExtend(s.calls, act);
      var z := C.Step(s.calls, act);
      var requests, responses := z.client.sent[|s.calls.client.sent|..], z.server.sent[|s.calls.server.sent|..];
      if CarriesAll(codec, requests, responses) then
        var n := SendRequests(codec, ca, cb, s.net, requests, now);
        Stack(SendResponses(codec, ca, cb, n, responses, now), z)
      else s
  }

  /** The message in hand reaches the listener of the client or of the server. */
  function Heard(codec: Codec, s: Stack, byA: bool): C.System {
    var y := s.calls;
    match if byA then s.net.a.hand else s.net.b.hand
    case None => y
    case Some(InHand(f, id)) =>
      if f.typ != REGULAR then y
      else if byA then
        y.(client := C.Deliver(y.client, codec.toResponse(f.data)), toClient := id, heardByClient := C.Max(y.heardByClient, id))
      else
        y.(server := C.OnRequest(y.server, codec.toRequest(f.data)), toServer := id, heardByServer := C.Max(y.heardByServer, id))
  }

  ghost function Step(codec: Codec, ca: Config, cb: Config, s: Stack, move: Move): (t: Stack)
    requires N.Shape(s.net)
    ensures N.Shape(t.net)
  {
    match move
    case Below(act) =>
      if act.op.Sending? then s
      else Stack(N.Step(ca, cb, s.net, act), if act.op.Delivering? then Heard(codec, s, act.byA) else s.calls)
    case Above(act, now) => ActAbove(codec, ca, cb, s, act, now)
  }

  /** The server starts with `deferInit`; one that does not defer is made ready first. */
  ghost function Run(codec: Codec, ca: Config, cb: Config, moves: seq<Move>, now: int): (s: Stack)
    ensures N.Shape(s.net)
  {
    if moves == [] then Stack(N.Start(now), C.Start(true))
    else Step(codec, ca, cb, Run(codec, ca, cb, moves[..|moves| - 1], now), moves[|moves| - 1])
  }

  // ---------- both layers keep in step ----------

  /** What has been passed to `send` are the messages of the histories, and each side has heard as far as its protocol
      has fired. */
  ghost predicate Matched(codec: Codec, s: Stack) {
    && |s.net.a.sent| == |s.calls.client.sent| && |s.net.b.sent| == |s.calls.server.sent|
    && (forall i :: 0 <= i < |s.net.a.sent| ==> codec.toRequest(s.net.a.sent[i]) == s.calls.client.sent[i])
    && (forall i :: 0 <= i < |s.net.b.sent| ==> codec.toResponse(s.net.b.sent[i]) == s.calls.server.sent[i])
    && s.calls.heardByServer == N.Top(s.net.b.fired) && s.calls.heardByClient == N.Top(s.net.a.fired)
  }

  lemma RunOneMoreBelow(ca: Config, cb: Config, acts: seq<N.Act>, act: N.Act, now: int)
    ensures N.Run(ca, cb, acts + [act], now) == N.Step(ca, cb, N.Run(ca, cb, acts, now), act)
  {
    assert (acts + [act])[..|acts|] == acts;
  }

  lemma RunOneMoreAbove(y: C.System, acts: seq<C.Act>, act: C.Act)
    ensures C.Run(y, acts + [act]) == C.Step(C.Run(y, acts), act)
  {
    assert (acts + [act])[..|acts|] == acts;
  }

  /** Only `send` extends what was sent, and only a delivery extends what was fired. */
  lemma OtherActsKeepHistories(ca: Config, cb: Config, n: N.Net, act: N.Act)
    requires N.Shape(n) && !act.op.Sending?
    ensures var m := N.Step(ca, cb, n, act);
      && m.a.sent == n.a.sent && m.b.sent == n.b.sent
      && (!(act.op.Delivering? && act.byA) ==> m.a.fired == n.a.fired)
      && (!(act.op.Delivering? && !act.byA) ==> m.b.fired == n.b.fired)
  {
    hide TakeFrame, EncodeAll, AckCheck, ProcessAck, Deliver, N.Append, N.Grow;
  }

  lemma SendingExtends(ca: Config, cb: Config, n: N.Net, byA: bool, data: bytes, now: int)
    requires N.Shape(n) && |data| < TWO_TO_32
    ensures var m := N.Step(ca, cb, n, N.Act(byA, N.Sending(data, now)));
      && m.a.sent == (if byA then n.a.sent + [data] else n.a.sent) && m.b.sent == (if byA then n.b.sent else n.b.sent + [data])
      && m.a.fired == n.a.fired && m.b.fired == n.b.fired
  {
    hide Send, N.Append;
  }

  lemma ServerHears(y: C.System, id: nat)
    requires 1 <= id <= y.heardByServer + 1 && id <= |y.client.sent|
    ensures C.Step(C.Step(y, C.DoReplayToServer(id - 1)), C.DoServe)
         == y.(server := C.OnRequest(y.server, y.client.sent[id - 1]), toServer := id, heardByServer := C.Max(y.heardByServer, id))
  {
    hide C.OnRequest;
  }

  lemma ClientHears(y: C.System, id: nat)
    requires 1 <= id <= y.heardByClient + 1 && id <= |y.server.sent|
    ensures C.Step(C.Step(y, C.DoReplayToClient(id - 1)), C.DoDeliver)
         == y.(client := C.Deliver(y.client, y.server.sent[id - 1]), toClient := id, heardByClient := C.Max(y.heardByClient, id))
  {
    hide C.Deliver;
  }

  lemma TwoActs(y: C.System, first: C.Act, second: C.Act)
    ensures C.Run(y, [first, second]) == C.Step(C.Step(y, first), second)
  {
    hide C.Step;
    assert C.Run(y, []) == y;
    RunOneMoreAbove(y, [], first);
    RunOneMoreAbove(y, [first], second);
    assert [] + [first] == [first] && [first] + [second] == [first, second];
  }

  /** A delivery, seen from above, is the next message or one that has been heard before. */
  lemma HearingIsTwoActs(codec: Codec, s: Stack, byA: bool) returns (more: seq<C.Act>)
    requires N.NetOk(s.net) && S.SystemOk(s.calls) && Matched(codec, s)
    ensures |more| <= 2 && Heard(codec, s, byA) == C.Run(s.calls, more)
  {
    hide C.Step, C.Deliver, C.OnRequest, N.NetOk, S.SystemOk, Matched;
    var y := s.calls;
    more := [];
    HandIsKnown(codec, s, byA);
    match if byA then s.net.a.hand else s.net.b.hand
    case None =>
    case Some(InHand(f, id)) =>
      if f.typ == REGULAR {
        if byA {
          more := [C.DoReplayToClient(id - 1), C.DoDeliver];
          ClientHears(y, id);
        } else {
          more := [C.DoReplayToServer(id - 1), C.DoServe];
          ServerHears(y, id);
        }
        TwoActs(y, more[0], more[1]);
      }
  }

  lemma HandIsKnown(codec: Codec, s: Stack, byA: bool)
    requires N.NetOk(s.net) && Matched(codec, s)
    ensures match if byA then s.net.a.hand else s.net.b.hand
      case Some(InHand(f, id)) =>
        f.typ == REGULAR ==>
          if byA then 1 <= id <= s.calls.heardByClient + 1 && id <= |s.calls.server.sent| && codec.toResponse(f.data) == s.calls.server.sent[id - 1]
          else 1 <= id <= s.calls.heardByServer + 1 && id <= |s.calls.client.sent| && codec.toRequest(f.data) == s.calls.client.sent[id - 1]
      case None => true
  {
    hide N.Top, N.PipesOk, N.QueueOk, N.HeldOk, N.UnheardOk, N.AcksOk, N.FiredOk, N.CurrentOk;
  }

  /** Moves of the network keep the layers in step. */
  lemma BelowMatches(codec: Codec, ca: Config, cb: Config, s: Stack, act: N.Act)
    requires N.Shape(s.net) && N.NetOk(s.net) && Matched(codec, s) && !act.op.Sending?
    ensures Matched(codec, Step(codec, ca, cb, s, Below(act)))
  {
    hide N.NetOk, C.Deliver, C.OnRequest, N.Top;
    OtherActsKeepHistories(ca, cb, s.net, act);
    if act.op.Delivering? {
      HandIsKnown(codec, s, act.byA);
      DeliveryFires(ca, cb, s.net, act.byA, act.op.now);
      HearingSendsNothing(codec, s, act.byA);
    }
  }

  lemma HearingSendsNothing(codec: Codec, s: Stack, byA: bool)
    ensures var z := Heard(codec, s, byA); z.client.sent == s.calls.client.sent && z.server.sent == s.calls.server.sent
  {
  }

  lemma DeliveryFires(ca: Config, cb: Config, n: N.Net, byA: bool, now: int)
    requires N.Shape(n)
    ensures var m := N.Step(ca, cb, n, N.Act(byA, N.Delivering(now)));
      var side, after := if byA then n.a else n.b, if byA then m.a else m.b;
      match side.hand
      case Some(InHand(f, id)) =>
        && after.fired == side.fired + (if f.typ == REGULAR then [id] else [])
        && N.Top(after.fired) == if f.typ == REGULAR then N.Max(N.Top(side.fired), id) else N.Top(side.fired)
      case None => after.fired == side.fired
  {
    hide Deliver, N.Top;
    var side := if byA then n.a else n.b;
    match side.hand
    case Some(InHand(f, id)) =>
      NS.TopOfOneMore(side.fired, id);
      assert side.fired + [] == side.fired;
    case None =>
  }

  lemma {:induction false} RequestsAreSent(codec: Codec, ca: Config, cb: Config, n: N.Net, requests: seq<C.Request>, now: int)
    requires N.Shape(n) && forall r :: r in requests ==> CarriesRequest(codec, r)
    ensures var m := SendRequests(codec, ca, cb, n, requests, now);
      && |m.a.sent| == |n.a.sent| + |requests| && n.a.sent <= m.a.sent && m.b.sent == n.b.sent
      && (forall i :: 0 <= i < |requests| ==> codec.toRequest(m.a.sent[|n.a.sent| + i]) == requests[i])
      && m.a.fired == n.a.fired && m.b.fired == n.b.fired
  {
    if requests != [] {
      hide N.Step;
      var before, last := requests[..|requests| - 1], requests[|requests| - 1];
      RequestsAreSent(codec, ca, cb, n, before, now);
      assert last in requests && CarriesRequest(codec, last);
      var o, m := SendRequests(codec, ca, cb, n, before, now), SendRequests(codec, ca, cb, n, requests, now);
      SendingExtends(ca, cb, o, true, codec.request(last), now);
      hide CarriesRequest;
      forall i | 0 <= i < |requests| ensures codec.toRequest(m.a.sent[|n.a.sent| + i]) == requests[i] {
        if i < |before| {
          assert m.a.sent[|n.a.sent| + i] == o.a.sent[|n.a.sent| + i] && before[i] == requests[i];
        }
      }
    }
  }

  lemma {:induction false} ResponsesAreSent(codec: Codec, ca: Config, cb: Config, n: N.Net, responses: seq<C.Response>, now: int)
    requires N.Shape(n) && forall r :: r in responses ==> CarriesResponse(codec, r)
    ensures var m := SendResponses(codec, ca, cb, n, responses, now);
      && |m.b.sent| == |n.b.sent| + |responses| && n.b.sent <= m.b.sent && m.a.sent == n.a.sent
      && (forall i :: 0 <= i < |responses| ==> codec.toResponse(m.b.sent[|n.b.sent| + i]) == responses[i])
      && m.a.fired == n.a.fired && m.b.fired == n.b.fired
  {
    if responses != [] {
      hide N.Step;
      var before, last := responses[..|responses| - 1], responses[|responses| - 1];
      ResponsesAreSent(codec, ca, cb, n, before, now);
      assert last in responses && CarriesResponse(codec, last);
      var o, m := SendResponses(codec, ca, cb, n, before, now), SendResponses(codec, ca, cb, n, responses, now);
      SendingExtends(ca, cb, o, false, codec.response(last), now);
      hide CarriesResponse;
      forall i | 0 <= i < |responses| ensures codec.toResponse(m.b.sent[|n.b.sent| + i]) == responses[i] {
        if i < |before| {
          assert m.b.sent[|n.b.sent| + i] == o.b.sent[|n.b.sent| + i] && before[i] == responses[i];
        }
      }
    }
  }

  /** Longer histories match if the older parts did and the newer parts do. */
  lemma StillDecoded<T(!new)>(decode: bytes -> T, data: seq<bytes>, more: seq<bytes>, messages: seq<T>, longer: seq<T>)
    requires data <= more && messages <= longer && |data| == |messages| && |more| == |longer|
    requires forall i :: 0 <= i < |data| ==> decode(data[i]) == messages[i]
    requires forall i :: 0 <= i < |longer| - |messages| ==> decode(more[|data| + i]) == longer[|messages|..][i]
    ensures forall i :: 0 <= i < |more| ==> decode(more[i]) == longer[i]
  {
    forall i | 0 <= i < |more| ensures decode(more[i]) == longer[i] {
      if i >= |data| {
        assert decode(more[|data| + (i - |data|)]) == longer[|messages|..][i - |data|];
      } else {
        assert more[i] == data[i] && longer[i] == messages[i];
      }
    }
  }

  lemma SendingMatches(codec: Codec, ca: Config, cb: Config, s: Stack, z: C.System, requests: seq<C.Request>,
                       responses: seq<C.Response>, now: int)
    requires N.Shape(s.net) && Matched(codec, s) && CarriesAll(codec, requests, responses)
    requires z.client.sent == s.calls.client.sent + requests && z.server.sent == s.calls.server.sent + responses
    requires z.heardByServer == s.calls.heardByServer && z.heardByClient == s.calls.heardByClient
    ensures var n := SendRequests(codec, ca, cb, s.net, requests, now);
      Matched(codec, Stack(SendResponses(codec, ca, cb, n, responses, now), z))
  {
    hide N.Top, SendRequests, SendResponses, CarriesRequest, CarriesResponse;
    var n := SendRequests(codec, ca, cb, s.net, requests, now);
    var m := SendResponses(codec, ca, cb, n, responses, now);
    RequestsAreSent(codec, ca, cb, s.net, requests, now);
    ResponsesAreSent(codec, ca, cb, n, responses, now);
    StillDecoded(codec.toRequest, s.net.a.sent, m.a.sent, s.calls.client.sent, z.client.sent);
    StillDecoded(codec.toResponse, s.net.b.sent, m.b.sent, s.calls.server.sent, z.server.sent);
  }

  lemma AboveMatches(codec: Codec, ca: Config, cb: Config, s: Stack, act: C.Act, now: int)
    requires N.Shape(s.net) && Matched(codec, s)
    ensures Matched(codec, ActAbove(codec, ca, cb, s, act, now))
  {
    hide C.Step, Matched, SendRequests, SendResponses, CarriesAll;
    if IsLocal(act) {
      var z := C.Step(s.calls, act);
      LocalActsExtend(s.calls, act);
      var requests, responses := z.client.sent[|s.calls.client.sent|..], z.server.sent[|s.calls.server.sent|..];
      if CarriesAll(codec, requests, responses) {
        SendingMatches(codec, ca, cb, s, z, requests, responses, now);
      }
    }
  }

  // ---------- every run of the stack ----------

  lemma {:induction false} SendRequestsIsARun(codec: Codec, ca: Config, cb: Config, acts: seq<N.Act>, start: int,
                                              requests: seq<C.Request>, now: int) returns (more: seq<N.Act>)
    ensures SendRequests(codec, ca, cb, N.Run(ca, cb, acts, start), requests, now) == N.Run(ca, cb, more, start)
    decreases |requests|
  {
    if requests == [] {
      more := acts;
    } else {
      hide N.Step, N.Run;
      var last := N.Act(true, N.Sending(codec.request(requests[|requests| - 1]), now));
      more := SendRequestsIsARun(codec, ca, cb, acts, start, requests[..|requests| - 1], now);
      RunOneMoreBelow(ca, cb, more, last, start);
      more := more + [last];
    }
  }

  lemma {:induction false} SendResponsesIsARun(codec: Codec, ca: Config, cb: Config, acts: seq<N.Act>, start: int,
                                               responses: seq<C.Response>, now: int) returns (more: seq<N.Act>)
    ensures SendResponses(codec, ca, cb, N.Run(ca, cb, acts, start), responses, now) == N.Run(ca, cb, more, start)
    decreases |responses|
  {
    if responses == [] {
      more := acts;
    } else {
      hide N.Step, N.Run;
      var last := N.Act(false, N.Sending(codec.response(responses[|responses| - 1]), now));
      more := SendResponsesIsARun(codec, ca, cb, acts, start, responses[..|responses| - 1], now);
      RunOneMoreBelow(ca, cb, more, last, start);
      more := more + [last];
    }
  }

  /** Whatever happens to the sockets and whenever client and server act: the network below goes through a run of the
      persistent protocol and the client and server above through a run of the call protocol, and the two agree on
      what was sent and heard.  So everything proved about either holds of the stack. */
  lemma {:induction false} StackIsTwoRuns(codec: Codec, ca: Config, cb: Config, moves: seq<Move>, now: int)
      returns (below: seq<N.Act>, above: seq<C.Act>)
    ensures var s := Run(codec, ca, cb, moves, now);
      && s.net == N.Run(ca, cb, below, now) && s.calls == C.Run(C.Start(true), above)
      && Matched(codec, s)
    decreases |moves|
  {
    if moves == [] {
      below, above := [], [];
    } else {
      hide Matched, N.Run, C.Run, Step, N.NetOk, S.SystemOk;
      var before, move := moves[..|moves| - 1], moves[|moves| - 1];
      var s := Run(codec, ca, cb, before, now);
      below, above := StackIsTwoRuns(codec, ca, cb, before, now);
      NS.EveryRunIsOk(ca, cb, below, now);
      S.EveryRunIsOk(true, above);
      match move
      case Below(act) =>
        below, above := BelowIsTwoRuns(codec, ca, cb, s, below, above, act, now);
      case Above(act, at) =>
        below, above := AboveIsTwoRuns(codec, ca, cb, s, below, above, act, now, at);
    }
  }

  lemma BelowIsTwoRuns(codec: Codec, ca: Config, cb: Config, s: Stack, below: seq<N.Act>, above: seq<C.Act>, act: N.Act, now: int)
      returns (lower: seq<N.Act>, upper: seq<C.Act>)
    requires s.net == N.Run(ca, cb, below, now) && s.calls == C.Run(C.Start(true), above)
    requires N.NetOk(s.net) && S.SystemOk(s.calls) && Matched(codec, s)
    ensures var t := Step(codec, ca, cb, s, Below(act));
      t.net == N.Run(ca, cb, lower, now) && t.calls == C.Run(C.Start(true), upper) && Matched(codec, t)
  {
    hide Matched, N.Run, C.Run, N.Step, C.Step, Heard, N.NetOk, S.SystemOk;
    if act.op.Sending? {
      return below, above;
    }
    BelowMatches(codec, ca, cb, s, act);
    RunOneMoreBelow(ca, cb, below, act, now);
    lower, upper := below + [act], above;
    if act.op.Delivering? {
      var more := HearingIsTwoActs(codec, s, act.byA);
      RunsJoin(C.Start(true), above, more);
      upper := above + more;
    }
  }

  lemma AboveIsTwoRuns(codec: Codec, ca: Config, cb: Config, s: Stack, below: seq<N.Act>, above: seq<C.Act>, act: C.Act,
                       now: int, at: int) returns (lower: seq<N.Act>, upper: seq<C.Act>)
    requires s.net == N.Run(ca, cb, below, now) && s.calls == C.Run(C.Start(true), above) && Matched(codec, s)
    ensures var t := Step(codec, ca, cb, s, Above(act, at));
      t.net == N.Run(ca, cb, lower, now) && t.calls == C.Run(C.Start(true), upper) && Matched(codec, t)
  {
    hide Matched, N.Run, C.Run, C.Step, SendRequests, SendResponses, CarriesAll;
    AboveMatches(codec, ca, cb, s, act, at);
    var z, t := C.Step(s.calls, act), ActAbove(codec, ca, cb, s, act, at);
    if t == s {
      return below, above;
    }
    LocalActsExtend(s.calls, act);
    var requests, responses := z.client.sent[|s.calls.client.sent|..], z.server.sent[|s.calls.server.sent|..];
    lower := SendRequestsIsARun(codec, ca, cb, below, now, requests, at);
    lower := SendResponsesIsARun(codec, ca, cb, lower, now, responses, at);
    upper := above + [act];
    RunOneMoreAbove(C.Start(true), above, act);
  }

  lemma {:induction false} RunsJoin(y: C.System, acts: seq<C.Act>, more: seq<C.Act>)
    ensures C.Run(C.Run(y, acts), more) == C.Run(y, acts + more)
    decreases |more|
  {
    if more == [] {
      assert acts + more == acts;
    } else {
      var before, last := more[..|more| - 1], more[|more| - 1];
      RunsJoin(y, acts, before);
      assert acts + more == (acts + before) + [last];
      RunOneMoreAbove(y, acts + before, last);
    }
  }

  /** End to end, over any sequence of sockets: a call settles at most once, is pending or settled at all times and
      settled after dispose, and whatever answer settles it is genuine. */
  lemma {:induction false} CallsEndToEnd(codec: Codec, ca: Config, cb: Config, moves: seq<Move>, now: int)
    ensures var y := Run(codec, ca, cb, moves, now).calls; var c := y.client;
      && S.SettledOnce(c)
      && (forall id :: 0 <= id < |c.calls| ==> (id in c.pending) != S.IsSettled(c, id))
      && (c.disposed ==> forall id :: 0 <= id < |c.calls| ==> S.IsSettled(c, id))
      && (forall k :: 0 <= k < |c.settled| && c.settled[k].outcome.Answered? ==>
            Calls.Genuine(c, y.server, c.settled[k].id, c.settled[k].outcome.kind, c.settled[k].outcome.body))
  {
    hide Run, C.Run, Calls.Genuine, S.IsSettled, S.SettledOnce;
    var below, above := StackIsTwoRuns(codec, ca, cb, moves, now);
    Calls.CallsSettleOnce(true, above);
    Calls.AnswersAreGenuine(true, above);
  }

  // ---------- how often a request runs, end to end ----------

  /** The requests among the messages with these ids, as a server that never stops listening is handed them. */
  function Handed(fired: seq<nat>, sent: seq<C.Request>): seq<C.Job> {
    if fired == [] then []
    else
      var before, id := Handed(fired[..|fired| - 1], sent), fired[|fired| - 1];
      if 1 <= id <= |sent| && sent[id - 1].PromiseRequest?
      then before + [C.Job(|before|, sent[id - 1].id, sent[id - 1].call)]
      else before
  }

  ghost predicate Listening(s: Stack) {
    && (forall j :: 0 <= j < |s.net.b.fired| ==> 1 <= s.net.b.fired[j] <= |s.calls.client.sent|)
    && (!s.calls.server.disposed ==> s.calls.server.received == Handed(s.net.b.fired, s.calls.client.sent))
  }

  lemma {:induction false} HandedStays(fired: seq<nat>, sent: seq<C.Request>, more: seq<C.Request>)
    requires sent <= more && forall j :: 0 <= j < |fired| ==> 1 <= fired[j] <= |sent|
    ensures Handed(fired, more) == Handed(fired, sent)
  {
    if fired != [] {
      HandedStays(fired[..|fired| - 1], sent, more);
    }
  }

  lemma LocalActsReceiveNothing(y: C.System, act: C.Act)
    requires IsLocal(act)
    ensures var z := C.Step(y, act); z.server.received == y.server.received && (y.server.disposed ==> z.server.disposed)
  {
    hide C.StartAll, C.RejectBelow;
    S.FlushServes(y.server);
    if act.DoFlush? {
      Completions.FlushKeepsListening(y.server);
    }
  }

  lemma HandedOneMore(fired: seq<nat>, id: nat, sent: seq<C.Request>)
    requires 1 <= id <= |sent|
    ensures var before := Handed(fired, sent);
      Handed(fired + [id], sent) == before +
        if sent[id - 1].PromiseRequest? then [C.Job(|before|, sent[id - 1].id, sent[id - 1].call)] else []
  {
    assert (fired + [id])[..|fired|] == fired;
  }

  lemma BelowListens(codec: Codec, ca: Config, cb: Config, s: Stack, act: N.Act)
    requires N.Shape(s.net) && N.NetOk(s.net) && Matched(codec, s) && Listening(s) && !act.op.Sending?
    ensures Listening(Step(codec, ca, cb, s, Below(act)))
  {
    hide N.NetOk, C.Deliver, N.Top, N.Step, Matched, Handed;
    OtherActsKeepHistories(ca, cb, s.net, act);
    if act.op.Delivering? {
      HandIsKnown(codec, s, act.byA);
      DeliveryFires(ca, cb, s.net, act.byA, act.op.now);
      HearingSendsNothing(codec, s, act.byA);
      if !act.byA {
        match s.net.b.hand
        case Some(InHand(f, id)) =>
          if f.typ == REGULAR {
            HandedOneMore(s.net.b.fired, id, s.calls.client.sent);
            RequestIsReceived(s.calls.server, codec.toRequest(f.data));
          }
        case None =>
      }
    }
  }

  lemma RequestIsReceived(s: C.Server, r: C.Request)
    ensures var t := C.OnRequest(s, r);
      && t.disposed == s.disposed
      && (!s.disposed ==> t.received == s.received + if r.PromiseRequest? then [C.Job(|s.received|, r.id, r.call)] else [])
  {
  }

  lemma AboveListens(codec: Codec, ca: Config, cb: Config, s: Stack, act: C.Act, now: int)
    requires N.Shape(s.net) && Matched(codec, s) && Listening(s)
    ensures Listening(ActAbove(codec, ca, cb, s, act, now))
  {
    hide C.Step, SendRequests, SendResponses, CarriesRequest, CarriesResponse, Handed, Matched;
    if IsLocal(act) {
      var z := C.Step(s.calls, act);
      LocalActsExtend(s.calls, act);
      LocalActsReceiveNothing(s.calls, act);
      var requests, responses := z.client.sent[|s.calls.client.sent|..], z.server.sent[|s.calls.server.sent|..];
      if CarriesAll(codec, requests, responses) {
        RequestsAreSent(codec, ca, cb, s.net, requests, now);
        ResponsesAreSent(codec, ca, cb, SendRequests(codec, ca, cb, s.net, requests, now), responses, now);
        HandedStays(s.net.b.fired, s.calls.client.sent, z.client.sent);
      }
    }
  }

  lemma StepListens(codec: Codec, ca: Config, cb: Config, s: Stack, move: Move)
    requires N.Shape(s.net) && N.NetOk(s.net) && Matched(codec, s) && Listening(s)
    ensures Listening(Step(codec, ca, cb, s, move))
  {
    hide Listening, Matched, ActAbove, N.NetOk;
    match move
    case Below(act) =>
      if !act.op.Sending? {
        BelowListens(codec, ca, cb, s, act);
      }
    case Above(act, at) => AboveListens(codec, ca, cb, s, act, at);
  }

  lemma {:induction false} EveryRunListens(codec: Codec, ca: Config, cb: Config, moves: seq<Move>, now: int)
    ensures Listening(Run(codec, ca, cb, moves, now))
    decreases |moves|
  {
    hide Listening, Matched, N.Run, C.Run, Step, N.NetOk;
    if moves == [] {
      StartListens(now);
    } else {
      var before := moves[..|moves| - 1];
      EveryRunListens(codec, ca, cb, before, now);
      var below, above := StackIsTwoRuns(codec, ca, cb, before, now);
      NS.EveryRunIsOk(ca, cb, below, now);
      StepListens(codec, ca, cb, Run(codec, ca, cb, before, now), moves[|moves| - 1]);
    }
  }

  lemma StartListens(now: int)
    ensures Listening(Stack(N.Start(now), C.Start(true)))
  {
  }

  /** A call's request is one message, so it is handed over as often as that message is fired. */
  lemma {:induction false} HandedAsOften(fired: seq<nat>, sent: seq<C.Request>, n: nat)
    requires 1 <= n <= |sent| && sent[n - 1].PromiseRequest?
    requires forall j :: 0 <= j < |fired| ==> 1 <= fired[j] <= |sent|
    requires forall i :: 0 <= i < |sent| && sent[i].PromiseRequest? && sent[i].id == sent[n - 1].id ==> i == n - 1
    ensures SA.CountJobs(Handed(fired, sent), sent[n - 1].id) == multiset(fired)[n]
  {
    if fired != [] {
      hide SA.CountJobs;
      var before, last := fired[..|fired| - 1], fired[|fired| - 1];
      HandedAsOften(before, sent, n);
      assert fired == before + [last];
      HandedOneMore(before, last, sent);
      if sent[last - 1].PromiseRequest? {
        SA.CountOneMoreJob(Handed(before, sent), C.Job(|Handed(before, sent)|, sent[last - 1].id, sent[last - 1].call), sent[n - 1].id);
      } else {
        assert Handed(before, sent) + [] == Handed(before, sent);
      }
    } else {
      assert SA.CountJobs([], sent[n - 1].id) == 0;
    }
  }

  lemma {:induction false} TwiceCounted(jobs: seq<C.Job>, id: nat)
    ensures SA.CountJobs(jobs, id) >= 2 <==> Calls.IsRepeated(jobs, id)
  {
    if jobs != [] {
      var before, last := jobs[..|jobs| - 1], jobs[|jobs| - 1];
      TwiceCounted(before, id);
      SA.SomeJob(before, id);
      assert jobs == before + [last];
      if Calls.IsRepeated(before, id) {
        var i, j :| 0 <= i < j < |before| && before[i].id == id == before[j].id;
        assert jobs[i].id == id == jobs[j].id;
      } else if last.id == id && SA.CountJobs(before, id) > 0 {
        var job :| job in before && job.id == id;
        var i :| 0 <= i < |before| && before[i] == job;
        assert jobs[i].id == id == jobs[|jobs| - 1].id;
      }
      if Calls.IsRepeated(jobs, id) {
        var i, j :| 0 <= i < j < |jobs| && jobs[i].id == id == jobs[j].id;
        assert before[i] in before && before[i].id == id;
        assert j < |before| ==> before[i].id == id == before[j].id;
      }
    }
  }

  /** Exactly when a request runs more than once, end to end: when its message is read on two connections.  This is for
      a server that still listens, holds nothing for the call and is not in the middle of a frame; `n` is the number
      of the request among the messages of the client. */
  lemma {:induction false} RunsAgainIffReadTwice(codec: Codec, ca: Config, cb: Config, moves: seq<Move>, now: int, n: nat)
    requires var s := Run(codec, ca, cb, moves, now);
      && 1 <= n <= |s.calls.client.sent| && s.calls.client.sent[n - 1].PromiseRequest?
      && !s.calls.server.disposed && s.net.b.hand == None
      && forall job :: S.IsHeld(s.calls.server.held, job) ==> job.id != s.calls.client.sent[n - 1].id
    ensures var s := Run(codec, ca, cb, moves, now);
      Calls.IsRepeated(s.calls.server.started, s.calls.client.sent[n - 1].id) <==> P.ReadTwice(s.net.ab, n)
  {
    hide Run, C.Run, N.Run, Calls.IsRepeated, P.ReadTwice, P.Repeats, S.IsHeld, SA.CountJobs, Handed, Matched;
    var s := Run(codec, ca, cb, moves, now);
    var below, above := StackIsTwoRuns(codec, ca, cb, moves, now);
    EveryRunListens(codec, ca, cb, moves, now);
    S.EveryRunIsOk(true, above);
    var sent, id := s.calls.client.sent, s.calls.client.sent[n - 1].id;
    SentRequestsDiffer(s.calls.client);
    HandedAsOften(s.net.b.fired, sent, n);
    TwiceCounted(s.calls.server.received, id);
    P.TwiceLogged(s.net.b.fired, n);
    P.DeliveredAgainIff(ca, cb, below, now, n);
    Calls.RunsAgainIff(true, above, id);
  }

  lemma SentRequestsDiffer(c: C.Client)
    requires S.ClientOk(c)
    ensures forall i, j :: 0 <= i < |c.sent| && 0 <= j < |c.sent| && SameRequest(c.sent[i], c.sent[j]) ==> i == j
  {
    hide S.Deferred, S.SettledOnce, S.IsSettled, S.IsSent;
  }

  predicate SameRequest(r: C.Request, q: C.Request) {
    r.PromiseRequest? && q.PromiseRequest? && r.id == q.id
  }
}
