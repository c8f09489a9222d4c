/** The invariant of a client and a server joined by two queues, and its preservation by every step
    (packages/rpc/src/channelClient.ts, packages/rpc/src/channelServer.ts). */
module ChannelSteps {
  import opened Serialization
  import opened Channels

  // ---------- the client's invariant ----------

  ghost predicate IsSettled(c: Client, id: nat) {
    exists k :: 0 <= k < |c.settled| && c.settled[k].id == id
  }

  ghost predicate IsSent(c: Client, id: nat) {
    exists k :: 0 <= k < |c.sent| && c.sent[k].PromiseRequest? && c.sent[k].id == id
  }

  /** No id appears twice among the settlements. */
  ghost predicate SettledOnce(c: Client) {
    forall i, j :: 0 <= i < j < |c.settled| ==> c.settled[i].id != c.settled[j].id
  }

  ghost predicate SentOnce(c: Client) {
    forall i, j :: 0 <= i < j < |c.sent| && c.sent[i].PromiseRequest? && c.sent[j].PromiseRequest? ==>
      c.sent[i].id != c.sent[j].id
  }

  /** Requests that are still held back: each once, and none of them sent. */
  ghost predicate Deferred(c: Client) {
    var all := c.ready + c.waiting;
    && (forall k :: 0 <= k < |all| ==> all[k] < |c.calls| && !IsSent(c, all[k]))
    && (forall i, j :: 0 <= i < j < |all| ==> all[i] != all[j])
  }

  /** Every pending call, apart from those owed, either has gone out and is listened for or is still held back; and
      once Initialize has come nothing waits for it any more. */
  ghost predicate Tracked(c: Client, owed: set<nat>) {
    && (forall id :: id in c.handlers <==> id in c.pending && IsSent(c, id))
    && (forall id :: id in c.pending && id !in owed ==> IsSent(c, id) || id in c.ready + c.waiting)
    && (c.idle ==> c.waiting == [])
  }

  ghost predicate CallsOk(c: Client) {
    && (forall id :: id in c.pending ==> id < |c.calls| && !IsSettled(c, id))
    && (forall id :: 0 <= id < |c.calls| ==> id in c.pending || IsSettled(c, id))
    && (forall k :: 0 <= k < |c.settled| ==> c.settled[k].id < |c.calls|)
    && (forall k :: 0 <= k < |c.sent| && c.sent[k].PromiseRequest? ==>
          c.sent[k].id < |c.calls| && c.sent[k].call == c.calls[c.sent[k].id])
    && (c.disposed ==> c.pending == {})
    && SettledOnce(c) && SentOnce(c) && Deferred(c)
  }

  ghost predicate ClientOk(c: Client) {
    CallsOk(c) && Tracked(c, {})
  }

  /** One call is neither sent nor held back yet. */
  ghost predicate ClientOwes(c: Client, id: nat) {
    CallsOk(c) && Tracked(c, {id}) && !IsSent(c, id) && id !in c.ready + c.waiting
  }

  lemma SettledGrows(c: Client, d: Client, id: nat)
    requires c.settled <= d.settled && IsSettled(c, id)
    ensures IsSettled(d, id)
  {
    var k :| 0 <= k < |c.settled| && c.settled[k].id == id;
    assert d.settled[k].id == id;
  }

  lemma SettleKeeps(c: Client, id: nat, outcome: Outcome)
    requires ClientOk(c) && id in c.pending
    ensures ClientOk(Settle(c, id, outcome))
  {
    var d := Settle(c, id, outcome);
    assert d.settled[|c.settled|].id == id;
    forall other | other in d.pending ensures !IsSettled(d, other) {
      assert !IsSettled(c, other);
    }
    forall other | 0 <= other < |d.calls| ensures other in d.pending || IsSettled(d, other) {
      if other !in c.pending {
        SettledGrows(c, d, other);
      }
    }
    assert forall x :: IsSent(c, x) == IsSent(d, x);
  }

  lemma OneMoreIsSent(c: Client, d: Client, id: nat)
    requires id < |c.calls| && d.sent == c.sent + [PromiseRequest(id, c.calls[id])]
    ensures forall x :: IsSent(d, x) <==> IsSent(c, x) || x == id
  {
    forall x ensures IsSent(d, x) <==> IsSent(c, x) || x == id {
      assert d.sent[|c.sent|].id == id;
      if IsSent(c, x) {
        var k :| 0 <= k < |c.sent| && c.sent[k].PromiseRequest? && c.sent[k].id == x;
        assert d.sent[k] == c.sent[k];
      }
    }
  }

  lemma DoRequestKeeps(c: Client, id: nat)
    requires ClientOwes(c, id)
    ensures ClientOk(DoRequest(c, id))
  {
    var d := DoRequest(c, id);
    assert forall x :: IsSettled(c, x) == IsSettled(d, x);
    forall x | x in c.ready + c.waiting ensures !IsSent(d, x) {
      assert !IsSent(c, x) by {
        var k :| 0 <= k < |c.ready + c.waiting| && (c.ready + c.waiting)[k] == x;
      }
    }
    if d != c {
      forall i | 0 <= i < |c.sent| && c.sent[i].PromiseRequest? ensures c.sent[i].id != id {
        if c.sent[i].id == id {
          assert IsSent(c, id);
          assert false;
        }
      }
      OneMoreIsSent(c, d, id);
    }
  }

  lemma InvokeKeeps(c: Client, call: Call, alreadyCancelled: bool)
    requires ClientOk(c)
    ensures ClientOk(Invoke(c, call, alreadyCancelled))
  {
    if !c.disposed {
      var id := |c.calls|;
      var issued := c.(calls := c.calls + [call]);
      assert forall x :: IsSent(c, x) == IsSent(issued, x);
      assert !IsSettled(c, id) && !IsSent(c, id);
      assert id !in c.ready + c.waiting;
      if alreadyCancelled {
        CancelledAtOnce(c, call);
      } else {
        IssuedIsOwed(c, call);
        var started := issued.(pending := issued.pending + {id});
        if c.idle {
          DoRequestKeeps(started, id);
        } else {
          HoldingKeeps(started, id);
        }
      }
    }
  }

  lemma CancelledAtOnce(c: Client, call: Call)
    requires ClientOk(c) && !c.disposed
    ensures ClientOk(Invoke(c, call, true))
  {
    var d := Invoke(c, call, true);
    assert d.settled[|c.settled|].id == |c.calls|;
    assert forall x :: IsSent(c, x) == IsSent(d, x);
    forall x | x in d.pending ensures !IsSettled(d, x) {
      assert !IsSettled(c, x);
    }
    forall x | 0 <= x < |d.calls| ensures x in d.pending || IsSettled(d, x) {
      if x < |c.calls| && x !in c.pending {
        SettledGrows(c, d, x);
      }
    }
  }

  lemma HoldingKeeps(c: Client, id: nat)
    requires ClientOwes(c, id) && id < |c.calls| && !c.idle
    ensures ClientOk(c.(waiting := c.waiting + [id]))
  {
    var d := c.(waiting := c.waiting + [id]);
    assert forall x :: IsSent(c, x) == IsSent(d, x);
    assert forall x :: IsSettled(c, x) == IsSettled(d, x);
    assert d.ready + d.waiting == (c.ready + c.waiting) + [id];
  }

  lemma RunDeferredKeeps(c: Client)
    requires ClientOk(c)
    ensures ClientOk(RunDeferred(c))
  {
    if c.ready != [] {
      ReleasedIsOwed(c);
      DoRequestKeeps(c.(ready := c.ready[1..]), c.ready[0]);
    }
  }

  lemma CancelKeeps(c: Client, id: nat)
    requires ClientOk(c)
    ensures ClientOk(Cancel(c, id))
  {
    if id in c.pending {
      var d := c.(sent := c.sent + [PromiseCancel(id)]);
      assert forall x :: IsSent(c, x) == IsSent(d, x) by {
        forall x ensures IsSent(c, x) == IsSent(d, x) {
          if IsSent(c, x) {
            var k :| 0 <= k < |c.sent| && c.sent[k].PromiseRequest? && c.sent[k].id == x;
            assert d.sent[k] == c.sent[k];
          }
        }
      }
      assert forall x :: IsSettled(c, x) == IsSettled(d, x);
      SettleKeeps(d, id, Cancelled);
    }
  }

  lemma DeliverKeeps(c: Client, r: Response)
    requires ClientOk(c)
    ensures ClientOk(Deliver(c, r))
  {
    if !c.disposed {
      match r
      case Initialize =>
        var d := Deliver(c, r);
        assert d.ready + d.waiting == c.ready + c.waiting;
        assert forall x :: IsSent(c, x) == IsSent(d, x);
        assert forall x :: IsSettled(c, x) == IsSettled(d, x);
      case Answer(kind, id, body) =>
        if id in c.handlers {
          SettleKeeps(c, id, Answered(kind, body));
        }
      case EventFire(_, _) =>
    }
  }

  /** The rejections of dispose: each pending id once, in the order of issue. */
  ghost predicate Rejects(all: seq<Settlement>, pending: set<nat>, n: nat) {
    && (forall k :: 0 <= k < |all| ==> all[k].id in pending && all[k].id < n && all[k].outcome == Disposed)
    && (forall id :: id in pending && id < n ==> exists k :: 0 <= k < |all| && all[k].id == id)
    && (forall i, j :: 0 <= i < j < |all| ==> all[i].id < all[j].id)
  }

  lemma {:induction false} RejectBelowIds(pending: set<nat>, n: nat)
    ensures Rejects(RejectBelow(pending, n), pending, n)
  {
    if n > 0 {
      hide Rejects;
      RejectBelowIds(pending, n - 1);
      RejectsOneMore(RejectBelow(pending, n - 1), pending, n - 1);
    }
  }

  lemma RejectsOneMore(before: seq<Settlement>, pending: set<nat>, n: nat)
    requires Rejects(before, pending, n)
    ensures Rejects(before + if n in pending then [Settlement(n, Disposed)] else [], pending, n + 1)
  {
    var all := before + if n in pending then [Settlement(n, Disposed)] else [];
    forall id | id in pending && id < n + 1 ensures exists k :: 0 <= k < |all| && all[k].id == id {
      if id < n {
        var k :| 0 <= k < |before| && before[k].id == id;
        assert all[k].id == id;
      } else {
        assert all[|before|].id == id;
      }
    }
  }

  lemma DisposeKeeps(c: Client)
    requires ClientOk(c)
    ensures ClientOk(Dispose(c))
  {
    if !c.disposed {
      hide RejectBelow, IsSettled, SettledOnce;
      var d, all := Dispose(c), RejectBelow(c.pending, |c.calls|);
      RejectBelowIds(c.pending, |c.calls|);
      assert forall x :: IsSent(c, x) == IsSent(d, x);
      DisposeSettlesAll(c);
      DisposeSettlesOnce(c);
    }
  }

  lemma DisposeSettlesAll(c: Client)
    requires ClientOk(c) && !c.disposed
    ensures forall id :: 0 <= id < |c.calls| ==> IsSettled(Dispose(c), id)
  {
    hide RejectBelow, SettledOnce, SentOnce, Deferred;
    var d, all := Dispose(c), RejectBelow(c.pending, |c.calls|);
    RejectBelowIds(c.pending, |c.calls|);
    forall id | 0 <= id < |c.calls| ensures IsSettled(d, id) {
      if id in c.pending {
        var k :| 0 <= k < |all| && all[k].id == id;
        assert d.settled[|c.settled| + k].id == id;
      } else {
        SettledGrows(c, d, id);
      }
    }
  }

  /** Dispose rejects every pending call, in the order of issue. */
  lemma DisposeRejects(c: Client)
    requires ClientOk(c) && !c.disposed
    ensures var d := Dispose(c); c.settled <= d.settled && Rejects(d.settled[|c.settled|..], c.pending, |c.calls|)
  {
    hide RejectBelow, Rejects;
    RejectBelowIds(c.pending, |c.calls|);
    assert Dispose(c).settled[|c.settled|..] == RejectBelow(c.pending, |c.calls|);
  }

  lemma NotSettledAt(c: Client, id: nat, k: nat)
    requires !IsSettled(c, id) && k < |c.settled|
    ensures c.settled[k].id != id
  {
  }

  lemma DisposeSettlesOnce(c: Client)
    requires ClientOk(c)
    ensures SettledOnce(Dispose(c))
  {
    hide RejectBelow, IsSettled;
    if !c.disposed {
      var d, all := Dispose(c), RejectBelow(c.pending, |c.calls|);
      RejectBelowIds(c.pending, |c.calls|);
      forall i, j | 0 <= i < j < |d.settled| ensures d.settled[i].id != d.settled[j].id {
        if i < |c.settled| <= j {
          var late := all[j - |c.settled|];
          assert !IsSettled(c, late.id);
          NotSettledAt(c, late.id, i);
        }
      }
    }
  }

  lemma ReleasedIsOwed(c: Client)
    requires ClientOk(c) && c.ready != []
    ensures ClientOwes(c.(ready := c.ready[1..]), c.ready[0])
  {
    var id, d := c.ready[0], c.(ready := c.ready[1..]);
    assert (c.ready + c.waiting)[0] == id;
    assert d.ready + d.waiting == (c.ready + c.waiting)[1..];
    assert forall x :: IsSent(c, x) == IsSent(d, x);
    assert forall x :: IsSettled(c, x) == IsSettled(d, x);
  }

  // ---------- what single client events bring about ----------

  /** A new call takes the next id.  It is rejected at once exactly if it was cancelled before, sent at once exactly if
      the client is initialized and it was not, and pending otherwise. */
  lemma InvokeSettlesOrSends(c: Client, call: Call, alreadyCancelled: bool)
    requires ClientOk(c) && !c.disposed
    ensures var d, id := Invoke(c, call, alreadyCancelled), |c.calls|;
      && d.calls == c.calls + [call]
      && (id in d.pending <==> !alreadyCancelled) && (IsSettled(d, id) <==> alreadyCancelled)
      && (IsSent(d, id) <==> c.idle && !alreadyCancelled)
  {
    var d, id := Invoke(c, call, alreadyCancelled), |c.calls|;
    assert !IsSettled(c, id) && !IsSent(c, id);
    if alreadyCancelled {
      assert d.settled[|c.settled|].id == id;
    } else if c.idle {
      assert d.sent[|c.sent|] == PromiseRequest(id, call);
    }
  }

  /** A call that is pending now, and was neither sent nor held back before. */
  lemma IssuedIsOwed(c: Client, call: Call)
    requires ClientOk(c) && !c.disposed
    ensures ClientOwes(c.(calls := c.calls + [call], pending := c.pending + {|c.calls|}), |c.calls|)
  {
    var d := c.(calls := c.calls + [call], pending := c.pending + {|c.calls|});
    assert forall x :: IsSent(c, x) == IsSent(d, x);
    assert forall x :: IsSettled(c, x) == IsSettled(d, x);
  }

  /** The deferred part of a call sends it exactly if it has not been given up. */
  lemma DoRequestSendsIff(c: Client, id: nat)
    requires ClientOwes(c, id)
    ensures IsSent(DoRequest(c, id), id) <==> !c.disposed && id in c.pending
  {
    var d := DoRequest(c, id);
    if d != c {
      assert d.sent[|c.sent|] == PromiseRequest(id, c.calls[id]);
    }
  }

  /** A cancelled call is settled and can no longer be settled by an answer. */
  lemma CancelSettles(c: Client, id: nat)
    requires ClientOk(c) && id < |c.calls|
    ensures var d := Cancel(c, id); IsSettled(d, id) && id !in d.pending && id !in d.handlers
  {
    var d := Cancel(c, id);
    if id in c.pending {
      assert d.settled[|c.settled|].id == id;
    }
  }

  lemma PendingIsIssued(c: Client, id: nat)
    requires CallsOk(c) && id in c.pending
    ensures id < |c.calls|
  {
  }

  lemma DisposedIsSettled(c: Client)
    requires ClientOk(c) && c.disposed
    ensures c.pending == {} && forall id :: 0 <= id < |c.calls| ==> IsSettled(c, id)
  {
  }

  // ---------- the server's invariant ----------

  ghost predicate IsHeld(held: map<string, seq<Held>>, job: Job) {
    exists ch, k :: ch in held && 0 <= k < |held[ch]| && held[ch][k].job == job
  }

  ghost predicate Numbered(received: seq<Job>) {
    forall k :: 0 <= k < |received| ==> received[k].delivery == k
  }

  /** Held requests were received, and are kept under their own channel. */
  ghost predicate HeldOk(held: map<string, seq<Held>>, received: seq<Job>) {
    forall ch, k :: ch in held && 0 <= k < |held[ch]| ==>
      held[ch][k].job.call.channel == ch && held[ch][k].job in received
  }

  /** What was handed over once is held at most once, and not both held and started. */
  ghost predicate HeldOnce(held: map<string, seq<Held>>, started: seq<Job>) {
    && (forall ch, dh, i, j ::
          ch in held && dh in held && 0 <= i < |held[ch]| && 0 <= j < |held[dh]| && (ch != dh || i != j) ==>
            held[ch][i].job.delivery != held[dh][j].job.delivery)
    && (forall ch, i, j :: ch in held && 0 <= i < |held[ch]| && 0 <= j < |started| ==>
          held[ch][i].job.delivery != started[j].delivery)
  }

  ghost predicate StartedOnce(started: seq<Job>) {
    forall i, j :: 0 <= i < j < |started| ==> started[i].delivery != started[j].delivery
  }

  function Jobs(computed: seq<Computation>): (r: seq<Job>)
    ensures |r| == |computed| && forall k :: 0 <= k < |r| ==> r[k] == computed[k].job
  {
    seq(|computed|, k requires 0 <= k < |computed| => computed[k].job)
  }

  /** Every invocation was handed over, and is either still running or has been answered, never both. */
  ghost predicate StartedOk(received: seq<Job>, started: seq<Job>, running: seq<Job>, computed: seq<Computation>) {
    && (forall k :: 0 <= k < |started| ==> started[k] in received)
    && multiset(started) == multiset(running) + multiset(Jobs(computed))
  }

  /** An answer is a result that was computed for a request of that id, or the error for its unknown channel. */
  ghost predicate Backed(received: seq<Job>, computed: seq<Computation>, id: nat, kind: Kind, body: Body) {
    match body
    case Payload(data) => exists job :: job in received && job.id == id && Computation(job, kind, data) in computed
    case UnknownChannel(channel) =>
      kind == ErrorRecord && exists job :: job in received && job.id == id && job.call.channel == channel
  }

  ghost predicate AnswersOk(received: seq<Job>, computed: seq<Computation>, sent: seq<Response>) {
    forall k :: 0 <= k < |sent| && sent[k].Answer? ==> Backed(received, computed, sent[k].id, sent[k].kind, sent[k].body)
  }

  /** The books of the server, apart from the requests it still owes an invocation. */
  ghost predicate BooksOk(s: Server) {
    && (forall k :: 0 <= k < |s.flushes| ==> s.flushes[k] in s.channels)
    && Numbered(s.received)
    && HeldOk(s.held, s.received) && HeldOnce(s.held, s.started)
    && StartedOk(s.received, s.started, s.running, s.computed) && StartedOnce(s.started)
    && AnswersOk(s.received, s.computed, s.sent)
  }

  ghost predicate Taken(s: Server, job: Job) {
    job in s.started || IsHeld(s.held, job)
  }

  /** Nothing that was handed over gets lost: it is held or started. */
  ghost predicate ServerOk(s: Server) {
    BooksOk(s) && forall job :: job in s.received ==> Taken(s, job)
  }

  /** One request is neither held nor started yet. */
  ghost predicate Owing(s: Server, job: Job) {
    && BooksOk(s) && job in s.received
    && (forall other :: other in s.received && other != job ==> Taken(s, other))
    && (forall ch, k :: ch in s.held && 0 <= k < |s.held[ch]| ==> s.held[ch][k].job.delivery != job.delivery)
    && (forall k :: 0 <= k < |s.started| ==> s.started[k].delivery != job.delivery)
  }

  // ---------- the server's steps ----------

  lemma StartingKeeps(s: Server, job: Job)
    requires Owing(s, job)
    ensures ServerOk(StartJob(s, job))
  {
    hide HeldOk, AnswersOk, IsHeld;
    var t := StartJob(s, job);
    assert forall other :: other in t.started <==> other in s.started || other == job;
    forall other | other in t.received ensures Taken(t, other) {
      assert other != job ==> Taken(s, other);
    }
  }

  lemma HoldingRequestKeeps(s: Server, job: Job)
    requires Owing(s, job)
    ensures ServerOk(Hold(s, job))
  {
    hide StartedOk, AnswersOk, StartedOnce;
    var t, ch := Hold(s, job), job.call.channel;
    assert t.held[ch][|HeldFor(s, ch)|].job == job;
    assert HeldOk(t.held, t.received);
    assert HeldOnce(t.held, t.started);
    forall other | other in t.received ensures Taken(t, other) {
      if other != job && other !in s.started {
        StillHeld(s.held, t.held, other);
      }
    }
  }

  lemma StillHeld(held: map<string, seq<Held>>, more: map<string, seq<Held>>, job: Job)
    requires IsHeld(held, job)
    requires forall ch :: ch in held ==> ch in more && held[ch] <= more[ch]
    ensures IsHeld(more, job)
  {
    var ch, k :| ch in held && 0 <= k < |held[ch]| && held[ch][k].job == job;
    assert more[ch][k].job == job;
  }

  lemma OnPromiseKeeps(s: Server, job: Job)
    requires Owing(s, job)
    ensures ServerOk(OnPromise(s, job))
  {
    hide Owing, ServerOk;
    StartingKeeps(s, job);
    HoldingRequestKeeps(s, job);
  }

  lemma ReceivingOwes(s: Server, id: nat, call: Call)
    requires ServerOk(s)
    ensures var job := Job(|s.received|, id, call); Owing(s.(received := s.received + [job]), job)
  {
  }

  lemma OnRequestKeeps(s: Server, r: Request)
    requires ServerOk(s)
    ensures ServerOk(OnRequest(s, r))
  {
    hide Owing, BooksOk, Taken, OnPromise;
    if !s.disposed {
      match r
      case PromiseRequest(id, call) =>
        ReceivingOwes(s, id, call);
        var job := Job(|s.received|, id, call);
        OnPromiseKeeps(s.(received := s.received + [job]), job);
      case PromiseCancel(id) =>
        OnlyTokensChange(s, s.active - {id}, s.disposed);
    }
  }

  lemma OnlyTokensChange(s: Server, active: set<nat>, disposed: bool)
    requires ServerOk(s)
    ensures ServerOk(s.(active := active, disposed := disposed))
  {
    hide IsHeld, HeldOk, HeldOnce, StartedOk, StartedOnce, AnswersOk;
    var t := s.(active := active, disposed := disposed);
    forall job | job in t.received ensures Taken(t, job) {
      assert Taken(s, job);
    }
  }

  lemma RespondKeeps(s: Server, r: Response)
    requires ServerOk(s) && (r.Answer? ==> Backed(s.received, s.computed, r.id, r.kind, r.body))
    ensures ServerOk(Respond(s, r))
  {
    hide IsHeld, HeldOk, HeldOnce, StartedOk, StartedOnce, Backed;
    var t := Respond(s, r);
    forall job | job in t.received ensures Taken(t, job) {
      assert Taken(s, job);
    }
  }

  lemma TimerKeeps(s: Server, channel: string, k: nat)
    requires ServerOk(s)
    ensures ServerOk(TimerFires(s, channel, k))
  {
    var all := HeldFor(s, channel);
    if k < |all| && all[k].timer {
      var t := s.(held := s.held[channel := all[k := all[k].(timer := false)]]);
      TimerStopsKeeps(s, channel, k);
      var job := all[k].job;
      assert job in t.received;
      hide ServerOk;
      RespondKeeps(t, TimeoutAnswer(job));
      TimeoutsDoNotMatter(Respond(t, TimeoutAnswer(job)), s.timedOut + [job]);
    }
  }

  lemma TimeoutsDoNotMatter(s: Server, timedOut: seq<Job>)
    requires ServerOk(s)
    ensures ServerOk(s.(timedOut := timedOut))
  {
    hide IsHeld, HeldOk, HeldOnce, StartedOk, StartedOnce, AnswersOk;
    var t := s.(timedOut := timedOut);
    forall job | job in t.received ensures Taken(t, job) {
      assert Taken(s, job);
    }
  }

  lemma TimerStopsKeeps(s: Server, channel: string, k: nat)
    requires ServerOk(s) && channel in s.held && k < |s.held[channel]|
    ensures ServerOk(s.(held := s.held[channel := s.held[channel][k := s.held[channel][k].(timer := false)]]))
  {
    hide StartedOk, StartedOnce, AnswersOk;
    var t := s.(held := s.held[channel := s.held[channel][k := s.held[channel][k].(timer := false)]]);
    SameJobs(s, t);
  }

  /** Two servers that hold the same requests in the same places. */
  lemma SameJobs(s: Server, t: Server)
    requires ServerOk(s) && t == s.(held := t.held)
    requires forall ch :: ch in s.held <==> ch in t.held
    requires forall ch :: ch in s.held ==> |s.held[ch]| == |t.held[ch]|
    requires forall ch, n :: ch in s.held && 0 <= n < |s.held[ch]| ==> t.held[ch][n].job == s.held[ch][n].job
    ensures ServerOk(t)
  {
    hide StartedOk, StartedOnce, AnswersOk;
    forall job | job in t.received ensures Taken(t, job) {
      assert Taken(s, job);
      if job !in s.started {
        var ch, n :| ch in s.held && 0 <= n < |s.held[ch]| && s.held[ch][n].job == job;
        assert t.held[ch][n].job == job;
      }
    }
  }

  lemma RegisterKeeps(s: Server, channel: string)
    requires ServerOk(s)
    ensures ServerOk(RegisterChannel(s, channel))
  {
    hide IsHeld, HeldOk, HeldOnce, StartedOk, StartedOnce, AnswersOk;
    var t := RegisterChannel(s, channel);
    forall job | job in t.received ensures Taken(t, job) {
      assert Taken(s, job);
    }
  }

  /** Starting held requests one by one, with the ones not yet started still on record. */
  lemma {:induction false} StartAllKeeps(s: Server, channel: string, k: nat)
    requires channel in s.held && k <= |s.held[channel]| && channel in s.channels
    requires ServerOk(s.(held := s.held[channel := s.held[channel][k..]]))
    ensures var t := StartAll(s, s.held[channel][k..]);
      t.held == s.held && ServerOk(t.(held := t.held[channel := []]))
    decreases |s.held[channel]| - k
  {
    hide ServerOk;
    var all := s.held[channel];
    if k == |all| {
      assert all[k..] == [];
    } else {
      assert all[k..][0] == all[k] && all[k..][1..] == all[k + 1..];
      var now := s.(held := s.held[channel := all[k..]]);
      DroppingOwes(now, channel);
      assert s.held[channel := all[k..]][channel := all[k + 1..]] == s.held[channel := all[k + 1..]];
      StartingKeeps(s.(held := s.held[channel := all[k + 1..]]), all[k].job);
      StartAllKeeps(StartJob(s, all[k].job), channel, k + 1);
    }
  }

  /** The first held request of a channel, once it is taken off the list, is owed an invocation. */
  lemma DroppingOwes(s: Server, channel: string)
    requires ServerOk(s) && channel in s.held && s.held[channel] != []
    ensures var job := s.held[channel][0].job;
      job.call.channel == channel && Owing(s.(held := s.held[channel := s.held[channel][1..]]), job)
  {
    hide StartedOk, StartedOnce, AnswersOk;
    var job := s.held[channel][0].job;
    var t := s.(held := s.held[channel := s.held[channel][1..]]);
    assert forall ch, n :: ch in t.held && 0 <= n < |t.held[ch]| ==>
      t.held[ch][n] == s.held[ch][if ch == channel then n + 1 else n];
    forall other | other in t.received && other != job ensures Taken(t, other) {
      assert Taken(s, other);
      OthersStayTaken(s, channel, other);
    }
  }

  lemma OthersStayTaken(s: Server, channel: string, other: Job)
    requires channel in s.held && s.held[channel] != [] && other != s.held[channel][0].job && Taken(s, other)
    ensures Taken(s.(held := s.held[channel := s.held[channel][1..]]), other)
  {
    if other !in s.started {
      var t := s.(held := s.held[channel := s.held[channel][1..]]);
      var ch, n :| ch in s.held && 0 <= n < |s.held[ch]| && s.held[ch][n].job == other;
      assert t.held[ch][if ch == channel then n - 1 else n].job == other;
    }
  }

  lemma FlushKeeps(s: Server)
    requires ServerOk(s)
    ensures ServerOk(Flush(s))
  {
    if s.flushes != [] {
      var channel, t := s.flushes[0], s.(flushes := s.flushes[1..]);
      assert ServerOk(t) by { FewerFlushes(s); }
      if channel in t.held {
        assert channel in t.channels;
        hide ServerOk;
        assert t.held[channel][0..] == t.held[channel];
        assert t.held[channel := t.held[channel][0..]] == t.held;
        StartAllKeeps(t, channel, 0);
        var u := StartAll(t, t.held[channel]);
        EmptyEntryGoes(u, channel);
      }
    }
  }

  lemma FewerFlushes(s: Server)
    requires ServerOk(s) && s.flushes != []
    ensures ServerOk(s.(flushes := s.flushes[1..]))
  {
    hide IsHeld, HeldOk, HeldOnce, StartedOk, StartedOnce, AnswersOk;
    var t := s.(flushes := s.flushes[1..]);
    forall job | job in t.received ensures Taken(t, job) {
      assert Taken(s, job);
    }
  }

  lemma EmptyEntryGoes(s: Server, channel: string)
    requires ServerOk(s.(held := s.held[channel := []]))
    ensures ServerOk(s.(held := s.held - {channel}))
  {
    hide StartedOk, StartedOnce, AnswersOk;
    var t, u := s.(held := s.held[channel := []]), s.(held := s.held - {channel});
    assert forall ch :: ch in u.held ==> ch in t.held && u.held[ch] == t.held[ch];
    forall job | job in u.received ensures Taken(u, job) {
      assert Taken(t, job);
      if job !in t.started {
        var ch, n :| ch in t.held && 0 <= n < |t.held[ch]| && t.held[ch][n].job == job;
        assert u.held[ch][n].job == job;
      }
    }
  }

  lemma FinishKeeps(s: Server, k: nat, kind: Kind, data: Data)
    requires ServerOk(s)
    ensures ServerOk(Finish(s, k, kind, data))
  {
    if k < |s.running| {
      var job := s.running[k];
      var t := s.(running := s.running[..k] + s.running[k + 1..], active := s.active - {job.id},
                  computed := s.computed + [Computation(job, kind, data)]);
      AnsweringMoves(s, k, kind, data);
      assert job in s.started by { RunningIsStarted(s, k); }
      assert t.computed[|s.computed|] == Computation(job, kind, data);
      assert job in t.received && Computation(job, kind, data) in t.computed;
      hide ServerOk;
      RespondKeeps(t, Answer(kind, job.id, Payload(data)));
    }
  }

  lemma RunningIsStarted(s: Server, k: nat)
    requires StartedOk(s.received, s.started, s.running, s.computed) && k < |s.running|
    ensures s.running[k] in s.started && s.running[k] in s.received
  {
    assert s.running[k] in multiset(s.running);
    assert s.running[k] in multiset(s.started);
  }

  /** An invocation moves from the running ones to the answered ones. */
  lemma AnsweringMoves(s: Server, k: nat, kind: Kind, data: Data)
    requires ServerOk(s) && k < |s.running|
    ensures var job := s.running[k];
      ServerOk(s.(running := s.running[..k] + s.running[k + 1..], active := s.active - {job.id},
                  computed := s.computed + [Computation(job, kind, data)]))
  {
    hide IsHeld, HeldOk, HeldOnce, StartedOnce;
    var job := s.running[k];
    var t := s.(running := s.running[..k] + s.running[k + 1..], active := s.active - {job.id},
                computed := s.computed + [Computation(job, kind, data)]);
    assert s.running == s.running[..k] + [job] + s.running[k + 1..];
    assert Jobs(t.computed) == Jobs(s.computed) + [job];
    forall other | other in t.received ensures Taken(t, other) {
      assert Taken(s, other);
    }
  }

  // ---------- what single server events bring about ----------

  lemma ReceivedIsTaken(s: Server, job: Job)
    requires ServerOk(s) && job in s.received
    ensures Taken(s, job)
  {
  }

  lemma HeldAt(held: map<string, seq<Held>>, channel: string, k: nat)
    requires channel in held && k < |held[channel]|
    ensures IsHeld(held, held[channel][k].job)
  {
  }

  function HeldJobs(requests: seq<Held>): (r: seq<Job>)
    ensures |r| == |requests| && forall k :: 0 <= k < |r| ==> r[k] == requests[k].job
  {
    seq(|requests|, k requires 0 <= k < |requests| => requests[k].job)
  }

  /** A flush starts everything held for its channel, in the order in which it came, and each can be cancelled. */
  lemma FlushStarts(s: Server)
    requires ServerOk(s) && s.flushes != [] && s.flushes[0] in s.held
    ensures var t, channel := Flush(s), s.flushes[0]; var jobs := HeldJobs(s.held[channel]);
      && t.held == s.held - {channel} && t.started == s.started + jobs && t.running == s.running + jobs
      && t.active == s.active + set job | job in jobs :: job.id
  {
    hide StartedOk, StartedOnce, AnswersOk, HeldOnce, IsHeld, StartAll;
    FlushKeeps(s);
    FlushServes(s);
    var t, channel := Flush(s), s.flushes[0];
    StartAllStarts(s.(flushes := s.flushes[1..]), s.held[channel]);
  }

  ghost predicate StartsAll(s: Server, t: Server, jobs: seq<Job>) {
    && t.held == s.held && t.started == s.started + jobs && t.running == s.running + jobs
    && t.active == s.active + set job | job in jobs :: job.id
  }

  lemma {:induction false} StartAllStarts(s: Server, requests: seq<Held>)
    requires forall k :: 0 <= k < |requests| ==> requests[k].job.call.channel in s.channels
    ensures StartsAll(s, StartAll(s, requests), HeldJobs(requests))
    decreases |requests|
  {
    if requests != [] {
      hide StartsAll;
      var job, rest := requests[0].job, requests[1..];
      StartAllStarts(StartJob(s, job), rest);
      assert HeldJobs(requests) == [job] + HeldJobs(rest);
      StartsOneMore(s, job, StartAll(s, requests), HeldJobs(rest));
    } else {
      assert HeldJobs(requests) == [];
    }
  }

  lemma StartsOneMore(s: Server, job: Job, t: Server, rest: seq<Job>)
    requires StartsAll(StartJob(s, job), t, rest)
    ensures StartsAll(s, t, [job] + rest)
  {
    assert s.started + [job] + rest == s.started + ([job] + rest);
    assert s.running + [job] + rest == s.running + ([job] + rest);
    assert forall other :: other in [job] + rest <==> other == job || other in rest;
  }

  /** A timeout answers, and leaves exactly the same requests held. */
  lemma TimerLeavesHeld(s: Server, channel: string, k: nat)
    ensures forall job :: IsHeld(TimerFires(s, channel, k).held, job) <==> IsHeld(s.held, job)
  {
    var t := TimerFires(s, channel, k);
    forall job ensures IsHeld(t.held, job) <==> IsHeld(s.held, job) {
      if IsHeld(s.held, job) {
        var ch, n :| ch in s.held && 0 <= n < |s.held[ch]| && s.held[ch][n].job == job;
        assert t.held[ch][n].job == job;
      }
      if IsHeld(t.held, job) {
        var ch, n :| ch in t.held && 0 <= n < |t.held[ch]| && t.held[ch][n].job == job;
        assert s.held[ch][n].job == job;
      }
    }
  }

  // ---------- client and server together ----------

  ghost predicate WasSent(c: Client, job: Job) {
    PromiseRequest(job.id, job.call) in c.sent
  }

  /** What the server has was sent by the client, and what settled the client's calls was sent by the server. */
  ghost predicate Linked(c: Client, s: Server) {
    && (forall job :: job in s.received ==> WasSent(c, job))
    && (forall k :: 0 <= k < |c.settled| && c.settled[k].outcome.Answered? ==>
          Answer(c.settled[k].outcome.kind, c.settled[k].id, c.settled[k].outcome.body) in s.sent)
  }

  ghost predicate SystemOk(y: System) {
    && ClientOk(y.client) && ServerOk(y.server) && Linked(y.client, y.server)
    && y.toServer <= y.heardByServer <= |y.client.sent| && y.toClient <= y.heardByClient <= |y.server.sent|
  }

  /** The server's histories only grow, and only serving brings in new requests. */
  ghost predicate Serves(s: Server, t: Server) {
    t.received == s.received && s.sent <= t.sent
  }

  lemma ServerStepKeepsLink(c: Client, s: Server, t: Server)
    requires Linked(c, s) && Serves(s, t)
    ensures Linked(c, t)
  {
  }

  // ---------- every run ----------

  lemma ClientActKeeps(y: System, act: Act)
    requires SystemOk(y) && (act.DoInvoke? || act.DoRunDeferred? || act.DoCancel? || act.DoDispose?)
    ensures SystemOk(Step(y, act))
  {
    hide ServerOk, RejectBelow, IsSettled, IsSent;
    var c, d := y.client, Step(y, act).client;
    match act {
      case DoInvoke(call, alreadyCancelled) => InvokeKeeps(c, call, alreadyCancelled);
      case DoRunDeferred => RunDeferredKeeps(c);
      case DoCancel(id) => CancelKeeps(c, id);
      case DoDispose =>
        DisposeKeeps(c);
        RejectBelowIds(c.pending, |c.calls|);
        assert forall k :: |c.settled| <= k < |d.settled| ==> d.settled[k] == RejectBelow(c.pending, |c.calls|)[k - |c.settled|];
    }
  }

  lemma DeliverActKeeps(y: System)
    requires SystemOk(y)
    ensures SystemOk(Step(y, DoDeliver))
  {
    hide ServerOk, IsSettled, IsSent;
    if y.toClient < |y.server.sent| {
      var r := y.server.sent[y.toClient];
      DeliverKeeps(y.client, r);
    }
  }

  lemma ServeActKeeps(y: System)
    requires SystemOk(y)
    ensures SystemOk(Step(y, DoServe))
  {
    hide ServerOk, ClientOk;
    if y.toServer < |y.client.sent| {
      var s, r := y.server, y.client.sent[y.toServer];
      OnRequestKeeps(s, r);
      var t := OnRequest(s, r);
      forall job | job in t.received ensures WasSent(y.client, job) {
        if job !in s.received {
          assert r == PromiseRequest(job.id, job.call);
        }
      }
    }
  }

  lemma ServerActKeeps(y: System, act: Act)
    requires SystemOk(y)
    requires act.DoTimer? || act.DoRegister? || act.DoFlush? || act.DoFinish? || act.DoReady? || act.DoDisposeServer?
    ensures SystemOk(Step(y, act))
  {
    hide ServerOk, ClientOk, Linked, StartAll;
    var s := y.server;
    match act {
      case DoTimer(channel, k) => TimerKeeps(s, channel, k);
      case DoRegister(channel) => RegisterKeeps(s, channel);
      case DoFlush => FlushKeeps(s); FlushServes(s);
      case DoFinish(k, kind, data) => FinishKeeps(s, k, kind, data);
      case DoReady => RespondKeeps(s, Initialize);
      case DoDisposeServer => OnlyTokensChange(s, {}, true);
    }
    ServerStepKeepsLink(y.client, s, Step(y, act).server);
  }

  lemma FlushServes(s: Server)
    ensures Flush(s).received == s.received && s.sent == Flush(s).sent
  {
    if s.flushes != [] {
      var t := s.(flushes := s.flushes[1..]);
      if s.flushes[0] in t.held {
        StartAllServes(t, t.held[s.flushes[0]]);
      }
    }
  }

  lemma {:induction false} StartAllServes(s: Server, requests: seq<Held>)
    ensures StartAll(s, requests).received == s.received && StartAll(s, requests).sent == s.sent
    decreases |requests|
  {
    if requests != [] {
      StartAllServes(OnPromise(s, requests[0].job), requests[1..]);
    }
  }

  lemma StepKeeps(y: System, act: Act)
    requires SystemOk(y)
    ensures SystemOk(Step(y, act))
  {
    match act
    case DoInvoke(_, _) => ClientActKeeps(y, act);
    case DoRunDeferred => ClientActKeeps(y, act);
    case DoCancel(_) => ClientActKeeps(y, act);
    case DoDispose => ClientActKeeps(y, act);
    case DoDeliver => DeliverActKeeps(y);
    case DoServe => ServeActKeeps(y);
    case DoReplayToServer(_) =>
    case DoReplayToClient(_) =>
    case _ => ServerActKeeps(y, act);
  }

  lemma NewServerIsOk(deferInit: bool)
    ensures ServerOk(NewServer(deferInit))
  {
  }

  lemma StartIsOk(deferInit: bool)
    ensures SystemOk(Start(deferInit))
  {
  }

  lemma {:induction false} EveryRunIsOk(deferInit: bool, acts: seq<Act>)
    ensures SystemOk(Run(Start(deferInit), acts))
    decreases |acts|
  {
    hide SystemOk, Step;
    if acts == [] {
      StartIsOk(deferInit);
    } else {
      EveryRunIsOk(deferInit, acts[..|acts| - 1]);
      StepKeeps(Run(Start(deferInit), acts[..|acts| - 1]), acts[|acts| - 1]);
    }
  }
}
