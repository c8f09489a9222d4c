/** How often the server answers: exactly once for every timer that fires and once for every invocation that settles
    (packages/rpc/src/channelServer.ts:123-190, 229-273). */
module ServerAnswers {
  import opened Serialization
  import opened Channels
  import opened ChannelSteps

  function AnswersIn(sent: seq<Response>): seq<Response> {
    if sent == [] then []
    else AnswersIn(sent[..|sent| - 1]) + if sent[|sent| - 1].Answer? then [sent[|sent| - 1]] else []
  }

  function TimeoutAnswers(jobs: seq<Job>): (r: seq<Response>)
    ensures |r| == |jobs| && forall k :: 0 <= k < |r| ==> r[k] == TimeoutAnswer(jobs[k])
  {
    seq(|jobs|, k requires 0 <= k < |jobs| => TimeoutAnswer(jobs[k]))
  }

  function ResultAnswers(computed: seq<Computation>): (r: seq<Response>)
    ensures |r| == |computed| && forall k :: 0 <= k < |r| ==> r[k] == ResultAnswer(computed[k])
  {
    seq(|computed|, k requires 0 <= k < |computed| => ResultAnswer(computed[k]))
  }

  /** A held request has timed out exactly if its timer no longer runs; nothing times out twice. */
  ghost predicate TimeoutsOk(s: Server) {
    && (forall i, j :: 0 <= i < j < |s.timedOut| ==> s.timedOut[i].delivery != s.timedOut[j].delivery)
    && (forall job :: job in s.timedOut ==> job in s.received)
    && (forall ch, k :: ch in s.held && 0 <= k < |s.held[ch]| ==> (s.held[ch][k].timer <==> s.held[ch][k].job !in s.timedOut))
  }

  /** The answers that went out are one for every timeout and one for every result. */
  ghost predicate AnswersBooked(s: Server) {
    multiset(AnswersIn(s.sent)) == multiset(TimeoutAnswers(s.timedOut)) + multiset(ResultAnswers(s.computed))
  }

  ghost predicate Booked(s: Server) {
    TimeoutsOk(s) && AnswersBooked(s)
  }

  // ---------- every step ----------

  lemma AnswersOfOneMore(sent: seq<Response>, r: Response)
    ensures AnswersIn(sent + [r]) == AnswersIn(sent) + if r.Answer? then [r] else []
  {
    assert (sent + [r])[..|sent|] == sent;
  }

  lemma RequestBooked(s: Server, r: Request)
    requires ServerOk(s) && Booked(s)
    ensures Booked(OnRequest(s, r))
  {
    hide AnswersIn, IsHeld, HeldOnce, StartedOk, StartedOnce, AnswersOk;
    var t := OnRequest(s, r);
    if r.PromiseRequest? && !s.disposed {
      var job := Job(|s.received|, r.id, r.call);
      forall other | other in s.timedOut ensures other != job {
        DeliveryBelow(s, other);
      }
      assert forall other :: other in s.received ==> other in t.received;
    }
  }

  lemma DeliveryBelow(s: Server, job: Job)
    requires Numbered(s.received) && job in s.received
    ensures job.delivery < |s.received|
  {
  }

  /** Two received requests with one delivery number are the same. */
  lemma SameDelivery(s: Server, a: Job, b: Job)
    requires Numbered(s.received) && a in s.received && b in s.received && a.delivery == b.delivery
    ensures a == b
  {
    var i :| 0 <= i < |s.received| && s.received[i] == a;
    var j :| 0 <= j < |s.received| && s.received[j] == b;
  }

  lemma TimerBooked(s: Server, channel: string, k: nat)
    requires ServerOk(s) && Booked(s)
    ensures Booked(TimerFires(s, channel, k))
  {
    hide AnswersIn, IsHeld, StartedOk, StartedOnce, AnswersOk;
    var all, t := HeldFor(s, channel), TimerFires(s, channel, k);
    if k < |all| && all[k].timer {
      var job := all[k].job;
      AnswersOfOneMore(s.sent, TimeoutAnswer(job));
      assert TimeoutAnswers(t.timedOut) == TimeoutAnswers(s.timedOut) + [TimeoutAnswer(job)];
      assert AnswersBooked(t);
      forall i | 0 <= i < |s.timedOut| ensures s.timedOut[i].delivery != job.delivery {
        assert s.timedOut[i] in s.timedOut;
        if s.timedOut[i].delivery == job.delivery {
          SameDelivery(s, s.timedOut[i], job);
          assert false;
        }
      }
      forall ch, n | ch in t.held && 0 <= n < |t.held[ch]| ensures t.held[ch][n].timer <==> t.held[ch][n].job !in t.timedOut {
        assert t.held[ch][n].job == s.held[ch][n].job;
        assert (ch == channel && n == k) || t.held[ch][n] == s.held[ch][n];
        assert !(ch == channel && n == k) ==> s.held[ch][n].job != job;
      }
      assert TimeoutsOk(t);
    }
  }

  lemma FlushBooked(s: Server)
    requires ServerOk(s) && Booked(s)
    ensures Booked(Flush(s))
  {
    hide AnswersIn, StartAll;
    if s.flushes != [] && s.flushes[0] in s.held {
      var t := s.(flushes := s.flushes[1..]);
      StartAllOnlyStarts(t, s.held[s.flushes[0]]);
      var u := Flush(s);
      assert u.held == s.held - {s.flushes[0]} && u.timedOut == s.timedOut;
    }
  }

  /** On a registered channel, starting held requests touches neither what is held nor what has been answered. */
  lemma {:induction false} StartAllOnlyStarts(s: Server, requests: seq<Held>)
    requires forall k :: 0 <= k < |requests| ==> requests[k].job.call.channel in s.channels
    ensures var t := StartAll(s, requests);
      && t.held == s.held && t.timedOut == s.timedOut && t.computed == s.computed && t.sent == s.sent
      && t.received == s.received && t.channels == s.channels
    decreases |requests|
  {
    if requests != [] {
      StartAllOnlyStarts(StartJob(s, requests[0].job), requests[1..]);
    }
  }

  lemma FinishBooked(s: Server, k: nat, kind: Kind, data: Data)
    requires Booked(s)
    ensures Booked(Finish(s, k, kind, data))
  {
    hide AnswersIn;
    if k < |s.running| {
      var c, t := Computation(s.running[k], kind, data), Finish(s, k, kind, data);
      AnswersOfOneMore(s.sent, ResultAnswer(c));
      assert ResultAnswers(t.computed) == ResultAnswers(s.computed) + [ResultAnswer(c)];
    }
  }

  lemma InitializeBooked(s: Server)
    requires Booked(s)
    ensures Booked(Respond(s, Initialize))
  {
    hide AnswersIn;
    AnswersOfOneMore(s.sent, Initialize);
  }

  lemma StepBooked(y: System, act: Act)
    requires SystemOk(y) && Booked(y.server)
    ensures Booked(Step(y, act).server)
  {
    hide Booked, ServerOk, ClientOk, Linked;
    match act
    case DoServe =>
      if y.toServer < |y.client.sent| {
        RequestBooked(y.server, y.client.sent[y.toServer]);
      }
    case DoTimer(channel, k) => TimerBooked(y.server, channel, k);
    case DoFlush => FlushBooked(y.server);
    case DoFinish(k, kind, data) => FinishBooked(y.server, k, kind, data);
    case DoReady => InitializeBooked(y.server);
    case DoRegister(channel) => UnrelatedBooked(y.server, RegisterChannel(y.server, channel));
    case DoDisposeServer => UnrelatedBooked(y.server, DisposeServer(y.server));
    case _ =>
  }

  lemma UnrelatedBooked(s: Server, t: Server)
    requires Booked(s)
    requires t.held == s.held && t.received == s.received && t.timedOut == s.timedOut && t.computed == s.computed && t.sent == s.sent
    ensures Booked(t)
  {
  }

  lemma {:induction false} EveryRunIsBooked(deferInit: bool, acts: seq<Act>)
    ensures SystemOk(Run(Start(deferInit), acts)) && Booked(Run(Start(deferInit), acts).server)
    decreases |acts|
  {
    EveryRunIsOk(deferInit, acts);
    if acts == [] {
      NewIsBooked(deferInit);
    } else {
      hide Booked, Step, SystemOk;
      EveryRunIsBooked(deferInit, acts[..|acts| - 1]);
      StepBooked(Run(Start(deferInit), acts[..|acts| - 1]), acts[|acts| - 1]);
    }
  }

  lemma NewIsBooked(deferInit: bool)
    ensures Booked(NewServer(deferInit))
  {
    assert [Initialize][..0] == [];
  }

  // ---------- how often a request is answered ----------

  function CountJobs(jobs: seq<Job>, id: nat): nat {
    if jobs == [] then 0 else CountJobs(jobs[..|jobs| - 1], id) + if jobs[|jobs| - 1].id == id then 1 else 0
  }

  function CountAnswers(sent: seq<Response>, id: nat): nat {
    if sent == [] then 0
    else CountAnswers(sent[..|sent| - 1], id) + if sent[|sent| - 1].Answer? && sent[|sent| - 1].id == id then 1 else 0
  }

  /** The answers to each id are counted by the timeouts and the results for that id. */
  ghost predicate Counted(s: Server, id: nat) {
    CountAnswers(s.sent, id) == CountJobs(s.timedOut, id) + CountJobs(Jobs(s.computed), id)
  }

  lemma CountOneMoreJob(jobs: seq<Job>, job: Job, id: nat)
    ensures CountJobs(jobs + [job], id) == CountJobs(jobs, id) + if job.id == id then 1 else 0
  {
    assert (jobs + [job])[..|jobs|] == jobs;
  }

  lemma CountOneMoreAnswer(sent: seq<Response>, r: Response, id: nat)
    ensures CountAnswers(sent + [r], id) == CountAnswers(sent, id) + if r.Answer? && r.id == id then 1 else 0
  {
    assert (sent + [r])[..|sent|] == sent;
  }

  lemma StepCounts(y: System, act: Act, id: nat)
    requires SystemOk(y) && Counted(y.server, id)
    ensures Counted(Step(y, act).server, id)
  {
    hide ServerOk, ClientOk, Linked, CountJobs, CountAnswers, StartAll;
    var s := y.server;
    match act
    case DoTimer(channel, k) =>
      var all := HeldFor(s, channel);
      if k < |all| && all[k].timer {
        CountOneMoreJob(s.timedOut, all[k].job, id);
        CountOneMoreAnswer(s.sent, TimeoutAnswer(all[k].job), id);
      }
    case DoFinish(k, kind, data) =>
      if k < |s.running| {
        var c := Computation(s.running[k], kind, data);
        assert Jobs(s.computed + [c]) == Jobs(s.computed) + [c.job];
        CountOneMoreJob(Jobs(s.computed), c.job, id);
        CountOneMoreAnswer(s.sent, ResultAnswer(c), id);
      }
    case DoFlush => FlushOnlyStarts(s);
    case DoReady => CountOneMoreAnswer(s.sent, Initialize, id);
    case _ =>
  }

  lemma FlushOnlyStarts(s: Server)
    requires ServerOk(s)
    ensures Flush(s).timedOut == s.timedOut && Flush(s).computed == s.computed && Flush(s).sent == s.sent
    ensures Flush(s).received == s.received
  {
    if s.flushes != [] && s.flushes[0] in s.held {
      StartAllOnlyStarts(s.(flushes := s.flushes[1..]), s.held[s.flushes[0]]);
    }
  }

  lemma {:induction false} EveryRunCounts(deferInit: bool, acts: seq<Act>, id: nat)
    ensures Counted(Run(Start(deferInit), acts).server, id)
    decreases |acts|
  {
    if acts == [] {
      assert [Initialize][..0] == [];
      assert CountAnswers([Initialize][..0], id) == 0;
    } else {
      hide Counted, Step, SystemOk;
      EveryRunCounts(deferInit, acts[..|acts| - 1], id);
      EveryRunIsOk(deferInit, acts[..|acts| - 1]);
      StepCounts(Run(Start(deferInit), acts[..|acts| - 1]), acts[|acts| - 1], id);
    }
  }

  /** Over every run: the answers sent are exactly one for every timeout and one for every settled invocation; no
      delivery times out twice or settles twice, and only what was handed over does either. */
  lemma {:induction false} AnswersAreAccounted(deferInit: bool, acts: seq<Act>)
    ensures var s := Run(Start(deferInit), acts).server;
      && AnswersBooked(s)
      && (forall i, j :: 0 <= i < j < |s.timedOut| ==> s.timedOut[i].delivery != s.timedOut[j].delivery)
      && (forall i, j :: 0 <= i < j < |s.computed| ==> s.computed[i].job.delivery != s.computed[j].job.delivery)
      && (forall job :: job in s.timedOut || job in Jobs(s.computed) ==> job in s.received)
  {
    hide Run, AnswersBooked;
    EveryRunIsBooked(deferInit, acts);
    SettledOnceEach(Run(Start(deferInit), acts).server);
  }

  lemma SettledOnceEach(s: Server)
    requires ServerOk(s)
    ensures StartedOnce(Jobs(s.computed)) && forall job :: job in Jobs(s.computed) ==> job in s.started && job in s.received
  {
    hide HeldOk, HeldOnce, AnswersOk, IsHeld;
    var all := Jobs(s.computed);
    forall job | job in all ensures job in s.started && job in s.received {
      assert job in multiset(all);
      assert job in multiset(s.started);
    }
    forall i, j | 0 <= i < j < |all| ensures all[i].delivery != all[j].delivery {
      if all[i].delivery == all[j].delivery {
        assert all[i] in all && all[j] in all;
        SameDelivery(s, all[i], all[j]);
        OnceEach(s.started, all[i]);
        TwiceThere(all, i, j);
        assert false;
      }
    }
  }

  lemma {:induction false} OnceEach(jobs: seq<Job>, job: Job)
    requires StartedOnce(jobs)
    ensures multiset(jobs)[job] <= 1
  {
    if jobs != [] {
      var before, last := jobs[..|jobs| - 1], jobs[|jobs| - 1];
      OnceEach(before, job);
      assert jobs == before + [last];
      if last == job {
        assert job !in before;
      }
    }
  }

  lemma TwiceThere(jobs: seq<Job>, i: nat, j: nat)
    requires i < j < |jobs| && jobs[i] == jobs[j]
    ensures multiset(jobs)[jobs[i]] >= 2
  {
    assert jobs == jobs[..i] + [jobs[i]] + jobs[i + 1..j] + [jobs[j]] + jobs[j + 1..];
  }

  /** Once an invocation has started, its timer cannot fire any more: a delivery that is answered twice timed out while
      it was held, before the flush of its channel. */
  lemma StartedNeverTimesOut(y: System, act: Act, job: Job)
    requires SystemOk(y) && job in y.server.started
    ensures job in Step(y, act).server.timedOut <==> job in y.server.timedOut
  {
    hide ClientOk, Linked, StartAll, AnswersOk, StartedOk, StartedOnce, IsHeld;
    FlushOnlyStarts(y.server);
  }

  ghost predicate HasTimedOut(s: Server, id: nat) {
    exists job :: job in s.timedOut && job.id == id
  }

  ghost predicate HasSettled(s: Server, id: nat) {
    exists c :: c in s.computed && c.job.id == id
  }

  /** Exactly when a request is answered twice: when it timed out while held and was invoked and settled afterwards.
      This is for a request that is handed over at most once; it is never answered more often than that. */
  lemma {:induction false} AnsweredTwiceIff(deferInit: bool, acts: seq<Act>, id: nat)
    requires CountJobs(Run(Start(deferInit), acts).server.received, id) <= 1
    ensures var s := Run(Start(deferInit), acts).server;
      && CountAnswers(s.sent, id) == (if HasTimedOut(s, id) then 1 else 0) + (if HasSettled(s, id) then 1 else 0)
      && (CountAnswers(s.sent, id) == 2 <==> HasTimedOut(s, id) && HasSettled(s, id))
  {
    hide Run, CountJobs, CountAnswers;
    EveryRunCounts(deferInit, acts, id);
    AnswersAreAccounted(deferInit, acts);
    var s := Run(Start(deferInit), acts).server;
    FewerJobs(s.timedOut, s.received, id);
    FewerJobs(Jobs(s.computed), s.received, id);
    SomeJob(s.timedOut, id);
    SomeJob(Jobs(s.computed), id);
    assert HasSettled(s, id) <==> exists job :: job in Jobs(s.computed) && job.id == id by {
      forall c | c in s.computed ensures c.job in Jobs(s.computed) {
        var k :| 0 <= k < |s.computed| && s.computed[k] == c;
        assert Jobs(s.computed)[k] == c.job;
      }
    }
  }

  /** In any case the answers to an id are as many as its deliveries that timed out and those that settled, at most two
      for every time the request was handed over. */
  lemma {:induction false} AtMostTwoAnswersEach(deferInit: bool, acts: seq<Act>, id: nat)
    ensures var s := Run(Start(deferInit), acts).server;
      && CountAnswers(s.sent, id) == CountJobs(s.timedOut, id) + CountJobs(Jobs(s.computed), id)
      && CountJobs(s.timedOut, id) <= CountJobs(s.received, id)
      && CountJobs(Jobs(s.computed), id) <= CountJobs(s.received, id)
  {
    hide Run, CountJobs, CountAnswers;
    EveryRunCounts(deferInit, acts, id);
    AnswersAreAccounted(deferInit, acts);
    var s := Run(Start(deferInit), acts).server;
    FewerJobs(s.timedOut, s.received, id);
    FewerJobs(Jobs(s.computed), s.received, id);
  }

  lemma {:induction false} SomeJob(jobs: seq<Job>, id: nat)
    ensures CountJobs(jobs, id) > 0 <==> exists job :: job in jobs && job.id == id
  {
    if jobs != [] {
      var before, last := jobs[..|jobs| - 1], jobs[|jobs| - 1];
      SomeJob(before, id);
      assert jobs == before + [last];
      assert last in jobs;
    }
  }

  /** Distinct jobs of a list are not more than the list has. */
  lemma {:induction false} FewerJobs(some: seq<Job>, all: seq<Job>, id: nat)
    requires StartedOnce(some) && forall job :: job in some ==> job in all
    ensures CountJobs(some, id) <= CountJobs(all, id)
  {
    if some != [] {
      var before, last := some[..|some| - 1], some[|some| - 1];
      assert some == before + [last] && last in some;
      var k :| 0 <= k < |all| && all[k] == last;
      var rest := all[..k] + all[k + 1..];
      forall job | job in before ensures job in rest {
        var i :| 0 <= i < |before| && before[i] == job;
        assert some[i].delivery != last.delivery;
        assert job in some && job != last;
        var n :| 0 <= n < |all| && all[n] == job;
        assert n != k;
        assert if n < k then rest[n] == job else rest[n - 1] == job;
      }
      FewerJobs(before, rest, id);
      CountWithout(all, k, id);
    }
  }

  lemma {:induction false} CountWithout(jobs: seq<Job>, k: nat, id: nat)
    requires k < |jobs|
    ensures CountJobs(jobs, id) == CountJobs(jobs[..k] + jobs[k + 1..], id) + if jobs[k].id == id then 1 else 0
    decreases |jobs|
  {
    var before, last := jobs[..|jobs| - 1], jobs[|jobs| - 1];
    if k == |jobs| - 1 {
      assert jobs[..k] + jobs[k + 1..] == before;
    } else {
      CountWithout(before, k, id);
      assert jobs[..k] + jobs[k + 1..] == (before[..k] + before[k + 1..]) + [last];
      CountOneMoreJob(before[..k] + before[k + 1..], last, id);
    }
  }
}
