/** The refresh loop of the account overlay (packages/provider/src/account-provider-service.ts:64-235).

    A round reads the configuration, resolves the overlay, reads the configuration again, and publishes only if
    nothing has been requested meanwhile and the Built-in revision is unchanged.  Each step is what runs between
    two awaits. */
module AccountRefresh {
  import opened Options
  import opened RefreshWaiters

  /** An overlay snapshot; `began` is when the round that produced it read its configuration. */
  datatype Snapshot = Snapshot(revision: string, basedOn: string, failClosed: bool, began: nat)

  /** The record of one publication: the generation of its round, how many requests there were by then, and the
      Built-in revision that the last read of the round saw. */
  datatype Publication = Publication(snapshot: Snapshot, generation: nat, requested: nat, confirmed: string)

  datatype Outcome = Resolved(snapshot: Snapshot, roundBegan: nat) | Rejected(roundBegan: nat) | Disposed

  /** Where the loop is waiting: for the configuration, for the resolver, for the second read, or not at all. */
  datatype Loop =
    | Idle
    | ReadingConfig(generation: nat, began: nat)
    | Resolving(generation: nat, began: nat, builtinRevision: string)
    | Rechecking(generation: nat, began: nat, builtinRevision: string, revision: string)
    | Ended

  datatype Service = Service(
    requested: nat, pending: set<string>, waiters: seq<Waiter>, settled: seq<Settled<Outcome>>,
    snapshot: Option<Snapshot>, published: seq<Publication>, loop: Loop, disposed: bool, clock: nat)

  const NEW_SERVICE := Service(0, {}, [], [], None, [], Idle, false, 0)

  /** The head of the while loop: take all pending reasons and begin a round, or leave. */
  function NextRound(s: Service): Service {
    if s.pending != {} then s.(loop := ReadingConfig(s.requested, s.clock + 1), clock := s.clock + 1, pending := {})
    else s.(loop := Ended)
  }

  function SettleUpTo(s: Service, generation: nat, outcome: Outcome): Service {
    s.(waiters := Remaining(s.waiters, generation), settled := s.settled + Answers(s.waiters, generation, outcome))
  }

  function Request(s: Service, reason: string): Service {
    if s.disposed then s
    else
      var t := s.(requested := s.requested + 1, clock := s.clock + 1, pending := s.pending + {reason},
                  waiters := s.waiters + [Waiter(s.requested + 1, s.clock + 1)]);
      if t.loop == Idle then NextRound(t) else t
  }

  function ConfigRead(s: Service, builtinRevision: string): Service {
    if !s.loop.ReadingConfig? then s
    else s.(loop := Resolving(s.loop.generation, s.loop.began, builtinRevision))
  }

  function OverlayResolved(s: Service, revision: string): Service {
    if !s.loop.Resolving? then s
    else if s.disposed then RoundFails(s, true)
    else s.(loop := Rechecking(s.loop.generation, s.loop.began, s.loop.builtinRevision, revision))
  }

  function Rechecked(s: Service, builtinRevision: string): Service {
    if !s.loop.Rechecking? then s
    else if s.disposed then RoundFails(s, true)
    else
      var loop := s.loop;
      if s.pending != {} || builtinRevision != loop.builtinRevision then
        NextRound(s.(pending := s.pending + {"superseded-resolution"}))
      else if s.snapshot.Some? && s.snapshot.value.revision == loop.revision then
        NextRound(SettleUpTo(s, loop.generation, Resolved(s.snapshot.value, loop.began)))
      else
        var next := Snapshot(loop.revision, loop.builtinRevision, false, loop.began);
        var news := Publication(next, loop.generation, s.requested, builtinRevision);
        NextRound(SettleUpTo(Publish(s, news), loop.generation, Resolved(next, loop.began)))
  }

  function Publish(s: Service, news: Publication): Service {
    s.(snapshot := Some(news.snapshot), published := s.published + [news])
  }

  /** Any error of the round.  It is reported first, and a listener that throws there ends the loop at once.  A first
      failure after the configuration was read publishes a fail-closed overlay; otherwise the waiters of the round
      are rejected and the loop gives up. */
  function RoundFails(s: Service, listens: bool): Service {
    if s.loop.Idle? || s.loop.Ended? then s
    else if !listens then s.(loop := Ended)
    else if s.snapshot == None && !s.loop.ReadingConfig? then
      var closed := Snapshot("fail-closed", s.loop.builtinRevision, true, s.loop.began);
      var news := Publication(closed, s.loop.generation, s.requested, s.loop.builtinRevision);
      NextRound(SettleUpTo(Publish(s, news), s.loop.generation, Resolved(closed, s.loop.began)))
    else SettleUpTo(s, s.loop.generation, Rejected(s.loop.began)).(loop := Ended)
  }

  function Finish(s: Service): Service {
    if !s.loop.Ended? then s
    else
      var idle := s.(loop := Idle);
      if s.disposed || s.pending == {} then idle else NextRound(idle)
  }

  function Dispose(s: Service): Service {
    if s.disposed then s else SettleUpTo(s.(disposed := true), s.requested, Disposed)
  }

  datatype Act =
    | DoRequest(reason: string)
    | DoConfigRead(builtinRevision: string)
    | DoOverlayResolved(revision: string)
    | DoRechecked(builtinRevision: string)
    | DoRoundFails(listens: bool)
    | DoFinish
    | DoDispose

  function Step(s: Service, act: Act): Service {
    match act
    case DoRequest(reason) => Request(s, reason)
    case DoConfigRead(builtinRevision) => ConfigRead(s, builtinRevision)
    case DoOverlayResolved(revision) => OverlayResolved(s, revision)
    case DoRechecked(builtinRevision) => Rechecked(s, builtinRevision)
    case DoRoundFails(listens) => RoundFails(s, listens)
    case DoFinish => Finish(s)
    case DoDispose => Dispose(s)
  }

  function Run(acts: seq<Act>): Service
    decreases |acts|
  {
    if acts == [] then NEW_SERVICE else Step(Run(acts[..|acts| - 1]), acts[|acts| - 1])
  }

  // ---------- the invariant ----------

  /** No waiter is answered by a round that began before it asked; a new overlay comes from that very round. */
  ghost predicate Timely(e: Settled<Outcome>) {
    match e.outcome
    case Resolved(snapshot, began) => e.waiter.requestedAt < began && snapshot.began <= began
    case Rejected(began) => e.waiter.requestedAt < began
    case Disposed => true
  }

  ghost predicate AllTimely(settled: seq<Settled<Outcome>>) {
    forall k :: 0 <= k < |settled| ==> Timely(settled[k])
  }

  predicate InRound(loop: Loop) {
    loop.ReadingConfig? || loop.Resolving? || loop.Rechecking?
  }

  ghost predicate RoundOk(s: Service) {
    InRound(s.loop) ==>
      && s.loop.generation <= s.requested && s.loop.began <= s.clock
      && (s.snapshot.Some? ==> s.snapshot.value.began <= s.loop.began)
      && forall w :: w in s.waiters ==>
           if w.generation <= s.loop.generation then w.requestedAt < s.loop.began else s.pending != {}
  }

  ghost predicate BooksOk(s: Service) {
    && Ledger(s.waiters, s.settled, s.requested) && AllTimely(s.settled)
    && (forall w :: w in s.waiters ==> w.requestedAt <= s.clock && w.generation <= s.requested)
    && (s.snapshot.Some? ==> s.snapshot.value.began <= s.clock)
    && (s.disposed ==> s.waiters == [])
  }

  ghost predicate ServiceOk(s: Service) {
    && BooksOk(s) && RoundOk(s)
    && (s.loop == Idle && !s.disposed ==> s.pending == {})
  }

  /** With no round running and none to come, nobody waits. */
  ghost predicate Attended(s: Service) {
    !InRound(s.loop) && s.pending == {} ==> s.waiters == []
  }

  lemma SettlingUpTo(s: Service, generation: nat, outcome: Outcome)
    requires BooksOk(s)
    requires forall w :: w in s.waiters && w.generation <= generation ==> Timely(Settled(w, outcome))
    ensures var t := SettleUpTo(s, generation, outcome);
      && BooksOk(t) && t == s.(waiters := t.waiters, settled := t.settled)
      && forall w :: w in t.waiters ==> w in s.waiters && w.generation > generation
  {
    hide Remaining, Answers, Ledger, Timely;
    SettlingKeepsLedger(s.waiters, s.settled, s.requested, generation, outcome);
    assert Ascending(s.waiters) by { LedgerAscends(s.waiters, s.settled, s.requested); }
    SplitPartitions(s.waiters, generation, outcome);
    var answers := Answers(s.waiters, generation, outcome);
    forall k | 0 <= k < |s.settled + answers| ensures Timely((s.settled + answers)[k]) {
      if k >= |s.settled| {
        var e := answers[k - |s.settled|];
        assert e == Settled(e.waiter, outcome);
      }
    }
    NobodyIsNone(Remaining(s.waiters, generation));
  }

  lemma NextRoundOk(s: Service)
    requires BooksOk(s)
    ensures ServiceOk(NextRound(s))
    ensures (s.pending == {} ==> s.waiters == []) ==> Attended(NextRound(s))
  {
    hide Ledger, AllTimely;
  }

  lemma RequestKeeps(s: Service, reason: string)
    requires ServiceOk(s)
    ensures ServiceOk(Request(s, reason))
    ensures Attended(s) ==> Attended(Request(s, reason))
  {
    hide Ledger, AllTimely;
    if !s.disposed {
      var w := Waiter(s.requested + 1, s.clock + 1);
      var t := s.(requested := s.requested + 1, clock := s.clock + 1, pending := s.pending + {reason},
                  waiters := s.waiters + [w]);
      RequestKeepsLedger(s.waiters, s.settled, s.requested, s.clock + 1);
      assert forall v :: v in t.waiters ==> v in s.waiters || v == w;
      assert reason in t.pending;
      if t.loop == Idle {
        NextRoundOk(t);
      }
    }
  }

  /** The waiters of the running round may be answered by it. */
  lemma RoundAnswers(s: Service, snapshot: Snapshot)
    requires ServiceOk(s) && InRound(s.loop) && snapshot.began <= s.loop.began
    ensures forall w :: w in s.waiters && w.generation <= s.loop.generation ==>
      Timely(Settled(w, Resolved(snapshot, s.loop.began))) && Timely(Settled(w, Rejected(s.loop.began)))
  {
  }

  /** After settling a round that nothing superseded, or that leaves newer requests pending, the loop goes on. */
  lemma SettledRoundGoesOn(s: Service, t: Service)
    requires ServiceOk(s) && InRound(s.loop) && BooksOk(t)
    requires t.pending == s.pending
    requires forall w :: w in t.waiters ==> w in s.waiters && w.generation > s.loop.generation
    ensures ServiceOk(NextRound(t)) && ServiceOk(t.(loop := Ended))
    ensures Attended(NextRound(t)) && Attended(t.(loop := Ended))
  {
    hide Ledger, AllTimely;
    NobodyIsNone(t.waiters);
    NextRoundOk(t);
  }

  lemma RecheckedKeeps(s: Service, builtinRevision: string)
    requires ServiceOk(s)
    ensures ServiceOk(Rechecked(s, builtinRevision))
    ensures Attended(s) ==> Attended(Rechecked(s, builtinRevision))
  {
    if s.loop.Rechecking? {
      var loop := s.loop;
      if s.disposed {
        RoundFailsKeeps(s, true);
      } else if s.pending != {} || builtinRevision != loop.builtinRevision {
        var t := s.(pending := s.pending + {"superseded-resolution"});
        assert "superseded-resolution" in t.pending;
        NextRoundOk(t);
      } else {
        hide BooksOk, Timely;
        var next := Snapshot(loop.revision, loop.builtinRevision, false, loop.began);
        var news := Publication(next, loop.generation, s.requested, builtinRevision);
        var snapshot := if s.snapshot.Some? && s.snapshot.value.revision == loop.revision then s.snapshot.value else next;
        var ahead := if snapshot == next && !(s.snapshot.Some? && s.snapshot.value.revision == loop.revision) then Publish(s, news) else s;
        PublishingKeepsBooks(s, news);
        RoundAnswers(s, snapshot);
        SettlingUpTo(ahead, loop.generation, Resolved(snapshot, loop.began));
        SettledRoundGoesOn(s, SettleUpTo(ahead, loop.generation, Resolved(snapshot, loop.began)));
      }
    }
  }

  lemma PublishingKeepsBooks(s: Service, news: Publication)
    requires BooksOk(s) && news.snapshot.began <= s.clock
    ensures BooksOk(Publish(s, news))
  {
  }

  lemma RoundFailsKeeps(s: Service, listens: bool)
    requires ServiceOk(s)
    ensures ServiceOk(RoundFails(s, listens))
    ensures Attended(s) && listens ==> Attended(RoundFails(s, listens))
  {
    if InRound(s.loop) && listens {
      hide BooksOk, Timely;
      var g, began := s.loop.generation, s.loop.began;
      if s.snapshot == None && !s.loop.ReadingConfig? {
        var closed := Snapshot("fail-closed", s.loop.builtinRevision, true, began);
        var news := Publication(closed, g, s.requested, s.loop.builtinRevision);
        PublishingKeepsBooks(s, news);
        RoundAnswers(s, closed);
        SettlingUpTo(Publish(s, news), g, Resolved(closed, began));
        SettledRoundGoesOn(s, SettleUpTo(Publish(s, news), g, Resolved(closed, began)));
      } else {
        RoundAnswers(s, Snapshot("", "", false, began));
        SettlingUpTo(s, g, Rejected(began));
        SettledRoundGoesOn(s, SettleUpTo(s, g, Rejected(began)));
      }
    }
  }

  lemma DisposeKeeps(s: Service)
    requires ServiceOk(s)
    ensures ServiceOk(Dispose(s))
    ensures Attended(s) ==> Attended(Dispose(s))
  {
    if !s.disposed {
      hide Ledger, AllTimely;
      SettlingUpTo(s, s.requested, Disposed);
      NobodyIsNone(SettleUpTo(s, s.requested, Disposed).waiters);
    }
  }

  lemma StepKeeps(s: Service, act: Act)
    requires ServiceOk(s)
    ensures ServiceOk(Step(s, act))
    ensures Attended(s) && act != DoRoundFails(false) ==> Attended(Step(s, act))
  {
    match act {
      case DoRequest(reason) => RequestKeeps(s, reason);
      case DoConfigRead(_) =>
      case DoOverlayResolved(_) => RoundFailsKeeps(s, true);
      case DoRechecked(builtinRevision) => RecheckedKeeps(s, builtinRevision);
      case DoRoundFails(listens) => RoundFailsKeeps(s, listens);
      case DoFinish =>
        if s.loop.Ended? && !s.disposed && s.pending != {} {
          NextRoundOk(s.(loop := Idle));
        }
      case DoDispose => DisposeKeeps(s);
    }
  }

  lemma {:induction false} EveryRunIsOk(acts: seq<Act>)
    ensures ServiceOk(Run(acts))
    ensures DoRoundFails(false) !in acts ==> Attended(Run(acts))
    decreases |acts|
  {
    hide ServiceOk, Attended, Step;
    if acts == [] {
      NewIsOk();
    } else {
      EveryRunIsOk(acts[..|acts| - 1]);
      StepKeeps(Run(acts[..|acts| - 1]), acts[|acts| - 1]);
    }
  }

  // ---------- what single events answer ----------

  /** The newest request waits, and a loop is in flight to answer it. */
  lemma RequestWaits(s: Service, reason: string)
    requires ServiceOk(s) && !s.disposed
    ensures var t := Request(s, reason);
      t.loop != Idle && IsWaiting(t.waiters, t.requested) && !IsSettled(t.settled, t.requested)
  {
    hide AllTimely;
    var t := Request(s, reason);
    RequestKeeps(s, reason);
    assert t.waiters[|t.waiters| - 1].generation == t.requested;
  }

  /** Between two states of the service a round has delivered this overlay: it is the snapshot, everybody has been
      answered with it, and it was published exactly if its revision is not the one that was held before. */
  ghost predicate Delivers(s: Service, t: Service, revision: string, builtinRevision: string, began: nat) {
    && t.waiters == [] && t.snapshot.Some? && t.snapshot.value.revision == revision
    && AnsweredWith(s.settled, t.settled, Resolved(t.snapshot.value, began))
    && if s.snapshot.Some? && s.snapshot.value.revision == revision
       then t.snapshot == s.snapshot && t.published == s.published
       else
         && t.snapshot == Some(Snapshot(revision, builtinRevision, false, began))
         && t.published == s.published + [Publication(t.snapshot.value, s.requested, s.requested, builtinRevision)]
  }

  /** A round that comes to its second read either delivers what the resolver returned to everybody, or was superseded:
      then it answers nobody, publishes nothing, and another round has begun. */
  lemma RecheckAnswers(s: Service, builtinRevision: string)
    requires ServiceOk(s) && PublishedOk(s) && s.loop.Rechecking? && !s.disposed
    ensures var t := Rechecked(s, builtinRevision);
      if s.pending != {} || builtinRevision != s.loop.builtinRevision
      then
        && t.settled == s.settled && t.published == s.published && t.snapshot == s.snapshot
        && t.loop.ReadingConfig? && t.loop.generation == s.requested
      else t.loop == Ended && Delivers(s, t, s.loop.revision, builtinRevision, s.loop.began)
  {
    hide Remaining, Answers;
    if s.pending == {} && builtinRevision == s.loop.builtinRevision {
      hide BooksOk;
      NobodyIsNone(s.waiters);
      EveryoneIsSettled(s.waiters, s.loop.generation);
      AnswersGetOutcome(s.waiters, s.loop.generation, Resolved(Rechecked(s, builtinRevision).snapshot.value, s.loop.began));
    }
  }

  /** A failing round answers everybody it was for, unless an error listener throws; then it answers nobody.  A first
      failure after the configuration was read publishes the fail-closed overlay, and the answers are that overlay; any
      other failure leaves the snapshot alone, and the answers are rejections. */
  lemma FailureAnswers(s: Service, listens: bool)
    requires ServiceOk(s) && InRound(s.loop)
    ensures var t := RoundFails(s, listens);
      && s.settled <= t.settled && s.published <= t.published
      && (if listens then forall w :: w in t.waiters ==> w in s.waiters && w.generation > s.loop.generation
          else t.settled == s.settled && t.waiters == s.waiters)
      && (if listens && s.snapshot == None && !s.loop.ReadingConfig?
          then
            var closed := Snapshot("fail-closed", s.loop.builtinRevision, true, s.loop.began);
            && t.snapshot == Some(closed) && AnsweredWith(s.settled, t.settled, Resolved(closed, s.loop.began))
            && t.published == s.published + [Publication(closed, s.loop.generation, s.requested, s.loop.builtinRevision)]
          else
            && t.snapshot == s.snapshot && t.published == s.published && t.loop == Ended
            && AnsweredWith(s.settled, t.settled, Rejected(s.loop.began)))
  {
    hide Timely, Ledger, Remaining, Answers;
    AnswersGetOutcome(s.waiters, s.loop.generation, Rejected(s.loop.began));
    assert Ascending(s.waiters) by { LedgerAscends(s.waiters, s.settled, s.requested); }
    SplitPartitions(s.waiters, s.loop.generation, Rejected(s.loop.began));
    var closed := if s.loop.ReadingConfig? then Snapshot("", "", true, 0) else Snapshot("fail-closed", s.loop.builtinRevision, true, s.loop.began);
    SplitPartitions(s.waiters, s.loop.generation, Resolved(closed, s.loop.began));
    AnswersGetOutcome(s.waiters, s.loop.generation, Resolved(closed, s.loop.began));
  }

  /** Dispose answers everybody who ever asked. */
  lemma DisposeAnswers(s: Service)
    requires ServiceOk(s)
    ensures var t := Dispose(s); t.waiters == [] && forall g: nat :: 1 <= g <= t.requested ==> IsSettled(t.settled, g)
  {
    DisposeKeeps(s);
  }

  // ---------- publications ----------

  /** No request came in since the round began, and both its reads saw the same Built-in revision.  A fail-closed
      overlay makes no such claim, but it can only be the first one. */
  ghost predicate Current(news: Publication, k: nat) {
    if news.snapshot.failClosed then k == 0
    else news.requested == news.generation && news.snapshot.basedOn == news.confirmed
  }

  ghost predicate PublishedOk(s: Service) {
    && s.snapshot == (if s.published == [] then None else Some(s.published[|s.published| - 1].snapshot))
    && (forall k :: 0 <= k < |s.published| ==> Current(s.published[k], k) && s.published[k].snapshot.began <= s.clock)
    && (forall i, j :: 0 <= i < j < |s.published| ==> s.published[i].snapshot.began < s.published[j].snapshot.began)
    && (InRound(s.loop) ==>
          && s.loop.began <= s.clock
          && (forall k :: 0 <= k < |s.published| ==> s.published[k].snapshot.began < s.loop.began)
          && (s.pending == {} ==> s.requested == s.loop.generation))
  }

  lemma PublishingKeeps(s: Service, news: Publication, generation: nat, outcome: Outcome)
    requires PublishedOk(s) && InRound(s.loop) && Current(news, |s.published|) && news.snapshot.began == s.loop.began
    ensures PublishedOk(NextRound(SettleUpTo(Publish(s, news), generation, outcome)))
  {
    hide Remaining, Answers, Current;
    var t := Publish(s, news);
    assert forall k :: 0 <= k < |t.published| ==> Current(t.published[k], k);
  }

  lemma StepKeepsPublished(s: Service, act: Act)
    requires PublishedOk(s)
    ensures PublishedOk(Step(s, act))
  {
    hide Remaining, Answers, Current;
    match act
    case DoRequest(reason) => assert reason in s.pending + {reason};
    case DoRechecked(builtinRevision) => RecheckedKeepsPublished(s, builtinRevision);
    case DoRoundFails(listens) => FailingKeepsPublished(s, listens);
    case DoOverlayResolved(_) => FailingKeepsPublished(s, true);
    case _ =>
  }

  lemma FailingKeepsPublished(s: Service, listens: bool)
    requires PublishedOk(s)
    ensures PublishedOk(RoundFails(s, listens))
  {
    hide Remaining, Answers;
    if InRound(s.loop) && listens && s.snapshot == None && !s.loop.ReadingConfig? {
      var closed := Snapshot("fail-closed", s.loop.builtinRevision, true, s.loop.began);
      PublishingKeeps(s, Publication(closed, s.loop.generation, s.requested, s.loop.builtinRevision),
                      s.loop.generation, Resolved(closed, s.loop.began));
    }
  }

  lemma RecheckedKeepsPublished(s: Service, builtinRevision: string)
    requires PublishedOk(s)
    ensures PublishedOk(Rechecked(s, builtinRevision))
  {
    hide Remaining, Answers;
    if s.loop.Rechecking? {
      var loop := s.loop;
      if s.disposed {
        FailingKeepsPublished(s, true);
      } else if s.pending == {} && builtinRevision == loop.builtinRevision
                && !(s.snapshot.Some? && s.snapshot.value.revision == loop.revision) {
        var next := Snapshot(loop.revision, loop.builtinRevision, false, loop.began);
        PublishingKeeps(s, Publication(next, loop.generation, s.requested, builtinRevision),
                        loop.generation, Resolved(next, loop.began));
      }
    }
  }

  /** Over every run: an overlay is published only if nothing was requested since its round began and both reads of
      the round saw one Built-in revision, except that the very first one may be fail-closed.  Later publications come
      from later rounds, and the last one is what the service serves. */
  lemma {:induction false} PublicationsAreCurrent(acts: seq<Act>)
    ensures PublishedOk(Run(acts))
    decreases |acts|
  {
    hide Step;
    if acts != [] {
      hide PublishedOk;
      PublicationsAreCurrent(acts[..|acts| - 1]);
      StepKeepsPublished(Run(acts[..|acts| - 1]), acts[|acts| - 1]);
    }
  }

  lemma NewIsOk()
    ensures ServiceOk(NEW_SERVICE) && Attended(NEW_SERVICE)
  {
  }

  /** Over every run: promises settle at most once, never by a round begun before the request; the service is never
      idle with a reason outstanding unless it was disposed, and dispose leaves nobody waiting. */
  lemma {:induction false} RefreshesAreTimely(acts: seq<Act>)
    ensures var s := Run(acts);
      && (forall i, j :: 0 <= i < j < |s.settled| ==> s.settled[i].waiter.generation != s.settled[j].waiter.generation)
      && (forall g: nat :: 1 <= g <= s.requested <==> IsWaiting(s.waiters, g) || IsSettled(s.settled, g))
      && (forall k :: 0 <= k < |s.settled| ==> Timely(s.settled[k]))
      && (s.loop == Idle && !s.disposed ==> s.pending == {})
      && (s.disposed ==> s.waiters == [])
  {
    hide Run;
    EveryRunIsOk(acts);
  }

  lemma RunOneMore(acts: seq<Act>, act: Act)
    ensures Run(acts + [act]) == Step(Run(acts), act)
  {
    assert (acts + [act])[..|acts|] == acts;
  }

  /** From every reachable state in which a round begins: if nothing else is requested and both reads see the same
      Built-in revision, then what the resolver returns is delivered to everybody who waits, and the loop ends. */
  lemma {:induction false} RoundDelivers(acts: seq<Act>, builtinRevision: string, revision: string)
    requires var s := Run(acts); s.loop.ReadingConfig? && s.pending == {} && !s.disposed
    ensures var s := Run(acts);
      var t := Run(acts + [DoConfigRead(builtinRevision)] + [DoOverlayResolved(revision)] + [DoRechecked(builtinRevision)]);
      t.loop == Ended && Delivers(s, t, revision, builtinRevision, s.loop.began)
  {
    hide Run, ServiceOk, PublishedOk, Rechecked;
    var one := acts + [DoConfigRead(builtinRevision)];
    var two := one + [DoOverlayResolved(revision)];
    RunOneMore(acts, DoConfigRead(builtinRevision));
    RunOneMore(one, DoOverlayResolved(revision));
    RunOneMore(two, DoRechecked(builtinRevision));
    EveryRunIsOk(two);
    PublicationsAreCurrent(two);
    RecheckAnswers(Run(two), builtinRevision);
  }

  /** From every reachable state without a snapshot in which a round begins: if it fails after the configuration was read,
      everybody it was for gets the fail-closed overlay of that very Built-in revision, and it is the snapshot. */
  lemma {:induction false} FirstFailureFailsClosed(acts: seq<Act>, builtinRevision: string)
    requires var s := Run(acts); s.loop.ReadingConfig? && s.snapshot == None
    ensures var s, t := Run(acts), Run(acts + [DoConfigRead(builtinRevision)] + [DoRoundFails(true)]);
      var closed := Snapshot("fail-closed", builtinRevision, true, s.loop.began);
      && t.snapshot == Some(closed) && AnsweredWith(s.settled, t.settled, Resolved(closed, s.loop.began))
      && (forall w :: w in t.waiters ==> w.generation > s.loop.generation)
      && |t.published| == 1 && t.published[0].snapshot == closed
  {
    hide Run, ServiceOk, RoundFails;
    var one := acts + [DoConfigRead(builtinRevision)];
    RunOneMore(acts, DoConfigRead(builtinRevision));
    RunOneMore(one, DoRoundFails(true));
    EveryRunIsOk(one);
    PublicationsAreCurrent(one);
    FailureAnswers(Run(one), true);
  }

  /** After dispose, over every run, nobody is answered any more and no resolved overlay is published: a round that is under
      way fails, and all it may still leave is the fail-closed overlay, if there is none at all. */
  lemma {:induction false} DisposedIsSilent(acts: seq<Act>, act: Act)
    requires Run(acts).disposed
    ensures var s, t := Run(acts), Run(acts + [act]);
      && t.disposed && t.waiters == [] && t.settled == s.settled && t.requested == s.requested
      && (if t.published == s.published then t.snapshot == s.snapshot
          else s.snapshot == None && |t.published| == 1 && t.snapshot.Some? && t.snapshot.value.failClosed)
  {
    hide Run, Ledger;
    EveryRunIsOk(acts);
    PublicationsAreCurrent(acts);
    RunOneMore(acts, act);
  }

  /** An idle service has answered every request, as long as no error listener throws. */
  lemma {:induction false} IdleMeansAnswered(acts: seq<Act>)
    requires DoRoundFails(false) !in acts
    ensures Run(acts).loop == Idle ==> Run(acts).waiters == []
  {
    hide Run;
    EveryRunIsOk(acts);
    var s := Run(acts);
    if s.disposed {
      assert s.waiters == [];
    }
  }

  /** Exactly when a failing round answers those it was for: when no error listener throws. */
  lemma {:induction false} FailedRoundAnswersIff(acts: seq<Act>, listens: bool)
    requires var s := Run(acts); InRound(s.loop) && exists w :: w in s.waiters && w.generation <= s.loop.generation
    ensures var s := Run(acts);
      listens <==> forall w :: w in Step(s, DoRoundFails(listens)).waiters ==> w.generation > s.loop.generation
  {
    hide Run, RoundFails;
    EveryRunIsOk(acts);
    FailureAnswers(Run(acts), listens);
  }

  /** The condition is needed: a listener that throws while the failure of a round is reported leaves the promises of
      that round unsettled, with the service idle. */
  lemma ThrowingListenerLeavesWaiterBehind(reason: string)
    ensures var s := Run([DoRequest(reason), DoRoundFails(false), DoFinish]);
      s.loop == Idle && !s.disposed && s.pending == {} && s.waiters == [Waiter(1, 1)] && s.settled == []
  {
    var one, two := [DoRequest(reason)], [DoRequest(reason), DoRoundFails(false)];
    var three := [DoRequest(reason), DoRoundFails(false), DoFinish];
    assert one[..0] == [] && two[..1] == one && three[..2] == two;
    assert Run([]) == NEW_SERVICE;
    assert reason in {reason};
    assert Run(one) == Request(NEW_SERVICE, reason);
    assert Run(two) == RoundFails(Run(one), false);
    assert Run(three) == Finish(Run(two));
  }
}
