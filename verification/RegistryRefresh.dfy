/** The refresh loop of the provider registry (packages/provider/src/registry-service.ts:150-273).

    Each step is what runs between two awaits: a request, the reads of a round coming back, the loop's promise
    settling, dispose.  The clock orders requests and the beginnings of source reads. */
module RegistryRefresh {
  import opened Options
  import opened RefreshWaiters

  datatype Config = Config(revision: string, builtinRevision: string)

  datatype Account = Account(revision: string, basedOn: string)

  /** A published snapshot: a configuration with the account overlay it was combined with. */
  datatype Snapshot = Snapshot(config: Config, account: Account)

  /** How a refresh promise settles, with the moment the reads behind it began: published, confirmed as
      unchanged, kept because the overlay is based on another Built-in revision, or rejected. */
  datatype Outcome =
    | Published(snapshot: Snapshot, readsBegan: nat)
    | Unchanged(snapshot: Snapshot, readsBegan: nat, config: Config, account: Account)
    | Kept(snapshot: Snapshot)
    | Rejected

  datatype Loop = Idle | Reading(generation: nat, began: nat) | Ended(threw: bool)

  datatype Registry = Registry(
    requested: nat, completed: nat, waiters: seq<Waiter>, settled: seq<Settled<Outcome>>, snapshot: Option<Snapshot>,
    loop: Loop, disposed: bool, clock: nat)

  const NEW_REGISTRY := Registry(0, 0, [], [], None, Idle, false, 0)

  /** The head of the while loop: begin a round, or leave. */
  function NextRound(s: Registry): Registry {
    if s.completed < s.requested then s.(loop := Reading(s.requested, s.clock + 1), clock := s.clock + 1)
    else s.(loop := Ended(false))
  }

  function EnsureLoop(s: Registry): Registry {
    if s.loop != Idle || s.disposed then s else NextRound(s)
  }

  function SettleUpTo(s: Registry, generation: nat, outcome: Outcome): Registry {
    s.(waiters := Remaining(s.waiters, generation), settled := s.settled + Answers(s.waiters, generation, outcome))
  }

  /** #requestRefresh; its callers refuse to get here after dispose. */
  function Request(s: Registry): Registry {
    if s.disposed then s
    else
      EnsureLoop(s.(requested := s.requested + 1, clock := s.clock + 1,
                    waiters := s.waiters + [Waiter(s.requested + 1, s.clock + 1)]))
  }

  predicate SameRevisions(s: Registry, config: Config, account: Account) {
    s.snapshot.Some? && s.snapshot.value.config.revision == config.revision
    && s.snapshot.value.account.revision == account.revision
  }

  /** Both reads of the round came back.  `resolves` says whether the resolver accepts them, `announces` and `listens`
      that no change listener and no error listener throws. */
  function ReadsSucceed(s: Registry, config: Config, account: Account, resolves: bool, announces: bool, listens: bool): Registry {
    if !s.loop.Reading? then s
    else
      var g, began := s.loop.generation, s.loop.began;
      if g < s.requested then NextRound(s)
      else if s.disposed then s.(loop := Ended(true))
      else
        var done := s.(completed := g);
        if account.basedOn != config.builtinRevision then
          NextRound(if s.snapshot.Some? then SettleUpTo(done, g, Kept(s.snapshot.value)) else done)
        else if SameRevisions(s, config, account) then
          NextRound(SettleUpTo(done, g, Unchanged(s.snapshot.value, began, config, account)))
        else if resolves then
          var snapshot := Snapshot(config, account);
          var published := SettleUpTo(done.(snapshot := Some(snapshot)), g, Published(snapshot, began));
          if announces then NextRound(published) else FailRound(published, g, listens)
        else FailRound(done, g, listens)
  }

  /** An error of the current round: reported, then all its waiters are rejected, unless reporting throws. */
  function FailRound(s: Registry, generation: nat, listens: bool): Registry {
    if listens then SettleUpTo(s, generation, Rejected).(loop := Ended(false)) else s.(loop := Ended(true))
  }

  function ReadsFail(s: Registry, listens: bool): Registry {
    if !s.loop.Reading? then s
    else if s.loop.generation < s.requested then NextRound(s)
    else FailRound(s.(completed := s.loop.generation), s.loop.generation, listens)
  }

  /** The loop's promise has settled. */
  function Finish(s: Registry): Registry {
    if !s.loop.Ended? then s
    else
      var t := if s.loop.threw then SettleUpTo(s, s.requested, Rejected) else s;
      var idle := t.(loop := Idle);
      if idle.completed < idle.requested then EnsureLoop(idle) else idle
  }

  function Dispose(s: Registry): Registry {
    if s.disposed then s else SettleUpTo(s.(disposed := true), s.requested, Rejected)
  }

  datatype Act =
    | DoRequest
    | DoReadsSucceed(config: Config, account: Account, resolves: bool, announces: bool, listens: bool)
    | DoReadsFail(listens: bool)
    | DoFinish
    | DoDispose

  function Step(s: Registry, act: Act): Registry {
    match act
    case DoRequest => Request(s)
    case DoReadsSucceed(config, account, resolves, announces, listens) => ReadsSucceed(s, config, account, resolves, announces, listens)
    case DoReadsFail(listens) => ReadsFail(s, listens)
    case DoFinish => Finish(s)
    case DoDispose => Dispose(s)
  }

  function Run(acts: seq<Act>): Registry
    decreases |acts|
  {
    if acts == [] then NEW_REGISTRY else Step(Run(acts[..|acts| - 1]), acts[|acts| - 1])
  }

  // ---------- the invariant ----------

  /** A snapshot always pairs an overlay with the Built-in revision it is based on. */
  ghost predicate Coherent(snapshot: Snapshot) {
    snapshot.account.basedOn == snapshot.config.builtinRevision
  }

  /** A promise resolved by publishing or by unchanged revisions rests on reads begun after its request. */
  ghost predicate Fresh(e: Settled<Outcome>) {
    match e.outcome
    case Published(snapshot, began) => Coherent(snapshot) && e.waiter.requestedAt < began
    case Unchanged(snapshot, began, config, account) =>
      && Coherent(snapshot) && e.waiter.requestedAt < began
      && snapshot.config.revision == config.revision && snapshot.account.revision == account.revision
      && account.basedOn == config.builtinRevision
    case Kept(snapshot) => Coherent(snapshot)
    case Rejected => true
  }

  ghost predicate AllFresh(settled: seq<Settled<Outcome>>) {
    forall k :: 0 <= k < |settled| ==> Fresh(settled[k])
  }

  /** Every waiter that the running round answers had asked before the round's reads began. */
  ghost predicate RoundOk(s: Registry) {
    && (forall w :: w in s.waiters ==> w.requestedAt <= s.clock && w.generation <= s.requested)
    && (s.loop.Reading? ==>
          && s.completed < s.loop.generation <= s.requested && s.loop.began <= s.clock
          && forall w :: w in s.waiters && w.generation <= s.loop.generation ==> w.requestedAt < s.loop.began)
  }

  /** Once there is a snapshot, completed generations have no waiters left. */
  ghost predicate NobodyLeftBehind(s: Registry) {
    s.snapshot.Some? && s.loop != Ended(true) ==> forall w :: w in s.waiters ==> w.generation > s.completed
  }

  ghost predicate RegistryOk(s: Registry) {
    && s.completed <= s.requested
    && Ledger(s.waiters, s.settled, s.requested)
    && AllFresh(s.settled)
    && RoundOk(s)
    && (s.snapshot.Some? ==> Coherent(s.snapshot.value))
    && (!s.disposed && s.completed < s.requested ==> s.loop != Idle)
    && (s.disposed ==> s.waiters == [])
    && NobodyLeftBehind(s)
  }

  /** What settling does to the books. */
  lemma SettlingUpTo(s: Registry, generation: nat, outcome: Outcome)
    requires Ledger(s.waiters, s.settled, s.requested) && AllFresh(s.settled)
    requires forall w :: w in s.waiters && w.generation <= generation ==> Fresh(Settled(w, outcome))
    ensures var t := SettleUpTo(s, generation, outcome);
      && Ledger(t.waiters, t.settled, t.requested) && AllFresh(t.settled)
      && t == s.(waiters := t.waiters, settled := t.settled)
      && forall w :: w in t.waiters ==> w in s.waiters && w.generation > generation
  {
    hide Remaining, Answers, Ledger, Fresh;
    SettlingKeepsLedger(s.waiters, s.settled, s.requested, generation, outcome);
    assert Ascending(s.waiters) by { LedgerAscends(s.waiters, s.settled, s.requested); }
    SplitPartitions(s.waiters, generation, outcome);
    var answers := Answers(s.waiters, generation, outcome);
    forall k | 0 <= k < |s.settled + answers| ensures Fresh((s.settled + answers)[k]) {
      if k >= |s.settled| {
        var e := answers[k - |s.settled|];
        assert e == Settled(e.waiter, outcome);
      }
    }
  }

  /** The books between two steps, apart from the state of the loop. */
  ghost predicate BooksOk(s: Registry) {
    && s.completed <= s.requested
    && Ledger(s.waiters, s.settled, s.requested) && AllFresh(s.settled)
    && (forall w :: w in s.waiters ==> w.requestedAt <= s.clock && w.generation <= s.requested)
    && (s.snapshot.Some? ==> Coherent(s.snapshot.value))
    && (s.disposed ==> s.waiters == [])
    && (s.snapshot.Some? ==> forall w :: w in s.waiters ==> w.generation > s.completed)
  }

  lemma NextRoundOk(s: Registry)
    requires BooksOk(s)
    ensures RegistryOk(NextRound(s))
  {
    hide Ledger, AllFresh;
  }

  lemma RequestKeeps(s: Registry)
    requires RegistryOk(s)
    ensures RegistryOk(Request(s))
  {
    hide Ledger, AllFresh;
    if !s.disposed {
      var w := Waiter(s.requested + 1, s.clock + 1);
      var t := s.(requested := s.requested + 1, clock := s.clock + 1, waiters := s.waiters + [w]);
      RequestKeepsLedger(s.waiters, s.settled, s.requested, s.clock + 1);
      assert forall v :: v in t.waiters ==> v in s.waiters || v == w;
      if s.loop == Idle {
        NextRoundOk(t);
      }
    }
  }

  /** Whoever requests a refresh waits for it. */
  lemma RequestWaits(s: Registry)
    requires RegistryOk(s)
    ensures var t := Request(s);
      !s.disposed ==> IsWaiting(t.waiters, t.requested) && !IsSettled(t.settled, t.requested) && t.loop != Idle
  {
    hide AllFresh, RoundOk, NobodyLeftBehind;
    if !s.disposed {
      var t := Request(s);
      assert t.waiters[|t.waiters| - 1].generation == t.requested;
    }
  }

  lemma RoundAnswers(s: Registry, config: Config, account: Account)
    requires RegistryOk(s) && s.loop.Reading?
    ensures forall w, snapshot :: w in s.waiters && w.generation <= s.loop.generation && Coherent(snapshot) ==>
      Fresh(Settled(w, Published(snapshot, s.loop.began)))
    ensures SameRevisions(s, config, account) && account.basedOn == config.builtinRevision ==>
      forall w :: w in s.waiters && w.generation <= s.loop.generation ==>
        Fresh(Settled(w, Unchanged(s.snapshot.value, s.loop.began, config, account)))
  {
  }

  lemma FailRoundKeeps(s: Registry, listens: bool)
    requires RegistryOk(s) && s.loop.Reading? && s.loop.generation == s.requested
    ensures RegistryOk(FailRound(s.(completed := s.requested), s.requested, listens))
  {
    hide Ledger, AllFresh;
    SettlingUpTo(s.(completed := s.requested), s.requested, Rejected);
  }

  lemma ReadsSucceedKeeps(s: Registry, config: Config, account: Account, resolves: bool, announces: bool, listens: bool)
    requires RegistryOk(s)
    ensures RegistryOk(ReadsSucceed(s, config, account, resolves, announces, listens))
  {
    hide Ledger, AllFresh, Fresh;
    if s.loop.Reading? {
      var g, began := s.loop.generation, s.loop.began;
      var done := s.(completed := g);
      RoundAnswers(s, config, account);
      if g < s.requested {
        NextRoundOk(s);
      } else if s.disposed {
      } else if account.basedOn != config.builtinRevision {
        if s.snapshot.Some? {
          KeptIsFresh(s);
          SettlingUpTo(done, g, Kept(s.snapshot.value));
          NextRoundOk(SettleUpTo(done, g, Kept(s.snapshot.value)));
        } else {
          NextRoundOk(done);
        }
      } else if SameRevisions(s, config, account) {
        SettlingUpTo(done, g, Unchanged(s.snapshot.value, began, config, account));
        NextRoundOk(SettleUpTo(done, g, Unchanged(s.snapshot.value, began, config, account)));
      } else if resolves {
        var snapshot := Snapshot(config, account);
        var ahead := done.(snapshot := Some(snapshot));
        SettlingUpTo(ahead, g, Published(snapshot, began));
        var published := SettleUpTo(ahead, g, Published(snapshot, began));
        NextRoundOk(published);
        SettlingUpTo(published, g, Rejected);
      } else {
        FailRoundKeeps(s, listens);
      }
    }
  }

  lemma KeptIsFresh(s: Registry)
    requires s.snapshot.Some? && Coherent(s.snapshot.value)
    ensures forall w :: Fresh(Settled(w, Kept(s.snapshot.value)))
  {
  }

  lemma ReadsFailKeeps(s: Registry, listens: bool)
    requires RegistryOk(s)
    ensures RegistryOk(ReadsFail(s, listens))
  {
    if s.loop.Reading? {
      if s.loop.generation < s.requested {
        NextRoundOk(s);
      } else {
        FailRoundKeeps(s, listens);
      }
    }
  }

  lemma FinishKeeps(s: Registry)
    requires RegistryOk(s)
    ensures RegistryOk(Finish(s))
  {
    hide Ledger, AllFresh;
    if s.loop.Ended? {
      SettlingUpTo(s, s.requested, Rejected);
      var t := if s.loop.threw then SettleUpTo(s, s.requested, Rejected) else s;
      var idle := t.(loop := Idle);
      assert BooksOk(idle);
      if idle.completed < idle.requested && !idle.disposed {
        NextRoundOk(idle);
      }
    }
  }

  lemma DisposeKeeps(s: Registry)
    requires RegistryOk(s)
    ensures RegistryOk(Dispose(s))
  {
    hide Ledger, AllFresh;
    var t := s.(disposed := true);
    SettlingUpTo(t, s.requested, Rejected);
    var u := SettleUpTo(t, s.requested, Rejected);
    NobodyIsNone(u.waiters);
  }

  // ---------- what single events answer ----------

  /** The pair that was read is to be published: nothing newer is requested, the overlay is based on the Built-in revision
      that was read, one of the two revisions is new, and the resolver accepts the pair. */
  predicate Publishes(s: Registry, config: Config, account: Account, resolves: bool) {
    && s.loop.Reading? && s.loop.generation == s.requested && !s.disposed
    && account.basedOn == config.builtinRevision && resolves
    && (s.snapshot.Some? ==>
          s.snapshot.value.config.revision != config.revision || s.snapshot.value.account.revision != account.revision)
  }

  /** What the reads of a round bring about: a superseded round answers nobody and another one has begun; the snapshot is
      replaced exactly if the pair is to be published, by that very pair, and everybody is answered with it; and with a
      snapshot, or matching revisions, everybody is answered whatever the resolver does, if no error listener throws. */
  lemma ReadsAnswer(s: Registry, config: Config, account: Account, resolves: bool, announces: bool, listens: bool)
    requires RegistryOk(s) && s.loop.Reading?
    ensures var t := ReadsSucceed(s, config, account, resolves, announces, listens);
      && s.settled <= t.settled
      && (s.loop.generation < s.requested ==>
            t.settled == s.settled && t.snapshot == s.snapshot && t.loop.Reading? && t.loop.generation == s.requested)
      && (if Publishes(s, config, account, resolves)
          then
            && t.snapshot == Some(Snapshot(config, account)) && t.snapshot != s.snapshot && t.waiters == []
            && AnsweredWith(s.settled, t.settled, Published(t.snapshot.value, s.loop.began))
          else t.snapshot == s.snapshot)
      && (s.loop.generation == s.requested && !s.disposed ==> t.completed == s.requested && t.loop.Ended?)
      && (s.loop.generation == s.requested && !s.disposed && listens ==>
            (s.snapshot.Some? || account.basedOn == config.builtinRevision) ==> t.waiters == [])
      && (s.loop.generation == s.requested && !s.disposed && !Publishes(s, config, account, resolves) ==>
            AnsweredWith(s.settled, t.settled,
              if account.basedOn != config.builtinRevision && s.snapshot.Some? then Kept(s.snapshot.value)
              else if SameRevisions(s, config, account) then Unchanged(s.snapshot.value, s.loop.began, config, account)
              else Rejected))
  {
    hide Ledger, AllFresh, NobodyLeftBehind;
    AnswersGetOutcome(s.waiters, s.requested, Published(Snapshot(config, account), s.loop.began));
    AnswersGetOutcome(s.waiters, s.requested, Rejected);
    if s.snapshot.Some? {
      AnswersGetOutcome(s.waiters, s.requested, Kept(s.snapshot.value));
      AnswersGetOutcome(s.waiters, s.requested, Unchanged(s.snapshot.value, s.loop.began, config, account));
    }
    if s.loop.generation == s.requested {
      EveryoneIsSettled(s.waiters, s.requested);
      EveryoneIsSettled([], s.requested);
    }
  }

  /** Failed reads leave the snapshot alone; a superseded round answers nobody, any other everybody, if no error
      listener throws. */
  lemma FailureAnswers(s: Registry, listens: bool)
    requires RegistryOk(s) && s.loop.Reading?
    ensures var t := ReadsFail(s, listens);
      && s.settled <= t.settled && t.snapshot == s.snapshot
      && (s.loop.generation < s.requested ==> t.settled == s.settled && t.loop.Reading? && t.loop.generation == s.requested)
      && (s.loop.generation == s.requested && listens ==> t.waiters == [])
      && (s.loop.generation == s.requested ==> t.completed == s.requested && t.loop.Ended?)
      && AnsweredWith(s.settled, t.settled, Rejected)
  {
    hide Ledger, AllFresh;
    AnswersGetOutcome(s.waiters, s.requested, Rejected);
    EveryoneIsSettled(s.waiters, s.requested);
  }

  /** The end of the loop rejects everybody if it threw, and begins anew if somebody has asked meanwhile. */
  lemma FinishAnswers(s: Registry)
    requires RegistryOk(s) && s.loop.Ended?
    ensures var t := Finish(s);
      && s.settled <= t.settled && (s.loop.threw ==> t.waiters == [])
      && (if !s.disposed && s.completed < s.requested then t.loop.Reading? && t.loop.generation == s.requested
          else t.loop == Idle)
  {
    hide Ledger, AllFresh;
    EveryoneIsSettled(s.waiters, s.requested);
  }

  /** Dispose answers everybody who ever asked. */
  lemma DisposeAnswers(s: Registry)
    requires RegistryOk(s)
    ensures var t := Dispose(s); t.waiters == [] && forall g: nat :: 1 <= g <= t.requested ==> IsSettled(t.settled, g)
  {
    DisposeKeeps(s);
  }

  lemma {:induction false} EveryRunIsOk(acts: seq<Act>)
    ensures RegistryOk(Run(acts))
    decreases |acts|
  {
    hide RegistryOk, Request, ReadsSucceed, ReadsFail, Finish, Dispose;
    if acts == [] {
      NewIsOk();
    } else {
      EveryRunIsOk(acts[..|acts| - 1]);
      var s, act := Run(acts[..|acts| - 1]), acts[|acts| - 1];
      match act
      case DoRequest => RequestKeeps(s);
      case DoReadsSucceed(config, account, resolves, announces, listens) => ReadsSucceedKeeps(s, config, account, resolves, announces, listens);
      case DoReadsFail(listens) => ReadsFailKeeps(s, listens);
      case DoFinish => FinishKeeps(s);
      case DoDispose => DisposeKeeps(s);
    }
  }

  lemma NewIsOk()
    ensures RegistryOk(NEW_REGISTRY)
  {
  }

  /** Every refresh promise settles at most once. */
  lemma {:induction false} PromisesSettleOnce(acts: seq<Act>)
    ensures var s := Run(acts);
      && (forall i, j :: 0 <= i < j < |s.settled| ==> s.settled[i].waiter.generation != s.settled[j].waiter.generation)
      && (forall g: nat :: 1 <= g <= s.requested <==> IsWaiting(s.waiters, g) || IsSettled(s.settled, g))
      && (forall g: nat :: !(IsWaiting(s.waiters, g) && IsSettled(s.settled, g)))
  {
    hide Run;
    EveryRunIsOk(acts);
  }

  /** Published and unchanged answers rest on reads begun after the request; every snapshot is coherent. */
  lemma {:induction false} AnswersAreFresh(acts: seq<Act>)
    ensures var s := Run(acts);
      && (forall k :: 0 <= k < |s.settled| ==> Fresh(s.settled[k]))
      && (s.snapshot.Some? ==> Coherent(s.snapshot.value))
  {
    hide Run;
    EveryRunIsOk(acts);
  }

  /** Exactly when a round replaces the snapshot, over every run, and by what. */
  lemma {:induction false} PublishedIff(acts: seq<Act>, config: Config, account: Account, resolves: bool, announces: bool, listens: bool)
    requires Run(acts).loop.Reading?
    ensures var s, t := Run(acts), Run(acts + [DoReadsSucceed(config, account, resolves, announces, listens)]);
      && (t.snapshot != s.snapshot <==> Publishes(s, config, account, resolves))
      && (t.snapshot != s.snapshot ==>
            && t.snapshot == Some(Snapshot(config, account)) && t.waiters == []
            && AnsweredWith(s.settled, t.settled, Published(t.snapshot.value, s.loop.began)))
  {
    hide Run, ReadsSucceed, RegistryOk, Publishes;
    EveryRunIsOk(acts);
    RunOneMore(acts, DoReadsSucceed(config, account, resolves, announces, listens));
    ReadsAnswer(Run(acts), config, account, resolves, announces, listens);
  }

  /** A round that nothing has superseded is the last: whether its reads succeed or fail, and whatever the listeners do,
      the service is idle when the loop has finished, with every request seen to. */
  lemma {:induction false} RoundIsTheLast(acts: seq<Act>, act: Act)
    requires var s := Run(acts); s.loop.Reading? && s.loop.generation == s.requested && !s.disposed
    requires act.DoReadsSucceed? || act.DoReadsFail?
    ensures var t := Run(acts + [act] + [DoFinish]); t.loop == Idle && t.completed == t.requested == Run(acts).requested
  {
    hide Run, ReadsSucceed, ReadsFail, RegistryOk, Publishes;
    EveryRunIsOk(acts);
    RunOneMore(acts, act);
    RunOneMore(acts + [act], DoFinish);
    match act
    case DoReadsSucceed(config, account, resolves, announces, listens) =>
      ReadsAnswer(Run(acts), config, account, resolves, announces, listens);
      ReadsKeepRequests(Run(acts), config, account, resolves, announces, listens);
    case DoReadsFail(listens) =>
      FailureAnswers(Run(acts), listens);
      FailureKeepsRequests(Run(acts), listens);
  }

  lemma ReadsKeepRequests(s: Registry, config: Config, account: Account, resolves: bool, announces: bool, listens: bool)
    ensures var t := ReadsSucceed(s, config, account, resolves, announces, listens); t.requested == s.requested && t.disposed == s.disposed
  {
  }

  lemma FailureKeepsRequests(s: Registry, listens: bool)
    ensures ReadsFail(s, listens).requested == s.requested && ReadsFail(s, listens).disposed == s.disposed
  {
  }

  lemma RunOneMore(acts: seq<Act>, act: Act)
    ensures Run(acts + [act]) == Step(Run(acts), act)
  {
    assert (acts + [act])[..|acts|] == acts;
  }

  /** No lost wake-up: with requests outstanding and no dispose, a loop is in flight. */
  lemma {:induction false} NoLostWakeUp(acts: seq<Act>)
    ensures var s := Run(acts); !s.disposed && s.completed < s.requested ==> s.loop != Idle
  {
    hide Run;
    EveryRunIsOk(acts);
  }

  /** When the service is idle nobody waits, except before the first snapshot. */
  lemma {:induction false} IdleMeansAnswered(acts: seq<Act>)
    ensures var s := Run(acts); s.loop == Idle && s.snapshot.Some? ==> s.waiters == []
  {
    hide Run;
    EveryRunIsOk(acts);
    var s := Run(acts);
    NobodyIsNone(s.waiters);
  }

  /** Exactly when a round whose reads succeed leaves nobody waiting, whatever resolver and listeners do: there already
      is a snapshot, or the overlay is based on the Built-in revision that was read. */
  lemma {:induction false} RoundSettlesIff(acts: seq<Act>, config: Config, account: Account, resolves: bool, announces: bool, listens: bool)
    requires var s := Run(acts);
      s.loop.Reading? && s.loop.generation == s.requested && !s.disposed && s.waiters != []
    ensures var read := Step(Run(acts), DoReadsSucceed(config, account, resolves, announces, listens));
      Step(read, DoFinish).waiters == [] <==> Run(acts).snapshot.Some? || account.basedOn == config.builtinRevision
  {
    hide Run, Ledger;
    EveryRunIsOk(acts);
    var s := Run(acts);
    EveryoneIsSettled(s.waiters, s.requested);
    EveryoneIsSettled([], s.requested);
  }

  /** The exception is real: while no snapshot exists, an overlay based on another Built-in revision ends the round
      without settling its promise, and the service goes idle with the request still waiting. */
  lemma FirstMismatchLeavesWaiterBehind(config: Config, account: Account)
    requires account.basedOn != config.builtinRevision
    ensures var s := Run([DoRequest, DoReadsSucceed(config, account, true, true, true), DoFinish]);
      s.loop == Idle && !s.disposed && s.completed == s.requested && s.waiters == [Waiter(1, 1)] && s.settled == []
  {
    var one, two := [DoRequest], [DoRequest, DoReadsSucceed(config, account, true, true, true)];
    var three := [DoRequest, DoReadsSucceed(config, account, true, true, true), DoFinish];
    assert one[..0] == [] && two[..1] == one && three[..2] == two;
    assert Run([]) == NEW_REGISTRY;
    assert Run(one) == Request(NEW_REGISTRY);
    assert Run(two) == ReadsSucceed(Run(one), config, account, true, true, true);
    assert Run(three) == Finish(Run(two));
  }
}
