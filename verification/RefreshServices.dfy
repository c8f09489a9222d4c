/** The two refresh services as objects (packages/provider/src/registry-service.ts,
    packages/provider/src/account-provider-service.ts).  A method is what the service does between two awaits;
    `settled` records the settlements of the refresh promises, and the clock orders requests and reads. */
module RefreshServices {
  import opened Options
  import opened RefreshWaiters
  import R = RegistryRefresh
  import A = AccountRefresh

  class ProviderRegistryService {
    var requestedGeneration: nat
    var completedGeneration: nat
    var refreshWaiters: seq<Waiter>
    var snapshot: Option<R.Snapshot>
    var refreshInFlight: R.Loop
    var disposed: bool
    var settled: seq<Settled<R.Outcome>>
    var clock: nat

    ghost function State(): R.Registry
      reads this
    {
      R.Registry(requestedGeneration, completedGeneration, refreshWaiters, settled, snapshot, refreshInFlight, disposed, clock)
    }

    /** What every run of the service keeps. */
    ghost predicate Valid()
      reads this
    {
      R.RegistryOk(State())
    }

    constructor ()
      ensures Valid() && State() == R.NEW_REGISTRY
    {
      requestedGeneration, completedGeneration, refreshWaiters, snapshot := 0, 0, [], None;
      refreshInFlight, disposed, settled, clock := R.Idle, false, [], 0;
    }

    /** The caller's promise is the newest generation; it waits, and a loop is in flight to answer it. */
    method RequestRefresh()
      requires Valid()
      modifies this
      ensures Valid() && State() == R.Request(old(State()))
      ensures settled == old(settled) && snapshot == old(snapshot)
      ensures !disposed ==>
        && requestedGeneration == old(requestedGeneration) + 1 && refreshInFlight != R.Idle
        && IsWaiting(refreshWaiters, requestedGeneration) && !IsSettled(settled, requestedGeneration)
    {
      hide R.RegistryOk, Ledger;
      R.RequestKeeps(State());
      R.RequestWaits(State());
      if disposed {
        return;
      }
      requestedGeneration := requestedGeneration + 1;
      clock := clock + 1;
      refreshWaiters := refreshWaiters + [Waiter(requestedGeneration, clock)];
      EnsureRefreshLoop();
    }

    method EnsureRefreshLoop()
      modifies this
      ensures State() == R.EnsureLoop(old(State()))
    {
      if refreshInFlight != R.Idle || disposed {
        return;
      }
      LoopHead();
    }

    /** The loop condition, and the beginning of a round if it holds. */
    method LoopHead()
      modifies this
      ensures State() == R.NextRound(old(State()))
    {
      if completedGeneration < requestedGeneration {
        clock := clock + 1;
        refreshInFlight := R.Reading(requestedGeneration, clock);
      } else {
        refreshInFlight := R.Ended(false);
      }
    }

    method SettleRefreshWaiters(generation: nat, outcome: R.Outcome)
      modifies this
      ensures State() == R.SettleUpTo(old(State()), generation, outcome)
    {
      var remaining, answers := SettleWaiters(refreshWaiters, generation, outcome);
      refreshWaiters := remaining;
      settled := settled + answers;
    }

    /** The reads of a round came back.  A superseded round answers nobody.  The snapshot changes exactly if the pair that
        was read is to be published, to that very pair, and then everybody is answered with it. */
    method OnReads(config: R.Config, account: R.Account, resolves: bool, announces: bool, listens: bool)
      requires Valid()
      modifies this
      ensures Valid() && State() == R.ReadsSucceed(old(State()), config, account, resolves, announces, listens)
      ensures old(settled) <= settled
      ensures if R.Publishes(old(State()), config, account, resolves)
        then
          && snapshot == Some(R.Snapshot(config, account)) && refreshWaiters == []
          && AnsweredWith(old(settled), settled, R.Published(snapshot.value, old(refreshInFlight).began))
        else snapshot == old(snapshot)
      ensures old(refreshInFlight.Reading?) && old(refreshInFlight).generation < old(requestedGeneration) ==>
        settled == old(settled) && refreshInFlight.Reading? && refreshInFlight.generation == requestedGeneration
      ensures old(refreshInFlight.Reading?) && old(refreshInFlight).generation == old(requestedGeneration) && !disposed && listens ==>
        (old(snapshot).Some? || account.basedOn == config.builtinRevision) ==> refreshWaiters == []
      ensures old(refreshInFlight.Reading?) && old(refreshInFlight).generation == old(requestedGeneration) && !disposed ==>
        completedGeneration == requestedGeneration == old(requestedGeneration) && refreshInFlight.Ended?
    {
      hide R.RegistryOk, AnsweredWith;
      if !refreshInFlight.Reading? {
        return;
      }
      R.ReadsSucceedKeeps(State(), config, account, resolves, announces, listens);
      R.ReadsAnswer(State(), config, account, resolves, announces, listens);
      var generation, began := refreshInFlight.generation, refreshInFlight.began;
      if generation < requestedGeneration {
        LoopHead();
        return;
      }
      if disposed {
        refreshInFlight := R.Ended(true);
        return;
      }
      completedGeneration := generation;
      if account.basedOn != config.builtinRevision {
        if snapshot.Some? {
          SettleRefreshWaiters(generation, R.Kept(snapshot.value));
        }
        LoopHead();
        return;
      }
      if snapshot.Some? && snapshot.value.config.revision == config.revision && snapshot.value.account.revision == account.revision {
        SettleRefreshWaiters(generation, R.Unchanged(snapshot.value, began, config, account));
        LoopHead();
        return;
      }
      if !resolves {
        RejectRound(generation, listens);
        return;
      }
      snapshot := Some(R.Snapshot(config, account));
      SettleRefreshWaiters(generation, R.Published(snapshot.value, began));
      if announces {
        LoopHead();
      } else {
        RejectRound(generation, listens);
      }
    }

    method RejectRound(generation: nat, listens: bool)
      modifies this
      ensures State() == R.FailRound(old(State()), generation, listens)
    {
      if listens {
        SettleRefreshWaiters(generation, R.Rejected);
        refreshInFlight := R.Ended(false);
      } else {
        refreshInFlight := R.Ended(true);
      }
    }

    /** The reads of a round failed.  The snapshot stays.  Unless the round was superseded everybody is rejected, here
        if no error listener throws and otherwise when the loop has finished (FinishRefresh). */
    method OnReadError(listens: bool)
      requires Valid()
      modifies this
      ensures Valid() && State() == R.ReadsFail(old(State()), listens)
      ensures old(settled) <= settled && snapshot == old(snapshot)
      ensures old(refreshInFlight.Reading?) && old(refreshInFlight).generation < old(requestedGeneration) ==>
        settled == old(settled) && refreshInFlight.Reading? && refreshInFlight.generation == requestedGeneration
      ensures old(refreshInFlight.Reading?) && old(refreshInFlight).generation == old(requestedGeneration) && listens ==>
        refreshWaiters == []
      ensures old(refreshInFlight.Reading?) && old(refreshInFlight).generation == old(requestedGeneration) ==>
        completedGeneration == requestedGeneration == old(requestedGeneration) && refreshInFlight.Ended?
      ensures AnsweredWith(old(settled), settled, R.Rejected)
    {
      hide R.RegistryOk;
      if !refreshInFlight.Reading? {
        return;
      }
      R.ReadsFailKeeps(State(), listens);
      R.FailureAnswers(State(), listens);
      var generation := refreshInFlight.generation;
      if generation < requestedGeneration {
        LoopHead();
        return;
      }
      completedGeneration := generation;
      RejectRound(generation, listens);
    }

    /** The promise of the loop has settled.  After a throw nobody is left waiting; a request that came in meanwhile
        starts the next round. */
    method FinishRefresh()
      requires Valid()
      modifies this
      ensures Valid() && State() == R.Finish(old(State()))
      ensures old(settled) <= settled
      ensures old(refreshInFlight) == R.Ended(true) ==> refreshWaiters == []
      ensures old(refreshInFlight.Ended?) ==>
        if !disposed && completedGeneration < requestedGeneration
        then refreshInFlight.Reading? && refreshInFlight.generation == requestedGeneration
        else refreshInFlight == R.Idle
    {
      hide R.RegistryOk;
      if !refreshInFlight.Ended? {
        return;
      }
      R.FinishKeeps(State());
      R.FinishAnswers(State());
      if refreshInFlight.threw {
        SettleRefreshWaiters(requestedGeneration, R.Rejected);
      }
      refreshInFlight := R.Idle;
      if completedGeneration < requestedGeneration {
        EnsureRefreshLoop();
      }
    }

    /** Nobody is left waiting: every promise ever made has settled. */
    method Dispose()
      requires Valid()
      modifies this
      ensures Valid() && State() == R.Dispose(old(State()))
      ensures refreshWaiters == [] && forall g: nat :: 1 <= g <= requestedGeneration ==> IsSettled(settled, g)
    {
      R.DisposeKeeps(State());
      R.DisposeAnswers(State());
      if disposed {
        return;
      }
      disposed := true;
      SettleRefreshWaiters(requestedGeneration, R.Rejected);
    }
  }

  class AccountProviderService {
    var requestedGeneration: nat
    var pendingReasons: set<string>
    var refreshWaiters: seq<Waiter>
    var snapshot: Option<A.Snapshot>
    var published: seq<A.Publication>
    var refreshInFlight: A.Loop
    var disposed: bool
    var settled: seq<Settled<A.Outcome>>
    var clock: nat

    ghost function State(): A.Service
      reads this
    {
      A.Service(requestedGeneration, pendingReasons, refreshWaiters, settled, snapshot, published, refreshInFlight, disposed, clock)
    }

    /** What every run of the service keeps. */
    ghost predicate Valid()
      reads this
    {
      A.ServiceOk(State()) && A.PublishedOk(State())
    }

    constructor ()
      ensures Valid() && State() == A.NEW_SERVICE
    {
      requestedGeneration, pendingReasons, refreshWaiters, snapshot, published := 0, {}, [], None, [];
      refreshInFlight, disposed, settled, clock := A.Idle, false, [], 0;
    }

    /** The caller's promise is the newest generation; it waits, and a loop is in flight to answer it. */
    method RequestRefresh(reason: string)
      requires Valid()
      modifies this
      ensures Valid() && State() == A.Request(old(State()), reason)
      ensures settled == old(settled) && published == old(published)
      ensures !disposed ==>
        && requestedGeneration == old(requestedGeneration) + 1 && refreshInFlight != A.Idle
        && IsWaiting(refreshWaiters, requestedGeneration) && !IsSettled(settled, requestedGeneration)
    {
      hide A.ServiceOk, A.PublishedOk, IsWaiting, IsSettled;
      A.StepKeeps(State(), A.DoRequest(reason));
      A.StepKeepsPublished(State(), A.DoRequest(reason));
      if disposed {
        return;
      }
      A.RequestWaits(State(), reason);
      requestedGeneration := requestedGeneration + 1;
      clock := clock + 1;
      pendingReasons := pendingReasons + {reason};
      refreshWaiters := refreshWaiters + [Waiter(requestedGeneration, clock)];
      if refreshInFlight == A.Idle {
        LoopHead();
      }
    }

    method LoopHead()
      modifies this
      ensures State() == A.NextRound(old(State()))
    {
      if pendingReasons != {} {
        clock := clock + 1;
        pendingReasons := {};
        refreshInFlight := A.ReadingConfig(requestedGeneration, clock);
      } else {
        refreshInFlight := A.Ended;
      }
    }

    method SettleRefreshWaiters(generation: nat, outcome: A.Outcome)
      modifies this
      ensures State() == A.SettleUpTo(old(State()), generation, outcome)
    {
      var remaining, answers := SettleWaiters(refreshWaiters, generation, outcome);
      refreshWaiters := remaining;
      settled := settled + answers;
    }

    /** The first read of a round; nobody is answered yet. */
    method OnConfigRead(builtinRevision: string)
      requires Valid()
      modifies this
      ensures Valid() && State() == A.ConfigRead(old(State()), builtinRevision)
      ensures settled == old(settled) && published == old(published) && snapshot == old(snapshot)
      ensures old(refreshInFlight.ReadingConfig?) ==>
        refreshInFlight == A.Resolving(old(refreshInFlight).generation, old(refreshInFlight).began, builtinRevision)
    {
      A.StepKeeps(State(), A.DoConfigRead(builtinRevision));
      A.StepKeepsPublished(State(), A.DoConfigRead(builtinRevision));
      if refreshInFlight.ReadingConfig? {
        refreshInFlight := A.Resolving(refreshInFlight.generation, refreshInFlight.began, builtinRevision);
      }
    }

    /** The resolver has answered; nobody else is yet.  If the service was disposed meanwhile the round fails here. */
    method OnOverlayResolved(revision: string)
      requires Valid()
      modifies this
      ensures Valid() && State() == A.OverlayResolved(old(State()), revision)
      ensures old(settled) <= settled && (!disposed ==> settled == old(settled) && published == old(published))
      ensures disposed && old(refreshInFlight.Resolving?) ==> !A.InRound(refreshInFlight) || refreshInFlight.ReadingConfig?
      ensures disposed ==> published == old(published) || (snapshot.Some? && snapshot.value.failClosed)
      ensures old(refreshInFlight.Resolving?) && !disposed ==>
        refreshInFlight == A.Rechecking(old(refreshInFlight).generation, old(refreshInFlight).began,
                                        old(refreshInFlight).builtinRevision, revision)
    {
      hide A.ServiceOk, A.PublishedOk;
      A.StepKeeps(State(), A.DoOverlayResolved(revision));
      A.StepKeepsPublished(State(), A.DoOverlayResolved(revision));
      if !refreshInFlight.Resolving? {
        return;
      }
      if disposed {
        OnError(true);
        return;
      }
      refreshInFlight := A.Rechecking(
        refreshInFlight.generation, refreshInFlight.began, refreshInFlight.builtinRevision, revision);
    }

    /** The second read of a round.  A superseded round publishes nothing, answers nobody and is repeated.  Any other
        leaves a snapshot of the revision that the resolver returned, answers everybody with it, and publishes it
        exactly if that is not the revision held before. */
    method OnRechecked(builtinRevision: string)
      requires Valid()
      modifies this
      ensures Valid() && State() == A.Rechecked(old(State()), builtinRevision)
      ensures disposed ==> published == old(published) || (snapshot.Some? && snapshot.value.failClosed)
      ensures old(refreshInFlight.Rechecking?) && !disposed ==>
        if old(pendingReasons) != {} || builtinRevision != old(refreshInFlight).builtinRevision
        then
          && settled == old(settled) && published == old(published) && snapshot == old(snapshot)
          && refreshInFlight.ReadingConfig? && refreshInFlight.generation == requestedGeneration
        else
          && refreshInFlight == A.Ended && refreshWaiters == []
          && snapshot.Some? && snapshot.value.revision == old(refreshInFlight).revision
          && AnsweredWith(old(settled), settled, A.Resolved(snapshot.value, old(refreshInFlight).began))
          && (if old(snapshot).Some? && old(snapshot).value.revision == old(refreshInFlight).revision
              then snapshot == old(snapshot) && published == old(published)
              else |published| == |old(published)| + 1 && old(published) <= published
                   && published[|old(published)|].snapshot == snapshot.value
                   && snapshot.value.basedOn == builtinRevision && !snapshot.value.failClosed)
    {
      hide A.ServiceOk, A.PublishedOk;
      A.StepKeeps(State(), A.DoRechecked(builtinRevision));
      A.StepKeepsPublished(State(), A.DoRechecked(builtinRevision));
      if refreshInFlight.Rechecking? && !disposed {
        A.RecheckAnswers(State(), builtinRevision);
      }
      if !refreshInFlight.Rechecking? {
        return;
      }
      if disposed {
        OnError(true);
        return;
      }
      var round := refreshInFlight;
      if pendingReasons != {} || builtinRevision != round.builtinRevision {
        pendingReasons := pendingReasons + {"superseded-resolution"};
        LoopHead();
        return;
      }
      if snapshot.Some? && snapshot.value.revision == round.revision {
        SettleRefreshWaiters(round.generation, A.Resolved(snapshot.value, round.began));
        LoopHead();
        return;
      }
      var next := A.Snapshot(round.revision, round.builtinRevision, false, round.began);
      Publish(A.Publication(next, round.generation, requestedGeneration, builtinRevision));
      SettleRefreshWaiters(round.generation, A.Resolved(snapshot.value, round.began));
      LoopHead();
    }

    method Publish(news: A.Publication)
      modifies this
      ensures State() == A.Publish(old(State()), news)
    {
      snapshot := Some(news.snapshot);
      published := published + [news];
    }

    /** The catch clause of the loop; `listens` says that no error listener throws.  Then everybody whom the round was for
        is answered, otherwise nobody.  A first failure after the configuration was read publishes the fail-closed
        overlay and answers with it; any other leaves the snapshot alone and rejects. */
    method OnError(listens: bool)
      requires Valid()
      modifies this
      ensures Valid() && State() == A.RoundFails(old(State()), listens)
      ensures old(settled) <= settled && old(published) <= published
      ensures A.InRound(old(refreshInFlight)) ==>
        if listens then forall w :: w in refreshWaiters ==> w.generation > old(refreshInFlight).generation
        else settled == old(settled) && refreshWaiters == old(refreshWaiters)
      ensures A.InRound(old(refreshInFlight)) ==>
        if listens && old(snapshot) == None && !old(refreshInFlight.ReadingConfig?)
        then
          && snapshot == Some(A.Snapshot("fail-closed", old(refreshInFlight).builtinRevision, true, old(refreshInFlight).began))
          && AnsweredWith(old(settled), settled, A.Resolved(snapshot.value, old(refreshInFlight).began))
          && |published| == |old(published)| + 1 && published[|old(published)|].snapshot == snapshot.value
        else
          && snapshot == old(snapshot) && published == old(published) && refreshInFlight == A.Ended
          && AnsweredWith(old(settled), settled, A.Rejected(old(refreshInFlight).began))
    {
      hide A.ServiceOk, A.PublishedOk;
      A.StepKeeps(State(), A.DoRoundFails(listens));
      A.StepKeepsPublished(State(), A.DoRoundFails(listens));
      if A.InRound(refreshInFlight) {
        A.FailureAnswers(State(), listens);
      }
      if refreshInFlight.Idle? || refreshInFlight.Ended? {
        return;
      }
      if !listens {
        refreshInFlight := A.Ended;
        return;
      }
      var round := refreshInFlight;
      if snapshot == None && !round.ReadingConfig? {
        var closed := A.Snapshot("fail-closed", round.builtinRevision, true, round.began);
        Publish(A.Publication(closed, round.generation, requestedGeneration, round.builtinRevision));
        SettleRefreshWaiters(round.generation, A.Resolved(snapshot.value, round.began));
        LoopHead();
        return;
      }
      SettleRefreshWaiters(round.generation, A.Rejected(round.began));
      refreshInFlight := A.Ended;
    }

    /** The promise of the loop has settled; reasons that came in meanwhile start the next round. */
    method FinishRefresh()
      requires Valid()
      modifies this
      ensures Valid() && State() == A.Finish(old(State()))
      ensures settled == old(settled) && published == old(published)
      ensures old(refreshInFlight.Ended?) ==>
        if !disposed && old(pendingReasons) != {}
        then refreshInFlight.ReadingConfig? && refreshInFlight.generation == requestedGeneration
        else refreshInFlight == A.Idle
    {
      A.StepKeeps(State(), A.DoFinish);
      A.StepKeepsPublished(State(), A.DoFinish);
      if !refreshInFlight.Ended? {
        return;
      }
      refreshInFlight := A.Idle;
      if disposed || pendingReasons == {} {
        return;
      }
      LoopHead();
    }

    /** Nobody is left waiting: every promise ever made has settled. */
    method Dispose()
      requires Valid()
      modifies this
      ensures Valid() && State() == A.Dispose(old(State()))
      ensures refreshWaiters == [] && forall g: nat :: 1 <= g <= requestedGeneration ==> IsSettled(settled, g)
    {
      hide A.ServiceOk, A.PublishedOk;
      A.StepKeeps(State(), A.DoDispose);
      A.StepKeepsPublished(State(), A.DoDispose);
      A.DisposeAnswers(State());
      if disposed {
        return;
      }
      disposed := true;
      SettleRefreshWaiters(requestedGeneration, A.Disposed);
    }
  }
}
