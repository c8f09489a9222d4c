/** Generation-numbered refresh requests and their settlement, shared by the two refresh services
    (packages/provider/src/registry-service.ts:257-273, packages/provider/src/account-provider-service.ts:219-235). */
module RefreshWaiters {
  /** `requestedAt` is the moment of the request on a logical clock. */
  datatype Waiter = Waiter(generation: nat, requestedAt: nat)

  datatype Settled<O> = Settled(waiter: Waiter, outcome: O)

  function Remaining(waiters: seq<Waiter>, generation: nat): seq<Waiter> {
    if waiters == [] then []
    else (if waiters[0].generation > generation then [waiters[0]] else []) + Remaining(waiters[1..], generation)
  }

  /** The waiters up to a generation, each with the same outcome. */
  function Answers<O>(waiters: seq<Waiter>, generation: nat, outcome: O): seq<Settled<O>> {
    if waiters == [] then []
    else (if waiters[0].generation > generation then [] else [Settled(waiters[0], outcome)])
         + Answers(waiters[1..], generation, outcome)
  }

  ghost predicate Ascending(waiters: seq<Waiter>) {
    forall i, j :: 0 <= i < j < |waiters| ==> waiters[i].generation < waiters[j].generation
  }

  ghost predicate IsWaiting(waiters: seq<Waiter>, g: nat) {
    exists k :: 0 <= k < |waiters| && waiters[k].generation == g
  }

  ghost predicate IsSettled<O>(settled: seq<Settled<O>>, g: nat) {
    exists k :: 0 <= k < |settled| && settled[k].waiter.generation == g
  }

  /** Every request from 1 to `requested` is waiting or settled, never both, and settled at most once. */
  ghost predicate Ledger<O>(waiters: seq<Waiter>, settled: seq<Settled<O>>, requested: nat) {
    && Ascending(waiters)
    && (forall i, j :: 0 <= i < j < |settled| ==> settled[i].waiter.generation != settled[j].waiter.generation)
    && (forall g: nat :: IsWaiting(waiters, g) || IsSettled(settled, g) <==> 1 <= g <= requested)
    && (forall g: nat :: !(IsWaiting(waiters, g) && IsSettled(settled, g)))
  }

  /** What remains are the later waiters, in order. */
  ghost predicate LeavesLater(waiters: seq<Waiter>, generation: nat, left: seq<Waiter>) {
    && (forall k :: 0 <= k < |left| ==> left[k].generation > generation && left[k] in waiters)
    && (forall w :: w in waiters && w.generation > generation ==> w in left)
    && Ascending(left)
  }

  /** The answered are the waiters up to the generation, each once. */
  ghost predicate AnswersEarlier<O>(waiters: seq<Waiter>, generation: nat, outcome: O, answers: seq<Settled<O>>) {
    && (forall k :: 0 <= k < |answers| ==>
          answers[k].outcome == outcome && answers[k].waiter.generation <= generation && answers[k].waiter in waiters)
    && (forall w :: w in waiters && w.generation <= generation ==> Settled(w, outcome) in answers)
    && (forall i, j :: 0 <= i < j < |answers| ==> answers[i].waiter.generation < answers[j].waiter.generation)
  }

  ghost predicate Partitioned<O>(waiters: seq<Waiter>, generation: nat, outcome: O, left: seq<Waiter>, answers: seq<Settled<O>>) {
    LeavesLater(waiters, generation, left) && AnswersEarlier(waiters, generation, outcome, answers)
  }

  lemma {:induction false} SplitPartitions<O>(waiters: seq<Waiter>, generation: nat, outcome: O)
    requires Ascending(waiters)
    ensures Partitioned(waiters, generation, outcome, Remaining(waiters, generation), Answers(waiters, generation, outcome))
  {
    hide Partitioned, Ascending;
    if waiters == [] {
      NobodyPartitioned(generation, outcome);
    } else {
      var w, rest := waiters[0], waiters[1..];
      AscendingTail(waiters);
      SplitPartitions(rest, generation, outcome);
      PartitionOneMore(w, rest, generation, outcome, Remaining(rest, generation), Answers(rest, generation, outcome));
      assert waiters == [w] + rest;
    }
  }

  lemma NobodyPartitioned<O>(generation: nat, outcome: O)
    ensures Partitioned([], generation, outcome, [], [])
  {
  }

  lemma AscendingTail(waiters: seq<Waiter>)
    requires Ascending(waiters) && waiters != []
    ensures Ascending(waiters[1..]) && forall v :: v in waiters[1..] ==> waiters[0].generation < v.generation
  {
  }

  lemma PartitionOneMore<O>(w: Waiter, rest: seq<Waiter>, generation: nat, outcome: O, left: seq<Waiter>, answers: seq<Settled<O>>)
    requires Partitioned(rest, generation, outcome, left, answers)
    requires forall v :: v in rest ==> w.generation < v.generation
    ensures Partitioned([w] + rest, generation, outcome,
      (if w.generation > generation then [w] else []) + left,
      (if w.generation > generation then [] else [Settled(w, outcome)]) + answers)
  {
    hide LeavesLater, AnswersEarlier;
    LaterOneMore(w, rest, generation, left);
    EarlierOneMore(w, rest, generation, outcome, answers);
  }

  lemma LaterOneMore(w: Waiter, rest: seq<Waiter>, generation: nat, left: seq<Waiter>)
    requires LeavesLater(rest, generation, left)
    requires forall v :: v in rest ==> w.generation < v.generation
    ensures LeavesLater([w] + rest, generation, (if w.generation > generation then [w] else []) + left)
  {
    var left' := (if w.generation > generation then [w] else []) + left;
    forall v | v in [w] + rest && v.generation > generation ensures v in left' {
      assert v in rest || v == w;
    }
    forall k | 0 <= k < |left| ensures w.generation < left[k].generation {
      assert left[k] in rest;
    }
  }

  lemma EarlierOneMore<O>(w: Waiter, rest: seq<Waiter>, generation: nat, outcome: O, answers: seq<Settled<O>>)
    requires AnswersEarlier(rest, generation, outcome, answers)
    requires forall v :: v in rest ==> w.generation < v.generation
    ensures AnswersEarlier([w] + rest, generation, outcome,
      (if w.generation > generation then [] else [Settled(w, outcome)]) + answers)
  {
    var answers' := (if w.generation > generation then [] else [Settled(w, outcome)]) + answers;
    forall v | v in [w] + rest && v.generation <= generation ensures Settled(v, outcome) in answers' {
      assert v in rest || v == w;
    }
    forall k | 0 <= k < |answers| ensures w.generation < answers[k].waiter.generation {
      assert answers[k].waiter in rest;
    }
  }

  /** Whoever was answered in between got this outcome. */
  ghost predicate AnsweredWith<O>(before: seq<Settled<O>>, after: seq<Settled<O>>, outcome: O) {
    before <= after && forall k :: |before| <= k < |after| ==> after[k].outcome == outcome
  }

  lemma {:induction false} AnswersGetOutcome<O>(waiters: seq<Waiter>, generation: nat, outcome: O)
    ensures forall k :: 0 <= k < |Answers(waiters, generation, outcome)| ==> Answers(waiters, generation, outcome)[k].outcome == outcome
  {
    if waiters != [] {
      AnswersGetOutcome(waiters[1..], generation, outcome);
    }
  }

  lemma LedgerAscends<O>(waiters: seq<Waiter>, settled: seq<Settled<O>>, requested: nat)
    requires Ledger(waiters, settled, requested)
    ensures Ascending(waiters)
  {
  }

  lemma NobodyIsNone(waiters: seq<Waiter>)
    ensures waiters == [] || exists w :: w in waiters
  {
    if waiters != [] {
      assert waiters[0] in waiters;
    }
  }

  lemma {:induction false} EveryoneIsSettled(waiters: seq<Waiter>, generation: nat)
    requires forall w :: w in waiters ==> w.generation <= generation
    ensures Remaining(waiters, generation) == []
  {
    if waiters != [] {
      EveryoneIsSettled(waiters[1..], generation);
    }
  }

  /** A new request joins the ledger. */
  lemma RequestKeepsLedger<O>(waiters: seq<Waiter>, settled: seq<Settled<O>>, requested: nat, at: nat)
    requires Ledger(waiters, settled, requested)
    ensures Ledger(waiters + [Waiter(requested + 1, at)], settled, requested + 1)
  {
    var more := waiters + [Waiter(requested + 1, at)];
    forall k | 0 <= k < |waiters| ensures waiters[k].generation <= requested {
      assert IsWaiting(waiters, waiters[k].generation);
    }
    forall g: nat ensures IsWaiting(more, g) <==> IsWaiting(waiters, g) || g == requested + 1 {
      if IsWaiting(waiters, g) {
        var k :| 0 <= k < |waiters| && waiters[k].generation == g;
        assert more[k].generation == g;
      }
      assert more[|waiters|].generation == requested + 1;
    }
  }

  /** Settling all waiters up to a generation keeps the ledger. */
  lemma SettlingKeepsLedger<O>(waiters: seq<Waiter>, settled: seq<Settled<O>>, requested: nat, generation: nat, outcome: O)
    requires Ledger(waiters, settled, requested)
    ensures Ledger(Remaining(waiters, generation), settled + Answers(waiters, generation, outcome), requested)
  {
    hide Remaining, Answers;
    SplitPartitions(waiters, generation, outcome);
    MovingKeepsLedger(waiters, settled, requested, generation, outcome,
      Remaining(waiters, generation), Answers(waiters, generation, outcome));
  }

  lemma MovingKeepsLedger<O>(waiters: seq<Waiter>, settled: seq<Settled<O>>, requested: nat, generation: nat, outcome: O,
                             left: seq<Waiter>, answers: seq<Settled<O>>)
    requires Ledger(waiters, settled, requested) && Partitioned(waiters, generation, outcome, left, answers)
    ensures Ledger(left, settled + answers, requested)
  {
    var all := settled + answers;
    forall g: nat
      ensures IsWaiting(left, g) <==> IsWaiting(waiters, g) && g > generation
    {
      if IsWaiting(left, g) {
        var k :| 0 <= k < |left| && left[k].generation == g;
        var n :| 0 <= n < |waiters| && waiters[n] == left[k];
      }
      if IsWaiting(waiters, g) && g > generation {
        var k :| 0 <= k < |waiters| && waiters[k].generation == g;
        assert waiters[k] in left;
      }
    }
    forall g: nat
      ensures IsSettled(all, g) <==> IsSettled(settled, g) || (IsWaiting(waiters, g) && g <= generation)
    {
      MovedAreSettled(waiters, settled, generation, outcome, left, answers, g);
    }
    forall i, j | 0 <= i < j < |all| ensures all[i].waiter.generation != all[j].waiter.generation {
      if i < |settled| <= j {
        var w := answers[j - |settled|].waiter;
        var n :| 0 <= n < |waiters| && waiters[n] == w;
        assert IsWaiting(waiters, w.generation) && IsSettled(settled, settled[i].waiter.generation);
      }
    }
  }

  lemma MovedAreSettled<O>(waiters: seq<Waiter>, settled: seq<Settled<O>>, generation: nat, outcome: O,
                           left: seq<Waiter>, answers: seq<Settled<O>>, g: nat)
    requires Partitioned(waiters, generation, outcome, left, answers)
    ensures IsSettled(settled + answers, g) <==> IsSettled(settled, g) || (IsWaiting(waiters, g) && g <= generation)
  {
    var all := settled + answers;
    if IsSettled(settled, g) {
      var k :| 0 <= k < |settled| && settled[k].waiter.generation == g;
      assert all[k].waiter.generation == g;
    }
    if IsWaiting(waiters, g) && g <= generation {
      var k :| 0 <= k < |waiters| && waiters[k].generation == g;
      assert waiters[k] in waiters;
      var n :| 0 <= n < |answers| && answers[n] == Settled(waiters[k], outcome);
      assert all[|settled| + n].waiter.generation == g;
    }
    if IsSettled(all, g) {
      var k :| 0 <= k < |all| && all[k].waiter.generation == g;
      if k < |settled| {
        assert settled[k].waiter.generation == g;
      } else {
        var n :| 0 <= n < |waiters| && waiters[n] == answers[k - |settled|].waiter;
        assert IsWaiting(waiters, g);
      }
    }
  }

  /** The loop of resolveRefreshWaiters and rejectRefreshWaiters. */
  method SettleWaiters<O>(waiters: seq<Waiter>, generation: nat, outcome: O)
      returns (remaining: seq<Waiter>, settled: seq<Settled<O>>)
    ensures remaining == Remaining(waiters, generation)
    ensures settled == Answers(waiters, generation, outcome)
  {
    remaining, settled := [], [];
    for i := 0 to |waiters|
      invariant remaining + Remaining(waiters[i..], generation) == Remaining(waiters, generation)
      invariant settled + Answers(waiters[i..], generation, outcome) == Answers(waiters, generation, outcome)
    {
      assert waiters[i..][1..] == waiters[i + 1..];
      if waiters[i].generation <= generation {
        settled := settled + [Settled(waiters[i], outcome)];
      } else {
        remaining := remaining + [waiters[i]];
      }
    }
    assert waiters[|waiters|..] == [];
  }
}
