/** The lease by which processes share one remote refresh
    (packages/provider-node/src/dave-builtin-remote-synchronizer.ts:81-168).

    The control file is one register, and each section under its lock is one step at one clock reading. */
module RefreshLease {
  import opened Options
  import Buffers

  datatype Control = Control(endpointKey: string, leaseId: Option<nat>, leaseUntil: int, nextEligibleAt: int, failureCount: nat)

  const EMPTY_CONTROL := Control("", None, 0, 0, 0)

  datatype Timing = Timing(successInterval: nat, leaseDuration: nat, failureBase: nat, failureMax: nat)

  datatype Attempt = Acquired | LeaseHeld | NotDue

  datatype Ending = Succeeded | Failed | WasCancelled

  datatype Acquisition = Acquisition(attempt: Attempt, control: Control)

  /** The acquiring section of #refresh. */
  function Acquire(c: Control, t: Timing, now: int, endpointKey: string, leaseId: nat, force: bool): Acquisition {
    var sameEndpoint := c.endpointKey == endpointKey;
    if sameEndpoint && c.leaseUntil > now then Acquisition(LeaseHeld, c)
    else if !force && sameEndpoint && c.nextEligibleAt > now then Acquisition(NotDue, c)
    else Acquisition(Acquired, Control(endpointKey, Some(leaseId), now + t.leaseDuration,
                                       if sameEndpoint then c.nextEligibleAt else 0,
                                       if sameEndpoint then c.failureCount else 0))
  }

  function Min(a: nat, b: nat): nat {
    if a < b then a else b
  }

  function FailureDelay(t: Timing, failures: nat): nat {
    Min(t.failureBase * Buffers.Pow2(if failures == 0 then 0 else failures - 1), t.failureMax)
  }

  /** #finishLease: only the holder named in the record may end the lease. */
  function Finish(c: Control, t: Timing, now: int, endpointKey: string, leaseId: nat, ending: Ending): Control {
    if c.endpointKey != endpointKey || c.leaseId != Some(leaseId) then c
    else
      Control(endpointKey, None, 0, now + DelayAfter(c, t, ending), FailuresAfter(c, ending))
  }

  function FailuresAfter(c: Control, ending: Ending): nat {
    match ending
    case WasCancelled => c.failureCount
    case Succeeded => 0
    case Failed => c.failureCount + 1
  }

  function DelayAfter(c: Control, t: Timing, ending: Ending): nat {
    match ending
    case WasCancelled => 0
    case Succeeded => t.successInterval
    case Failed => FailureDelay(t, FailuresAfter(c, ending))
  }

  // ---------- processes sharing one control file ----------

  /** A granted lease, with the moment it was finished if it was. */
  datatype Lease = Lease(from: int, until: int, finished: Option<int>)

  /** `leases[id]` is the lease granted under an id. */
  datatype World = World(control: Control, clock: int, leases: seq<Lease>)

  datatype Act =
    | Tick(elapsed: nat)
    | TryAcquire(force: bool)
    | EndLease(leaseId: nat, ending: Ending)

  function Step(t: Timing, key: string, w: World, act: Act): World {
    match act
    case Tick(elapsed) => w.(clock := w.clock + elapsed)
    case TryAcquire(force) =>
      var a := Acquire(w.control, t, w.clock, key, |w.leases|, force);
      if a.attempt == Acquired then
        w.(control := a.control, leases := w.leases + [Lease(w.clock, w.clock + t.leaseDuration, None)])
      else w
    case EndLease(leaseId, ending) =>
      if leaseId >= |w.leases| then w
      else
        var lease := w.leases[leaseId];
        w.(control := Finish(w.control, t, w.clock, key, leaseId, ending),
           leases := if lease.finished == None then w.leases[leaseId := lease.(finished := Some(w.clock))] else w.leases)
  }

  function RunFrom(t: Timing, key: string, w: World, acts: seq<Act>): World
    decreases |acts|
  {
    if acts == [] then w else Step(t, key, RunFrom(t, key, w, acts[..|acts| - 1]), acts[|acts| - 1])
  }

  function Run(t: Timing, key: string, start: int, acts: seq<Act>): World {
    RunFrom(t, key, World(EMPTY_CONTROL, start, []), acts)
  }

  /** A lease is over when it expires or is finished. */
  function OverAt(l: Lease): int {
    if l.finished.Some? && l.finished.value < l.until then l.finished.value else l.until
  }

  /** Each lease is over before the next one begins. */
  ghost predicate InSequence(leases: seq<Lease>) {
    forall i, j :: 0 <= i < j < |leases| ==> OverAt(leases[i]) <= leases[j].from
  }

  ghost predicate WorldOk(key: string, w: World) {
    && InSequence(w.leases)
    && (forall i :: 0 <= i < |w.leases| ==> w.leases[i].from <= w.clock && w.leases[i].from <= OverAt(w.leases[i]))
    && (w.leases != [] ==> w.control.endpointKey == key)
    && (forall i :: 0 <= i < |w.leases| - 1 ==> OverAt(w.leases[i]) <= w.clock)
    && (w.leases != [] ==>
          var last := w.leases[|w.leases| - 1];
          if w.control.leaseId == None then last.finished.Some? && OverAt(last) <= w.clock && w.control.leaseUntil == 0
          else w.control.leaseId == Some(|w.leases| - 1) && w.control.leaseUntil == last.until && last.finished == None)
    && (w.leases == [] ==> w.control == EMPTY_CONTROL)
  }

  lemma TickKeeps(t: Timing, key: string, w: World, elapsed: nat)
    requires WorldOk(key, w)
    ensures WorldOk(key, Step(t, key, w, Tick(elapsed)))
  {
  }

  lemma AcquireKeeps(t: Timing, key: string, w: World, force: bool)
    requires WorldOk(key, w)
    ensures WorldOk(key, Step(t, key, w, TryAcquire(force)))
  {
    var n := |w.leases|;
    if Acquire(w.control, t, w.clock, key, n, force).attempt == Acquired && n > 0 {
      var last := w.leases[n - 1];
      assert OverAt(last) <= w.clock;
      forall i | 0 <= i < n ensures OverAt(w.leases[i]) <= w.clock {}
    }
  }

  lemma EndKeeps(t: Timing, key: string, w: World, leaseId: nat, ending: Ending)
    requires WorldOk(key, w)
    ensures WorldOk(key, Step(t, key, w, EndLease(leaseId, ending)))
  {
    hide DelayAfter, FailuresAfter;
    if leaseId < |w.leases| {
      var v := Step(t, key, w, EndLease(leaseId, ending));
      assert forall i :: 0 <= i < |w.leases| ==> OverAt(v.leases[i]) <= OverAt(w.leases[i]) && v.leases[i].from == w.leases[i].from;
    }
  }

  lemma EveryRunIsOk(t: Timing, key: string, start: int, acts: seq<Act>)
    ensures WorldOk(key, Run(t, key, start, acts))
  {
    RunFromIsOk(t, key, World(EMPTY_CONTROL, start, []), acts);
  }

  /** Mutual exclusion: at no moment do two different leases live. */
  lemma {:induction false} LeasesNeverOverlap(t: Timing, key: string, start: int, acts: seq<Act>, i: nat, j: nat, moment: int)
    requires i < |Run(t, key, start, acts).leases| && j < |Run(t, key, start, acts).leases|
    requires var l := Run(t, key, start, acts).leases[i]; l.from <= moment < OverAt(l)
    requires var l := Run(t, key, start, acts).leases[j]; l.from <= moment < OverAt(l)
    ensures i == j
  {
    hide Run;
    EveryRunIsOk(t, key, start, acts);
  }

  /** Finishing a lease that is no longer the newest, or finishing one twice, changes nothing in the record. */
  lemma {:induction false} LateFinishIsHarmless(t: Timing, key: string, start: int, acts: seq<Act>, leaseId: nat, ending: Ending)
    requires var w := Run(t, key, start, acts);
      leaseId < |w.leases| && (leaseId + 1 < |w.leases| || w.leases[leaseId].finished.Some?)
    ensures Step(t, key, Run(t, key, start, acts), EndLease(leaseId, ending)).control == Run(t, key, start, acts).control
  {
    hide Run;
    EveryRunIsOk(t, key, start, acts);
  }

  /** After the holder's own finish the lease is free, and an unforced attempt succeeds exactly when the delay is over. */
  lemma {:induction false} FinishReleases(t: Timing, key: string, start: nat, acts: seq<Act>, ending: Ending, later: nat)
    requires var w := Run(t, key, start, acts); w.leases != [] && w.leases[|w.leases| - 1].finished == None
    ensures var w := Run(t, key, start, acts);
      var c := Step(t, key, w, EndLease(|w.leases| - 1, ending)).control;
      Acquire(c, t, w.clock + later, key, |w.leases|, false).attempt
        == if later >= DelayAfter(w.control, t, ending) then Acquired else NotDue
  {
    EveryRunIsOk(t, key, start, acts);
    ClockRuns(t, key, World(EMPTY_CONTROL, start, []), acts);
    hide RunFrom, FailureDelay;
  }

  lemma {:induction false} ClockRuns(t: Timing, key: string, w: World, acts: seq<Act>)
    ensures RunFrom(t, key, w, acts).clock >= w.clock
    decreases |acts|
  {
    if acts != [] {
      ClockRuns(t, key, w, acts[..|acts| - 1]);
    }
  }

  /** The failure delay begins at its base and doubles up to its cap: it never shrinks and never exceeds the cap. */
  lemma {:induction false} FailureDelayGrows(t: Timing, failures: nat)
    ensures FailureDelay(t, 1) == Min(t.failureBase, t.failureMax)
    ensures FailureDelay(t, failures) <= FailureDelay(t, failures + 1) <= t.failureMax
    ensures failures >= 1 ==> FailureDelay(t, failures + 1) == Min(2 * FailureDelay(t, failures), t.failureMax)
  {
  }

  /** Over any run: between two failures of the current holders with nothing but failures, attempts and time between
      them, the second delay is at least the first. */
  lemma {:induction false} DelaysNeverShrink(t: Timing, key: string, w: World, acts: seq<Act>)
    requires WorldOk(key, w)
    requires forall k :: 0 <= k < |acts| && acts[k].EndLease? ==> acts[k].ending == Failed
    ensures var v := RunFrom(t, key, w, acts);
      && (w.leases != [] ==> w.control.failureCount <= v.control.failureCount)
      && (w.leases != [] ==> DelayAfter(w.control, t, Failed) <= DelayAfter(v.control, t, Failed) <= t.failureMax)
    decreases |acts|
  {
    hide FailureDelay, WorldOk;
    if acts == [] {
      FailureDelayGrows(t, w.control.failureCount);
    } else {
      var shorter := acts[..|acts| - 1];
      DelaysNeverShrink(t, key, w, shorter);
      var v := RunFrom(t, key, w, shorter);
      RunFromIsOk(t, key, w, shorter);
      StepKeeps(t, key, v, acts[|acts| - 1]);
      if w.leases != [] {
        assert v.leases != [] by { LeasesStay(t, key, w, shorter); }
        FailuresOnlyGrow(t, key, v, acts[|acts| - 1]);
        FailureDelayGrows(t, v.control.failureCount + 1);
        FailureDelayGrows(t, v.control.failureCount);
      }
    }
  }

  /** The end of a lease counts if it is that lease's first and no newer one was granted. */
  ghost predicate Counts(w: World, leaseId: nat) {
    leaseId + 1 == |w.leases| && w.leases[leaseId].finished == None
  }

  /** How many ends in a row were failures: the ones since the last success, cancellations aside. */
  ghost function Streak(t: Timing, key: string, start: int, acts: seq<Act>): nat
    decreases |acts|
  {
    if acts == [] then 0
    else
      var before, act := acts[..|acts| - 1], acts[|acts| - 1];
      if act.EndLease? && Counts(Run(t, key, start, before), act.leaseId) then
        match act.ending
        case Succeeded => 0
        case Failed => Streak(t, key, start, before) + 1
        case WasCancelled => Streak(t, key, start, before)
      else Streak(t, key, start, before)
  }

  /** When the next unforced refresh is due: the delay after the last end that counts. */
  ghost function DueAt(t: Timing, key: string, start: int, acts: seq<Act>): int
    decreases |acts|
  {
    if acts == [] then 0
    else
      var before, act := acts[..|acts| - 1], acts[|acts| - 1];
      var w := Run(t, key, start, before);
      if act.EndLease? && Counts(w, act.leaseId) then
        match act.ending
        case Succeeded => w.clock + t.successInterval
        case Failed => w.clock + FailureDelay(t, Streak(t, key, start, acts))
        case WasCancelled => w.clock
      else DueAt(t, key, start, before)
  }

  /** Over every run: the record counts the failures since the last success, and the next refresh is due when the delay
      after the last end is over: the success interval, the failure delay, or at once after a cancellation. */
  lemma {:induction false} RecordTellsHistory(t: Timing, key: string, start: int, acts: seq<Act>)
    ensures var w := Run(t, key, start, acts);
      w.control.failureCount == Streak(t, key, start, acts) && w.control.nextEligibleAt == DueAt(t, key, start, acts)
    decreases |acts|
  {
    if acts != [] {
      hide FailureDelay, WorldOk;
      var before, act := acts[..|acts| - 1], acts[|acts| - 1];
      RecordTellsHistory(t, key, start, before);
      EveryRunIsOk(t, key, start, before);
      StepTells(t, key, Run(t, key, start, before), act);
    }
  }

  lemma StepTells(t: Timing, key: string, w: World, act: Act)
    requires WorldOk(key, w)
    ensures var v := Step(t, key, w, act);
      if act.EndLease? && Counts(w, act.leaseId) then
        match act.ending
        case Succeeded => v.control.failureCount == 0 && v.control.nextEligibleAt == w.clock + t.successInterval
        case Failed => v.control.failureCount == w.control.failureCount + 1
                       && v.control.nextEligibleAt == w.clock + FailureDelay(t, v.control.failureCount)
        case WasCancelled => v.control.failureCount == w.control.failureCount && v.control.nextEligibleAt == w.clock
      else v.control.failureCount == w.control.failureCount && v.control.nextEligibleAt == w.control.nextEligibleAt
  {
    hide FailureDelay;
  }

  lemma StepKeeps(t: Timing, key: string, w: World, act: Act)
    requires WorldOk(key, w)
    ensures WorldOk(key, Step(t, key, w, act))
  {
    hide WorldOk, Step;
    match act
    case Tick(elapsed) => TickKeeps(t, key, w, elapsed);
    case TryAcquire(force) => AcquireKeeps(t, key, w, force);
    case EndLease(leaseId, ending) => EndKeeps(t, key, w, leaseId, ending);
  }

  lemma {:induction false} RunFromIsOk(t: Timing, key: string, w: World, acts: seq<Act>)
    requires WorldOk(key, w)
    ensures WorldOk(key, RunFrom(t, key, w, acts))
    decreases |acts|
  {
    if acts != [] {
      hide WorldOk, Step;
      RunFromIsOk(t, key, w, acts[..|acts| - 1]);
      StepKeeps(t, key, RunFrom(t, key, w, acts[..|acts| - 1]), acts[|acts| - 1]);
    }
  }

  lemma {:induction false} LeasesStay(t: Timing, key: string, w: World, acts: seq<Act>)
    ensures |RunFrom(t, key, w, acts).leases| >= |w.leases|
    decreases |acts|
  {
    if acts != [] {
      LeasesStay(t, key, w, acts[..|acts| - 1]);
    }
  }

  /** A step that is not a success or a cancellation leaves the failure count or raises it by one. */
  lemma FailuresOnlyGrow(t: Timing, key: string, w: World, act: Act)
    requires WorldOk(key, w) && w.leases != [] && (act.EndLease? ==> act.ending == Failed)
    ensures var v := Step(t, key, w, act);
      v.control.failureCount == w.control.failureCount || v.control.failureCount == w.control.failureCount + 1
  {
    hide FailureDelay;
  }

  // ---------- the code ----------

  /** Not yet over. */
  ghost predicate Live(l: Lease, moment: int) {
    moment < OverAt(l)
  }

  /** An attempt is told that the lease is held exactly when some granted lease is still live. */
  lemma HeldIffLive(t: Timing, key: string, w: World, force: bool)
    requires WorldOk(key, w) && key != "" && 0 <= w.clock
    ensures Acquire(w.control, t, w.clock, key, |w.leases|, force).attempt == LeaseHeld
       <==> exists l :: l in w.leases && Live(l, w.clock)
  {
    if w.leases != [] {
      assert w.leases[|w.leases| - 1] in w.leases;
      forall l | l in w.leases && Live(l, w.clock) ensures l == w.leases[|w.leases| - 1] {
        var i :| 0 <= i < |w.leases| && w.leases[i] == l;
      }
    }
  }

  /** Only the first end of the newest lease makes a difference, and it leaves no lease live. */
  lemma EndOfNewestFrees(t: Timing, key: string, w: World, leaseId: nat, ending: Ending)
    requires WorldOk(key, w) && leaseId < |w.leases|
    ensures var v := Step(t, key, w, EndLease(leaseId, ending));
      if leaseId + 1 < |w.leases| || w.leases[leaseId].finished.Some? then v.control == w.control
      else
        && (forall l :: l in v.leases ==> !Live(l, w.clock))
        && v.control.nextEligibleAt == w.clock + DelayAfter(w.control, t, ending)
  {
    hide DelayAfter, FailuresAfter;
    var v := Step(t, key, w, EndLease(leaseId, ending));
    if leaseId + 1 == |w.leases| && w.leases[leaseId].finished == None {
      forall l | l in v.leases ensures !Live(l, w.clock) {
        var i :| 0 <= i < |v.leases| && v.leases[i] == l;
        assert i < leaseId ==> v.leases[i] == w.leases[i];
      }
    }
  }

  /** The shared control file, with the two sections that run under its lock.  `leases` and `clock` record the leases
      granted so far and the last clock reading. */
  class ControlFile {
    const key: string
    var record: Control
    ghost var leases: seq<Lease>
    ghost var clock: int

    constructor (key: string, now: int)
      ensures this.key == key && Orderly() && leases == [] && clock == now
    {
      this.key, record, leases, clock := key, EMPTY_CONTROL, [], now;
    }

    /** The file has been used under one endpoint key and a clock that never ran backwards. */
    ghost predicate Orderly()
      reads this
    {
      WorldOk(key, World(record, clock, leases))
    }

    /** A process asks for the lease under an id never used before.  While an earlier lease lives it gets none;
        otherwise force always succeeds, and an unforced attempt once the delay is over. */
    method AcquireLease(t: Timing, now: int, endpointKey: string, leaseId: nat, force: bool) returns (attempt: Attempt)
      requires endpointKey != "" && clock <= now && leaseId == |leases|
      modifies this
      ensures Acquisition(attempt, record) == Acquire(old(record), t, now, endpointKey, leaseId, force) && clock == now
      ensures leases == old(leases) + if attempt == Acquired then [Lease(now, now + t.leaseDuration, None)] else []
      ensures attempt != Acquired ==> record == old(record)
      ensures old(Orderly()) && endpointKey == key ==>
        && Orderly()
        && (0 <= now ==> (attempt == LeaseHeld <==> exists l :: l in old(leases) && Live(l, now)))
        && (attempt == NotDue ==> !force && now < record.nextEligibleAt)
      ensures attempt == NotDue <==>
        !force && endpointKey == old(record).endpointKey && old(record).leaseUntil <= now < old(record).nextEligibleAt
      ensures attempt == Acquired ==>
        record == if endpointKey == old(record).endpointKey
                  then old(record).(leaseId := Some(leaseId), leaseUntil := now + t.leaseDuration)
                  else Control(endpointKey, Some(leaseId), now + t.leaseDuration, 0, 0)
    {
      ghost var before := World(record, now, leases);
      hide WorldOk, Live, FailureDelay;
      if Orderly() && endpointKey == key {
        TickKeeps(t, key, World(record, clock, leases), now - clock);
        StepKeeps(t, key, before, TryAcquire(force));
        if 0 <= now {
          HeldIffLive(t, key, before, force);
        }
      }
      clock := now;
      var sameEndpoint := record.endpointKey == endpointKey;
      if sameEndpoint && record.leaseUntil > now {
        return LeaseHeld;
      }
      if !force && sameEndpoint && record.nextEligibleAt > now {
        return NotDue;
      }
      record := Control(endpointKey, Some(leaseId), now + t.leaseDuration,
                        if sameEndpoint then record.nextEligibleAt else 0,
                        if sameEndpoint then record.failureCount else 0);
      leases := leases + [Lease(now, now + t.leaseDuration, None)];
      return Acquired;
    }

    /** A process ends the lease it was granted.  Only the newest lease, and only once, makes a difference; then no
        lease is live any more, and the next one is due after the delay. */
    method FinishLease(t: Timing, now: int, endpointKey: string, leaseId: nat, ending: Ending)
      requires clock <= now && leaseId < |leases|
      modifies this
      ensures record == Finish(old(record), t, now, endpointKey, leaseId, ending) && clock == now
      ensures leases == if old(leases)[leaseId].finished == None
                        then old(leases)[leaseId := old(leases)[leaseId].(finished := Some(now))] else old(leases)
      ensures old(Orderly()) && endpointKey == key ==>
        && Orderly()
        && (leaseId + 1 < |leases| || old(leases)[leaseId].finished.Some? ==> record == old(record))
        && (leaseId + 1 == |leases| && old(leases)[leaseId].finished == None ==>
              && (forall l :: l in leases ==> !Live(l, now))
              && record.nextEligibleAt == now + DelayAfter(old(record), t, ending))
      ensures endpointKey == old(record).endpointKey && old(record).leaseId == Some(leaseId) ==>
        && record.leaseId == None && record.leaseUntil == 0
        && (ending.Succeeded? ==> record.failureCount == 0 && record.nextEligibleAt == now + t.successInterval)
        && (ending.Failed? ==> record.failureCount == old(record).failureCount + 1
                               && record.nextEligibleAt == now + FailureDelay(t, record.failureCount))
        && (ending.WasCancelled? ==> record.failureCount == old(record).failureCount && record.nextEligibleAt == now)
      ensures endpointKey != old(record).endpointKey || old(record).leaseId != Some(leaseId) ==> record == old(record)
    {
      ghost var before := World(record, now, leases);
      hide WorldOk, Live, FailureDelay;
      if Orderly() && endpointKey == key {
        TickKeeps(t, key, World(record, clock, leases), now - clock);
        StepKeeps(t, key, before, EndLease(leaseId, ending));
        EndOfNewestFrees(t, key, before, leaseId, ending);
      }
      clock := now;
      if leases[leaseId].finished == None {
        leases := leases[leaseId := leases[leaseId].(finished := Some(now))];
      }
      if record.endpointKey != endpointKey || record.leaseId != Some(leaseId) {
        return;
      }
      var failureCount := if ending.WasCancelled? then record.failureCount else if ending.Succeeded? then 0 else record.failureCount + 1;
      var delay := if ending.WasCancelled? then 0 else if ending.Succeeded? then t.successInterval else FailureDelay(t, failureCount);
      record := Control(endpointKey, None, 0, now + delay, failureCount);
    }
  }
}
