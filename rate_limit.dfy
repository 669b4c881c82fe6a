/**
 * `processInParallelWithRateLimit` (src/utils/async.ts) as a sequential event
 * model.
 *
 * All tasks are launched synchronously, in index order, by the `map` inside
 * `Promise.all` (line 28).  Each task reads the clock and the shared
 * `lastCallTime`, computes how long it still has to wait, and either stamps
 * `lastCallTime` and calls the processor at once, or suspends on a timer and
 * does so when the timer fires.  Because every task has read `lastCallTime`
 * before any timer fires, tasks that wait are spaced only from the last task
 * that did not wait, not from one another: the per-task guarantee below is the
 * only spacing the code provides.
 */
module RateLimit {
  import opened JsCore

  // ---------------------------------------------------------------------------
  // The delay rule (lines 15-17)
  // ---------------------------------------------------------------------------

  /**
   * `Math.max(0, delayMs - (now - lastCallTime))`: the shortest wait after
   * which at least `delayMs` will have passed since `lastCallTime`.
   */
  function DelayNeeded(delayMs: int, now: int, lastCallTime: int): (d: int)
    ensures d >= 0
    ensures d == 0 <==> now - lastCallTime >= delayMs
    ensures now + d >= lastCallTime + delayMs
    ensures d > 0 ==> now + d == lastCallTime + delayMs
    ensures now >= lastCallTime && delayMs >= 0 ==> d <= delayMs
  {
    var gap := delayMs - (now - lastCallTime);
    if gap > 0 then gap else 0
  }

  /** The first task reads the initial `lastCallTime` of 0 and so need not wait once the clock has passed `delayMs`. */
  lemma FirstTaskDoesNotWait(delayMs: int, now: int)
    requires now >= delayMs
    ensures DelayNeeded(delayMs, now, 0) == 0
  {
  }

  // ---------------------------------------------------------------------------
  // The launch phase as a function of the clock
  // ---------------------------------------------------------------------------

  /**
   * The two `Date.now()` readings of one task: `now` at line 15, and how far
   * the line-23 reading lies past the end of the task's wait.  For a task that
   * does not wait, that second reading comes later in the same synchronous
   * step; for one that waits, it is how late its timer fires.
   */
  datatype Reading = Reading(now: int, lag: nat)

  /** What one task saw when it was launched: the `lastCallTime` it read, the clock when it read it, and the wait it computed. */
  datatype TaskView = TaskView(readLast: int, startedAt: int, wait: int)

  /**
   * The instant a task stamps `lastCallTime` and calls the processor
   * (lines 23-24): the line-23 reading, `lag` after its wait ran out.
   */
  function DispatchTime(view: TaskView, lag: nat): (t: int)
    ensures view.wait >= 0 ==> t >= view.startedAt
    ensures t >= view.startedAt + view.wait
  {
    view.startedAt + view.wait + lag
  }

  /**
   * The value of `lastCallTime` after the tasks with readings `readings` have
   * been launched one after another, starting from `initial`.  A task that
   * needs no wait stamps `lastCallTime` with its line-23 reading in the same
   * synchronous step; one that waits leaves it for later.
   */
  function LastAfterLaunch(delayMs: int, readings: seq<Reading>, initial: int): int
    decreases |readings|
  {
    if readings == [] then initial
    else
      var before := LastAfterLaunch(delayMs, readings[..|readings| - 1], initial);
      var r := readings[|readings| - 1];
      if DelayNeeded(delayMs, r.now, before) == 0 then r.now + r.lag else before
  }

  /** What each launched task saw (lines 15-17), task by task. */
  function Launch(delayMs: int, readings: seq<Reading>, initial: int): (views: seq<TaskView>)
    ensures |views| == |readings|
    decreases |readings|
  {
    if readings == [] then []
    else
      var before := LastAfterLaunch(delayMs, readings[..|readings| - 1], initial);
      var now := readings[|readings| - 1].now;
      Launch(delayMs, readings[..|readings| - 1], initial) + [TaskView(before, now, DelayNeeded(delayMs, now, before))]
  }

  lemma LaunchPrefix(delayMs: int, readings: seq<Reading>, initial: int, k: nat)
    requires k <= |readings|
    ensures Launch(delayMs, readings[..k], initial) == Launch(delayMs, readings, initial)[..k]
    decreases |readings|
  {
    if k < |readings| {
      assert readings[..|readings| - 1][..k] == readings[..k];
      LaunchPrefix(delayMs, readings[..|readings| - 1], initial, k);
    } else {
      assert readings[..k] == readings;
    }
  }

  /** Task `i` reads its own clock value and whatever the tasks before it left in `lastCallTime`. */
  lemma LaunchAt(delayMs: int, readings: seq<Reading>, initial: int, i: nat)
    requires i < |readings|
    ensures var before := LastAfterLaunch(delayMs, readings[..i], initial);
      Launch(delayMs, readings, initial)[i] == TaskView(before, readings[i].now, DelayNeeded(delayMs, readings[i].now, before))
  {
    LaunchPrefix(delayMs, readings, initial, i + 1);
    assert readings[..i + 1][..i] == readings[..i];
  }

  /**
   * Launching task `i` appends what it saw, and moves `lastCallTime` to its
   * line-23 reading exactly when it needs no wait.
   */
  lemma LaunchStep(delayMs: int, readings: seq<Reading>, initial: int, i: nat)
    requires i < |readings|
    ensures var before := LastAfterLaunch(delayMs, readings[..i], initial);
      var view := TaskView(before, readings[i].now, DelayNeeded(delayMs, readings[i].now, before));
      && Launch(delayMs, readings[..i + 1], initial) == Launch(delayMs, readings[..i], initial) + [view]
      && LastAfterLaunch(delayMs, readings[..i + 1], initial) ==
           if view.wait == 0 then DispatchTime(view, readings[i].lag) else before
  {
    assert readings[..i + 1][..i] == readings[..i];
  }

  /** Every task, once dispatched, is at least `delayMs` after the `lastCallTime` it read, and not before it started. */
  lemma PerTaskSpacing(delayMs: int, readings: seq<Reading>, i: nat)
    requires i < |readings|
    ensures var v := Launch(delayMs, readings, 0)[i];
      DispatchTime(v, readings[i].lag) >= v.readLast + delayMs && DispatchTime(v, readings[i].lag) >= v.startedAt
  {
    LaunchAt(delayMs, readings, 0, i);
  }

  /** The first task reads 0, and needs no wait once the clock has passed `delayMs`. */
  lemma FirstTaskView(delayMs: int, readings: seq<Reading>)
    requires readings != []
    ensures Launch(delayMs, readings, 0)[0].readLast == 0
    ensures readings[0].now >= delayMs ==> Launch(delayMs, readings, 0)[0].wait == 0
  {
    LaunchPrefix(delayMs, readings, 0, 1);
    assert readings[..1][..0] == [];
  }

  /**
   * With a non-negative delay, `lastCallTime` only moves forward during the
   * launch, and it is the initial value or the line-23 reading of some task.
   */
  lemma {:induction false} LastAfterLaunchBounds(delayMs: int, readings: seq<Reading>, initial: int)
    requires delayMs >= 0
    ensures forall k :: 0 <= k <= |readings| ==>
      LastAfterLaunch(delayMs, readings[..k], initial) <= LastAfterLaunch(delayMs, readings, initial)
    ensures LastAfterLaunch(delayMs, readings, initial) == initial ||
      exists k :: 0 <= k < |readings| && LastAfterLaunch(delayMs, readings, initial) == readings[k].now + readings[k].lag
    decreases |readings|
  {
    if readings == [] {
      assert readings[..0] == [];
    } else {
      var init := readings[..|readings| - 1];
      LastAfterLaunchBounds(delayMs, init, initial);
      forall k | 0 <= k <= |readings|
        ensures LastAfterLaunch(delayMs, readings[..k], initial) <= LastAfterLaunch(delayMs, readings, initial)
      {
        if k < |readings| {
          assert init[..k] == readings[..k];
        } else {
          assert readings[..k] == readings;
        }
      }
      if LastAfterLaunch(delayMs, readings, initial) != LastAfterLaunch(delayMs, init, initial) {
        assert LastAfterLaunch(delayMs, readings, initial) == readings[|readings| - 1].now + readings[|readings| - 1].lag;
      } else if LastAfterLaunch(delayMs, init, initial) != initial {
        var k :| 0 <= k < |init| && LastAfterLaunch(delayMs, init, initial) == init[k].now + init[k].lag;
        assert init[k] == readings[k];
      }
    }
  }

  /**
   * The one spacing the code does guarantee: two tasks that both dispatch in the
   * synchronous launch, without waiting, call the processor at least `delayMs` apart.
   */
  lemma SynchronousDispatchesSpaced(delayMs: int, readings: seq<Reading>, i: nat, j: nat)
    requires delayMs >= 0 && i < j < |readings|
    requires Launch(delayMs, readings, 0)[i].wait == 0 && Launch(delayMs, readings, 0)[j].wait == 0
    ensures var views := Launch(delayMs, readings, 0);
      DispatchTime(views[j], readings[j].lag) - DispatchTime(views[i], readings[i].lag) >= delayMs
  {
    LaunchAt(delayMs, readings, 0, i);
    LaunchAt(delayMs, readings, 0, j);
    var ri, rj := readings[..i + 1], readings[..j];
    // task i, needing no wait, leaves its line-23 reading in lastCallTime ...
    assert ri[..i] == readings[..i];
    assert LastAfterLaunch(delayMs, ri, 0) == readings[i].now + readings[i].lag;
    // ... and by the time task j reads it, it has not gone back
    assert rj[..i + 1] == ri;
    LastAfterLaunchBounds(delayMs, rj, 0);
  }

  /**
   * Consecutive dispatches are NOT spaced in general: with `delayMs = 300` and
   * three tasks launched at clock 1000, the first dispatches at 1000 and the
   * other two both read 1000, wait 300 and dispatch together at 1300.
   */
  lemma WaitingTasksMayCoincide()
    ensures var rs := [Reading(1000, 0), Reading(1000, 0), Reading(1000, 0)];
      var views := Launch(300, rs, 0);
      DispatchTime(views[0], 0) == 1000 && DispatchTime(views[1], 0) == 1300 && DispatchTime(views[2], 0) == 1300
  {
    var rs := [Reading(1000, 0), Reading(1000, 0), Reading(1000, 0)];
    assert rs[..2] == [Reading(1000, 0), Reading(1000, 0)] && rs[..2][..1] == [Reading(1000, 0)] && rs[..2][..1][..0] == [];
    assert LastAfterLaunch(300, [Reading(1000, 0)], 0) == 1000;
    assert LastAfterLaunch(300, [Reading(1000, 0), Reading(1000, 0)], 0) == 1000;
  }

  /**
   * The line-23 reading, not the line-15 one, is what the next task measures
   * from: task 0 reads 1000 and stamps 1001, so task 1, reading 1300, still
   * waits 1 ms.
   */
  lemma SecondReadingIsTheStamp()
    ensures Launch(300, [Reading(1000, 1), Reading(1300, 0)], 0)[1] == TaskView(1001, 1300, 1)
  {
    var rs := [Reading(1000, 1), Reading(1300, 0)];
    assert rs[..1] == [Reading(1000, 1)] && rs[..1][..0] == [];
    assert LastAfterLaunch(300, rs[..1], 0) == 1001;
  }

  // ---------------------------------------------------------------------------
  // Promise.all (line 28)
  // ---------------------------------------------------------------------------

  /** How one processor promise settles. */
  datatype Settled<R> = Fulfilled(value: R) | Rejected(reason: string)

  /** `order` lists each of the indices 0 .. n-1 exactly once: the order in which the promises settle. */
  predicate IsOrdering(order: seq<nat>, n: nat) {
    |order| == n && (forall k :: 0 <= k < n ==> order[k] < n) && (forall i :: 0 <= i < n ==> i in order)
  }

  /** The reason of the first rejection, in settle order, if any. */
  function FirstRejection<R>(outcomes: seq<Settled<R>>, order: seq<nat>): (e: Option<string>)
    requires forall k :: 0 <= k < |order| ==> order[k] < |outcomes|
    ensures e.None? <==> forall k :: 0 <= k < |order| ==> outcomes[order[k]].Fulfilled?
    ensures e.Some? ==> exists k :: 0 <= k < |order| && outcomes[order[k]] == Rejected(e.value)
    decreases |order|
  {
    if order == [] then None
    else
      var earlier := FirstRejection(outcomes, order[..|order| - 1]);
      if earlier.Some? then earlier
      else if outcomes[order[|order| - 1]].Rejected? then Some(outcomes[order[|order| - 1]].reason)
      else None
  }

  /** With no rejection among the first k settlements, the next one decides whether a rejection has now been seen. */
  lemma FirstRejectionStep<R>(outcomes: seq<Settled<R>>, order: seq<nat>, k: nat)
    requires forall m :: 0 <= m < |order| ==> order[m] < |outcomes|
    requires k < |order| && FirstRejection(outcomes, order[..k]).None?
    ensures FirstRejection(outcomes, order[..k + 1]) ==
      if outcomes[order[k]].Rejected? then Some(outcomes[order[k]].reason) else None
  {
    assert order[..k + 1][..k] == order[..k];
  }

  /** Once a rejection has been seen, later settlements do not change which one `Promise.all` reports. */
  lemma {:induction false} FirstRejectionPersists<R>(outcomes: seq<Settled<R>>, order: seq<nat>, k: nat)
    requires forall m :: 0 <= m < |order| ==> order[m] < |outcomes|
    requires k <= |order| && FirstRejection(outcomes, order[..k]).Some?
    ensures FirstRejection(outcomes, order) == FirstRejection(outcomes, order[..k])
    decreases |order|
  {
    if k < |order| {
      assert order[..|order| - 1][..k] == order[..k];
      FirstRejectionPersists(outcomes, order[..|order| - 1], k);
    } else {
      assert order[..k] == order;
    }
  }

  /** Every promise of an ordering is fulfilled iff no rejection is seen. */
  lemma AllFulfilledIffNoRejection<R>(outcomes: seq<Settled<R>>, order: seq<nat>)
    requires IsOrdering(order, |outcomes|)
    ensures FirstRejection(outcomes, order).None? <==> forall i :: 0 <= i < |outcomes| ==> outcomes[i].Fulfilled?
  {
    if FirstRejection(outcomes, order).None? {
      forall i | 0 <= i < |outcomes| ensures outcomes[i].Fulfilled? {
        assert i in order;
        var k :| 0 <= k < |order| && order[k] == i;
      }
    }
  }

  /**
   * What `await Promise.all(...)` yields: a rejection with the reason of the
   * first promise to reject, or every value, in the original index order.
   */
  function PromiseAll<R>(outcomes: seq<Settled<R>>, order: seq<nat>): Result<seq<R>, string>
    requires IsOrdering(order, |outcomes|)
  {
    match FirstRejection(outcomes, order)
    case Some(e) => Failure(e)
    case None =>
      AllFulfilledIffNoRejection(outcomes, order);
      Success(seq(|outcomes|, i requires 0 <= i < |outcomes| => outcomes[i].value))
  }

  /**
   * `Promise.all` succeeds iff every processor call succeeds; then result `i`
   * is the value for item `i` whatever the settle order, and otherwise the
   * reason is that of some rejected call.
   */
  lemma PromiseAllOutcome<R>(outcomes: seq<Settled<R>>, order: seq<nat>)
    requires IsOrdering(order, |outcomes|)
    ensures PromiseAll(outcomes, order).Success? <==> forall i :: 0 <= i < |outcomes| ==> outcomes[i].Fulfilled?
    ensures PromiseAll(outcomes, order).Success? ==>
      |PromiseAll(outcomes, order).value| == |outcomes| &&
      forall i :: 0 <= i < |outcomes| ==> outcomes[i] == Fulfilled(PromiseAll(outcomes, order).value[i])
    ensures PromiseAll(outcomes, order).Failure? ==>
      exists i :: 0 <= i < |outcomes| && outcomes[i] == Rejected(PromiseAll(outcomes, order).error)
  {
    AllFulfilledIffNoRejection(outcomes, order);
  }

  /** Completion order does not affect a successful result. */
  lemma SettleOrderIrrelevant<R>(outcomes: seq<Settled<R>>, order1: seq<nat>, order2: seq<nat>)
    requires IsOrdering(order1, |outcomes|) && IsOrdering(order2, |outcomes|)
    requires PromiseAll(outcomes, order1).Success?
    ensures PromiseAll(outcomes, order2) == PromiseAll(outcomes, order1)
  {
    AllFulfilledIffNoRejection(outcomes, order1);
    AllFulfilledIffNoRejection(outcomes, order2);
  }

  /** The outcome of the processor on each item together with that item's original index (line 24). */
  function Outcomes<T, R>(items: seq<T>, processor: (T, nat) -> Settled<R>): (outs: seq<Settled<R>>)
    ensures |outs| == |items|
    ensures forall i :: 0 <= i < |items| ==> outs[i] == processor(items[i], i)
  {
    seq(|items|, i requires 0 <= i < |items| => processor(items[i], i))
  }

  /**
   * Tasks 0 .. i-1 have run up to their first suspension, with the clock
   * readings `readings[..i]`: what they saw and `lastCallTime` are `Launch`'s,
   * and exactly those that needed no wait have dispatched, at their line-23
   * reading.
   */
  ghost predicate LaunchState(delayMs: int, readings: seq<Reading>, i: nat, views: seq<TaskView>, lastCallTime: int, stamps: map<nat, int>) {
    && i <= |readings| && |views| == i
    && views == Launch(delayMs, readings[..i], 0)
    && lastCallTime == LastAfterLaunch(delayMs, readings[..i], 0)
    && (forall j: nat :: j in stamps <==> j < i && views[j].wait == 0)
    && (forall j :: j in stamps ==> stamps[j] == DispatchTime(views[j], readings[j].lag))
  }

  /** Launching task `i` from a launched prefix gives the launched prefix one task longer. */
  lemma LaunchStateStep(delayMs: int, readings: seq<Reading>, i: nat, views: seq<TaskView>, lastCallTime: int, stamps: map<nat, int>)
    requires i < |readings| && LaunchState(delayMs, readings, i, views, lastCallTime, stamps)
    ensures var r := readings[i];
      var wait := DelayNeeded(delayMs, r.now, lastCallTime);
      LaunchState(delayMs, readings, i + 1, views + [TaskView(lastCallTime, r.now, wait)],
        if wait == 0 then r.now + r.lag else lastCallTime,
        if wait == 0 then stamps[i := r.now + r.lag] else stamps)
  {
    LaunchStep(delayMs, readings, 0, i);
  }

  // ---------------------------------------------------------------------------
  // The run as a stateful object
  // ---------------------------------------------------------------------------

  /**
   * One call of `processInParallelWithRateLimit`: the shared `lastCallTime`
   * (line 10), what each launched task saw (tasks launch in index order, so
   * task `i` is entry `i`), when each dispatched task stamped,
   * the processor calls in dispatch order, and one result slot per item.
   */
  class RateLimitedRun<T, R> {
    const items: seq<T>
    const processor: (T, nat) -> Settled<R>
    const delayMs: int
    var lastCallTime: int
    var views: seq<TaskView>
    var stamps: map<nat, int>
    var calls: seq<nat>
    const results: array<Option<Settled<R>>>

    ghost predicate Valid()
      reads this, results
    {
      && results.Length == |items|
      && |views| <= |items|
      && (forall i :: 0 <= i < |views| ==> views[i].wait == DelayNeeded(delayMs, views[i].startedAt, views[i].readLast))
      && (forall i :: i in stamps ==> i < |views|)
      && (forall i :: 0 <= i < |items| ==> (results[i].Some? <==> i in stamps))
      && (forall i :: i in stamps ==> results[i] == Some(processor(items[i], i)))
      && (forall i :: i in stamps ==> stamps[i] >= views[i].readLast + delayMs)
      && (forall i :: i in stamps <==> i in calls)
      && (forall j, k :: 0 <= j < k < |calls| ==> calls[j] != calls[k])
    }

    constructor (items: seq<T>, processor: (T, nat) -> Settled<R>, delayMs: int)
      ensures Valid() && fresh(results)
      ensures this.items == items && this.processor == processor && this.delayMs == delayMs
      ensures lastCallTime == 0 && views == [] && stamps == map[] && calls == []
    {
      this.items := items;
      this.processor := processor;
      this.delayMs := delayMs;
      lastCallTime := 0;
      views, stamps, calls := [], map[], [];
      results := new Option<Settled<R>>[|items|](_ => None);
    }

    /** The next task reads the clock and `lastCallTime` and computes its wait (lines 15-17); nothing shared changes. */
    method Start(now: int) returns (wait: int)
      requires Valid() && |views| < |items|
      modifies this`views
      ensures Valid()
      ensures wait == DelayNeeded(delayMs, now, lastCallTime)
      ensures views == old(views) + [TaskView(lastCallTime, now, wait)]
    {
      wait := DelayNeeded(delayMs, now, lastCallTime);
      views := views + [TaskView(lastCallTime, now, wait)];
    }

    /**
     * Task `i` has waited out its delay and dispatches at clock `t`: it stamps
     * `lastCallTime` (line 23) and then calls the processor with the item and
     * its original index (line 24), whose outcome fills slot `i`.
     */
    method Dispatch(i: nat, t: int)
      requires Valid() && i < |views| && i !in stamps
      requires t >= views[i].startedAt + views[i].wait
      modifies this`lastCallTime, this`stamps, this`calls, results
      ensures Valid()
      ensures lastCallTime == t
      ensures t >= views[i].readLast + delayMs
      ensures stamps == old(stamps)[i := t] && calls == old(calls) + [i]
      ensures results[i] == Some(processor(items[i], i))
      ensures forall j :: 0 <= j < results.Length && j != i ==> results[j] == old(results[j])
    {
      lastCallTime := t;
      var outcome := processor(items[i], i);
      results[i] := Some(outcome);
      stamps := stamps[i := t];
      calls := calls + [i];
    }

    /** The state after tasks 0 .. i-1 have been launched, as `LaunchState` describes it. */
    ghost predicate Launched(readings: seq<Reading>, i: nat)
      reads this
    {
      LaunchState(delayMs, readings, i, views, lastCallTime, stamps)
    }

    /**
     * The synchronous part of task `i` (lines 15-24): it computes its wait and,
     * when there is none, reads the clock again, stamps and dispatches at once;
     * otherwise it suspends.
     */
    method LaunchTask(readings: seq<Reading>, i: nat)
      requires Valid() && |readings| == |items| && i < |items| && Launched(readings, i)
      modifies this`lastCallTime, this`views, this`stamps, this`calls, results
      ensures Valid() && Launched(readings, i + 1)
    {
      LaunchStateStep(delayMs, readings, i, views, lastCallTime, stamps);
      var wait := Start(readings[i].now);
      if wait == 0 {
        Dispatch(i, readings[i].now + readings[i].lag);
      }
    }

    /**
     * The synchronous launch (line 28): tasks 0 .. n-1 run, in index order, up
     * to their first suspension.  `readings[i]` holds what `Date.now()` gives
     * task `i`; a task that needs no wait stamps and dispatches in that same
     * synchronous step.
     */
    method LaunchAll(readings: seq<Reading>)
      requires Valid() && |readings| == |items|
      requires lastCallTime == 0 && views == [] && stamps == map[] && calls == []
      modifies this`lastCallTime, this`views, this`stamps, this`calls, results
      ensures Valid()
      ensures views == Launch(delayMs, readings, 0)
      ensures forall j: nat :: j in stamps <==> j < |items| && views[j].wait == 0
      ensures forall j :: j in stamps ==> stamps[j] == DispatchTime(views[j], readings[j].lag)
    {
      assert readings[..0] == [];
      var i := 0;
      while i < |items|
        invariant 0 <= i <= |items|
        invariant Valid() && Launched(readings, i)
      {
        LaunchTask(readings, i);
        i := i + 1;
      }
      assert readings[..i] == readings;
    }

    /** The timers fire: every task still waiting stamps and dispatches, `readings[i].lag` after it was due. */
    method FireTimers(readings: seq<Reading>)
      requires Valid() && |readings| == |items|
      requires |views| == |items|
      requires forall j: nat :: j in stamps <==> j < |items| && views[j].wait == 0
      requires forall j :: j in stamps ==> stamps[j] == DispatchTime(views[j], readings[j].lag)
      modifies this`lastCallTime, this`stamps, this`calls, results
      ensures Valid() && AllDispatched()
      ensures forall j :: j in stamps ==> stamps[j] == DispatchTime(views[j], readings[j].lag)
    {
      var i := 0;
      while i < |items|
        invariant 0 <= i <= |items|
        invariant Valid()
        invariant forall j: nat :: j in stamps <==> j < i || (j < |items| && views[j].wait == 0)
        invariant forall j :: j in stamps ==> stamps[j] == DispatchTime(views[j], readings[j].lag)
      {
        var view := views[i];
        if view.wait != 0 {
          Dispatch(i, view.startedAt + view.wait + readings[i].lag);
        }
        i := i + 1;
      }
    }

    /** Every item has been dispatched. */
    ghost predicate AllDispatched()
      reads this
    {
      forall i :: 0 <= i < |items| ==> i in stamps
    }

    /** Every result slot holds the outcome of its own item. */
    lemma SlotsHoldOutcomes()
      requires Valid() && AllDispatched()
      ensures forall i :: 0 <= i < |items| ==> results[i] == Some(Outcomes(items, processor)[i])
    {
    }

    /** Walks the slots in settle order and reports the first rejection, as `Promise.all` does. */
    method FirstRejected(settleOrder: seq<nat>) returns (e: Option<string>)
      requires Valid() && AllDispatched() && IsOrdering(settleOrder, |items|)
      ensures e == FirstRejection(Outcomes(items, processor), settleOrder)
    {
      ghost var outs := Outcomes(items, processor);
      SlotsHoldOutcomes();
      var k := 0;
      while k < |settleOrder|
        invariant 0 <= k <= |settleOrder|
        invariant FirstRejection(outs, settleOrder[..k]).None?
      {
        var slot := results[settleOrder[k]];
        FirstRejectionStep(outs, settleOrder, k);
        if slot.value.Rejected? {
          FirstRejectionPersists(outs, settleOrder, k + 1);
          return Some(slot.value.reason);
        }
        k := k + 1;
      }
      assert settleOrder[..k] == settleOrder;
      return None;
    }

    /** Reads every slot's value, in index order, once no promise has rejected. */
    method Values() returns (values: seq<R>)
      requires Valid() && AllDispatched()
      requires forall i :: 0 <= i < |items| ==> Outcomes(items, processor)[i].Fulfilled?
      ensures |values| == |items|
      ensures forall m :: 0 <= m < |items| ==> Outcomes(items, processor)[m] == Fulfilled(values[m])
    {
      ghost var outs := Outcomes(items, processor);
      SlotsHoldOutcomes();
      values := [];
      for j := 0 to |items|
        invariant |values| == j
        invariant forall m :: 0 <= m < j ==> outs[m] == Fulfilled(values[m])
      {
        values := values + [results[j].value.value];
      }
    }

    /** `await Promise.all(...)` once every task has dispatched, given the order in which the promises settle (line 28). */
    method Collect(settleOrder: seq<nat>) returns (r: Result<seq<R>, string>)
      requires Valid() && AllDispatched() && IsOrdering(settleOrder, |items|)
      ensures r == PromiseAll(Outcomes(items, processor), settleOrder)
    {
      ghost var outs := Outcomes(items, processor);
      var e := FirstRejected(settleOrder);
      if e.Some? {
        return Failure(e.value);
      }
      AllFulfilledIffNoRejection(outs, settleOrder);
      var values := Values();
      assert values == seq(|outs|, m requires 0 <= m < |outs| => outs[m].value);
      r := Success(values);
    }
  }

  // ---------------------------------------------------------------------------
  // The whole call
  // ---------------------------------------------------------------------------

  /**
   * `processInParallelWithRateLimit(items, processor, delayMs = 300)`.
   * `readings[i]` holds the two `Date.now()` readings of task `i`: the one at
   * line 15, taken during the synchronous launch, and how far past the end of
   * its wait the one at line 23 lies.  `settleOrder` is the order in which the
   * processor promises settle.  Returned alongside the result: what each task
   * saw, when each dispatched, and the order of the processor calls.
   */
  method ProcessInParallelWithRateLimit<T, R>(items: seq<T>, processor: (T, nat) -> Settled<R>,
                                              readings: seq<Reading>, settleOrder: seq<nat>, delayMs: int := 300)
    returns (r: Result<seq<R>, string>, ghost views: seq<TaskView>, ghost dispatched: seq<int>, ghost calls: seq<nat>)
    requires |readings| == |items|
    requires IsOrdering(settleOrder, |items|)
    ensures r == PromiseAll(Outcomes(items, processor), settleOrder)
    ensures views == Launch(delayMs, readings, 0)
    ensures |dispatched| == |items|
    ensures forall i :: 0 <= i < |items| ==> dispatched[i] == DispatchTime(views[i], readings[i].lag)
    ensures forall i :: 0 <= i < |items| ==> dispatched[i] >= views[i].readLast + delayMs
    ensures forall i :: 0 <= i < |items| <==> i in calls
    ensures forall j, k :: 0 <= j < k < |calls| ==> calls[j] != calls[k]
  {
    var run := new RateLimitedRun(items, processor, delayMs);
    run.LaunchAll(readings);
    run.FireTimers(readings);
    views := Launch(delayMs, readings, 0);
    var stamps := run.stamps;
    dispatched := seq(|items|, j requires 0 <= j < |items| => stamps[j]);
    calls := run.calls;
    r := run.Collect(settleOrder);
  }

  /** Called without a delay, the tasks compute their waits against 300 ms, and each call comes at least 300 ms after the `lastCallTime` its task read. */
  method DefaultDelayRun<T, R>(items: seq<T>, processor: (T, nat) -> Settled<R>, readings: seq<Reading>, settleOrder: seq<nat>)
    returns (r: Result<seq<R>, string>, ghost views: seq<TaskView>, ghost dispatched: seq<int>)
    requires |readings| == |items| && IsOrdering(settleOrder, |items|)
    ensures r == PromiseAll(Outcomes(items, processor), settleOrder)
    ensures views == Launch(300, readings, 0) && |dispatched| == |items|
    ensures forall i :: 0 <= i < |items| ==> dispatched[i] >= views[i].readLast + 300
  {
    ghost var calls;
    r, views, dispatched, calls := ProcessInParallelWithRateLimit(items, processor, readings, settleOrder);
  }
}
