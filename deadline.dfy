/**
 * Value-level model of a deadline tracker: a time budget `deadline` (milliseconds,
 * 0 meaning "no deadline") paired with the elapsed reading of a running stopwatch.
 * The queries are functions of this pair; the operations that change the tracker
 * are transitions from one pair to the next.
 */
module Deadline {

  /** The two exceptions the tracker can raise. */
  datatype Error =
    | IllegalArgument(deadline: int)   // setDeadline was given a negative budget
    | IllegalState                     // getMillisBeforeDeadline was asked with no deadline set

  /** A value or the exception raised instead of returning it. */
  datatype Result<T> = Success(value: T) | Failure(error: Error)

  /** The outcome of an operation that returns nothing. */
  datatype Outcome = Pass | Fail(error: Error)

  /** What a tracker holds: the budget and the stopwatch's elapsed milliseconds. */
  datatype TrackerState = TrackerState(deadline: int, elapsed: nat)

  /** The object invariant: a budget is never negative. */
  predicate Valid(t: TrackerState) {
    t.deadline >= 0
  }

  /**
   * A tracker built on a stopwatch that is `running` with `elapsed` milliseconds on it:
   * a running stopwatch is reset before it is started, a stopped one is started as it is.
   */
  function Started(running: bool, elapsed: nat): (t: TrackerState)
    ensures Valid(t) && !HasDeadline(t)
    ensures running ==> t.elapsed == 0
    ensures !running ==> t.elapsed == elapsed
  {
    TrackerState(0, if running then 0 else elapsed)
  }

  /** A tracker built with a brand-new stopwatch: no deadline, nothing elapsed. */
  function Fresh(): (t: TrackerState)
    ensures Valid(t) && !HasDeadline(t) && t.elapsed == 0 && GetDeadline(t) == 0
  {
    Started(false, 0)
  }

  /** Whether a deadline was set; under the invariant, whether the budget is positive. */
  function HasDeadline(t: TrackerState): (r: bool)
    ensures Valid(t) ==> (r <==> t.deadline > 0)
  {
    t.deadline != 0
  }

  /** The current budget. */
  function GetDeadline(t: TrackerState): (d: int)
    ensures Valid(t) ==> d >= 0
    ensures d == 0 <==> !HasDeadline(t)
  {
    t.deadline
  }

  /** The stopwatch's elapsed milliseconds. */
  function ElapsedMillis(t: TrackerState): nat {
    t.elapsed
  }

  /**
   * Whether the deadline has been reached. Never with no deadline; otherwise exactly
   * when the elapsed time has grown to the budget or beyond.
   */
  function TimedOut(t: TrackerState): (r: bool)
    ensures !HasDeadline(t) ==> !r
    ensures HasDeadline(t) ==> (r <==> ElapsedMillis(t) >= GetDeadline(t))
  {
    if !HasDeadline(t) then false
    else t.deadline - ElapsedMillis(t) <= 0
  }

  /**
   * Milliseconds left before the deadline. Asking with no deadline set is an
   * IllegalState error. The answer is never below 1: once the deadline is reached the
   * answer is 1, before that it is the exact time still missing.
   */
  function MillisBeforeDeadline(t: TrackerState): (r: Result<int>)
    ensures r.Failure? <==> !HasDeadline(t)
    ensures r.Failure? ==> r.error == IllegalState
    ensures r.Success? ==> r.value >= 1
    ensures r.Success? && TimedOut(t) ==> r.value == 1
    ensures r.Success? && !TimedOut(t) ==> ElapsedMillis(t) + r.value == GetDeadline(t)
    ensures r.Success? && Valid(t) ==> r.value <= GetDeadline(t)
  {
    if !HasDeadline(t) then Failure(IllegalState)
    else
      var millisBeforeDeadline := t.deadline - ElapsedMillis(t);
      Success(if millisBeforeDeadline <= 0 then 1 else millisBeforeDeadline)
  }

  /**
   * The passage of `millis` milliseconds: the running stopwatch advances, the budget
   * stays as it was.
   */
  function Tick(t: TrackerState, millis: nat): (r: TrackerState)
    ensures GetDeadline(r) == GetDeadline(t)
    ensures ElapsedMillis(r) == ElapsedMillis(t) + millis
  {
    TrackerState(t.deadline, t.elapsed + millis)
  }

  /**
   * Whether sleeping `plannedSleep` milliseconds would reach the deadline. Never with no
   * deadline and never for a sleep that is not positive (the remaining time is at least
   * 1, even past the deadline); otherwise exactly when the tracker would be timed out
   * after that sleep.
   */
  function WouldSleepingTimeout(t: TrackerState, plannedSleep: int): (r: bool)
    ensures !HasDeadline(t) ==> !r
    ensures plannedSleep <= 0 ==> !r
    ensures r <==> plannedSleep > 0 && TimedOut(Tick(t, plannedSleep as nat))
  {
    if !HasDeadline(t) then false
    else MillisBeforeDeadline(t).value - plannedSleep <= 0
  }

  /**
   * Set a new budget. A negative budget is an IllegalArgument error and the tracker
   * stays as it was; otherwise the budget is replaced and the stopwatch is not touched.
   */
  function SetDeadline(t: TrackerState, deadline: int): (r: Result<TrackerState>)
    ensures r.Failure? <==> deadline < 0
    ensures r.Failure? ==> r.error == IllegalArgument(deadline)
    ensures r.Success? ==> Valid(r.value)
    ensures r.Success? ==> GetDeadline(r.value) == deadline
    ensures r.Success? ==> ElapsedMillis(r.value) == ElapsedMillis(t)
    ensures r.Success? ==> (HasDeadline(r.value) <==> deadline != 0)
  {
    if deadline < 0 then Failure(IllegalArgument(deadline))
    else Success(t.(deadline := deadline))
  }

  /** Drop the budget and restart the stopwatch from zero. */
  function Reset(t: TrackerState): (r: TrackerState)
    ensures Valid(r) && !HasDeadline(r) && !TimedOut(r)
    ensures ElapsedMillis(r) == 0
    ensures MillisBeforeDeadline(r) == Failure(IllegalState)
  {
    TrackerState(0, 0)
  }

  /** Once reached, a deadline stays reached however much more time passes. */
  lemma TimedOutPersists(t: TrackerState, millis: nat)
    requires TimedOut(t)
    ensures TimedOut(Tick(t, millis))
    ensures MillisBeforeDeadline(Tick(t, millis)) == Success(1)
  {
  }

  /**
   * Time passing shrinks the remaining time by the same amount, down to the floor of 1.
   */
  lemma RemainingShrinks(t: TrackerState, millis: nat)
    requires HasDeadline(t)
    ensures var before := MillisBeforeDeadline(t).value;
            MillisBeforeDeadline(Tick(t, millis)).value
              == if before - millis <= 1 then 1 else before - millis
  {
  }

  /**
   * Before the deadline, the remaining time is the shortest sleep that reaches it:
   * sleeping that long times out, sleeping one millisecond less does not.
   */
  lemma RemainingIsShortestSleep(t: TrackerState)
    requires HasDeadline(t) && !TimedOut(t)
    ensures var left := MillisBeforeDeadline(t).value;
            TimedOut(Tick(t, left)) && !TimedOut(Tick(t, left - 1))
            && WouldSleepingTimeout(t, left) && !WouldSleepingTimeout(t, left - 1)
  {
  }
}
