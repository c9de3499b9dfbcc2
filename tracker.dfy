/**
 * The deadline tracker as an object: a mutable budget next to a stopwatch that the
 * tracker starts when it is built and restarts when it is reset.
 */
module KuduRpc {
  import opened Deadline

  /**
   * The elapsed-time source the tracker wraps. Real time is not modelled: `Tick` stands
   * for milliseconds going by, which count only while the stopwatch runs.
   */
  class Stopwatch {
    var running: bool
    var elapsedMillis: nat

    /** A new stopwatch is stopped and reads zero. */
    constructor ()
      ensures !running && elapsedMillis == 0
    {
      running := false;
      elapsedMillis := 0;
    }

    /** Starting a stopwatch that already runs is refused; a stopped one resumes. */
    method Start()
      requires !running
      modifies this
      ensures running && elapsedMillis == old(elapsedMillis)
    {
      running := true;
    }

    /** Stopping a stopwatch that is not running is refused; the reading is kept. */
    method Stop()
      requires running
      modifies this
      ensures !running && elapsedMillis == old(elapsedMillis)
    {
      running := false;
    }

    /** Stop and clear the stopwatch. */
    method Reset()
      modifies this
      ensures !running && elapsedMillis == 0
    {
      running := false;
      elapsedMillis := 0;
    }

    /** `millis` milliseconds go by. */
    method Tick(millis: nat)
      modifies this
      ensures running == old(running)
      ensures elapsedMillis == if running then old(elapsedMillis) + millis else old(elapsedMillis)
    {
      if running {
        elapsedMillis := elapsedMillis + millis;
      }
    }
  }

  class DeadlineTracker {
    const stopwatch: Stopwatch
    var deadline: int

    /** The stopwatch always runs and the budget is never negative. */
    ghost predicate Valid()
      reads this, stopwatch
    {
      stopwatch.running && Deadline.Valid(State())
    }

    /** The budget and the stopwatch's reading, which every query is a function of. */
    function State(): TrackerState
      reads this, stopwatch
    {
      TrackerState(deadline, stopwatch.elapsedMillis)
    }

    /** A tracker on a new stopwatch, started right now, with no deadline. */
    constructor ()
      ensures Valid() && fresh(stopwatch)
      ensures State() == Fresh()
    {
      var sw := new Stopwatch();
      sw.Start();
      stopwatch := sw;
      deadline := 0;
    }

    /**
     * A tracker on the given stopwatch, which is reset first if it is running and then
     * started; the tracker starts with no deadline.
     */
    constructor FromStopwatch(sw: Stopwatch)
      modifies sw
      ensures stopwatch == sw && Valid()
      ensures State() == Started(old(sw.running), old(sw.elapsedMillis))
    {
      if sw.running {
        sw.Reset();
      }
      sw.Start();
      stopwatch := sw;
      deadline := 0;
    }

    /**
     * Replace the budget without touching the stopwatch; a negative budget is refused
     * with IllegalArgument and the tracker stays as it was.
     */
    method SetDeadline(d: int) returns (outcome: Outcome)
      requires Valid()
      modifies this
      ensures Valid()
      ensures match Deadline.SetDeadline(old(State()), d)
              case Success(s) => outcome == Pass && State() == s
              case Failure(e) => outcome == Fail(e) && State() == old(State())
    {
      if d < 0 {
        return Fail(IllegalArgument(d));
      }
      deadline := d;
      outcome := Pass;
    }

    /**
     * `millis` milliseconds go by on the tracker's stopwatch: the step that a `Sleep`
     * call makes in a sequence of calls.
     */
    method Tick(millis: nat)
      requires Valid()
      modifies stopwatch
      ensures Valid()
      ensures State() == Deadline.Tick(old(State()), millis)
    {
      stopwatch.Tick(millis);
    }

    /** Drop the budget and restart the stopwatch from zero. */
    method Reset()
      requires Valid()
      modifies this, stopwatch
      ensures Valid()
      ensures State() == Deadline.Reset(old(State()))
    {
      deadline := 0;
      stopwatch.Reset();
      stopwatch.Start();
    }
  }

  /**
   * A retry loop's use of the tracker, with the facts a caller can draw from the
   * contracts alone.
   */
  method RetryWindow() {
    var tracker := new DeadlineTracker();
    assert GetDeadline(tracker.State()) == 0 && !HasDeadline(tracker.State());
    var outcome := tracker.SetDeadline(-1);
    assert outcome == Fail(IllegalArgument(-1)) && GetDeadline(tracker.State()) == 0;
    outcome := tracker.SetDeadline(1000);
    assert outcome == Pass;
    assert WouldSleepingTimeout(tracker.State(), 2000);
    assert !WouldSleepingTimeout(tracker.State(), 10);
    tracker.Tick(1001);
    assert TimedOut(tracker.State());
    assert MillisBeforeDeadline(tracker.State()) == Success(1);
    assert !WouldSleepingTimeout(tracker.State(), 0);
    tracker.Reset();
    assert !HasDeadline(tracker.State()) && ElapsedMillis(tracker.State()) == 0;
    assert MillisBeforeDeadline(tracker.State()) == Failure(IllegalState);
  }

  /**
   * A caller's stopwatch: one that runs is cleared before the tracker starts it, one
   * that was stopped is resumed with the time already on it.
   */
  method CallerStopwatch() {
    var sw := new Stopwatch();
    sw.Start();
    sw.Tick(500);
    var fromRunning := new DeadlineTracker.FromStopwatch(sw);
    assert ElapsedMillis(fromRunning.State()) == 0;
    var stopped := new Stopwatch();
    stopped.Start();
    stopped.Tick(500);
    stopped.Stop();
    var fromStopped := new DeadlineTracker.FromStopwatch(stopped);
    assert ElapsedMillis(fromStopped.State()) == 500 && !HasDeadline(fromStopped.State());
  }
}
