/**
 * Sequences of calls on a tracker: what holds of every tracker a caller can reach,
 * and how the elapsed time and the deadline evolve across retries and sleeps.
 */
module DeadlineTraces {
  import opened Deadline

  /** One thing a caller can do to a tracker; `Sleep` is time passing. */
  datatype Call = SetDeadlineCall(deadline: int) | ResetCall | Sleep(millis: nat)

  /** The tracker after one call; a rejected setDeadline leaves it as it was. */
  function Apply(t: TrackerState, c: Call): TrackerState {
    match c
    case SetDeadlineCall(d) =>
      (match SetDeadline(t, d)
       case Success(u) => u
       case Failure(_) => t)
    case ResetCall => Reset(t)
    case Sleep(n) => Tick(t, n)
  }

  /** The tracker after the calls, in order. */
  function Run(t: TrackerState, calls: seq<Call>): TrackerState
    decreases |calls|
  {
    if calls == [] then t else Run(Apply(t, calls[0]), calls[1..])
  }

  /** Milliseconds slept over the calls. */
  function Slept(calls: seq<Call>): nat
    decreases |calls|
  {
    if calls == [] then 0
    else (if calls[0].Sleep? then calls[0].millis else 0) + Slept(calls[1..])
  }

  predicate NoReset(calls: seq<Call>) {
    forall i :: 0 <= i < |calls| ==> !calls[i].ResetCall?
  }

  predicate OnlySleeps(calls: seq<Call>) {
    forall i :: 0 <= i < |calls| ==> calls[i].Sleep?
  }

  /** Every call keeps the budget non-negative. */
  lemma {:induction false} RunKeepsValid(t: TrackerState, calls: seq<Call>)
    requires Valid(t)
    ensures Valid(Run(t, calls))
    decreases |calls|
  {
    if calls != [] {
      RunKeepsValid(Apply(t, calls[0]), calls[1..]);
    }
  }

  /**
   * Every tracker reachable from either constructor by any sequence of calls
   * satisfies the object invariant.
   */
  lemma {:induction false} ReachableIsValid(running: bool, elapsed: nat, calls: seq<Call>)
    ensures Valid(Run(Started(running, elapsed), calls))
  {
    RunKeepsValid(Started(running, elapsed), calls);
  }

  /** Running two sequences is running the first, then the second. */
  lemma {:induction false} RunAppend(t: TrackerState, a: seq<Call>, b: seq<Call>)
    ensures Run(t, a + b) == Run(Run(t, a), b)
    decreases |a|
  {
    if a == [] {
      assert a + b == b;
    } else {
      assert (a + b)[1..] == a[1..] + b;
      RunAppend(Apply(t, a[0]), a[1..], b);
    }
  }

  /**
   * Without a reset, setting deadlines never touches the clock: the elapsed time is
   * what it was plus every millisecond slept.
   */
  lemma {:induction false} ElapsedAccumulates(t: TrackerState, calls: seq<Call>)
    requires NoReset(calls)
    ensures ElapsedMillis(Run(t, calls)) == ElapsedMillis(t) + Slept(calls)
    ensures ElapsedMillis(Run(t, calls)) >= ElapsedMillis(t)
    decreases |calls|
  {
    if calls != [] {
      assert !calls[0].ResetCall?;
      assert NoReset(calls[1..]) by {
        forall i | 0 <= i < |calls[1..]| ensures !calls[1..][i].ResetCall? {
          assert calls[1..][i] == calls[i + 1];
        }
      }
      ElapsedAccumulates(Apply(t, calls[0]), calls[1..]);
    }
  }

  /**
   * After the last reset, the elapsed time is exactly the time slept since then,
   * whatever came before it, and there is no deadline until one is set again.
   */
  lemma {:induction false} ElapsedSinceLastReset(t: TrackerState, before: seq<Call>, after: seq<Call>)
    requires NoReset(after)
    ensures ElapsedMillis(Run(t, before + [ResetCall] + after)) == Slept(after)
    ensures OnlySleeps(after) ==> !HasDeadline(Run(t, before + [ResetCall] + after))
  {
    RunAppend(t, before + [ResetCall], after);
    RunAppend(t, before, [ResetCall]);
    var r := Run(t, before + [ResetCall]);
    assert r == Reset(Run(t, before));
    ElapsedAccumulates(r, after);
    if OnlySleeps(after) {
      SleepsKeepDeadline(r, after);
    }
  }

  /**
   * While only time passes, the budget stays as it is and a reached deadline stays
   * reached.
   */
  lemma {:induction false} SleepsKeepDeadline(t: TrackerState, calls: seq<Call>)
    requires OnlySleeps(calls)
    ensures GetDeadline(Run(t, calls)) == GetDeadline(t)
    ensures TimedOut(t) ==> TimedOut(Run(t, calls))
    decreases |calls|
  {
    if calls != [] {
      assert calls[0].Sleep?;
      assert OnlySleeps(calls[1..]) by {
        forall i | 0 <= i < |calls[1..]| ensures calls[1..][i].Sleep? {
          assert calls[1..][i] == calls[i + 1];
        }
      }
      if TimedOut(t) {
        TimedOutPersists(t, calls[0].millis);
      }
      SleepsKeepDeadline(Apply(t, calls[0]), calls[1..]);
    }
  }

  /**
   * A setDeadline followed only by sleeps times out exactly when the time slept since
   * construction or reset reaches the new budget.
   */
  lemma {:induction false} SetDeadlineThenSleep(t: TrackerState, d: int, calls: seq<Call>)
    requires d > 0 && OnlySleeps(calls)
    ensures var u := Run(t, [SetDeadlineCall(d)] + calls);
            GetDeadline(u) == d
            && (TimedOut(u) <==> ElapsedMillis(t) + Slept(calls) >= d)
  {
    RunAppend(t, [SetDeadlineCall(d)], calls);
    var s := Run(t, [SetDeadlineCall(d)]);
    assert s == Apply(t, SetDeadlineCall(d));
    SleepsKeepDeadline(s, calls);
    assert NoReset(calls) by {
      forall i | 0 <= i < |calls| ensures !calls[i].ResetCall? {
        assert calls[i].Sleep?;
      }
    }
    ElapsedAccumulates(s, calls);
  }
}
