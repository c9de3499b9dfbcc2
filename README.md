# DeadlineTracker in Dafny

A model of Kudu's Java `DeadlineTracker` (package `kudu.rpc`). The tracker holds a
time budget in milliseconds and a stopwatch that it starts when it is built. A budget
of `0` means "no deadline", and negative budgets are refused. Retry loops use the
tracker to ask four questions:

- whether a deadline is set;
- whether the deadline has been reached;
- how many milliseconds remain (never fewer than 1);
- whether a planned sleep would reach the deadline.

The project has three files:

- `deadline.dfy` (module `Deadline`). This is the tracker as a value:
  `TrackerState(deadline, elapsed)`. Every query (`hasDeadline`, `getDeadline`,
  `getElapsedMillis`, `timedOut`, `getMillisBeforeDeadline`, `wouldSleepingTimeout`)
  is a function of this value, with a body shaped like the Java code. Each function's
  `ensures` says what its answer means. The mutators are transitions between values:
  `Started` for construction, `SetDeadline`, `Reset`, and `Tick` for time passing. The
  two Java exceptions are the `Error` values `IllegalArgument` and `IllegalState`, carried
  in a `Result`.
- `traces.dfy` (module `DeadlineTraces`). This covers any sequence of calls. It shows
  that every tracker a caller can reach keeps `deadline >= 0`. It also shows how the
  elapsed time builds up across `setDeadline` calls and sleeps, and restarts at a
  reset. Finally, it shows that a reached deadline stays reached while time passes.
- `tracker.dfy` (module `KuduRpc`). This is the object itself. `DeadlineTracker` is a
  class with a mutable `deadline` field and a `stopwatch`. It has both constructors
  plus `SetDeadline`, `Reset` and `Tick` (time passing on its stopwatch). Their
  `ensures` clauses tie the new `State()` to the transitions in `Deadline`. `Stopwatch` stands in for Guava's stopwatch, which is not
  part of this model. It has `Start`, `Stop`, `Reset` and a `Tick` for milliseconds
  going by, and it counts time only while it runs. Two client methods show what a
  caller can prove from the contracts alone.

The queries are Dafny functions, so they cannot change `deadline` or the stopwatch.
That is how the model states that the Java query methods have no side effects.

Built on a caller's stopwatch, the tracker resets the stopwatch only if it is running.
A stopped stopwatch that already has time on it is resumed, not cleared, so the tracker
starts with that time elapsed. The model keeps this behaviour (see `Deadline.Started`).
The doc comment of `getMillisBeforeDeadline` says that `Long.MAX_VALUE` is returned when
there is no deadline. The code throws `IllegalStateException` instead. The model follows
the code: the result is `Failure(IllegalState)`.

## Model

| member | source | states |
|---|---|---|
| `Deadline.Started` | java/kudu-client/src/main/java/kudu/rpc/DeadlineTracker.java:25-35 | A tracker built on a stopwatch has no deadline and satisfies the invariant. Its elapsed time starts at 0 if the stopwatch was running, and is kept as it was if the stopwatch was stopped |
| `Deadline.Fresh` | java/kudu-client/src/main/java/kudu/rpc/DeadlineTracker.java:16-23 | A tracker built with a new stopwatch has deadline 0, no deadline set and 0 ms elapsed |
| `KuduRpc.DeadlineTracker.constructor` | java/kudu-client/src/main/java/kudu/rpc/DeadlineTracker.java:18-23 | The object gets a fresh, running stopwatch, and its state is `Fresh()` |
| `KuduRpc.DeadlineTracker.FromStopwatch` | java/kudu-client/src/main/java/kudu/rpc/DeadlineTracker.java:25-35 | The object keeps the caller's stopwatch, which now runs. Its state is `Started` of that stopwatch's earlier running flag and reading |
| `Deadline.ElapsedMillis` | java/kudu-client/src/main/java/kudu/rpc/DeadlineTracker.java:69-71 | The stopwatch's reading. It never decreases without a reset (`DeadlineTraces.ElapsedAccumulates`) and equals the time slept since the last reset (`DeadlineTraces.ElapsedSinceLastReset`) |
| `KuduRpc.DeadlineTracker.Tick` | java/kudu-client/src/main/java/kudu/rpc/DeadlineTracker.java:7-16 | Time passing on the object's stopwatch keeps the invariant, and the new state is `Deadline.Tick` of the old one: the `Sleep` step of the call sequences |
| `Deadline.HasDeadline` | java/kudu-client/src/main/java/kudu/rpc/DeadlineTracker.java:73-79 | Under the invariant, a deadline is set exactly when the budget is greater than 0 |
| `Deadline.GetDeadline` | java/kudu-client/src/main/java/kudu/rpc/DeadlineTracker.java:103-109 | The budget is non-negative under the invariant, and it is 0 exactly when no deadline is set |
| `Deadline.TimedOut` | java/kudu-client/src/main/java/kudu/rpc/DeadlineTracker.java:37-47 | Never timed out without a deadline. With a deadline, timed out exactly when elapsed >= deadline |
| `Deadline.MillisBeforeDeadline` | java/kudu-client/src/main/java/kudu/rpc/DeadlineTracker.java:49-67 | Fails with IllegalState exactly when no deadline is set. Otherwise the result is >= 1 and never above the budget. It is 1 once timed out. Before that, elapsed + result == deadline |
| `Deadline.WouldSleepingTimeout` | java/kudu-client/src/main/java/kudu/rpc/DeadlineTracker.java:81-92 | False without a deadline and false for any sleep <= 0. Otherwise true exactly when the tracker would be timed out after sleeping that long |
| `Deadline.SetDeadline` | java/kudu-client/src/main/java/kudu/rpc/DeadlineTracker.java:111-124 | Fails with IllegalArgument(d) exactly when d < 0. Otherwise it stores d, keeps the elapsed time and the invariant, and a deadline is then set iff d != 0 |
| `KuduRpc.DeadlineTracker.SetDeadline` | java/kudu-client/src/main/java/kudu/rpc/DeadlineTracker.java:118-124 | Keeps the object invariant. On success the new state is the one `Deadline.SetDeadline` gives. On failure it returns that error and the state is unchanged |
| `Deadline.Reset` | java/kudu-client/src/main/java/kudu/rpc/DeadlineTracker.java:94-101 | After a reset there is no deadline, no time-out and 0 ms elapsed, and asking for the remaining time fails with IllegalState |
| `KuduRpc.DeadlineTracker.Reset` | java/kudu-client/src/main/java/kudu/rpc/DeadlineTracker.java:97-101 | The stopwatch still runs, and the new state is `Deadline.Reset` of the old one |
| `Deadline.TimedOutPersists` | java/kudu-client/src/main/java/kudu/rpc/DeadlineTracker.java:7-13 | A reached deadline stays reached however much time passes, and the remaining time stays at 1 |
| `Deadline.RemainingShrinks` | java/kudu-client/src/main/java/kudu/rpc/DeadlineTracker.java:59-67 | When n ms pass, the remaining time drops by n but never goes below 1 |
| `Deadline.RemainingIsShortestSleep` | java/kudu-client/src/main/java/kudu/rpc/DeadlineTracker.java:87-92 | Before the deadline, sleeping exactly the remaining time times out and sleeping 1 ms less does not. `wouldSleepingTimeout` gives the same two answers |
| `DeadlineTraces.RunKeepsValid` | java/kudu-client/src/main/java/kudu/rpc/DeadlineTracker.java:118-124 | No sequence of setDeadline, reset and sleep calls can make the budget negative |
| `DeadlineTraces.ReachableIsValid` | java/kudu-client/src/main/java/kudu/rpc/DeadlineTracker.java:14-35 | Every tracker reachable from either constructor satisfies deadline >= 0 |
| `DeadlineTraces.ElapsedAccumulates` | java/kudu-client/src/main/java/kudu/rpc/DeadlineTracker.java:69-71 | With no reset, the elapsed time is its old value plus all the time slept, so it never decreases. setDeadline does not touch it |
| `DeadlineTraces.ElapsedSinceLastReset` | java/kudu-client/src/main/java/kudu/rpc/DeadlineTracker.java:94-101 | After the last reset, elapsed time equals the time slept since then. If only sleeps follow, no deadline is set |
| `DeadlineTraces.SleepsKeepDeadline` | java/kudu-client/src/main/java/kudu/rpc/DeadlineTracker.java:7-13 | While only time passes, the budget stays the same and a reached deadline stays reached |
| `DeadlineTraces.SetDeadlineThenSleep` | java/kudu-client/src/main/java/kudu/rpc/DeadlineTracker.java:111-124 | After setDeadline(d > 0) and then only sleeps, the tracker times out exactly when the earlier elapsed time plus the time slept reaches d |

## Left out

- `toString` (DeadlineTracker.java:126-132) only formats text for logs, and no contract depends on it.
- The real clock. Guava's `Stopwatch` reads a monotonic clock in nanoseconds. Here it is a millisecond counter that `Tick` advances while the stopwatch runs. Guava's stopwatch is not part of this model. Only the operations the tracker uses are modelled, plus `Stop`.
- Deadline.WouldSleepingTimeout: does not model Java's 64-bit `long` wrap-around in `getMillisBeforeDeadline() - plannedSleepTime`. With remaining time r (1 <= r <= `Long.MAX_VALUE`), the subtraction wraps exactly when `plannedSleepTime < r - Long.MAX_VALUE`. For example, a budget of `Long.MAX_VALUE` with nothing elapsed and a sleep of -1 wraps. The wrapped value always lies between `Long.MIN_VALUE` and -1, so Java then answers true. The model computes with unbounded integers and answers false for every sleep <= 0.
- All budgets, readings and sleeps are unbounded integers rather than 64-bit `long` values. The tracker's other subtractions cannot overflow for non-negative inputs.
- Thread safety. The class has no synchronisation and is meant for a single caller. The model is sequential.
- A stopwatch shared with the caller. `FromStopwatch` keeps the caller's stopwatch, and the caller still holds it. The model assumes nobody else stops or resets that stopwatch. If someone does, `Valid()` no longer holds and the model refuses `SetDeadline` and `Reset`, while Java still accepts both, and its `reset()` restarts the stopwatch.
