# Background worker scheduling loop, in Dafny

This project models the scheduling loop of `BaseBackgroundService`, the base
class of the WDLT.Workers.Base library. The class runs one unit of work over
and over. It first waits `StartAfter`. Then, on every tick, it asks
`CanExecute()`. If the answer is no, it waits one minute. If the answer is
yes, it cancels the previous run's `CancellationTokenSource` and installs a
fresh one. It stamps `ExecuteTimestamp` and calls `DoWorkAsync` with the new
token, catching anything the work throws. Last, it waits
`max(Timeout − elapsed, 1000 ms)`. The loop stops when the stopping token
fires.

The model is a pure state machine.

- `Timing` holds the constants (1000 ms floor, 60 000 ms gate-closed wait,
  5000 ms defaults), a model of the stopwatch, and the next-delay formula
  `NextDelay`.
- `RunHandles` holds the single slot for the current run's cancellation
  source (`_cts`). Its `Replace` operation cancels the old source and then
  installs a new one.
- `BackgroundService` holds the loop state and `Step(state, event)`, one
  transition of the loop. It also holds `Run`, which folds `Step` over a
  sequence of events, and `ExecuteLoop`, the `while` loop written as a
  method.
- `LoopProperties` holds the lemmas that relate several steps, or a step to
  the inputs it ignores.

The loop is always suspended in a wait: the start delay, the one-minute wait
when the gate is closed, or the computed inter-run delay. An event says how
that wait ended. `Shutdown` means the stopping token fired. `Wake` means the
wait ran out. A `Wake` carries the gate's answer, the clock reading `now`,
the work's outcome, the time the work took, and whether stopping was
requested while the work ran.

These are parameters of the model: the wall clock (`DateTimeOffset.Now`),
the stopwatch's time source, the gate's answer, what `DoWorkAsync` does and
how long it takes, and when shutdown is requested.

Code facts the model follows:

- The per-run source is created unlinked to `stoppingToken`
  (`BaseBackgroundService.cs:48`). So a shutdown never cancels the current
  run's handle (`ShutdownKeepsRunHandle`, `StopDuringWorkLeavesRunLive`).
- The 1000 ms floor under the next delay is hard-coded
  (`BaseBackgroundService.cs:64`); the model has it as the constant
  `Timing.MinDelayMs`.

Only the timestamp and the call to the work sit inside the `try` (lines 52-60). An exception
from `CanExecute()` (line 40) is not caught and ends the loop. The model
calls this terminal phase `Faulted` (`GateFaultEndsLoop`).

## Model

| member | source | states |
|---|---|---|
| Timing.NextDelay | WDLT.Workers.Base/BaseBackgroundService.cs:64 | The next wait is never below 1000 ms and never below `Timeout − elapsed`, and it is one of those two values; so it is their maximum. |
| Timing.NextDelayCases | WDLT.Workers.Base/BaseBackgroundService.cs:64 | The wait is exactly `Timeout − elapsed` iff that is at least 1000 ms. It is exactly 1000 ms iff `Timeout − elapsed` is at most 1000 ms. |
| Timing.NextDelayAntitone | WDLT.Workers.Base/BaseBackgroundService.cs:64 | A longer run never gets a longer wait afterwards. |
| Timing.RunToRunPeriod | WDLT.Workers.Base/BaseBackgroundService.cs:64 | Run time plus wait is at least `Timeout` and at least run time plus 1000 ms. It equals `Timeout` when the run left at least 1000 ms of the period, and run time plus 1000 ms otherwise. |
| Timing.DefaultPeriodExamples | WDLT.Workers.Base/BaseBackgroundService.cs:64 | With the default 5000 ms `Timeout` (line 23): a 2 s run waits 3000 ms, a 5 s or 7 s run waits 1000 ms, and an instant run waits 5000 ms. |
| Timing.MeasureOneRun | WDLT.Workers.Base/BaseBackgroundService.cs:46-68 | Start, run, stop reads the old reading plus the run's duration. From a reset stopwatch it reads exactly the duration. A reset afterwards clears it. |
| RunHandles.Cancel | WDLT.Workers.Base/BaseBackgroundService.cs:47 | Cancelling keeps the handle's identity and marks it cancelled. Cancelling an already-cancelled handle changes nothing. |
| RunHandles.CancelIdempotent | WDLT.Workers.Base/BaseBackgroundService.cs:47 | Cancelling twice is the same as cancelling once. |
| RunHandles.CancelCurrent | WDLT.Workers.Base/BaseBackgroundService.cs:47 | `_cts?.Cancel()`: with no current handle nothing happens. Otherwise the same handle becomes cancelled. Retired handles and the id counter stay the same. |
| RunHandles.Install | WDLT.Workers.Base/BaseBackgroundService.cs:48 | The new current handle is not cancelled. On a valid slot its id differs from every retired handle and from the dropped one. The dropped handle, if any, joins the retired set. The slot stays valid iff the dropped handle was cancelled first: installing over a live handle breaks validity. |
| RunHandles.Replace | WDLT.Workers.Base/BaseBackgroundService.cs:47-48 | Afterwards exactly one current handle exists. It is uncancelled and its id was never used. The retired set gains exactly the previous current handle, cancelled, and nothing else. Slot validity is preserved: ids increase, and no retired handle is uncancelled. |
| BackgroundService.Init | WDLT.Workers.Base/BaseBackgroundService.cs:31-36 | On entry the loop waits `StartAfter`. It has no run handle and no `ExecuteTimestamp` yet, and it satisfies the loop invariant. |
| BackgroundService.EligibleTick | WDLT.Workers.Base/BaseBackgroundService.cs:46-70 | An allowed tick hands the work a fresh, uncancelled handle that becomes current. It cancels the previous handle, which is the only handle added to the retired set. The work sees `ExecuteTimestamp` already equal to `now`. The stopwatch ends reset. The wait is at least 1000 ms, and it is `NextDelay(Timeout, elapsed)` when the stopwatch started reset. The loop stops instead of waiting if stopping was requested during the work. |
| BackgroundService.Step | WDLT.Workers.Base/BaseBackgroundService.cs:36-71 | The work is called iff the loop is live, the wait ran out and the gate allowed it. With a call, the retired set gains exactly the cancelled previous handle. With no call, the handle slot and timestamp are unchanged. A stopped or faulted loop stays as it is. A shutdown moves a live loop to `Stopped`. The loop invariant and the configuration are preserved. |
| BackgroundService.Run | WDLT.Workers.Base/BaseBackgroundService.cs:38-71 | Over any event sequence: the configuration is fixed, the invariant is kept, and there is at most one work call per event. A loop that has left makes no further calls and no further changes. |
| BackgroundService.ExecuteLoop | WDLT.Workers.Base/BaseBackgroundService.cs:38-71 | The `while` loop consumes events until they run out or the loop has left. Every event it consumed was taken while the loop was still live, so it leaves as soon as the loop is stopped or faulted. If it ends before the events run out, the loop has left. Its result equals `Run` over all the events, because the ignored remainder changes nothing. |
| LoopProperties.GateClosedTouchesNothing | WDLT.Workers.Base/BaseBackgroundService.cs:40-43 | A closed gate calls no work. It leaves the handle slot, `ExecuteTimestamp` and the stopwatch unchanged, and the loop waits exactly 60 000 ms. |
| LoopProperties.GateClosedIgnoresEvent | WDLT.Workers.Base/BaseBackgroundService.cs:40-43 | A closed-gate tick's result does not depend on the clock, run duration, outcome or stop flag of the event. |
| LoopProperties.GateFaultEndsLoop | WDLT.Workers.Base/BaseBackgroundService.cs:40 | An exception from `CanExecute()` is not caught. The loop ends in `Faulted` without calling the work, and leaves the handle slot and `ExecuteTimestamp` unchanged. No later event calls the work or changes the state. |
| LoopProperties.FailureIsAbsorbed | WDLT.Workers.Base/BaseBackgroundService.cs:52-64 | A throwing run leaves the same state, next wait and work call as a run that returns normally. The loop keeps ticking. |
| LoopProperties.EligibleTickDiscipline | WDLT.Workers.Base/BaseBackgroundService.cs:46-64 | From any reachable state, an allowed tick does the following. It cancels and retires the previous handle. It installs a handle whose id differs from every earlier handle, and hands that handle to the work uncancelled. The work sees `ExecuteTimestamp == now`. The tick waits `NextDelay(Timeout, this run's duration)`. |
| LoopProperties.ShutdownKeepsRunHandle | WDLT.Workers.Base/BaseBackgroundService.cs:36-70 | A shutdown during any wait calls no work. It leaves the handle slot untouched, so the current run's token is not cancelled, and it ends the loop. |
| LoopProperties.StopDuringWorkLeavesRunLive | WDLT.Workers.Base/BaseBackgroundService.cs:48-70 | A stop requested while the work runs lets the tick finish, then ends the loop. The run's handle stays current and uncancelled. |
| LoopProperties.NoWorkAfterStop | WDLT.Workers.Base/BaseBackgroundService.cs:38-71 | After a stop request, no later event causes a work call or changes the state. |
| LoopProperties.FailuresNeverStopTheLoop | WDLT.Workers.Base/BaseBackgroundService.cs:52-71 | Given only allowed ticks without a stop, the work is called once per tick, however many of those calls to `DoWorkAsync` throw. The loop is still ticking at the end. Exceptions raised outside the `try`, at lines 40 and 47, are not covered here; see `GateFaultEndsLoop` and "## Left out". |
| LoopProperties.RunHandleDiscipline | WDLT.Workers.Base/BaseBackgroundService.cs:47-48 | Over any event sequence, work calls get consecutive fresh ids and uncancelled tokens. The last token is the current handle. Every earlier token, and the handle current at the outset, ends up cancelled. Every call saw `ExecuteTimestamp` set, and the final timestamp is the one the last call saw. A trace without calls changes neither the slot nor the timestamp. |
| LoopProperties.DelayUsesOwnRunOnly | WDLT.Workers.Base/BaseBackgroundService.cs:46-68 | In every state reachable from the start, an allowed tick waits `NextDelay(Timeout, d)`. Here `d` is that tick's own duration, because durations do not accumulate across ticks (the stopwatch is reset at line 68). |
| LoopProperties.DefaultServiceScenario | WDLT.Workers.Base/BaseBackgroundService.cs:22-29 | With the constructor defaults `StartAfter = Timeout = 5 s` (lines 22-23) and the default `CanExecute` returning true (lines 26-29), the loop first waits 5000 ms. A 2 s run is followed by a 3000 ms wait. A following 7 s run that throws is followed by a 1000 ms wait, and the first run's handle is cancelled. |

## Left out

- Real time: `Task.Delay`, the `Stopwatch` time source and `DateTimeOffset.Now` are not modelled. Each wait's length is an output of the model (`waitMs`). How the wait ended, the clock reading and each run's duration are inputs. The model does not require successive `now` readings to increase.
- `DoWorkAsync` is opaque. It appears only as an outcome (returned or threw) and a duration. What it does with its token, and any work it leaves running after it returns, are outside the model.
- Multi-threaded overlap of leftover work from earlier ticks is not modelled. Nor is cooperative cancellation inside the work.
- The `OperationCanceledException` from `Task.Delay` when the stopping token fires (lines 36, 42, 70) becomes a transition to `Stopped`. The rethrow into the hosting layer is not modelled.
- `_cts?.Cancel()` at line 47 sits outside the `try`. `CancellationTokenSource.Cancel()` re-throws, as an `AggregateException`, whatever a callback registered on the previous run's token throws. That exception escapes `ExecuteAsync` and ends the loop. The model's `Cancel` never fails, so this exit is not modelled: callbacks registered on a token belong to the opaque work.
- Logging (lines 20, 33, 50, 59, 66, 73) is observability only and is not modelled.
- Hosting integration (`BackgroundService`, `StartAsync`/`StopAsync`) is not part of this model.
- Timing.NextDelay: uses integer milliseconds, not the `double` arithmetic on `TotalMilliseconds` and the rounding of `TimeSpan.FromMilliseconds`. A `Timeout` with sub-millisecond ticks is therefore not modelled. Neither are `TimeSpan` overflow and the `ArgumentOutOfRangeException` that `Task.Delay` throws for waits beyond `int.MaxValue` ms.
- BackgroundService.Init: `StartAfter` is a natural number. A negative `StartAfter` is not modelled: `Task.Delay` rejects it, or treats −1 ms as an infinite wait.
- BackgroundService.Step: `StartAfter` and `Timeout` are fixed for the loop's lifetime. The source lets a subclass reassign them (protected setters) at any time, even while the loop runs.
