/**
  The timing controller of the background loop: the constants it waits for,
  the stopwatch that measures one run, and the inter-run delay formula.
  All durations are integer milliseconds.
 */
module Timing {

  /** Floor under the computed inter-run delay. It is hard-coded, not configurable. */
  const MinDelayMs: nat := 1000

  /** The fixed wait taken when the gate says the work may not run now (one minute). */
  const GateClosedWaitMs: nat := 60_000

  /** Constructor default for `StartAfter` (five seconds). */
  const DefaultStartAfterMs: nat := 5000

  /** Constructor default for `Timeout`, the target period (five seconds). */
  const DefaultTimeoutMs: int := 5000

  /**
    A stopwatch in the sense of System.Diagnostics.Stopwatch: time advances
    the reading only while it is running; Stop keeps the reading, Reset
    clears it.
   */
  datatype Stopwatch = Stopwatch(isRunning: bool, elapsedMs: nat) {

    predicate IsReset() {
      !isRunning && elapsedMs == 0
    }

    function Start(): Stopwatch {
      Stopwatch(true, elapsedMs)
    }

    /** Lets `ms` milliseconds of wall-clock time pass. */
    function Advance(ms: nat): Stopwatch {
      if isRunning then Stopwatch(true, elapsedMs + ms) else this
    }

    function Stop(): Stopwatch {
      Stopwatch(false, elapsedMs)
    }

    function Reset(): Stopwatch {
      Stopwatch(false, 0)
    }
  }

  /** A newly constructed stopwatch. */
  const NewStopwatch: Stopwatch := Stopwatch(false, 0)

  /**
    Measuring one run: start, let `ms` pass, stop. A stopwatch that was reset
    beforehand reads exactly the run's duration; one that was not carries its
    old reading along, which is why the loop resets it after every run.
   */
  lemma MeasureOneRun(sw: Stopwatch, ms: nat)
    ensures !sw.Start().Advance(ms).Stop().isRunning
    ensures sw.Start().Advance(ms).Stop().elapsedMs == sw.elapsedMs + ms
    ensures sw.IsReset() ==> sw.Start().Advance(ms).Stop().elapsedMs == ms
    ensures sw.Start().Advance(ms).Stop().Reset().IsReset()
  {
  }

  /**
    The wait before the next run: the target period minus the time the run
    took, but never less than `MinDelayMs`.
   */
  function NextDelay(timeoutMs: int, elapsedMs: nat): (r: nat)
    ensures MinDelayMs <= r
    ensures timeoutMs - elapsedMs <= r
    ensures r == MinDelayMs || r == timeoutMs - elapsedMs
  {
    if timeoutMs - elapsedMs > MinDelayMs then timeoutMs - elapsedMs else MinDelayMs
  }

  /** The two regimes of the formula, each in both directions. */
  lemma NextDelayCases(timeoutMs: int, elapsedMs: nat)
    ensures timeoutMs - elapsedMs >= MinDelayMs <==> NextDelay(timeoutMs, elapsedMs) == timeoutMs - elapsedMs
    ensures timeoutMs - elapsedMs <= MinDelayMs <==> NextDelay(timeoutMs, elapsedMs) == MinDelayMs
  {
  }

  /** A longer run never earns a longer wait: the loop compensates for slow runs. */
  lemma NextDelayAntitone(timeoutMs: int, e1: nat, e2: nat)
    requires e1 <= e2
    ensures NextDelay(timeoutMs, e2) <= NextDelay(timeoutMs, e1)
  {
  }

  /**
    From the start of one run to the start of the next (run time plus wait)
    the loop takes the target period, or the run time plus the floor when the
    run overran it.
   */
  lemma RunToRunPeriod(timeoutMs: int, elapsedMs: nat)
    ensures elapsedMs + NextDelay(timeoutMs, elapsedMs) >= timeoutMs
    ensures elapsedMs + NextDelay(timeoutMs, elapsedMs) >= elapsedMs + MinDelayMs
    ensures elapsedMs + MinDelayMs <= timeoutMs ==> elapsedMs + NextDelay(timeoutMs, elapsedMs) == timeoutMs
    ensures timeoutMs <= elapsedMs + MinDelayMs ==> elapsedMs + NextDelay(timeoutMs, elapsedMs) == elapsedMs + MinDelayMs
  {
  }

  /** With the default five-second period: a 2 s run waits 3 s, a 7 s run waits 1 s. */
  lemma DefaultPeriodExamples()
    ensures NextDelay(DefaultTimeoutMs, 2000) == 3000
    ensures NextDelay(DefaultTimeoutMs, 5000) == 1000
    ensures NextDelay(DefaultTimeoutMs, 7000) == 1000
    ensures NextDelay(DefaultTimeoutMs, 0) == 5000
  {
  }
}
