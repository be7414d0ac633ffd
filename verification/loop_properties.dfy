/**
  Properties of the background loop that relate several steps, or a step to
  the inputs it ignores.
 */
module LoopProperties {

  import opened Optional
  import opened Timing
  import opened RunHandles
  import opened BackgroundService

  /**
    A closed gate calls no work and leaves the handle slot, the timestamp and
    the stopwatch as they were; the loop waits one minute, whatever the clock,
    the would-be run and the stop flag of the event say.
   */
  lemma GateClosedTouchesNothing(s: State, now: int, work: WorkOutcome, elapsedMs: nat, stopDuringWork: bool)
    requires !s.phase.IsTerminal()
    ensures var r := Step(s, Wake(NotEligible, now, work, elapsedMs, stopDuringWork));
            && r.invoked.None?
            && r.state.slot == s.slot
            && r.state.executeTimestamp == s.executeTimestamp
            && r.state.stopwatch == s.stopwatch
            && r.state.config == s.config
            && r.state.phase == Ticking
            && r.state.waitMs == GateClosedWaitMs
  {
  }

  /** The closed-gate step does not depend on any other field of the event. */
  lemma GateClosedIgnoresEvent(s: State, e1: Event, e2: Event)
    requires e1.Wake? && e1.gate.NotEligible?
    requires e2.Wake? && e2.gate.NotEligible?
    ensures Step(s, e1) == Step(s, e2)
  {
  }

  /**
    An exception from the gate is not caught: the loop ends in `Faulted`
    without calling the work or touching the handle slot and the timestamp,
    and no later event calls the work.
   */
  lemma GateFaultEndsLoop(s: State, now: int, work: WorkOutcome, elapsedMs: nat, stopDuringWork: bool, later: seq<Event>)
    requires !s.phase.IsTerminal()
    ensures var r := Step(s, Wake(GateThrew, now, work, elapsedMs, stopDuringWork));
            && r.invoked.None?
            && r.state.phase == Faulted
            && r.state.slot == s.slot
            && r.state.executeTimestamp == s.executeTimestamp
            && Run(r.state, later) == Trace(r.state, [])
  {
  }

  /**
    Error isolation: a run that throws leaves exactly the state, the wait and
    the work call that a run returning normally would, and the loop keeps
    ticking.
   */
  lemma FailureIsAbsorbed(s: State, now: int, elapsedMs: nat, stopDuringWork: bool)
    ensures Step(s, Wake(Eligible, now, Threw, elapsedMs, stopDuringWork))
         == Step(s, Wake(Eligible, now, Completed, elapsedMs, stopDuringWork))
    ensures !s.phase.IsTerminal() && !stopDuringWork ==>
              Step(s, Wake(Eligible, now, Threw, elapsedMs, stopDuringWork)).state.phase == Ticking
  {
  }

  /**
    An eligible tick, from any state the loop can be in: the previous handle
    is cancelled and retired, a handle with a never-used id is installed
    uncancelled and handed to the work, the work sees `ExecuteTimestamp`
    already set to this tick's clock reading, and the next wait is computed
    from this run's duration alone.
   */
  lemma EligibleTickDiscipline(s: State, now: int, work: WorkOutcome, elapsedMs: nat)
    requires Inv(s) && !s.phase.IsTerminal()
    ensures var r := Step(s, Wake(Eligible, now, work, elapsedMs, false));
            && r.invoked.Some?
            && var token := r.invoked.value.token;
            && !token.cancelled
            && r.state.slot.current == Some(token)
            && token !in r.state.slot.retired
            && (forall h | h in s.slot.retired :: h.id != token.id)
            && (s.slot.current.Some? ==> s.slot.current.value.id != token.id)
            && (s.slot.current.Some? ==> Cancel(s.slot.current.value) in r.state.slot.retired)
            && r.invoked.value.observedTimestamp == Some(now)
            && r.state.executeTimestamp == Some(now)
            && r.state.waitMs == NextDelay(s.config.timeoutMs, elapsedMs)
            && r.state.phase == Ticking
  {
    var r := Step(s, Wake(Eligible, now, work, elapsedMs, false));
    assert r.state.slot == Replace(s.slot);
  }

  /**
    A shutdown request leaves the run handle alone: the current run's token
    is independent of the stopping token, so it is not cancelled.
   */
  lemma ShutdownKeepsRunHandle(s: State)
    ensures Step(s, Shutdown).invoked.None?
    ensures Step(s, Shutdown).state.slot == s.slot
    ensures Step(s, Shutdown).state.phase.IsTerminal()
  {
  }

  /**
    A stop requested while the work runs does not interrupt the tick: the
    timestamp and the new handle stay as the tick set them, the handle stays
    uncancelled, and the loop leaves instead of waiting.
   */
  lemma StopDuringWorkLeavesRunLive(s: State, now: int, work: WorkOutcome, elapsedMs: nat)
    requires !s.phase.IsTerminal()
    ensures var r := Step(s, Wake(Eligible, now, work, elapsedMs, true));
            && r.invoked.Some?
            && r.state.phase == Stopped
            && r.state.slot.current == Some(r.invoked.value.token)
            && !r.state.slot.current.value.cancelled
  {
  }

  /**
    Once the loop has been told to stop (during a wait, or while a run was in
    progress), no later event causes a work call.
   */
  lemma NoWorkAfterStop(s: State, evs: seq<Event>, k: nat)
    requires k < |evs|
    requires evs[k].Shutdown? || (evs[k].gate.Eligible? && evs[k].stopDuringWork)
    ensures Run(s, evs).invocations == Run(s, evs[..k + 1]).invocations
    ensures Run(s, evs).final == Run(s, evs[..k + 1]).final
    ensures Run(s, evs).final.phase.IsTerminal()
  {
    RunExtend(s, evs, k);
    RunAfterExit(s, evs, k + 1);
  }

  /**
    The loop survives its work: fed only eligible ticks with no stop request,
    it calls the work once per tick however many of those calls throw, and is
    still ticking at the end.
   */
  lemma {:induction false} FailuresNeverStopTheLoop(s: State, evs: seq<Event>)
    requires !s.phase.IsTerminal()
    requires forall i | 0 <= i < |evs| :: evs[i].Wake? && evs[i].gate.Eligible? && !evs[i].stopDuringWork
    ensures |Run(s, evs).invocations| == |evs|
    ensures evs != [] ==> Run(s, evs).final.phase == Ticking
    decreases |evs|
  {
    if evs != [] {
      var r := Step(s, evs[0]);
      FailuresNeverStopTheLoop(r.state, evs[1..]);
    }
  }

  /**
    The handle discipline over a whole run of the loop: work calls receive
    consecutive fresh ids, every token is uncancelled when handed over, the
    last one is the current handle, and every earlier one (and the handle
    that was current at the outset) has been cancelled by the end.
   */
  lemma {:induction false} RunHandleDiscipline(s: State, evs: seq<Event>)
    ensures var t := Run(s, evs);
            && s.slot.retired <= t.final.slot.retired
            && (t.invocations == [] ==> t.final.slot == s.slot && t.final.executeTimestamp == s.executeTimestamp)
            && (forall i | 0 <= i < |t.invocations| :: t.invocations[i].observedTimestamp.Some?)
            && (t.invocations != [] ==> t.final.executeTimestamp == t.invocations[|t.invocations| - 1].observedTimestamp)
            && t.final.slot.nextId == s.slot.nextId + |t.invocations|
            && (forall i | 0 <= i < |t.invocations| :: t.invocations[i].token == Handle(s.slot.nextId + i, false))
            && (t.invocations != [] ==> t.final.slot.current == Some(t.invocations[|t.invocations| - 1].token))
            && (t.invocations != [] && s.slot.current.Some? ==> Cancel(s.slot.current.value) in t.final.slot.retired)
            && (forall i | 0 <= i < |t.invocations| - 1 :: Cancel(t.invocations[i].token) in t.final.slot.retired)
    decreases |evs|
  {
    if evs != [] {
      var r := Step(s, evs[0]);
      RunHandleDiscipline(r.state, evs[1..]);
    }
  }

  /**
    Run durations never accumulate: at every point the loop can reach from
    its start, an eligible tick waits `Timeout` minus that tick's own
    duration (floored at one second), not minus the durations so far.
   */
  lemma DelayUsesOwnRunOnly(config: Config, evs: seq<Event>, now: int, work: WorkOutcome, elapsedMs: nat)
    requires !Run(Init(config), evs).final.phase.IsTerminal()
    ensures Step(Run(Init(config), evs).final, Wake(Eligible, now, work, elapsedMs, false)).state.waitMs
         == NextDelay(config.timeoutMs, elapsedMs)
  {
  }

  /**
    The service as constructed: it first waits five seconds; with the default
    gate a 2 s run is followed by a 3 s wait; a following 7 s run that throws
    is followed by a 1 s wait and cancels the first run's handle.
   */
  lemma DefaultServiceScenario()
    ensures Init(DefaultConfig).waitMs == 5000
    ensures var first := Step(Init(DefaultConfig), Wake(DefaultGate, 0, Completed, 2000, false));
            && first.invoked.Some?
            && first.state.waitMs == 3000
            && var second := Step(first.state, Wake(DefaultGate, 5000, Threw, 7000, false));
            && second.invoked.Some?
            && second.state.waitMs == 1000
            && Cancel(first.invoked.value.token) in second.state.slot.retired
  {
  }
}
