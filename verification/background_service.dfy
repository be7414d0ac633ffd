/**
  The scheduling loop of a recurring background worker, as a sequential state
  machine. The loop is always suspended in some wait (the start delay, the
  one-minute gate-closed wait, or the computed inter-run delay); an `Event`
  says how that wait ended, and `Step` performs the loop body that follows.
  Clock readings, run durations, the gate's answer, the work's outcome and
  shutdown requests are all inputs.
 */
module BackgroundService {

  import opened Optional
  import opened Timing
  import opened RunHandles

  /** `StartAfter` and `Timeout`, fixed for the loop's lifetime. */
  datatype Config = Config(startAfterMs: nat, timeoutMs: int)

  /** The values the constructor assigns. */
  const DefaultConfig: Config := Config(DefaultStartAfterMs, DefaultTimeoutMs)

  /** What `CanExecute()` did: allowed the run, refused it, or threw. */
  datatype Gate = Eligible | NotEligible | GateThrew

  /** `CanExecute()` when a subclass does not override it. */
  const DefaultGate: Gate := Eligible

  /** How the call to the work returned: normally, or by throwing. */
  datatype WorkOutcome = Completed | Threw

  /**
    Where the loop is: waiting out the start delay, in the loop proper, left
    because stopping was requested, or ended by an exception from the gate.
   */
  datatype Phase = StartPending | Ticking | Stopped | Faulted {
    predicate IsTerminal() {
      Stopped? || Faulted?
    }
  }

  /**
    The loop's state. `executeTimestamp` is None while it still holds
    default(DateTimeOffset); `waitMs` is the length of the wait the loop is
    suspended in.
   */
  datatype State = State(
    config: Config,
    phase: Phase,
    slot: Slot,
    executeTimestamp: Option<int>,
    stopwatch: Stopwatch,
    waitMs: nat)

  /**
    How the current wait ended. `Shutdown`: the stopping token fired during
    the wait (or was seen by the loop condition). `Wake`: the wait ran out and
    the loop went on with a gate answer, the clock reading `now`, the work's
    outcome, the time the work took and whether stopping was requested while
    it ran.
   */
  datatype Event =
    | Shutdown
    | Wake(gate: Gate, now: int, work: WorkOutcome, elapsedMs: nat, stopDuringWork: bool)

  /** One call of the work: the handle whose token it receives and the `ExecuteTimestamp` it can read. */
  datatype Invocation = Invocation(token: Handle, observedTimestamp: Option<int>)

  datatype StepResult = StepResult(state: State, invoked: Option<Invocation>)

  /**
    What holds between steps: the handle slot is valid, the stopwatch is reset,
    a timestamp exists exactly when a run has started, nothing has run during
    the start delay, and no wait inside the loop is shorter than the floor.
   */
  predicate Inv(s: State) {
    && Valid(s.slot)
    && s.stopwatch.IsReset()
    && (s.executeTimestamp.Some? <==> s.slot.current.Some?)
    && (s.phase.StartPending? ==> s.slot.current.None? && s.waitMs == s.config.startAfterMs)
    && (s.phase.Ticking? ==> s.waitMs >= MinDelayMs)
  }

  /** The loop on entry: suspended in the start delay, with no run handle and no timestamp. */
  function Init(config: Config): (s: State)
    ensures s.config == config
    ensures s.phase == StartPending && s.waitMs == config.startAfterMs
    ensures s.slot.current.None? && s.executeTimestamp.None?
    ensures Inv(s)
  {
    State(config, StartPending, EmptySlot, None, NewStopwatch, config.startAfterMs)
  }

  /**
    The body of the loop when the gate allows the run: start the stopwatch,
    cancel and replace the run handle, stamp the time, call the work, absorb
    whatever it throws, stop the stopwatch, compute the next delay, reset the
    stopwatch, and wait (or stop, if stopping was requested meanwhile).
   */
  function EligibleTick(s: State, now: int, work: WorkOutcome, elapsedMs: nat, stopDuringWork: bool): (r: StepResult)
    ensures r.state.config == s.config
    ensures r.invoked.Some?
    ensures r.invoked.value.token == Handle(s.slot.nextId, false)
    ensures r.state.slot.current == Some(r.invoked.value.token)
    ensures r.state.slot.nextId == s.slot.nextId + 1
    ensures s.slot.current.Some? ==> r.state.slot.retired == s.slot.retired + {Cancel(s.slot.current.value)}
    ensures s.slot.current.None? ==> r.state.slot.retired == s.slot.retired
    ensures r.invoked.value.observedTimestamp == Some(now) && r.state.executeTimestamp == Some(now)
    ensures r.state.stopwatch.IsReset()
    ensures r.state.waitMs >= MinDelayMs
    ensures s.stopwatch.IsReset() ==> r.state.waitMs == NextDelay(s.config.timeoutMs, elapsedMs)
    ensures r.state.phase == (if stopDuringWork then Stopped else Ticking)
    ensures Valid(s.slot) ==> Valid(r.state.slot)
  {
    var running := s.stopwatch.Start();
    var slot := Replace(s.slot);
    var stamped := s.(slot := slot, executeTimestamp := Some(now));
    var call := Invocation(slot.current.value, stamped.executeTimestamp);
    // The work's outcome is not consulted: the catch around the call turns
    // a throwing run into one that simply returned.
    var measured := running.Advance(elapsedMs).Stop();
    var delay := NextDelay(s.config.timeoutMs, measured.elapsedMs);
    var next := stamped.(
      stopwatch := measured.Reset(),
      waitMs := delay,
      phase := if stopDuringWork then Stopped else Ticking);
    StepResult(next, Some(call))
  }

  /** One transition of the loop. */
  function Step(s: State, ev: Event): (r: StepResult)
    ensures r.state.config == s.config
    ensures Inv(s) ==> Inv(r.state)
    ensures r.invoked.Some? <==> !s.phase.IsTerminal() && ev.Wake? && ev.gate.Eligible?
    ensures r.invoked.None? ==> r.state.slot == s.slot && r.state.executeTimestamp == s.executeTimestamp
    ensures r.invoked.Some? ==>
              && r.invoked.value.token == Handle(s.slot.nextId, false)
              && r.state.slot.current == Some(r.invoked.value.token)
              && r.state.slot.nextId == s.slot.nextId + 1
              && (s.slot.current.Some? ==> r.state.slot.retired == s.slot.retired + {Cancel(s.slot.current.value)})
              && (s.slot.current.None? ==> r.state.slot.retired == s.slot.retired)
    ensures r.invoked.Some? ==> r.invoked.value.observedTimestamp == Some(ev.now) && r.state.executeTimestamp == Some(ev.now)
    ensures r.invoked.Some? && s.stopwatch.IsReset() ==> r.state.waitMs == NextDelay(s.config.timeoutMs, ev.elapsedMs)
    ensures s.phase.IsTerminal() ==> r == StepResult(s, None)
    ensures !s.phase.IsTerminal() && ev.Wake? && ev.gate.GateThrew? ==> r.state.phase == Faulted
    ensures !s.phase.IsTerminal() && ev.Shutdown? ==> r.state.phase == Stopped
  {
    if s.phase.IsTerminal() then
      StepResult(s, None)
    else
      match ev
      case Shutdown =>
        StepResult(s.(phase := Stopped), None)
      case Wake(gate, now, work, elapsedMs, stopDuringWork) =>
        match gate
        case GateThrew =>
          StepResult(s.(phase := Faulted), None)
        case NotEligible =>
          StepResult(s.(phase := Ticking, waitMs := GateClosedWaitMs), None)
        case Eligible =>
          EligibleTick(s, now, work, elapsedMs, stopDuringWork)
  }

  /** The work call a step made, as a sequence of length at most one. */
  function Calls(r: StepResult): seq<Invocation> {
    match r.invoked
    case None => []
    case Some(call) => [call]
  }

  /** The result of feeding a sequence of events to the loop: its final state and every work call, in order. */
  datatype Trace = Trace(final: State, invocations: seq<Invocation>)

  /**
    Runs the loop over `evs`: the configuration never changes, the invariant
    is kept, each event causes at most one work call, and a loop that has
    left does nothing more.
   */
  function Run(s: State, evs: seq<Event>): (t: Trace)
    decreases |evs|
    ensures t.final.config == s.config
    ensures Inv(s) ==> Inv(t.final)
    ensures |t.invocations| <= |evs|
    ensures s.phase.IsTerminal() ==> t == Trace(s, [])
  {
    if evs == [] then
      Trace(s, [])
    else
      var r := Step(s, evs[0]);
      var rest := Run(r.state, evs[1..]);
      Trace(rest.final, Calls(r) + rest.invocations)
  }

  /** The first event's step, then the rest of the events. */
  lemma RunCons(s: State, evs: seq<Event>)
    requires evs != []
    ensures var r := Step(s, evs[0]);
            Run(s, evs) == Trace(Run(r.state, evs[1..]).final, Calls(r) + Run(r.state, evs[1..]).invocations)
  {
  }

  /** Running `a` and then one more event `e` is one more step after running `a`. */
  lemma {:induction false} RunSnoc(s: State, a: seq<Event>, e: Event)
    ensures var before := Run(s, a);
            var r := Step(before.final, e);
            Run(s, a + [e]) == Trace(r.state, before.invocations + Calls(r))
    decreases |a|
  {
    if a == [] {
      assert [] + [e] == [e];
      RunCons(s, [e]);
    } else {
      var r0 := Step(s, a[0]);
      assert (a + [e])[0] == a[0];
      assert (a + [e])[1..] == a[1..] + [e];
      RunCons(s, a + [e]);
      RunCons(s, a);
      RunSnoc(r0.state, a[1..], e);
      var before := Run(r0.state, a[1..]);
      var r := Step(before.final, e);
      assert Calls(r0) + (before.invocations + Calls(r)) == (Calls(r0) + before.invocations) + Calls(r);
    }
  }

  /** Running one more event extends the trace by that event's step. */
  lemma RunExtend(s: State, evs: seq<Event>, k: nat)
    requires k < |evs|
    ensures var before := Run(s, evs[..k]);
            var r := Step(before.final, evs[k]);
            Run(s, evs[..k + 1]) == Trace(r.state, before.invocations + Calls(r))
  {
    assert evs[..k] + [evs[k]] == evs[..k + 1];
    RunSnoc(s, evs[..k], evs[k]);
  }

  /** Events after the loop has left change nothing. */
  lemma {:induction false} RunAfterExit(s: State, evs: seq<Event>, k: nat)
    requires k <= |evs|
    requires Run(s, evs[..k]).final.phase.IsTerminal()
    ensures Run(s, evs) == Run(s, evs[..k])
    decreases k
  {
    if k == 0 {
      assert evs[..0] == [];
    } else {
      var r0 := Step(s, evs[0]);
      RunCons(s, evs);
      RunCons(s, evs[..k]);
      assert evs[..k][1..] == evs[1..][..k - 1];
      RunAfterExit(r0.state, evs[1..], k - 1);
    }
  }

  /** The loop had not yet left after any of the first `n` prefixes of `evs`, so it was still consuming. */
  predicate LiveBefore(s: State, evs: seq<Event>, n: nat)
    requires n <= |evs|
  {
    forall j | 0 <= j < n :: !Run(s, evs[..j]).final.phase.IsTerminal()
  }

  /** One more live prefix extends `LiveBefore` by one. */
  lemma LiveBeforeExtend(s: State, evs: seq<Event>, n: nat)
    requires n < |evs|
    requires LiveBefore(s, evs, n)
    requires !Run(s, evs[..n]).final.phase.IsTerminal()
    ensures LiveBefore(s, evs, n + 1)
  {
  }

  /**
    The `while` loop itself: starting from the start delay, consume events
    until they run out or the loop has left (stop requested or the gate
    threw). It reports how many events it consumed; a loop that stopped early
    ignores the rest, which would not have changed anything.
   */
  method ExecuteLoop(config: Config, evs: seq<Event>) returns (final: State, invocations: seq<Invocation>, consumed: nat)
    ensures consumed <= |evs|
    ensures consumed < |evs| ==> final.phase.IsTerminal()
    ensures LiveBefore(Init(config), evs, consumed)
    ensures Inv(final) && final.config == config
    ensures Run(Init(config), evs) == Trace(final, invocations)
  {
    final := Init(config);
    invocations := [];
    consumed := 0;
    while consumed < |evs| && !final.phase.IsTerminal()
      invariant consumed <= |evs|
      invariant Inv(final) && final.config == config
      invariant Run(Init(config), evs[..consumed]) == Trace(final, invocations)
      invariant LiveBefore(Init(config), evs, consumed)
    {
      var r := Step(final, evs[consumed]);
      LiveBeforeExtend(Init(config), evs, consumed);
      RunExtend(Init(config), evs, consumed);
      final := r.state;
      invocations := invocations + Calls(r);
      consumed := consumed + 1;
    }
    if consumed < |evs| {
      RunAfterExit(Init(config), evs, consumed);
    } else {
      assert evs[..consumed] == evs;
    }
  }
}
