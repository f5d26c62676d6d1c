/** The lifecycle supervisor of main/main.c. The handler statics (the
    first-boot flag and the three start timers, where the source uses 0 for
    "not started") and the event-group bits become one `Supervisor` record;
    one call of `Tick` is one pass of the 1 Hz supervisor loop. The clock,
    the sensor health verdict and the outcome of the sensor re-initialisation
    are inputs. What a handler does to the outside world (fan, display,
    alert) is returned as a list of effects. */
module Lifecycle {
  import opened Types

  /** The event-group bits. */
  datatype Events = Events(wifiConnected: bool, sensorReady: bool, sensorStable: bool, sensorFault: bool)

  /** Supervisor state: the lifecycle state, the first-boot flag of the INIT
      handler and the start second of each timed state, if started. */
  datatype Supervisor = Supervisor(
    state: SystemState,
    initCompleted: bool,
    preheatStart: Option<nat>,
    stabilizeStart: Option<nat>,
    errorStart: Option<nat>,
    events: Events)

  /** Calls a handler makes into collaborators. */
  datatype Effect =
    | FanOff             // fan_control_set_state(FAN_OFF, false)
    | ShowPreheating     // display alert on entry to PREHEATING
    | ShowStabilizing    // display alert on entry to STABILIZING
    | ShowSensorFault    // display alert when the ERROR timer starts
    | PublishFaultAlert  // mqtt_publish_alert when the ERROR timer starts

  /** What one tick observes. */
  datatype TickInput = TickInput(now: nat, healthy: bool, reinitOk: bool)

  /** The supervisor after a tick and the effects the tick issued. */
  datatype Step = Step(sup: Supervisor, effects: seq<Effect>)

  /** Minimum dwell in ERROR before a recovery attempt, in seconds. */
  const ERROR_RETRY_SEC: nat := 10

  /** The state after leaving `s` in the lifecycle cycle. */
  function Next(s: SystemState): SystemState {
    match s
    case Init => Preheating
    case Preheating => Stabilizing
    case Stabilizing => Running
    case Running => Error
    case Error => Init
  }

  /** `state_transition`: the only writer of the lifecycle state. A
      transition to the current state is a no-op. */
  function StateTransition(sup: Supervisor, target: SystemState): (r: Supervisor)
    ensures r.state == target
    ensures sup.state == target ==> r == sup
    ensures r.(state := sup.state) == sup
  {
    if sup.state == target then sup else sup.(state := target)
  }

  /** The start second of a timer: its recorded value, or `now` when this
      tick starts it. */
  function StartOf(timer: Option<nat>, now: nat): nat {
    if timer.Some? then timer.value else now
  }

  /** `handle_init_state`. After a recovery (`initCompleted`) it restarts the
      warm-up at once; otherwise it waits for SENSOR_READY. */
  function HandleInit(sup: Supervisor): (r: Step)
    requires sup.state == Init
    ensures r.effects == []
    ensures r.sup.state == Preheating <==> sup.initCompleted || sup.events.sensorReady
    ensures r.sup.state != Preheating ==> r.sup == sup
    ensures r.sup.state == Preheating ==> r.sup == sup.(state := Preheating, initCompleted := !sup.initCompleted)
  {
    if sup.initCompleted then
      Step(StateTransition(sup, Preheating).(initCompleted := false), [])
    else if sup.events.sensorReady then
      Step(StateTransition(sup.(initCompleted := true), Preheating), [])
    else
      Step(sup, [])
  }

  /** `handle_preheating_state`: leaves for STABILIZING once 60 s have passed
      since the tick that started the timer, setting SENSOR_READY and
      clearing the timer. */
  function HandlePreheating(sup: Supervisor, now: nat): (r: Step)
    requires sup.state == Preheating
    ensures var start := StartOf(sup.preheatStart, now);
            r.sup.state == Stabilizing <==> now - start >= PREHEATING_TIME_SEC
    ensures r.sup.state == Stabilizing ==>
              r.sup == sup.(state := Stabilizing, preheatStart := None, events := sup.events.(sensorReady := true))
    ensures r.sup.state != Stabilizing ==> r.sup == sup.(preheatStart := Some(StartOf(sup.preheatStart, now)))
    ensures r.effects == if sup.preheatStart.None? then [ShowPreheating] else []
  {
    var start := StartOf(sup.preheatStart, now);
    var effects := if sup.preheatStart.None? then [ShowPreheating] else [];
    if now - start >= PREHEATING_TIME_SEC then
      var ready := sup.(events := sup.events.(sensorReady := true), preheatStart := None);
      Step(StateTransition(ready, Stabilizing), effects)
    else
      Step(sup.(preheatStart := Some(start)), effects)
  }

  /** `handle_stabilizing_state`: leaves for RUNNING once 240 s have passed
      since the tick that started the timer, setting SENSOR_STABLE and
      clearing the timer. */
  function HandleStabilizing(sup: Supervisor, now: nat): (r: Step)
    requires sup.state == Stabilizing
    ensures var start := StartOf(sup.stabilizeStart, now);
            r.sup.state == Running <==> now - start >= STABILIZING_TIME_SEC
    ensures r.sup.state == Running ==>
              r.sup == sup.(state := Running, stabilizeStart := None, events := sup.events.(sensorStable := true))
    ensures r.sup.state != Running ==> r.sup == sup.(stabilizeStart := Some(StartOf(sup.stabilizeStart, now)))
    ensures r.effects == if sup.stabilizeStart.None? then [ShowStabilizing] else []
  {
    var start := StartOf(sup.stabilizeStart, now);
    var effects := if sup.stabilizeStart.None? then [ShowStabilizing] else [];
    if now - start >= STABILIZING_TIME_SEC then
      var stable := sup.(events := sup.events.(sensorStable := true), stabilizeStart := None);
      Step(StateTransition(stable, Running), effects)
    else
      Step(sup.(stabilizeStart := Some(start)), effects)
  }

  /** `handle_running_state`: an unhealthy verdict raises FAULT and moves to
      ERROR on the same tick; a healthy one changes nothing. */
  function HandleRunning(sup: Supervisor, healthy: bool): (r: Step)
    requires sup.state == Running
    ensures r.effects == []
    ensures healthy ==> r.sup == sup
    ensures !healthy ==> r.sup == sup.(state := Error, events := sup.events.(sensorFault := true))
  {
    if healthy then Step(sup, [])
    else Step(StateTransition(sup.(events := sup.events.(sensorFault := true)), Error), [])
  }

  /** `handle_error_state`. The tick that starts the timer commands the fan
      off and raises one alert. Once 10 s have passed the timer is cleared;
      if the sensor is healthy again FAULT is cleared and the sensors are
      re-initialised, and only a successful re-initialisation moves to INIT;
      otherwise the state is left as it was. The failed-boot loop of
      `app_main` calls it in whatever state is current, so no state is
      required here. */
  function HandleError(sup: Supervisor, input: TickInput): (r: Step)
    ensures r.effects == if sup.errorStart.None? then [FanOff, ShowSensorFault, PublishFaultAlert] else []
    ensures var elapsed := input.now - StartOf(sup.errorStart, input.now);
            r.sup.state == if elapsed >= ERROR_RETRY_SEC && input.healthy && input.reinitOk then Init else sup.state
    ensures var elapsed := input.now - StartOf(sup.errorStart, input.now);
            r.sup.events == if input.healthy && elapsed >= ERROR_RETRY_SEC then sup.events.(sensorFault := false) else sup.events
    ensures r.sup.(state := sup.state, errorStart := sup.errorStart, events := sup.events) == sup
    ensures var elapsed := input.now - StartOf(sup.errorStart, input.now);
            r.sup.errorStart == if elapsed >= ERROR_RETRY_SEC then None else Some(StartOf(sup.errorStart, input.now))
  {
    var start := StartOf(sup.errorStart, input.now);
    var effects := if sup.errorStart.None? then [FanOff, ShowSensorFault, PublishFaultAlert] else [];
    if input.now - start >= ERROR_RETRY_SEC then
      var cleared := sup.(errorStart := None);
      if input.healthy then
        var recovered := cleared.(events := cleared.events.(sensorFault := false));
        if !input.reinitOk then Step(recovered, effects)
        else Step(StateTransition(recovered, Init), effects)
      else Step(cleared, effects)
    else
      Step(sup.(errorStart := Some(start)), effects)
  }

  /** One pass of the supervisor loop: dispatch on the current state. A
      pass keeps the state or advances it one step along the cycle, and
      never leaves a timer running outside its own state. */
  function Tick(sup: Supervisor, input: TickInput): (r: Step)
    ensures r.sup.state == sup.state || r.sup.state == Next(sup.state)
    ensures TimersConsistent(sup) ==> TimersConsistent(r.sup)
  {
    match sup.state
    case Init => HandleInit(sup)
    case Preheating => HandlePreheating(sup, input.now)
    case Stabilizing => HandleStabilizing(sup, input.now)
    case Running => HandleRunning(sup, input.healthy)
    case Error => HandleError(sup, input)
  }

  /** The supervisor loop over the raw value of the C state variable: a
      value outside the enumeration is sent to ERROR. */
  function TickCode(code: int, sup: Supervisor, input: TickInput): (r: Step)
    ensures StateOfCode(code).None? ==> r.sup == StateTransition(sup, Error) && r.effects == []
    ensures StateOfCode(code).Some? ==> r == Tick(sup.(state := StateOfCode(code).value), input)
  {
    match StateOfCode(code)
    case Some(s) => Tick(sup.(state := s), input)
    case None => Step(StateTransition(sup, Error), [])
  }

  /** Leaving ERROR needs the dwell time, a healthy sensor and a successful
      re-initialisation; a failed re-initialisation stays in ERROR. */
  lemma ErrorExitRequiresRecovery(sup: Supervisor, input: TickInput)
    requires sup.state == Error
    ensures Tick(sup, input).sup.state == Init ==> input.healthy && input.reinitOk
    ensures !input.reinitOk ==> Tick(sup, input).sup.state == Error
  {
  }

  /** A timer is only ever running while its own state is current. */
  predicate TimersConsistent(sup: Supervisor) {
    && (sup.preheatStart.Some? ==> sup.state == Preheating)
    && (sup.stabilizeStart.Some? ==> sup.state == Stabilizing)
    && (sup.errorStart.Some? ==> sup.state == Error)
  }

  /** An unhealthy verdict while RUNNING reaches ERROR on that tick, and the
      next tick, whenever it comes, commands the fan off and raises the
      alert. */
  lemma FaultStopsFanWithinTwoTicks(sup: Supervisor, t1: TickInput, t2: TickInput)
    requires sup.state == Running && TimersConsistent(sup)
    requires !t1.healthy
    ensures Tick(sup, t1).sup.state == Error
    ensures FanOff in Tick(Tick(sup, t1).sup, t2).effects
    ensures PublishFaultAlert in Tick(Tick(sup, t1).sup, t2).effects
  {
  }

  /** The fault effects are issued exactly on the ticks that start the
      ERROR timer. */
  lemma ErrorEffectsOnlyWhenTimerStarts(sup: Supervisor, input: TickInput)
    requires sup.state == Error
    ensures FanOff in Tick(sup, input).effects <==> sup.errorStart.None?
  {
  }

  /** The supervisor after ticking once per input, in order. */
  function RunInputs(sup: Supervisor, inputs: seq<TickInput>): Supervisor
    decreases |inputs|
  {
    if |inputs| == 0 then sup
    else RunInputs(Tick(sup, inputs[0]).sup, inputs[1..])
  }

  /** `n` ticks one second apart from second `t`, with a steady health
      verdict and re-initialisation outcome. */
  function Clock(t: nat, n: nat, healthy: bool, reinitOk: bool): (inputs: seq<TickInput>)
    ensures |inputs| == n
    ensures forall i :: 0 <= i < n ==> inputs[i] == TickInput(t + i, healthy, reinitOk)
  {
    seq(n, i requires 0 <= i < n => TickInput(t + i, healthy, reinitOk))
  }

  /** The supervisor after `n` one-second ticks from second `t`. */
  function Run(sup: Supervisor, t: nat, n: nat, healthy: bool, reinitOk: bool): Supervisor {
    RunInputs(sup, Clock(t, n, healthy, reinitOk))
  }

  /** Running two input sequences back to back is running their
      concatenation. */
  lemma {:induction false} RunInputsAppend(sup: Supervisor, a: seq<TickInput>, b: seq<TickInput>)
    ensures RunInputs(sup, a + b) == RunInputs(RunInputs(sup, a), b)
    decreases |a|
  {
    if |a| > 0 {
      assert (a + b)[0] == a[0];
      assert (a + b)[1..] == a[1..] + b;
      RunInputsAppend(Tick(sup, a[0]).sup, a[1..], b);
    } else {
      assert a + b == b;
    }
  }

  /** A clock of `a + b` ticks is a clock of `a` ticks followed by one of
      `b` ticks. */
  lemma ClockSplit(t: nat, a: nat, b: nat, healthy: bool, reinitOk: bool)
    ensures Clock(t, a + b, healthy, reinitOk) == Clock(t, a, healthy, reinitOk) + Clock(t + a, b, healthy, reinitOk)
  {
    var whole := Clock(t, a + b, healthy, reinitOk);
    var parts := Clock(t, a, healthy, reinitOk) + Clock(t + a, b, healthy, reinitOk);
    assert |whole| == |parts|;
    forall i | 0 <= i < a + b
      ensures whole[i] == parts[i]
    {
      if i >= a {
        assert parts[i] == Clock(t + a, b, healthy, reinitOk)[i - a];
      }
    }
  }

  /** Running `a` ticks and then `b` more is running `a + b` ticks. */
  lemma RunSplit(sup: Supervisor, t: nat, a: nat, b: nat, healthy: bool, reinitOk: bool)
    ensures Run(sup, t, a + b, healthy, reinitOk) == Run(Run(sup, t, a, healthy, reinitOk), t + a, b, healthy, reinitOk)
  {
    ClockSplit(t, a, b, healthy, reinitOk);
    RunInputsAppend(sup, Clock(t, a, healthy, reinitOk), Clock(t + a, b, healthy, reinitOk));
  }

  /** One tick of a clock. */
  lemma RunOne(sup: Supervisor, t: nat, healthy: bool, reinitOk: bool)
    ensures Run(sup, t, 1, healthy, reinitOk) == Tick(sup, TickInput(t, healthy, reinitOk)).sup
  {
    var c := Clock(t, 1, healthy, reinitOk);
    assert c[0] == TickInput(t, healthy, reinitOk);
    assert c[1..] == [];
    assert RunInputs(Tick(sup, c[0]).sup, c[1..]) == Tick(sup, c[0]).sup;
  }

  /** A run is unchanged by ticks that leave the supervisor where it is. */
  lemma {:induction false} RunStaysPut(sup: Supervisor, t: nat, n: nat, healthy: bool, reinitOk: bool)
    requires forall k :: t <= k < t + n ==> Tick(sup, TickInput(k, healthy, reinitOk)).sup == sup
    ensures Run(sup, t, n, healthy, reinitOk) == sup
    decreases n
  {
    if n > 0 {
      RunSplit(sup, t, 1, n - 1, healthy, reinitOk);
      RunOne(sup, t, healthy, reinitOk);
      RunStaysPut(sup, t + 1, n - 1, healthy, reinitOk);
    }
  }

  /** While its timer has not reached 60 s, PREHEATING ticks change nothing. */
  lemma PreheatingWaits(sup: Supervisor, t: nat, n: nat, healthy: bool, reinitOk: bool)
    requires sup.state == Preheating && sup.preheatStart.Some?
    requires sup.preheatStart.value <= t && t + n <= sup.preheatStart.value + PREHEATING_TIME_SEC
    ensures Run(sup, t, n, healthy, reinitOk) == sup
  {
    RunStaysPut(sup, t, n, healthy, reinitOk);
  }

  /** While its timer has not reached 240 s, STABILIZING ticks change
      nothing. */
  lemma StabilizingWaits(sup: Supervisor, t: nat, n: nat, healthy: bool, reinitOk: bool)
    requires sup.state == Stabilizing && sup.stabilizeStart.Some?
    requires sup.stabilizeStart.value <= t && t + n <= sup.stabilizeStart.value + STABILIZING_TIME_SEC
    ensures Run(sup, t, n, healthy, reinitOk) == sup
  {
    RunStaysPut(sup, t, n, healthy, reinitOk);
  }

  /** While the sensor stays healthy, RUNNING is kept. */
  lemma RunningStaysWhileHealthy(sup: Supervisor, t: nat, n: nat, reinitOk: bool)
    requires sup.state == Running
    ensures Run(sup, t, n, true, reinitOk) == sup
  {
    RunStaysPut(sup, t, n, true, reinitOk);
  }

  /** A supervisor entering PREHEATING with no timer running. */
  predicate FreshWarmUp(sup: Supervisor) {
    sup.state == Preheating && sup.preheatStart.None? && sup.stabilizeStart.None?
  }

  /** From a fresh PREHEATING, 60 one-second ticks only start the timer;
      the 61st finishes preheating and enters STABILIZING with no timer. */
  lemma PreheatingPhase(sup: Supervisor, t: nat, healthy: bool, reinitOk: bool)
    requires FreshWarmUp(sup)
    ensures Run(sup, t, 60, healthy, reinitOk) == sup.(preheatStart := Some(t))
    ensures var r := Run(sup, t, 61, healthy, reinitOk);
            r.state == Stabilizing && r.stabilizeStart.None?
  {
    var s1 := sup.(preheatStart := Some(t));
    RunOne(sup, t, healthy, reinitOk);
    PreheatingWaits(s1, t + 1, 59, healthy, reinitOk);
    RunSplit(sup, t, 1, 59, healthy, reinitOk);
    RunSplit(sup, t, 60, 1, healthy, reinitOk);
    RunOne(s1, t + 60, healthy, reinitOk);
  }

  /** From STABILIZING with no timer, 240 one-second ticks only start the
      timer; the 241st reaches RUNNING. */
  lemma StabilizingPhase(sup: Supervisor, t: nat, healthy: bool, reinitOk: bool)
    requires sup.state == Stabilizing && sup.stabilizeStart.None?
    ensures Run(sup, t, 240, healthy, reinitOk) == sup.(stabilizeStart := Some(t))
    ensures Run(sup, t, 241, healthy, reinitOk).state == Running
  {
    var s1 := sup.(stabilizeStart := Some(t));
    RunOne(sup, t, healthy, reinitOk);
    StabilizingWaits(s1, t + 1, 239, healthy, reinitOk);
    RunSplit(sup, t, 1, 239, healthy, reinitOk);
    RunSplit(sup, t, 240, 1, healthy, reinitOk);
    RunOne(s1, t + 240, healthy, reinitOk);
  }

  /** Ticking once per second from a fresh PREHEATING: the first 60 ticks stay
      in PREHEATING, the 61st moves to STABILIZING, and the 302nd, 240 s after
      the stabilising timer started, reaches RUNNING. */
  lemma WarmUpTiming(sup: Supervisor, t: nat, healthy: bool, reinitOk: bool)
    requires FreshWarmUp(sup)
    ensures Run(sup, t, 60, healthy, reinitOk).state == Preheating
    ensures Run(sup, t, 61, healthy, reinitOk).state == Stabilizing
    ensures Run(sup, t, 301, healthy, reinitOk).state == Stabilizing
    ensures Run(sup, t, 302, healthy, reinitOk).state == Running
  {
    PreheatingPhase(sup, t, healthy, reinitOk);
    var s2 := Run(sup, t, 61, healthy, reinitOk);
    StabilizingPhase(s2, t + 61, healthy, reinitOk);
    RunSplit(sup, t, 61, 240, healthy, reinitOk);
    RunSplit(sup, t, 61, 241, healthy, reinitOk);
  }

  /** With a healthy sensor the supervisor is RUNNING from the 302nd tick on
      and never leaves it. */
  lemma WarmUpThenRunning(sup: Supervisor, t: nat, n: nat, reinitOk: bool)
    requires FreshWarmUp(sup)
    requires n >= 302
    ensures Run(sup, t, n, true, reinitOk).state == Running
  {
    WarmUpTiming(sup, t, true, reinitOk);
    RunSplit(sup, t, 302, n - 302, true, reinitOk);
    RunningStaysWhileHealthy(Run(sup, t, 302, true, reinitOk), t + 302, n - 302, reinitOk);
  }

  /** Any sequence of ticks keeps the timers consistent. */
  lemma {:induction false} RunKeepsTimersConsistent(sup: Supervisor, inputs: seq<TickInput>)
    requires TimersConsistent(sup)
    ensures TimersConsistent(RunInputs(sup, inputs))
    decreases |inputs|
  {
    if |inputs| > 0 {
      RunKeepsTimersConsistent(Tick(sup, inputs[0]).sup, inputs[1..]);
    }
  }

  /** A recovery re-enters the warm-up from its beginning: INIT reached from
      ERROR with SENSOR_READY or the recovery flag set moves to a fresh
      PREHEATING on the next tick. */
  lemma RecoveryRestartsWarmUp(sup: Supervisor, t1: TickInput, t2: TickInput)
    requires sup.state == Error && TimersConsistent(sup)
    requires sup.events.sensorReady || sup.initCompleted
    requires Tick(sup, t1).sup.state == Init
    ensures FreshWarmUp(Tick(Tick(sup, t1).sup, t2).sup)
  {
  }

  /** SENSOR_READY, once the warm-up has set it, is never cleared: outside
      PREHEATING it is always set. */
  predicate ReadyOutsidePreheating(sup: Supervisor) {
    sup.state != Preheating ==> sup.events.sensorReady
  }

  /** A tick keeps SENSOR_READY set outside PREHEATING. */
  lemma TickKeepsReadyOutsidePreheating(sup: Supervisor, input: TickInput)
    requires ReadyOutsidePreheating(sup)
    ensures ReadyOutsidePreheating(Tick(sup, input).sup)
  {
  }

  /** Every sequence of ticks keeps SENSOR_READY set outside PREHEATING. */
  lemma {:induction false} RunKeepsReadyOutsidePreheating(sup: Supervisor, inputs: seq<TickInput>)
    requires ReadyOutsidePreheating(sup)
    ensures ReadyOutsidePreheating(RunInputs(sup, inputs))
    decreases |inputs|
  {
    if |inputs| > 0 {
      TickKeepsReadyOutsidePreheating(sup, inputs[0]);
      RunKeepsReadyOutsidePreheating(Tick(sup, inputs[0]).sup, inputs[1..]);
    }
  }

  /** The supervisor at power-on: INIT, first-boot flag clear, no timer
      running and no event bit set. */
  function PowerOn(): (sup: Supervisor)
    ensures sup.state == Init && TimersConsistent(sup)
    ensures !sup.initCompleted && !sup.events.sensorReady && !sup.events.sensorFault
  {
    Supervisor(Init, false, None, None, None, Events(false, false, false, false))
  }

  /** `app_main` up to its loop: a successful system initialisation enters
      PREHEATING directly, so the INIT handler does not run at first boot;
      a failed one enters ERROR. */
  function Boot(initOk: bool): (sup: Supervisor)
    ensures sup.state == if initOk then Preheating else Error
    ensures TimersConsistent(sup)
    ensures initOk ==> FreshWarmUp(sup)
    ensures sup.(state := Init) == PowerOn()
  {
    StateTransition(PowerOn(), if initOk then Preheating else Error)
  }
  /** On the main loop after a successful boot every recovery restarts the
      warm-up: whatever ticks led to ERROR, a tick that reaches INIT is
      followed by a fresh PREHEATING. */
  lemma BootedRecoveryRestartsWarmUp(inputs: seq<TickInput>, t1: TickInput, t2: TickInput)
    requires RunInputs(Boot(true), inputs).state == Error
    requires Tick(RunInputs(Boot(true), inputs), t1).sup.state == Init
    ensures FreshWarmUp(Tick(Tick(RunInputs(Boot(true), inputs), t1).sup, t2).sup)
  {
    var sup := RunInputs(Boot(true), inputs);
    RunKeepsTimersConsistent(Boot(true), inputs);
    RunKeepsReadyOutsidePreheating(Boot(true), inputs);
    RecoveryRestartsWarmUp(sup, t1, t2);
  }


  /** The loop `app_main` enters after a failed system initialisation: the
      ERROR handler on every pass, whatever the state. */
  function RunFailedBoot(sup: Supervisor, inputs: seq<TickInput>): (r: Supervisor)
    ensures sup.state == Error || sup.state == Init ==> r.state == Error || r.state == Init
    ensures sup.state == Init ==> r.state == Init
    decreases |inputs|
  {
    if |inputs| == 0 then sup
    else RunFailedBoot(HandleError(sup, inputs[0]).sup, inputs[1..])
  }

  /** A failed boot with a sensor that recovers reaches INIT after the 10 s
      dwell, and stays there whatever follows. */
  lemma FailedBootRecoveryStallsInInit(later: seq<TickInput>)
    ensures var recovered := RunFailedBoot(Boot(false), [TickInput(0, true, true), TickInput(10, true, true)]);
            recovered.state == Init && RunFailedBoot(recovered, later).state == Init
  {
    var s1 := HandleError(Boot(false), TickInput(0, true, true)).sup;
    var s2 := HandleError(s1, TickInput(10, true, true)).sup;
    assert [TickInput(0, true, true), TickInput(10, true, true)][1..] == [TickInput(10, true, true)];
    assert RunFailedBoot(s2, []) == s2;
  }

  /** On the failed-boot loop a recovered supervisor, though in INIT and
      with FAULT cleared, is still run through the ERROR handler: its next
      tick re-arms the ERROR timer, commands the fan off and raises the
      sensor-fault alert again. */
  lemma FailedBootKeepsRaisingFaults(t: TickInput)
    ensures var recovered := RunFailedBoot(Boot(false), [TickInput(0, true, true), TickInput(10, true, true)]);
            && recovered.state == Init && !recovered.events.sensorFault
            && HandleError(recovered, t).effects == [FanOff, ShowSensorFault, PublishFaultAlert]
            && HandleError(recovered, t).sup.state == Init
  {
    var s1 := HandleError(Boot(false), TickInput(0, true, true)).sup;
    var s2 := HandleError(s1, TickInput(10, true, true)).sup;
    assert [TickInput(0, true, true), TickInput(10, true, true)][1..] == [TickInput(10, true, true)];
    assert RunFailedBoot(s2, []) == s2;
  }

  /** INIT with neither the recovery flag nor SENSOR_READY set is a resting
      state of the supervisor loop: every tick leaves it as it is. */
  lemma {:induction false} InitWithoutReadyRests(sup: Supervisor, inputs: seq<TickInput>)
    requires sup.state == Init && !sup.initCompleted && !sup.events.sensorReady
    ensures RunInputs(sup, inputs) == sup
    decreases |inputs|
  {
    if |inputs| > 0 {
      InitWithoutReadyRests(Tick(sup, inputs[0]).sup, inputs[1..]);
    }
  }

  /** The failed-boot loop corrected to dispatch on the state through
      `Tick`, as the main loop does: a recovered supervisor rests in INIT
      and from then on issues no fan-off and no fault alert. It still does
      not warm up, because only the end of preheating sets SENSOR_READY. */
  lemma CorrectedFailedBootGoesQuiet(later: seq<TickInput>, t: TickInput)
    ensures var recovered := RunInputs(Boot(false), [TickInput(0, true, true), TickInput(10, true, true)]);
            && recovered.state == Init && !recovered.events.sensorFault
            && RunInputs(recovered, later) == recovered
            && Tick(RunInputs(recovered, later), t).effects == []
  {
    var s1 := Tick(Boot(false), TickInput(0, true, true)).sup;
    var s2 := Tick(s1, TickInput(10, true, true)).sup;
    assert [TickInput(0, true, true), TickInput(10, true, true)][1..] == [TickInput(10, true, true)];
    assert RunInputs(s2, []) == s2;
    InitWithoutReadyRests(s2, later);
  }
}
