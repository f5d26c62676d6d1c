/** One iteration of each periodic task body of main/main.c (sensor,
    decision, network), run sequentially over the data the tasks share
    under the data mutex. Locking, queues and delays are not modelled; the
    drivers, connectivity, the health verdict and the clock are inputs. */
module Tasks {
  import opened Types
  import LocalMode
  import DecisionEngine
  import FanControl
  import SensorManager
  import Lifecycle

  /** The shared buffer guarded by the data mutex, together with the global
      `current_mode` the decision task writes and the network task reads. */
  datatype Shared = Shared(sensor: SensorData, fan: FanState, mode: SystemMode)

  /** The statics at boot. */
  function InitialShared(): (sh: Shared)
    ensures !sh.sensor.valid && sh.fan == Off && sh.mode == Local
  {
    Shared(ZeroSensorData, Off, Local)
  }

  /** The shared snapshot is never an invalid reading: it is the boot record
      or a valid snapshot. */
  predicate SnapshotSound(sh: Shared) {
    sh.sensor == ZeroSensorData || sh.sensor.valid
  }

  /** The outcome of one sensor-task iteration: the shared buffer, the
      sensor manager, whether a CO2 alert was raised (queued for the
      display) and whether it was also handed to MQTT. */
  datatype SensorStep = SensorStep(shared: Shared, mgr: SensorManager.Manager, alert: bool, alertPublished: bool)

  /** One iteration of `sensor_task`: read, publish the snapshot only if it
      is valid, and raise an alert for a valid reading above 1500 ppm. */
  function SensorTaskStep(shared: Shared, mgr: SensorManager.Manager, reading: SensorManager.Reading, now: int, wifiConnected: bool): (r: SensorStep)
    ensures r.mgr == SensorManager.ReadAll(mgr, true, reading, now).mgr
    ensures SensorManager.Plausible(reading) ==>
              r.shared == shared.(sensor := SensorData(reading.co2, reading.temperature, reading.humidity, now, true))
    ensures !SensorManager.Plausible(reading) ==> r.shared == shared
    ensures r.alert <==> SensorManager.Plausible(reading) && reading.co2 > CO2_ALERT_THRESHOLD
    ensures r.alertPublished <==> r.alert && wifiConnected
  {
    var out := SensorManager.ReadAll(mgr, true, reading, now);
    var data := out.data.value;
    var shared' := if data.valid then shared.(sensor := data) else shared;
    var alert := data.valid && data.co2 > CO2_ALERT_THRESHOLD;
    SensorStep(shared', out.mgr, alert, alert && wifiConnected)
  }

  /** The sensor task never publishes an invalid snapshot. */
  lemma SensorStepKeepsSnapshotSound(shared: Shared, mgr: SensorManager.Manager, reading: SensorManager.Reading, now: int, wifiConnected: bool)
    requires SnapshotSound(shared)
    ensures SnapshotSound(SensorTaskStep(shared, mgr, reading, now, wifiConnected).shared)
  {
  }

  /** An alert concerns a plausible reading between the alert threshold and
      the top of the plausibility range, and so always lies above the
      HIGH decision threshold. */
  lemma AlertBounds(shared: Shared, mgr: SensorManager.Manager, reading: SensorManager.Reading, now: int, wifiConnected: bool)
    requires SensorTaskStep(shared, mgr, reading, now, wifiConnected).alert
    ensures CO2_ALERT_THRESHOLD < reading.co2 <= CO2_MAX_VALID
    ensures LocalMode.Decide(reading.co2) == High
  {
  }

  /** The outcome of one decision-task iteration: the shared buffer, the
      actuator record and whether the actuator was commanded. */
  datatype DecisionStep = DecisionStep(shared: Shared, fan: FanControl.Fan, actuated: bool)

  /** One iteration of `decision_task`. It idles below RUNNING; from RUNNING
      on (by the enumeration order this includes ERROR) it detects the mode,
      decides, and commands the actuator and updates the shared intent only
      when the decision differs from the shared one. Day mode is always
      used. The decision's weather argument is given no record: the task
      passes its remote-command variable there, and the decision ignores
      that argument. */
  function DecisionTaskStep(
    state: SystemState, shared: Shared, fan: FanControl.Fan,
    wifiOk: bool, cacheValid: bool, sensorOk: bool): (r: DecisionStep)
    ensures state.Ord() < Running.Ord() ==> r == DecisionStep(shared, fan, false)
    ensures state.Ord() >= Running.Ord() ==>
              && r.shared.fan == (if sensorOk && shared.sensor.valid then LocalMode.Decide(shared.sensor.co2) else Off)
              && r.shared.mode == DecisionEngine.DetectMode(wifiOk, cacheValid, sensorOk)
              && r.shared.sensor == shared.sensor
              && (r.actuated <==> r.shared.fan != shared.fan)
    ensures r.actuated ==> r.fan.state == r.shared.fan && r.fan.pwm == FanControl.Duty(r.shared.fan, false)
    ensures !r.actuated ==> r.fan == fan
  {
    if state.Ord() < Running.Ord() then DecisionStep(shared, fan, false)
    else
      var mode := DecisionEngine.DetectMode(wifiOk, cacheValid, sensorOk);
      var decided := DecisionEngine.Make(Some(shared.sensor), None, mode);
      var previous := shared.fan;
      if decided != previous then
        DecisionStep(Shared(shared.sensor, decided, mode), FanControl.SetState(fan, decided, false).fan, true)
      else
        DecisionStep(shared.(mode := mode), fan, false)
  }

  /** The actuator and the shared intent agree. */
  predicate Coherent(shared: Shared, fan: FanControl.Fan) {
    fan.state == shared.fan
  }

  /** The decision step keeps the actuator and the shared intent in step. */
  lemma DecisionStepKeepsCoherence(
    state: SystemState, shared: Shared, fan: FanControl.Fan,
    wifiOk: bool, cacheValid: bool, sensorOk: bool)
    requires Coherent(shared, fan)
    ensures var r := DecisionTaskStep(state, shared, fan, wifiOk, cacheValid, sensorOk);
            Coherent(r.shared, r.fan)
  {
  }

  /** Actuation is edge-triggered: repeating a step on unchanged inputs does
      not command the actuator again. */
  lemma DecisionStepSettles(
    state: SystemState, shared: Shared, fan: FanControl.Fan,
    wifiOk: bool, cacheValid: bool, sensorOk: bool)
    ensures var r := DecisionTaskStep(state, shared, fan, wifiOk, cacheValid, sensorOk);
            var r2 := DecisionTaskStep(state, r.shared, r.fan, wifiOk, cacheValid, sensorOk);
            !r2.actuated && r2 == r.(actuated := false)
  {
  }

  /** From RUNNING on, an unhealthy sensor drives the shared intent and a
      coherent actuator to OFF within one decision step. */
  lemma SensorFaultTurnsFanOff(
    state: SystemState, shared: Shared, fan: FanControl.Fan,
    wifiOk: bool, cacheValid: bool)
    requires state.Ord() >= Running.Ord()
    requires Coherent(shared, fan)
    ensures var r := DecisionTaskStep(state, shared, fan, wifiOk, cacheValid, false);
            r.shared.fan == Off && r.fan.state == Off && r.shared.mode == SafeStop
  {
  }

  /** The fan commands a supervisor tick issues, applied to the actuator. */
  function ApplyEffects(fan: FanControl.Fan, effects: seq<Lifecycle.Effect>): FanControl.Fan
    decreases |effects|
  {
    if |effects| == 0 then fan
    else
      var fan' := if effects[0] == Lifecycle.FanOff then FanControl.SetState(fan, Off, false).fan else fan;
      ApplyEffects(fan', effects[1..])
  }

  /** The effects leave the actuator untouched unless they command it off,
      and then it ends off with zero duty. */
  lemma {:induction false} ApplyEffectsFanOff(fan: FanControl.Fan, effects: seq<Lifecycle.Effect>)
    ensures Lifecycle.FanOff in effects ==> ApplyEffects(fan, effects) == FanControl.Fan(Off, 0)
    ensures Lifecycle.FanOff !in effects ==> ApplyEffects(fan, effects) == fan
    decreases |effects|
  {
    if |effects| > 0 {
      var fan' := if effects[0] == Lifecycle.FanOff then FanControl.SetState(fan, Off, false).fan else fan;
      ApplyEffectsFanOff(fan', effects[1..]);
      assert effects == [effects[0]] + effects[1..];
      if Lifecycle.FanOff !in effects[1..] && effects[0] == Lifecycle.FanOff {
        ApplyEffectsKeepsOff(effects[1..]);
      }
    }
  }

  /** An actuator that is off stays off under any supervisor effects. */
  lemma {:induction false} ApplyEffectsKeepsOff(effects: seq<Lifecycle.Effect>)
    ensures ApplyEffects(FanControl.Fan(Off, 0), effects) == FanControl.Fan(Off, 0)
    decreases |effects|
  {
    if |effects| > 0 {
      ApplyEffectsKeepsOff(effects[1..]);
    }
  }

  /** A sensor fault while RUNNING has the actuator off two supervisor ticks
      later, whatever it was doing. */
  lemma FaultStopsActuator(sup: Lifecycle.Supervisor, fan: FanControl.Fan, t1: Lifecycle.TickInput, t2: Lifecycle.TickInput)
    requires sup.state == Running && Lifecycle.TimersConsistent(sup)
    requires !t1.healthy
    ensures var s1 := Lifecycle.Tick(sup, t1);
            var s2 := Lifecycle.Tick(s1.sup, t2);
            ApplyEffects(ApplyEffects(fan, s1.effects), s2.effects) == FanControl.Fan(Off, 0)
  {
    var s1 := Lifecycle.Tick(sup, t1);
    var s2 := Lifecycle.Tick(s1.sup, t2);
    Lifecycle.FaultStopsFanWithinTwoTicks(sup, t1, t2);
    ApplyEffectsFanOff(fan, s1.effects);
    ApplyEffectsFanOff(ApplyEffects(fan, s1.effects), s2.effects);
  }

  /** The supervisor's fan-off bypasses the shared intent. If the sensor is
      healthy again when the decision task next runs and the reading still
      calls for the running level the intent records, the decision matches
      the intent, so nothing is commanded: the actuator stays off while the
      intent, and the status reports built from it, say it is running. */
  lemma SupervisorStopLeavesIntentStale(
    state: SystemState, shared: Shared, fan: FanControl.Fan, wifiOk: bool, cacheValid: bool)
    requires state.Ord() >= Running.Ord()
    requires shared.sensor.valid && shared.fan == LocalMode.Decide(shared.sensor.co2)
    requires shared.fan != Off
    ensures var stopped := ApplyEffects(fan, [Lifecycle.FanOff]);
            var r := DecisionTaskStep(state, shared, stopped, wifiOk, cacheValid, true);
            !r.actuated && r.fan.state == Off && r.shared.fan == shared.fan && !Coherent(r.shared, r.fan)
  {
    ApplyEffectsFanOff(fan, [Lifecycle.FanOff]);
  }

  /** A status report: the snapshot, intent and mode handed to MQTT. */
  datatype Report = Report(sensor: SensorData, fan: FanState, mode: SystemMode)

  /** The outcome of one network-task iteration: the publish timer, the
      WIFI_CONNECTED event bit and the report sent, if any. */
  datatype NetworkStep = NetworkStep(lastPublish: nat, wifiBit: bool, report: Option<Report>)

  /** One iteration of `network_task` at second `now`. Connectivity is
      queried twice: `wifiAtBit` is the answer mirrored into the event bit,
      and `wifiAtPublish` the later answer that gates the report. Once 30 s
      have passed since the last period, the shared state is reported if
      the second answer says connected and the lock was obtained within its
      bounded wait; the period restarts whether or not a report went out. */
  function NetworkTaskStep(
    lastPublish: nat, shared: Shared, now: nat,
    wifiAtBit: bool, wifiAtPublish: bool, lockAcquired: bool): (r: NetworkStep)
    ensures r.wifiBit == wifiAtBit
    ensures r.lastPublish == if now - lastPublish >= MQTT_PUBLISH_INTERVAL_SEC then now else lastPublish
    ensures r.report.Some? <==> now - lastPublish >= MQTT_PUBLISH_INTERVAL_SEC && wifiAtPublish && lockAcquired
    ensures r.report.Some? ==> r.report.value == Report(shared.sensor, shared.fan, shared.mode)
  {
    if now - lastPublish >= MQTT_PUBLISH_INTERVAL_SEC then
      var report := if wifiAtPublish && lockAcquired then Some(Report(shared.sensor, shared.fan, shared.mode)) else None;
      NetworkStep(now, wifiAtBit, report)
    else
      NetworkStep(lastPublish, wifiAtBit, None)
  }

  /** The two connectivity queries are independent: a report can go out in
      an iteration that cleared the event bit, and a due period can be
      skipped in one that set it. */
  lemma BitAndPublishGateDisagree(shared: Shared, lastPublish: nat, now: nat, lock: bool)
    requires now - lastPublish >= MQTT_PUBLISH_INTERVAL_SEC && lock
    ensures var r := NetworkTaskStep(lastPublish, shared, now, false, true, lock);
            r.report.Some? && !r.wifiBit
    ensures var r := NetworkTaskStep(lastPublish, shared, now, true, false, lock);
            r.report.None? && r.wifiBit && r.lastPublish == now
  {
  }

  /** Reports are at least 30 s apart: after a due period, nothing is
      reported for the next 29 seconds. */
  lemma ReportsAtLeastAnIntervalApart(
    lastPublish: nat, shared: Shared, shared2: Shared, now: nat, later: nat,
    bit: bool, wifi: bool, lock: bool, bit2: bool, wifi2: bool, lock2: bool)
    requires now - lastPublish >= MQTT_PUBLISH_INTERVAL_SEC
    requires now <= later < now + MQTT_PUBLISH_INTERVAL_SEC
    ensures var r := NetworkTaskStep(lastPublish, shared, now, bit, wifi, lock);
            NetworkTaskStep(r.lastPublish, shared2, later, bit2, wifi2, lock2).report.None?
  {
  }
}
