/** The decision engine (main/algorithm/decision_engine.c): mode detection
    from health, connectivity and cache freshness, and the fan decision for a
    sensor snapshot in a mode. A null pointer argument is `None`. */
module DecisionEngine {
  import opened Types
  import LocalMode

  /** `decision_make`. Invalid data and SAFE_STOP short-circuit to OFF; LOCAL
      delegates to the local rule; NORMAL and DEGRADED apply the same two
      thresholds inline (the benefit-cost strategy is not written in the
      source), so the weather record is never consulted. */
  function Make(sensor: Option<SensorData>, weather: Option<WeatherData>, mode: SystemMode): (r: FanState)
    ensures sensor.None? || !sensor.value.valid ==> r == Off
    ensures mode == SafeStop ==> r == Off
    ensures sensor.Some? && sensor.value.valid && mode != SafeStop ==> r == LocalMode.Decide(sensor.value.co2)
  {
    if sensor.None? || !sensor.value.valid then Off
    else if mode == SafeStop then Off
    else if mode == Local then LocalMode.Decide(sensor.value.co2)
    else if sensor.value.co2 > CO2_THRESHOLD_HIGH then High
    else if sensor.value.co2 > CO2_THRESHOLD_LOW then Low
    else Off
  }

  /** The decision never depends on the weather argument. */
  lemma MakeIgnoresWeather(sensor: Option<SensorData>, w1: Option<WeatherData>, w2: Option<WeatherData>, mode: SystemMode)
    ensures Make(sensor, w1, mode) == Make(sensor, w2, mode)
  {
  }

  /** `decision_detect_mode`: sensor health first, then WiFi, then cache
      freshness, otherwise LOCAL. */
  function DetectMode(wifiOk: bool, cacheValid: bool, sensorOk: bool): (m: SystemMode)
    ensures !sensorOk ==> m == SafeStop
    ensures sensorOk && wifiOk ==> m == Normal
    ensures sensorOk && !wifiOk && cacheValid ==> m == Degraded
    ensures sensorOk && !wifiOk && !cacheValid ==> m == Local
  {
    if !sensorOk then SafeStop
    else if wifiOk then Normal
    else if cacheValid then Degraded
    else Local
  }

  /** SAFE_STOP is reached from a sensor fault and from nothing else. */
  lemma SafeStopIffSensorFault(wifiOk: bool, cacheValid: bool, sensorOk: bool)
    ensures DetectMode(wifiOk, cacheValid, sensorOk) == SafeStop <==> !sensorOk
  {
  }

  /** Composed, the two functions turn a sensor fault into OFF whatever the
      snapshot, weather, connectivity or cache. */
  lemma SensorFaultForcesOff(sensor: Option<SensorData>, weather: Option<WeatherData>, wifiOk: bool, cacheValid: bool)
    ensures Make(sensor, weather, DetectMode(wifiOk, cacheValid, false)) == Off
  {
  }

  /** With a healthy sensor the detected mode does not matter: every mode
      other than SAFE_STOP applies the local thresholds to valid data. */
  lemma HealthyDecisionIsLocalRule(s: SensorData, weather: Option<WeatherData>, wifiOk: bool, cacheValid: bool)
    ensures Make(Some(s), weather, DetectMode(wifiOk, cacheValid, true))
         == (if s.valid then LocalMode.Decide(s.co2) else Off)
  {
  }
}
