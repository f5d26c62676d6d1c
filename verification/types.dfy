/** The shared vocabulary of the ventilation controller (main/main.h): the
    lifecycle, mode and fan enumerations, the sensor and weather records,
    and the thresholds and time constants every component compares against.
    Floating-point fields are modelled as `real`: the core only compares them
    with constants. */
module Types {

  /** A value that may be absent; stands for the source's nullable pointers
      and its "0 means unset" timer sentinels. */
  datatype Option<+T> = None | Some(value: T)

  /** The ESP-IDF error codes the core returns. */
  datatype EspErr = EspOk | EspFail | EspErrInvalidArg

  /** System lifecycle state. The C enumerators are ordered and the decision
      task compares them numerically, so `Ord` gives their values. */
  datatype SystemState = Init | Preheating | Stabilizing | Running | Error {
    function Ord(): nat {
      match this
      case Init => 0
      case Preheating => 1
      case Stabilizing => 2
      case Running => 3
      case Error => 4
    }
  }

  /** Decodes the integer held by the C `current_state` variable; any value
      outside the enumeration is `None`. */
  function StateOfCode(code: int): (r: Option<SystemState>)
    ensures r.Some? <==> 0 <= code < 5
    ensures r.Some? ==> r.value.Ord() == code
  {
    if code == 0 then Some(Init)
    else if code == 1 then Some(Preheating)
    else if code == 2 then Some(Stabilizing)
    else if code == 3 then Some(Running)
    else if code == 4 then Some(Error)
    else None
  }

  /** Operating mode of the weather configuration (main.h). */
  datatype SystemMode = Normal | Degraded | Local | SafeStop

  /** Fan intent; `Level` is the C enumerator value FAN_OFF = 0, FAN_LOW = 1,
      FAN_HIGH = 2, which orders the intents by airflow. */
  datatype FanState = Off | Low | High {
    function Level(): nat {
      match this
      case Off => 0
      case Low => 1
      case High => 2
    }
  }

  /** One sensor snapshot. */
  datatype SensorData = SensorData(co2: real, temperature: real, humidity: real, timestamp: int, valid: bool)

  /** One outdoor weather record. */
  datatype WeatherData = WeatherData(pm25: real, temperature: real, windSpeed: real, timestamp: int, valid: bool)

  /** The zero-initialised sensor record (`= {0}` in C). */
  const ZeroSensorData: SensorData := SensorData(0.0, 0.0, 0.0, 0, false)

  // Warm-up durations, in seconds.
  const PREHEATING_TIME_SEC: nat := 60
  const STABILIZING_TIME_SEC: nat := 240

  // Decision and alert thresholds, in ppm.
  const CO2_THRESHOLD_LOW: real := 1000.0
  const CO2_THRESHOLD_HIGH: real := 1200.0
  const CO2_ALERT_THRESHOLD: real := 1500.0

  // Plausibility ranges (inclusive).
  const CO2_MIN_VALID: real := 300.0
  const CO2_MAX_VALID: real := 5000.0
  const TEMP_MIN_VALID: real := -10.0
  const TEMP_MAX_VALID: real := 50.0
  const HUMI_MIN_VALID: real := 0.0
  const HUMI_MAX_VALID: real := 100.0

  // Network and cache periods, in seconds.
  const WEATHER_CACHE_VALID_SEC: int := 1800
  const MQTT_PUBLISH_INTERVAL_SEC: int := 30
}
