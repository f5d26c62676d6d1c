# Ventilation controller core, modelled in Dafny

This project models the control nucleus of an ESP32 indoor-air ventilation
controller. The controller reads CO2, temperature and humidity. It decides
a fan intent (OFF, LOW or HIGH) from two CO2 thresholds and drives the fan
through a bounded PWM duty. A supervisor takes the sensor through a 60 s
preheat and a 240 s stabilisation before normal running. A sensor fault
sends it to a safe ERROR state, from which it recovers through
re-initialisation. Around this core sit an outdoor-weather cache with a
30-minute validity and the MQTT remote-command bookkeeping.

Every C module keeps its state in a few `static` variables. Here each
module's statics become an immutable record, and each public function
becomes a pure function from the record and the inputs to a new record and
a result code. The clock, the sensor drivers' readings, connectivity, the
health verdict and the outcome of a re-initialisation are parameters. A
null pointer argument is an `Option` or a `hasOutput` flag. A "0 means not
started" timer is an `Option<nat>`. Floating-point measurements are `real`,
because the core only compares them with constants. The `uint8_t` duty is
the subset type `FanControl.U8`.

The modules follow the source files:

- `Types` covers `main/main.h`: the enumerations, records and constants.
- `LocalMode` covers `local_mode.c`.
- `DecisionEngine` covers `decision_engine.c`.
- `FanControl` covers `fan_control.c`.
- `SensorManager` covers `sensor_manager.c`.
- `WeatherApi` covers `weather_api.c`.
- `MqttWrapper` covers `mqtt_wrapper.c`.
- `Lifecycle` covers the supervisor state machine and boot path of `main.c`.
- `Tasks` covers one iteration of each of the sensor, decision and network task bodies of `main.c`, run sequentially over the shared record.

Some parts of the sources do not agree with each other. Each function is
modelled from the `.c` file that defines it:

- `decision_make` and `decision_detect_mode` take the arguments of `decision_engine.c`.
- The sensor record has a `co2` field, as `main.h` declares it.
- `system_mode_to_string` is given its own three-mode vocabulary, REMOTE, LOCAL and SAFE_STOP, because `MODE_REMOTE` is not part of `main.h`.
- `FAN_COUNT` is 3, the length of the command array's initialiser.

Some behaviours of the code as written are worth naming; the model follows the code:

- The ERROR handler commands the fan off and raises the fault alert each time its 10 s timer starts. While the sensor stays unhealthy that is once every retry window, not once per entry into ERROR.
- The supervisor's fan-off in ERROR goes straight to the actuator and bypasses the shared fan intent. A decision that then matches the stale intent commands nothing, so the fan can stay off while reports say it runs.
- The benefit-cost strategy is only a TODO comment in `decision_engine.c` (line 30), and the CO2 fallback cache and multi-fan aggregation are not written in the source, so none of them is modelled.

## Model

| member | source | states |
|---|---|---|
| Types.StateOfCode | main/main.h:22-28 | The C state variable decodes to a lifecycle state exactly for the values 0..4, in enumeration order; any other value is unknown |
| LocalMode.Decide | main/algorithm/local_mode.c:11-22 | HIGH iff co2 > 1200, LOW iff 1000 < co2 <= 1200, OFF iff co2 <= 1000; total, with strict comparisons at both thresholds |
| LocalMode.DecideCountsThresholds | main/algorithm/local_mode.c:15-21 | The chosen fan level equals the number of thresholds the reading strictly exceeds, an independent statement of the rule |
| LocalMode.DecideMonotone | main/algorithm/local_mode.c:15-21 | More CO2 never yields a lower fan level (OFF < LOW < HIGH) |
| LocalMode.DecideBoundaries | main/algorithm/local_mode.c:15-20 | 1000 ppm is OFF, 1000.1 is LOW, 1200 is LOW, 1201 is HIGH |
| DecisionEngine.Make | main/algorithm/decision_engine.c:13-39 | Missing or invalid data gives OFF in every mode; SAFE_STOP gives OFF; valid data in any other mode gives the local rule's result for its CO2 |
| DecisionEngine.MakeIgnoresWeather | main/algorithm/decision_engine.c:13-39 | The decision is the same for any two weather arguments |
| DecisionEngine.HealthyDecisionIsLocalRule | main/algorithm/decision_engine.c:24-38 | With a healthy sensor, whatever mode is detected, the decision is the local rule on valid data and OFF otherwise |
| DecisionEngine.DetectMode | main/algorithm/decision_engine.c:41-59 | Priority: unhealthy sensor gives SAFE_STOP; else WiFi gives NORMAL; else a valid cache gives DEGRADED; else LOCAL |
| DecisionEngine.SafeStopIffSensorFault | main/algorithm/decision_engine.c:41-45 | SAFE_STOP is detected exactly when the sensor is unhealthy |
| DecisionEngine.SensorFaultForcesOff | main/algorithm/decision_engine.c:13-22 | Mode detection followed by the decision turns a sensor fault into OFF for every snapshot, weather, WiFi and cache input |
| FanControl.Clamp | main/actuators/fan_control.c:19-24 | The clamped duty is 0 or in [150,255], never below the input, and zero exactly when the input is zero |
| FanControl.ClampIsLeastInBandAbove | main/actuators/fan_control.c:19-24 | The clamp yields the smallest admissible duty at or above its input |
| FanControl.ClampFixedPointIffInBand | main/actuators/fan_control.c:19-24 | The clamp leaves a duty unchanged iff the duty is already admissible |
| FanControl.ClampIdempotent | main/actuators/fan_control.c:19-24 | Clamping twice is clamping once |
| FanControl.ClampPoints | main/actuators/fan_control.c:19-24 | 0 maps to 0, 1 and 149 map to 150, 150 and 255 are kept |
| FanControl.Duty | main/actuators/fan_control.c:33-40 | The duty is zero exactly for OFF |
| FanControl.DutyTable | main/actuators/fan_control.c:33-40 | OFF is 0; LOW is 150 at night and 180 by day; HIGH is 200 at night and 255 by day |
| FanControl.DutyIsClampFixedPoint | main/actuators/fan_control.c:19-40 | Every table duty is admissible and unchanged by the clamp |
| FanControl.DutyMonotone | main/actuators/fan_control.c:33-40 | A higher level never gets a lower duty, and night never runs louder than day |
| FanControl.InitFan | main/actuators/fan_control.c:42-48 | Init records OFF with duty 0 and returns ESP_OK |
| FanControl.SetState | main/actuators/fan_control.c:50-57 | The new state is recorded with its table duty, and the call returns ESP_OK |
| FanControl.SetPwm | main/actuators/fan_control.c:59-64 | The clamped duty is recorded, the state is unchanged, and the call returns ESP_OK |
| FanControl.AdmissibleInvariant | main/actuators/fan_control.c:42-64 | Init, set_state and set_pwm all leave the recorded duty admissible |
| FanControl.GettersReturnLastCommand | main/actuators/fan_control.c:66-72 | The getters return the state and duty the last command recorded |
| FanControl.GetState | main/actuators/fan_control.c:66-68 | No contract of its own: it reads back the recorded state, and FanControl.GettersReturnLastCommand states what that is after init and after each command |
| FanControl.GetPwm | main/actuators/fan_control.c:70-72 | No contract of its own: it reads back the recorded duty, and FanControl.GettersReturnLastCommand states what that is after init and after each command |
| SensorManager.InitManager | main/sensors/sensor_manager.c:15-34 | SHT35 init is tried only after CO2 init succeeds; OK iff both succeed; a failure returns ESP_FAIL and leaves the counter alone; success resets it to 0 |
| SensorManager.ReadAll | main/sensors/sensor_manager.c:36-67 | A null output gives INVALID_ARG and no change. Otherwise the readings are copied and stamped with now. The record is valid iff all three inclusive ranges hold. Invalid: counter +1 and ESP_FAIL. Valid: counter 0 and ESP_OK |
| SensorManager.IsHealthy | main/sensors/sensor_manager.c:69-72 | No contract of its own: the verdict is "fewer than three consecutive failures", and the SensorManager read lemmas below state how reads move it |
| SensorManager.ReadManyCountsTrailingFailures | main/sensors/sensor_manager.c:59-66 | After a run of reads the counter is the length of the trailing run of implausible reads, plus the starting count when every read failed |
| SensorManager.ReadManyHealth | main/sensors/sensor_manager.c:69-72 | Health after a run of reads holds iff that count is below 3 |
| SensorManager.ThreeFailuresMakeUnhealthy | main/sensors/sensor_manager.c:59-72 | Three consecutive implausible reads make the manager unhealthy, whatever came before |
| SensorManager.PlausibleReadRestoresHealth | main/sensors/sensor_manager.c:65-72 | One plausible read resets the counter to 0 and restores health |
| SensorManager.TwoFailuresStayHealthy | main/sensors/sensor_manager.c:69-72 | From a reset counter, up to two reads of any kind keep the manager healthy |
| SensorManager.InitThenReadsHealth | main/sensors/sensor_manager.c:15-72 | After a successful init, health is lost exactly when the last three or more reads were implausible, so two reads of any kind keep it. A failed init leaves every later verdict as it would have been |
| WeatherApi.InitCache | main/network/weather_api.c:14-20 | Init yields a zeroed, invalid cache |
| WeatherApi.Fetch | main/network/weather_api.c:22-44 | A null output gives INVALID_ARG and leaves the cache unchanged. Otherwise the caller's record and the cache are the same valid record, stamped with now, holding the fetched values |
| WeatherApi.GetCached | main/network/weather_api.c:46-50 | The cache is copied out for a non-null output, and nothing is written for a null one |
| WeatherApi.IsCacheStale | main/network/weather_api.c:52-62 | No contract of its own: stale means invalid, or valid and more than 1800 s old; the WeatherApi lemmas below state its behaviour over time and fetches |
| WeatherApi.InitCacheIsStale | main/network/weather_api.c:52-55 | A freshly initialised cache is stale at every time |
| WeatherApi.InvalidCacheIsStale | main/network/weather_api.c:52-55 | An invalid cache is stale whatever the time |
| WeatherApi.ValidCacheStaleIffOld | main/network/weather_api.c:57-61 | A valid cache is stale iff it is more than 1800 s old; an age of exactly 1800 s is fresh |
| WeatherApi.FetchFreshWindow | main/network/weather_api.c:22-61 | After a fetch at t the cache is fresh exactly at times up to t + 1800 |
| WeatherApi.StaleStaysStale | main/network/weather_api.c:52-61 | A stale cache stays stale as time advances, until the next fetch |
| WeatherApi.ReadsKeepStaleness | main/network/weather_api.c:22-25 | A null fetch and a cache read leave the staleness verdict and the cache as they were |
| MqttWrapper.StringToFanState | main/network/mqtt_wrapper.c:72-78 | "LOW" gives LOW and "HIGH" gives HIGH, each exactly; every other string, "OFF" included, gives OFF |
| MqttWrapper.FanStateToString | main/network/mqtt_wrapper.c:38-50 | Every state is named by a string that parses back to that state, never the UNKNOWN fallback |
| MqttWrapper.FanStateRoundTrip | main/network/mqtt_wrapper.c:38-78 | Parsing the name of a state gives the state back |
| MqttWrapper.StringRoundTrip | main/network/mqtt_wrapper.c:38-78 | Naming a parsed string gives the string back iff it is one of the three names |
| MqttWrapper.SystemModeToString | main/network/mqtt_wrapper.c:55-67 | Every mode has a nonempty name other than the UNKNOWN fallback |
| MqttWrapper.SystemModeNames | main/network/mqtt_wrapper.c:55-67 | The modes are named "REMOTE", "LOCAL" and "SAFE_STOP" |
| MqttWrapper.SystemModeToStringInjective | main/network/mqtt_wrapper.c:55-67 | Distinct modes have distinct names, and none is the UNKNOWN fallback |
| MqttWrapper.InitMqtt | main/network/mqtt_wrapper.c:28-33 | The wrapper starts disconnected, with nothing received and every command slot OFF |
| MqttWrapper.ParseRemoteCommand | main/network/mqtt_wrapper.c:83-111 | An unparsable payload changes nothing. Otherwise slot i takes the parsed string of key fan_i when that key holds a string and keeps its value otherwise. The received flag is raised iff some slot was commanded, and it is never lowered |
| MqttWrapper.MergeKeepsReceived | main/network/mqtt_wrapper.c:106-108 | Parsing never clears the received flag |
| MqttWrapper.MergeWithoutFanKeys | main/network/mqtt_wrapper.c:93-108 | An object with no fan member leaves the whole state unchanged |
| MqttWrapper.CStrNEqual | main/network/mqtt_wrapper.c:162 | The bounded C comparison of a whole NUL-free string against a NUL-free string holds exactly when the first is a prefix of the second |
| MqttWrapper.IsCommandTopic | main/network/mqtt_wrapper.c:162 | No contract of its own: the gate as written, a nonempty topic compared with the filter text over the topic's length; MqttWrapper.CommandTopicIsFilterPrefix states what it accepts |
| MqttWrapper.CommandTopicIsFilterPrefix | main/network/mqtt_wrapper.c:162 | The data gate as written accepts exactly the nonempty prefixes of the filter text: the bare command topic passes, "…/command/fan_0" does not |
| MqttWrapper.WrittenGateWithinSubscription | main/network/mqtt_wrapper.c:162 | Among the topics the subscription delivers, the gate as written passes only the three literal prefixes of the filter |
| MqttWrapper.CommandFilterMatchesSubtree | main/network/mqtt_wrapper.c:142 | The corrected gate accepts the command topic and every topic below it, and rejects the status, alert and sibling topics |
| MqttWrapper.OnEvent | main/network/mqtt_wrapper.c:127-184 | CONNECTED sets the connected flag and DISCONNECTED clears it. DATA merges its parsed payload exactly when its topic passes the gate as written, and otherwise changes nothing. Every other event changes nothing |
| MqttWrapper.OnEventCorrected | main/network/mqtt_wrapper.c:127-184 | As the handler, except that DATA merges its payload exactly when its topic lies in the subscribed command subtree |
| MqttWrapper.SubtreeCommand | main/network/mqtt_wrapper.c:162 | A fan-0 command on any subtree topic other than the three prefixes of the filter text is dropped by the handler as written and applied by the corrected one |
| MqttWrapper.PublishAfterEvent | main/network/mqtt_wrapper.c:132-147 | After a DISCONNECTED event neither publish call succeeds. After CONNECTED each succeeds iff its argument is present and the send succeeds. Any other event leaves both results as they were |
| MqttWrapper.GetRemoteCommand | main/network/mqtt_wrapper.c:382-391 | It returns true iff the output is non-null, the client is connected and a command was received. Then the stored slots are copied; otherwise the output is untouched |
| MqttWrapper.ConnectionGatesCommand | main/network/mqtt_wrapper.c:382-391 | A disconnect hides the stored command, and a connect exposes it again once something was received |
| MqttWrapper.PublishStatus | main/network/mqtt_wrapper.c:272-330 | A null sensor gives INVALID_ARG and a disconnected client gives ESP_FAIL. The result is OK iff the sensor is present, the client is connected and the send succeeds |
| MqttWrapper.StatusPayload | main/network/mqtt_wrapper.c:284-305 | The status object has exactly the co2, temp, humi, fan_0..fan_2, mode and timestamp members, each carrying its value or name |
| MqttWrapper.StatusPayloadRoundTrip | main/network/mqtt_wrapper.c:94-108 | A status message read back by the command parser sets every fan slot to the state it reported, and counts as received |
| MqttWrapper.PublishAlert | main/network/mqtt_wrapper.c:332-380 | A null message gives INVALID_ARG and a disconnected client gives ESP_FAIL. The result is OK iff the message is present, the client is connected and the send succeeds |
| MqttWrapper.AlertPayload | main/network/mqtt_wrapper.c:344-355 | The alert object has exactly the alert, level ("WARNING") and timestamp members |
| MqttWrapper.AlertPayloadIsNotACommand | main/network/mqtt_wrapper.c:350-355 | An alert message read back by the command parser changes nothing |
| Lifecycle.StateTransition | main/main.c:71-78 | The target becomes the state. A transition to the current state changes nothing, and no other field ever changes |
| Lifecycle.HandleInit | main/main.c:83-101 | INIT moves to PREHEATING iff the recovery flag or SENSOR_READY is set. The recovery flag is consumed, or set on the first-boot path, and no other field changes. Otherwise nothing changes. No effect is issued |
| Lifecycle.HandlePreheating | main/main.c:106-123 | It moves to STABILIZING exactly when 60 s have passed since the tick that started the timer, setting SENSOR_READY and clearing the timer, and changes nothing else. Before that only the timer is set. The display effect is issued only on the starting tick |
| Lifecycle.HandleStabilizing | main/main.c:128-145 | It moves to RUNNING exactly when 240 s have passed since the starting tick, setting SENSOR_STABLE and clearing the timer, and changes nothing else. Before that only the timer is set |
| Lifecycle.HandleRunning | main/main.c:150-157 | An unhealthy verdict sets FAULT and moves to ERROR, changing nothing else; a healthy one changes nothing |
| Lifecycle.HandleError | main/main.c:162-199 | The starting tick commands the fan off and raises the alert. After 10 s the timer clears; a healthy sensor also clears FAULT. The state becomes INIT iff the dwell has passed, the sensor is healthy and reinit succeeds, and is kept otherwise. Only the state, the timer and the FAULT bit can change |
| Lifecycle.TickCode | main/main.c:483-508 | A state value outside the enumeration moves the supervisor to ERROR; a known one dispatches to its handler |
| Lifecycle.Tick | main/main.c:482-508 | A tick keeps the state or advances it one step along the cycle, and keeps every timer confined to its own state |
| Lifecycle.ErrorExitRequiresRecovery | main/main.c:177-199 | ERROR is left only with a healthy sensor and a successful reinit; a failed reinit stays in ERROR |
| Lifecycle.RunKeepsTimersConsistent | main/main.c:106-199 | The timer consistency holds after any sequence of ticks |
| Lifecycle.FaultStopsFanWithinTwoTicks | main/main.c:150-175 | A fault seen in RUNNING reaches ERROR on that tick, and the next tick commands the fan off and publishes the alert |
| Lifecycle.ErrorEffectsOnlyWhenTimerStarts | main/main.c:165-175 | In ERROR the fan-off command is issued exactly on the ticks that start the timer |
| Lifecycle.PreheatingWaits | main/main.c:106-123 | Before 60 s have passed, PREHEATING ticks change nothing |
| Lifecycle.StabilizingWaits | main/main.c:128-145 | Before 240 s have passed, STABILIZING ticks change nothing |
| Lifecycle.RunningStaysWhileHealthy | main/main.c:150-157 | RUNNING is kept for as long as the sensor is healthy |
| Lifecycle.PreheatingPhase | main/main.c:106-123 | From a fresh PREHEATING, 60 one-second ticks only start the timer, and the 61st enters STABILIZING with no timer |
| Lifecycle.StabilizingPhase | main/main.c:128-145 | From STABILIZING with no timer, 240 ticks only start the timer, and the 241st reaches RUNNING |
| Lifecycle.WarmUpTiming | main/main.c:106-145 | At one tick per second, the state is PREHEATING after 60 ticks, STABILIZING after 61 and 301, and RUNNING after 302 |
| Lifecycle.WarmUpThenRunning | main/main.c:106-157 | With a healthy sensor the supervisor is RUNNING from the 302nd tick on |
| Lifecycle.RecoveryRestartsWarmUp | main/main.c:83-101 | From ERROR with consistent timers and SENSOR_READY or the recovery flag set, a tick that reaches INIT is followed by a fresh PREHEATING with no timer running |
| Lifecycle.TickKeepsReadyOutsidePreheating | main/main.c:83-199 | No handler clears SENSOR_READY, and only PREHEATING sets it on its way out, so a tick keeps it set in every state other than PREHEATING |
| Lifecycle.RunKeepsReadyOutsidePreheating | main/main.c:83-199 | SENSOR_READY stays set outside PREHEATING after any sequence of ticks |
| Lifecycle.PowerOn | main/main.c:34 | At power-on the state is INIT, with no flag, timer or event bit set |
| Lifecycle.Boot | main/main.c:459-471 | A successful system init enters a fresh PREHEATING without passing through the INIT handler; a failed one enters ERROR |
| Lifecycle.BootedRecoveryRestartsWarmUp | main/main.c:459-508 | On the main loop after a successful boot, whatever ticks led to ERROR, a tick that reaches INIT is followed by a fresh PREHEATING |
| Lifecycle.RunFailedBoot | main/main.c:464-467 | The failed-boot loop, which calls only the ERROR handler, keeps the state within ERROR and INIT, and once INIT is reached it stays there |
| Lifecycle.FailedBootRecoveryStallsInInit | main/main.c:459-468 | A failed boot whose sensor recovers reaches INIT after the 10 s dwell and stays there |
| Lifecycle.FailedBootKeepsRaisingFaults | main/main.c:464-467 | After a failed boot whose sensor recovers, the supervisor is in INIT with FAULT cleared, yet its next tick still commands the fan off and raises the sensor-fault alert, and it stays in INIT |
| Lifecycle.InitWithoutReadyRests | main/main.c:83-101 | INIT with neither the recovery flag nor SENSOR_READY set is left unchanged by any sequence of ticks |
| Lifecycle.CorrectedFailedBootGoesQuiet | main/main.c:464-467 | With the failed-boot loop dispatching on the state, a recovered supervisor rests in INIT and no later tick issues a fan-off or a fault alert |
| Tasks.InitialShared | main/main.c:35-39 | The shared snapshot starts invalid, the shared fan intent OFF and the mode LOCAL |
| Tasks.SensorTaskStep | main/main.c:213-240 | The sensor manager is updated as a read does. The snapshot is replaced exactly by a plausible reading. An alert is raised iff the reading is plausible and above 1500 ppm, and published iff WiFi is up as well |
| Tasks.SensorStepKeepsSnapshotSound | main/main.c:219-226 | The shared snapshot is never an invalid reading |
| Tasks.AlertBounds | main/main.c:229-240 | An alert concerns a reading in (1500, 5000] ppm, which the decision rule always maps to HIGH |
| Tasks.DecisionTaskStep | main/main.c:256-291 | Below RUNNING nothing changes; from RUNNING on, ERROR included, the shared intent becomes the local rule on valid data from a healthy sensor and OFF otherwise. The mode is the detected one. The actuator is commanded, with the day duty, iff the intent changed |
| Tasks.DecisionStepKeepsCoherence | main/main.c:283-291 | The decision step keeps the actuator's state equal to the shared intent |
| Tasks.DecisionStepSettles | main/main.c:264-291 | Actuation is edge-triggered: a second step on unchanged inputs commands nothing and changes nothing |
| Tasks.SensorFaultTurnsFanOff | main/main.c:270-291 | From RUNNING on, an unhealthy sensor makes the shared intent and a coherent actuator OFF, in SAFE_STOP, within one step |
| Tasks.ApplyEffectsFanOff | main/main.c:169-170 | Supervisor effects leave the actuator as it was, unless they command it off; then it ends OFF with duty 0 |
| Tasks.FaultStopsActuator | main/main.c:150-175 | A fault seen in RUNNING has the actuator OFF with duty 0 two supervisor ticks later, whatever it was doing |
| Tasks.SupervisorStopLeavesIntentStale | main/main.c:283-289 | After the supervisor's fan-off, a decision that still calls for the running level the shared intent records commands nothing: the actuator stays OFF while the intent says it runs |
| Tasks.NetworkTaskStep | main/main.c:307-332 | The WiFi event bit mirrors the first connectivity query. Once 30 s have passed the period restarts, whether or not a report went out. A report of the shared snapshot, intent and mode is sent iff the period is due, the second connectivity query says connected and the lock was obtained |
| Tasks.BitAndPublishGateDisagree | main/main.c:311-319 | The two connectivity queries are independent: a report can go out in an iteration that cleared the event bit, and a due period can pass unreported in one that set it |
| Tasks.ReportsAtLeastAnIntervalApart | main/main.c:318-331 | After a due period nothing is reported during the next 29 seconds |

## Left out

- Task scheduling is left out: FreeRTOS task creation, priorities, mutexes, event-group waits, the alert queue and the delays. Each task body is one sequential step over the shared record, and the mutex's bounded wait in the network task is the input `lockAcquired`.
- `display_task`, the OLED display and the alert queue's consumer are left out. They only render data, and the display calls of the supervisor are effects.
- `system_init` and the NVS flash handling are left out as hardware plumbing; only its success or failure enters `Lifecycle.Boot`.
- The I2C HAL, the bus scanner and the stub drivers are left out: the CO2 sensor, SHT35, WiFi manager and OLED. Their results are inputs.
- The MQTT client setup, credentials, TLS, the last-will message, the subscription call and the reconnect timer are left out, as is the cJSON library. A parsed payload is an input, and building and sending a message is the `transportOk` input.
- The SUBSCRIBED, PUBLISHED and ERROR events only log, and appear as events that change nothing.
- The benefit-cost strategy, the CO2 fallback cache and multi-fan aggregation are absent from the source and left out. So is the body of `sensor_manager_reinit`, whose outcome is the `reinitOk` input.
- Logging is left out everywhere.
- Floating point is modelled as `real`. The source only compares values with constants, so rounding is not modelled.
- Lifecycle.HandlePreheating: does not model `uint32_t` tick wrap-around, because time is unbounded seconds. Nor does it model the case where the timer is started on tick 0 and so reads as unset; starting timers are an `Option`. The same holds for Lifecycle.HandleStabilizing and Lifecycle.HandleError.
- Tasks.NetworkTaskStep: does not model the `uint32_t` subtraction `now - last_mqtt_publish` wrapping, because time is unbounded seconds. The report is a record, not the serialised message. The task passes one fan state where the publish call expects `FAN_COUNT` of them, and that mismatch is not modelled.
- Tasks.DecisionTaskStep: takes `cacheValid` as an input because the task calls `decision_detect_mode` with only two arguments. Nothing feeds the weather cache's staleness into it. The remote command the task reads is passed where the decision expects a weather record, and the decision ignores that argument, so the read has no effect and is not modelled. Writing `FAN_COUNT` slots through `&remote_cmd`, a single variable, is not modelled.
- Tasks.SensorTaskStep: the snapshot's `pollutants.co2` is modelled as `co2`. The alert text and a full display queue dropping it are not modelled.
- SensorManager.ReadAll: the `int` failure counter is unbounded here, so its overflow after some 2^31 consecutive failures is not modelled.
- FanControl.Clamp: has no counterpart to the `raw_pwm > 255` branch, which no `uint8_t` value can take.
- MqttWrapper.SystemModeToString: the `default` branch returning "UNKNOWN" is unreachable over the three modelled modes. The REMOTE mode it names is not part of `main.h`'s mode enumeration, so it is modelled with its own vocabulary.
- MqttWrapper.ParseRemoteCommand: a parsed payload is a map with exact, unique member names. `cJSON_GetObjectItem` matches names case-insensitively and returns the first of duplicate members, so payloads keyed "FAN_0" or holding two "fan_0" members are not modelled. Neither is a string value with an embedded NUL, which `strcmp` cuts short. MqttWrapper.MergeWithoutFanKeys is stated over exact names only.
- MqttWrapper.OnEvent: models the handler's own state only. The topic and payload lengths, the payload parse and the logging are left out; the parse result is the event's payload.
- MqttWrapper.PublishStatus: states the argument and connection guards and the result code. The message contents are `MqttWrapper.StatusPayload`. JSON allocation and serialisation failures are folded into `transportOk`.
- WeatherApi.Fetch: the fetched values are an input. The source writes fixed placeholder values and performs no request.

## Findings

| source | as written | input that shows it | evidently intended | confidence | as-written member | corrected member |
|---|---|---|---|---|---|---|
| main/network/mqtt_wrapper.c:162 | The DATA handler compares the topic with the filter text "home/ventilation/command/#", wildcard included, over the topic's length, so it passes only prefixes of that text | A message on "home/ventilation/command/fan_0", which the "/#" subscription delivers, is silently dropped (MqttWrapper.SubtreeCommand, MqttWrapper.CommandTopicIsFilterPrefix) | Accept every topic the subscribed filter matches: the command topic itself and every topic below it | medium, not executed | MqttWrapper.OnEvent | MqttWrapper.OnEventCorrected |
| main/main.c:464-467 | After a failed system init, `app_main` loops calling only `handle_error_state`, whatever the state. Once the sensor recovers and the state becomes INIT, the ERROR handler still runs: the next pass re-arms its timer, commands the fan off and re-raises the sensor-fault alert | A failed boot, then healthy ticks at 0 s and 10 s with a successful reinit: the state is INIT with FAULT cleared, and the next tick issues FAN_OFF and the fault alert again (Lifecycle.FailedBootKeepsRaisingFaults) | Dispatch on the state as the main loop does, so a recovered supervisor stops raising faults; it then waits in INIT, because only the end of preheating sets SENSOR_READY | low, not executed | Lifecycle.RunFailedBoot | Lifecycle.CorrectedFailedBootGoesQuiet |
