/** The fan actuator (main/actuators/fan_control.c): the duty table, the raw
    duty clamp, and the recorded {state, pwm} pair that replaces the module's
    two statics. */
module FanControl {
  import opened Types

  /** The C `uint8_t` duty. */
  type U8 = x: int | 0 <= x < 256

  /** The lowest duty at which the fan runs. */
  const MIN_RUNNING_DUTY: U8 := 150

  /** The duty values the actuator may hold: fully off, or a running duty. */
  predicate InBand(d: int) {
    d == 0 || MIN_RUNNING_DUTY <= d <= 255
  }

  /** `fan_clamp_pwm`: zero stays zero, a nonzero duty below the running
      minimum is raised to it. The source's `> 255` test can never hold for a
      `uint8_t`, so it has no counterpart here. */
  function Clamp(raw: U8): (r: U8)
    ensures InBand(r)
    ensures r >= raw
    ensures raw == 0 <==> r == 0
  {
    if raw == 0 then 0
    else if raw < MIN_RUNNING_DUTY then MIN_RUNNING_DUTY
    else raw
  }

  /** The clamp picks the nearest admissible duty at or above its input. */
  lemma ClampIsLeastInBandAbove(raw: U8, d: int)
    requires InBand(d) && d >= raw
    ensures Clamp(raw) <= d
  {
  }

  /** The clamp moves exactly the values outside the band. */
  lemma ClampFixedPointIffInBand(raw: U8)
    ensures Clamp(raw) == raw <==> InBand(raw)
  {
  }

  /** Clamping twice is clamping once. */
  lemma ClampIdempotent(raw: U8)
    ensures Clamp(Clamp(raw)) == Clamp(raw)
  {
    ClampFixedPointIffInBand(Clamp(raw));
  }

  /** The concrete points of the clamp. */
  lemma ClampPoints()
    ensures Clamp(0) == 0 && Clamp(1) == 150 && Clamp(149) == 150
    ensures Clamp(150) == 150 && Clamp(255) == 255
  {
  }

  /** `fan_control_get_pwm_duty`: night mode runs each level quieter. */
  function Duty(state: FanState, isNight: bool): (d: U8)
    ensures state == Off <==> d == 0
  {
    match state
    case Off => 0
    case Low => if isNight then 150 else 180
    case High => if isNight then 200 else 255
  }

  /** The duty table as the header comment of
      main/actuators/fan_control.h documents it. */
  lemma DutyTable()
    ensures Duty(Off, false) == 0 && Duty(Off, true) == 0
    ensures Duty(Low, true) == 150 && Duty(Low, false) == 180
    ensures Duty(High, true) == 200 && Duty(High, false) == 255
  {
  }

  /** Every table value is already admissible, so clamping it changes nothing. */
  lemma DutyIsClampFixedPoint(state: FanState, isNight: bool)
    ensures InBand(Duty(state, isNight))
    ensures Clamp(Duty(state, isNight)) == Duty(state, isNight)
  {
    ClampFixedPointIffInBand(Duty(state, isNight));
  }

  /** A higher level never gets a lower duty, and night never runs louder
      than day. */
  lemma DutyMonotone(a: FanState, b: FanState, isNight: bool)
    requires a.Level() <= b.Level()
    ensures Duty(a, isNight) <= Duty(b, isNight)
    ensures Duty(a, true) <= Duty(a, false)
  {
  }

  /** The actuator's recorded state. */
  datatype Fan = Fan(state: FanState, pwm: U8)

  /** The result of a command: the new record and the returned code. */
  datatype FanResult = FanResult(fan: Fan, err: EspErr)

  /** The records the actuator can be in: its duty is always admissible. */
  predicate Admissible(f: Fan) {
    InBand(f.pwm)
  }

  /** `fan_control_init`: fan off, duty zero. */
  function InitFan(): (r: FanResult)
    ensures r.err == EspOk
    ensures r.fan.state == Off && r.fan.pwm == 0
  {
    FanResult(Fan(Off, 0), EspOk)
  }

  /** `fan_control_set_state`: records the intent and its table duty; the
      previous record is forgotten. */
  function SetState(f: Fan, state: FanState, isNight: bool): (r: FanResult)
    ensures r.err == EspOk
    ensures r.fan.state == state
    ensures r.fan.pwm == Duty(state, isNight)
  {
    FanResult(Fan(state, Duty(state, isNight)), EspOk)
  }

  /** `fan_control_set_pwm`: records the clamped duty and keeps the intent. */
  function SetPwm(f: Fan, duty: U8): (r: FanResult)
    ensures r.err == EspOk
    ensures r.fan.state == f.state
    ensures r.fan.pwm == Clamp(duty)
  {
    FanResult(f.(pwm := Clamp(duty)), EspOk)
  }

  /** `fan_control_get_state`. */
  function GetState(f: Fan): FanState {
    f.state
  }

  /** `fan_control_get_pwm`. */
  function GetPwm(f: Fan): U8 {
    f.pwm
  }

  /** Every command keeps the recorded duty admissible, so the hardware is
      never driven at a stalling duty. */
  lemma AdmissibleInvariant(f: Fan, state: FanState, isNight: bool, duty: U8)
    ensures Admissible(InitFan().fan)
    ensures Admissible(SetState(f, state, isNight).fan)
    ensures Admissible(SetPwm(f, duty).fan)
  {
    DutyIsClampFixedPoint(state, isNight);
  }

  /** The getters return what the last command recorded. */
  lemma GettersReturnLastCommand(f: Fan, state: FanState, isNight: bool, duty: U8)
    ensures GetState(InitFan().fan) == Off && GetPwm(InitFan().fan) == 0
    ensures GetState(SetState(f, state, isNight).fan) == state
    ensures GetPwm(SetState(f, state, isNight).fan) == Duty(state, isNight)
    ensures GetState(SetPwm(f, duty).fan) == GetState(f)
    ensures GetPwm(SetPwm(f, duty).fan) == Clamp(duty)
  {
  }
}
