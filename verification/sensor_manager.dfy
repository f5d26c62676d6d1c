/** The sensor manager (main/sensors/sensor_manager.c): plausibility of one
    reading, the consecutive-failure counter that replaces the module's
    static, and the health verdict derived from it. The two sensor drivers
    are collaborators: their init results and their readings are inputs. */
module SensorManager {
  import opened Types

  /** The manager's only state: consecutive implausible reads. */
  datatype Manager = Manager(failureCount: nat)

  /** The values the CO2 and SHT35 drivers hand back for one read. */
  datatype Reading = Reading(co2: real, temperature: real, humidity: real)

  /** Whether each of the three values lies in its inclusive range. */
  predicate Plausible(r: Reading) {
    && CO2_MIN_VALID <= r.co2 <= CO2_MAX_VALID
    && TEMP_MIN_VALID <= r.temperature <= TEMP_MAX_VALID
    && HUMI_MIN_VALID <= r.humidity <= HUMI_MAX_VALID
  }

  /** The outcome of `sensor_manager_init`; `shtAttempted` records whether
      the SHT35 driver was asked to initialise at all. */
  datatype InitOutcome = InitOutcome(mgr: Manager, err: EspErr, shtAttempted: bool)

  /** `sensor_manager_init`, given the results the two drivers would return.
      The SHT35 is only tried after the CO2 sensor came up, and only full
      success resets the counter. */
  function InitManager(mgr: Manager, co2InitOk: bool, shtInitOk: bool): (r: InitOutcome)
    ensures r.shtAttempted <==> co2InitOk
    ensures r.err == EspOk <==> co2InitOk && shtInitOk
    ensures r.err != EspOk ==> r.err == EspFail && r.mgr == mgr
    ensures r.err == EspOk ==> r.mgr.failureCount == 0
  {
    if !co2InitOk then InitOutcome(mgr, EspFail, false)
    else if !shtInitOk then InitOutcome(mgr, EspFail, true)
    else InitOutcome(Manager(0), EspOk, true)
  }

  /** The outcome of `sensor_manager_read_all`: the new manager, the code,
      and what was written through the output pointer (`None` when nothing
      was). */
  datatype ReadOutcome = ReadOutcome(mgr: Manager, err: EspErr, data: Option<SensorData>)

  /** `sensor_manager_read_all`. `hasOutput` is false for a null output
      pointer; `now` is the wall-clock second the snapshot is stamped with. */
  function ReadAll(mgr: Manager, hasOutput: bool, reading: Reading, now: int): (r: ReadOutcome)
    ensures !hasOutput ==> r.err == EspErrInvalidArg && r.mgr == mgr && r.data.None?
    ensures hasOutput ==> r.data.Some?
    ensures hasOutput ==> (&& r.data.value.co2 == reading.co2
                           && r.data.value.temperature == reading.temperature
                           && r.data.value.humidity == reading.humidity
                           && r.data.value.timestamp == now)
    ensures hasOutput ==> (r.data.value.valid <==>
                             && 300.0 <= reading.co2 <= 5000.0
                             && -10.0 <= reading.temperature <= 50.0
                             && 0.0 <= reading.humidity <= 100.0)
    ensures hasOutput && !r.data.value.valid ==> r.err == EspFail && r.mgr.failureCount == mgr.failureCount + 1
    ensures hasOutput && r.data.value.valid ==> r.err == EspOk && r.mgr.failureCount == 0
  {
    if !hasOutput then ReadOutcome(mgr, EspErrInvalidArg, None)
    else
      var valid := Plausible(reading);
      var data := SensorData(reading.co2, reading.temperature, reading.humidity, now, valid);
      if !valid then ReadOutcome(Manager(mgr.failureCount + 1), EspFail, Some(data))
      else ReadOutcome(Manager(0), EspOk, Some(data))
  }

  /** `sensor_manager_is_healthy`. */
  predicate IsHealthy(mgr: Manager) {
    mgr.failureCount < 3
  }

  /** The manager after reading `rs` in order into a valid output buffer. */
  function ReadMany(mgr: Manager, rs: seq<Reading>): Manager
    decreases |rs|
  {
    if |rs| == 0 then mgr
    else ReadAll(ReadMany(mgr, rs[..|rs| - 1]), true, rs[|rs| - 1], 0).mgr
  }

  /** The length of the run of implausible readings at the end of `rs`. */
  function TrailingFailures(rs: seq<Reading>): (n: nat)
    ensures n <= |rs|
    decreases |rs|
  {
    if |rs| == 0 || Plausible(rs[|rs| - 1]) then 0
    else TrailingFailures(rs[..|rs| - 1]) + 1
  }

  /** The counter after a sequence of reads is the length of the trailing
      run of failures, added to the starting count when every read failed. */
  lemma {:induction false} ReadManyCountsTrailingFailures(mgr: Manager, rs: seq<Reading>)
    ensures ReadMany(mgr, rs).failureCount
         == if TrailingFailures(rs) == |rs| then mgr.failureCount + |rs| else TrailingFailures(rs)
    decreases |rs|
  {
    if |rs| > 0 {
      ReadManyCountsTrailingFailures(mgr, rs[..|rs| - 1]);
    }
  }

  /** The health verdict after a sequence of reads. */
  lemma ReadManyHealth(mgr: Manager, rs: seq<Reading>)
    ensures IsHealthy(ReadMany(mgr, rs))
        <==> (if TrailingFailures(rs) == |rs| then mgr.failureCount + |rs| < 3 else TrailingFailures(rs) < 3)
  {
    ReadManyCountsTrailingFailures(mgr, rs);
  }

  /** Three implausible reads in a row make the manager unhealthy, whatever
      came before. */
  lemma ThreeFailuresMakeUnhealthy(mgr: Manager, rs: seq<Reading>)
    requires TrailingFailures(rs) >= 3
    ensures !IsHealthy(ReadMany(mgr, rs))
  {
    ReadManyCountsTrailingFailures(mgr, rs);
  }

  /** A single plausible read restores health, whatever came before. */
  lemma PlausibleReadRestoresHealth(mgr: Manager, rs: seq<Reading>, r: Reading)
    requires Plausible(r)
    ensures ReadMany(mgr, rs + [r]).failureCount == 0
    ensures IsHealthy(ReadMany(mgr, rs + [r]))
  {
    assert (rs + [r])[..|rs + [r]| - 1] == rs;
  }

  /** After a successful init the verdict depends only on the reads since:
      it is lost exactly when the last three or more were implausible, so
      at least three reads are needed to lose it. A failed init leaves the
      counter, and so the verdict, as it was. */
  lemma InitThenReadsHealth(mgr: Manager, co2InitOk: bool, shtInitOk: bool, rs: seq<Reading>)
    ensures var i := InitManager(mgr, co2InitOk, shtInitOk);
            i.err == EspOk ==> (IsHealthy(ReadMany(i.mgr, rs)) <==> TrailingFailures(rs) < 3)
    ensures var i := InitManager(mgr, co2InitOk, shtInitOk);
            i.err == EspOk && |rs| <= 2 ==> IsHealthy(ReadMany(i.mgr, rs))
    ensures var i := InitManager(mgr, co2InitOk, shtInitOk);
            i.err != EspOk ==> ReadMany(i.mgr, rs) == ReadMany(mgr, rs)
  {
    var i := InitManager(mgr, co2InitOk, shtInitOk);
    ReadManyCountsTrailingFailures(i.mgr, rs);
  }

  /** From a healthy state, fewer than three failures keep the verdict
      healthy: the threshold is exactly three. */
  lemma TwoFailuresStayHealthy(mgr: Manager, rs: seq<Reading>)
    requires mgr.failureCount == 0
    requires |rs| <= 2
    ensures IsHealthy(ReadMany(mgr, rs))
  {
    ReadManyCountsTrailingFailures(mgr, rs);
  }
}
