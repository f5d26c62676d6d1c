/** The local threshold rule (main/algorithm/local_mode.c): CO2 concentration
    alone chooses the fan intent. */
module LocalMode {
  import opened Types

  /** How many of the two decision thresholds `co2` strictly exceeds. This is
      an independent statement of the rule: each threshold crossed adds one
      fan level. */
  function ThresholdsExceeded(co2: real): (n: nat)
    ensures n <= 2
  {
    (if co2 > CO2_THRESHOLD_LOW then 1 else 0) + (if co2 > CO2_THRESHOLD_HIGH then 1 else 0)
  }

  /** `local_mode_decide`: both comparisons are strict, so exactly 1000 ppm is
      OFF and exactly 1200 ppm is LOW. */
  function Decide(co2: real): (r: FanState)
    ensures r == High <==> co2 > CO2_THRESHOLD_HIGH
    ensures r == Low <==> CO2_THRESHOLD_LOW < co2 <= CO2_THRESHOLD_HIGH
    ensures r == Off <==> co2 <= CO2_THRESHOLD_LOW
  {
    if co2 > CO2_THRESHOLD_HIGH then High
    else if co2 > CO2_THRESHOLD_LOW then Low
    else Off
  }

  /** The chosen level is the number of thresholds crossed. */
  lemma DecideCountsThresholds(co2: real)
    ensures Decide(co2).Level() == ThresholdsExceeded(co2)
  {
  }

  /** More CO2 never yields less ventilation. */
  lemma DecideMonotone(a: real, b: real)
    requires a <= b
    ensures Decide(a).Level() <= Decide(b).Level()
  {
    DecideCountsThresholds(a);
    DecideCountsThresholds(b);
  }

  /** The boundary cases of the rule. */
  lemma DecideBoundaries()
    ensures Decide(1000.0) == Off
    ensures Decide(1000.1) == Low
    ensures Decide(1200.0) == Low
    ensures Decide(1201.0) == High
  {
  }
}
