/** The arithmetic of a whole session: any number of 10 s samples, then the 5 s stop sample. */
module MeterArithmetic {
  import opened Wrappers
  import opened ChargePointTypes
  import opened DcMeter
  import opened ChargePointModel

  /** The row after `n` periodic samples. */
  function AfterSamples(tx: Transaction, n: nat): Transaction {
    if n == 0 then tx else AdvanceDcMeter(AfterSamples(tx, n - 1), SAMPLE_SECONDS)
  }

  /** Energy drawn, in units of 1/3600 Wh, if nothing were rounded. */
  function ExactEnergy(tx: Transaction, n: nat): int {
    if n == 0 then 0
    else ExactEnergy(tx, n - 1) + AfterSamples(tx, n).powerW * SAMPLE_SECONDS
  }

  predicate Fresh(tx: Transaction) {
    tx.soc == 20 && tx.meterCurrent == tx.meterStart
  }

  // ----- One sample -----

  lemma PowerRange(soc: nat)
    requires 21 <= soc <= 95
    ensures 18000 <= TargetPower(soc) <= 90000
  {
  }

  /** Rounding is off by at most one half. */
  lemma RoundingError(n: int, d: nat)
    requires d > 0
    ensures -(d as int) <= 2 * (RoundDiv(n, d) * d - n) <= d
  {
    var q := RoundDiv(n, d);
    var r := (2 * n + d) % (2 * d);
    assert 2 * n + d == (2 * d) * q + r;
    assert (2 * d) * q == 2 * (q * d);
  }

  lemma SampleEnergy(powerW: int)
    requires 18000 <= powerW <= 90000
    ensures 50 <= EnergyStep(powerW, SAMPLE_SECONDS) <= 250
    ensures EnergyStep(18000, SAMPLE_SECONDS) == 50
    ensures -3600 <= 2 * (EnergyStep(powerW, SAMPLE_SECONDS) * 3600 - powerW * 10) <= 3600
  {
    RoundingError(powerW * SAMPLE_SECONDS, 3600);
  }

  lemma StopEnergy(powerW: int)
    requires 18000 <= powerW <= 90000
    ensures 25 <= EnergyStep(powerW, STOP_SECONDS) <= 125
    ensures -3600 <= 2 * (EnergyStep(powerW, STOP_SECONDS) * 3600 - powerW * 5) <= 3600
  {
    RoundingError(powerW * STOP_SECONDS, 3600);
  }

  /** Reported voltage times reported current is within 25.2 W of the reported power.
      Both are in tenths, so their product is in hundredths of a watt. */
  lemma VoltageTimesCurrent(tx: Transaction, seconds: nat)
    requires 20 <= tx.soc <= 95
    ensures var t := AdvanceDcMeter(tx, seconds);
            -2520 <= t.voltage * t.current - 100 * t.powerW <= 2520
  {
    var t := AdvanceDcMeter(tx, seconds);
    RoundingError(100 * t.powerW, t.voltage);
    assert t.voltage <= 5040;
    assert t.voltage * t.current == t.current * t.voltage;
  }

  // ----- Any number of samples -----

  lemma {:induction false} SamplesInRange(tx: Transaction, n: nat)
    requires Fresh(tx)
    ensures AfterSamples(tx, n).soc == Min(95, 20 + n)
    ensures n > 0 ==> 18000 <= AfterSamples(tx, n).powerW <= 90000
    ensures tx.meterStart + 50 * n <= AfterSamples(tx, n).meterCurrent <= tx.meterStart + 250 * n
    ensures -3600 * (n as int) <= 2 * ((AfterSamples(tx, n).meterCurrent - tx.meterStart) * 3600 - ExactEnergy(tx, n)) <= 3600 * n
    ensures AfterSamples(tx, n).meterStart == tx.meterStart
  {
    if n > 0 {
      SamplesInRange(tx, n - 1);
      var t := AfterSamples(tx, n);
      PowerRange(t.soc);
      SampleEnergy(t.powerW);
    }
  }

  /** State of charge never falls; power, energy and drift stay within their bounds. */
  lemma WholeSession(tx: Transaction, n: nat, reason: StopReason)
    requires Fresh(tx)
    ensures var s := StoppedRow(AfterSamples(tx, n), reason);
            && 20 <= AfterSamples(tx, n).soc <= s.soc <= 95
            && 18000 <= s.powerW <= 90000
            && s.meterStop.Some?
            && 50 * n + 25 <= s.meterStop.value - tx.meterStart <= 250 * n + 125
            && -3600 * (n + 1) <= 2 * ((s.meterStop.value - tx.meterStart) * 3600
                                     - (ExactEnergy(tx, n) + s.powerW * STOP_SECONDS)) <= 3600 * (n + 1)
  {
    SamplesInRange(tx, n);
    var s := StoppedRow(AfterSamples(tx, n), reason);
    PowerRange(s.soc);
    StopEnergy(s.powerW);
  }

  /** From the 75th sample on the battery is full and each sample adds exactly 50 Wh. */
  lemma FullBattery(tx: Transaction, n: nat)
    requires Fresh(tx) && n >= 75
    ensures AfterSamples(tx, n).soc == 95 && AfterSamples(tx, n).powerW == 18000
    ensures AfterSamples(tx, n).meterCurrent == AfterSamples(tx, n - 1).meterCurrent + 50
  {
    SamplesInRange(tx, n);
    SamplesInRange(tx, n - 1);
    SampleEnergy(18000);
  }

  /** The 74th sample is the last to add more: the bound is exact. */
  lemma NotYetFull(tx: Transaction)
    requires Fresh(tx)
    ensures AfterSamples(tx, 74).meterCurrent > AfterSamples(tx, 73).meterCurrent + 50
  {
    SamplesInRange(tx, 74);
    SamplesInRange(tx, 73);
  }
}
