/** What one step of the meter makes of a row, said without the code's own steps. */
module MeterReading {
  import opened ChargePointTypes
  import opened DcMeter

  /** Power by state of charge: a ramp of 4500 W a percent up to 90 kW at 30, flat to 80, then down by
      4800 W a percent to 18 kW. */
  predicate PowerAt(soc: nat, powerW: int) {
    && (soc < 30 ==> powerW + 4500 * (30 - soc) == 90000)
    && (30 <= soc <= 80 ==> powerW == 90000)
    && (80 < soc <= 95 ==> powerW + 4800 * (soc - 80) == 90000)
    && (soc > 95 ==> powerW == 18000)
  }

  /** `n / d` rounded to the nearest integer, halves up. */
  predicate Rounds(q: int, n: int, d: nat) {
    -(d as int) < 2 * (q * d - n) <= d
  }

  /** The reading after `seconds` more: one percent up to 95, power by the curve, voltage and current (in
      tenths) that give it, and the energy drawn, at least 1 Wh. */
  predicate Reads(was: Transaction, now: Transaction, seconds: nat) {
    && now.soc == (if was.soc < 95 then was.soc + 1 else 95)
    && PowerAt(now.soc, now.powerW)
    && now.voltage == 3900 + 12 * now.soc
    && Rounds(now.current, 100 * now.powerW, now.voltage)
    && now.meterCurrent > was.meterCurrent
    && (now.meterCurrent > was.meterCurrent + 1 ==> Rounds(now.meterCurrent - was.meterCurrent, now.powerW * seconds, 3600))
    && (2 * now.powerW * seconds >= 3600 ==> Rounds(now.meterCurrent - was.meterCurrent, now.powerW * seconds, 3600))
  }

  /** Nothing but the reading differs. */
  predicate OnlyReads(was: Transaction, now: Transaction) {
    now == was.(soc := now.soc, powerW := now.powerW, voltage := now.voltage, current := now.current, meterCurrent := now.meterCurrent)
  }

  lemma RoundsNearest(n: int, d: nat)
    requires d > 0
    ensures Rounds(RoundDiv(n, d), n, d)
  {
    var q := RoundDiv(n, d);
    var r := (2 * n + d) % (2 * d);
    assert 2 * n + d == (2 * d) * q + r;
    assert (2 * d) * q == 2 * (q * d);
  }

  lemma PowerEffect(soc: nat)
    ensures PowerAt(soc, TargetPower(soc))
  {
  }

  lemma EnergyEffect(powerW: int, seconds: nat)
    ensures EnergyStep(powerW, seconds) >= 1
    ensures EnergyStep(powerW, seconds) > 1 || 2 * powerW * seconds >= 3600 ==>
              Rounds(EnergyStep(powerW, seconds), powerW * seconds, 3600)
  {
    RoundsNearest(powerW * seconds, 3600);
    assert 2 * powerW * seconds == 2 * (powerW * seconds);
  }

  lemma MeterEffect(tx: Transaction, seconds: nat)
    ensures Reads(tx, AdvanceDcMeter(tx, seconds), seconds) && OnlyReads(tx, AdvanceDcMeter(tx, seconds))
  {
    var t := AdvanceDcMeter(tx, seconds);
    PowerEffect(t.soc);
    EnergyEffect(t.powerW, seconds);
    RoundsNearest(100 * t.powerW, t.voltage);
  }

  /** One step is determined by what is said of it. */
  lemma ReadsOnce(was: Transaction, a: Transaction, b: Transaction, seconds: nat)
    requires Reads(was, a, seconds) && OnlyReads(was, a) && Reads(was, b, seconds) && OnlyReads(was, b)
    ensures a.soc == b.soc && a.powerW == b.powerW && a.voltage == b.voltage && a.current == b.current
  {
    RoundsOnce(a.current, b.current, 100 * a.powerW, a.voltage);
  }

  lemma RoundsOnce(p: int, q: int, n: int, d: nat)
    requires d > 0 && Rounds(p, n, d) && Rounds(q, n, d)
    ensures p == q
  {
    MultipleGrows(p - q, d);
    assert (p - q) * d == p * d - q * d;
  }

  lemma MultipleGrows(k: int, d: nat)
    requires d > 0
    ensures k >= 1 ==> k * d >= d
    ensures k <= -1 ==> k * d <= -(d as int)
  {
    assert k >= 1 ==> (k - 1) * d >= 0;
    assert k <= -1 ==> (k + 1) * d <= 0;
  }
}
