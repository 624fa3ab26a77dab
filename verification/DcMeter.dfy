/** The meter of a simulated DC session, in exact integer arithmetic. */
module DcMeter {
  import opened Wrappers
  import opened ChargePointTypes

  const SAMPLE_SECONDS: nat := 10
  const STOP_SECONDS: nat := 5

  /** `Math.round(n / d)`: the nearest integer, halves towards plus infinity. */
  function RoundDiv(n: int, d: nat): int
    requires d > 0
  {
    (2 * n + d) / (2 * d)
  }

  function Min(a: int, b: int): int { if a < b then a else b }

  function Max(a: int, b: int): int { if a < b then b else a }

  function TargetPower(soc: nat): int {
    if soc < 30 then 45000 + (soc - 20) * 4500
    else if soc < 80 then 90000
    else Max(18000, 90000 - (soc - 80) * 4800)
  }

  function EnergyStep(powerW: int, elapsedSeconds: nat): nat {
    Max(1, RoundDiv(powerW * elapsedSeconds, 3600))
  }

  function AdvanceDcMeter(tx: Transaction, elapsedSeconds: nat): Transaction {
    var soc := Min(95, tx.soc + 1);
    var powerW := TargetPower(soc);
    var voltage := 3900 + 12 * soc;
    tx.(soc := soc,
        powerW := powerW,
        voltage := voltage,
        current := RoundDiv(100 * powerW, voltage),
        meterCurrent := tx.meterCurrent + EnergyStep(powerW, elapsedSeconds))
  }
}
