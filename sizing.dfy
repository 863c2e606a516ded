/**
 * The risk-based sizing rule: how much of the balance one trade may lose, how many
 * lots that buys at the configured stop distance, and the two-decimal rounding the
 * engine applies to the lot.
 */
module Sizing {

  /** Per-symbol user risk configuration. */
  datatype RiskSettings = RiskSettings(riskPercentage: real, stopLossDistance: real)

  function Abs(x: real): real { if x < 0.0 then -x else x }

  /** The number of hundredths nearest to a non-negative magnitude, ties rounding up. */
  function Hundredths(m: real): (n: int)
    requires m >= 0.0
    ensures n >= 0
    ensures m * 100.0 - 0.5 < n as real <= m * 100.0 + 0.5
  {
    (m * 100.0 + 0.5).Floor
  }

  /**
   * `Number(x.toFixed(2))`: the nearest multiple of 0.01, ties going to the value of
   * larger magnitude (toFixed rounds the magnitude and keeps the sign).
   */
  function Round2(x: real): (r: real)
    ensures (r * 100.0).Floor as real == r * 100.0
    ensures Abs(r - x) <= 1.0 / 200.0
    ensures x >= 0.0 ==> r >= 0.0
    ensures x <= 0.0 ==> r <= 0.0
  {
    var n := if x >= 0.0 then Hundredths(x) else -Hundredths(-x);
    assert (n as real).Floor == n;
    n as real / 100.0
  }

  /** No multiple of 0.01 is closer to `x` than its rounding. */
  lemma Round2Nearest(x: real, n: int)
    ensures Abs(Round2(x) - x) <= Abs(n as real / 100.0 - x)
  {
    var r := Round2(x);
    var f := (r * 100.0).Floor;
    assert f as real == r * 100.0;
    if n < f {
      assert n as real <= f as real - 1.0;
    } else if n > f {
      assert n as real >= f as real + 1.0;
    }
  }

  /** A rounded lot is positive exactly when the unrounded one reaches half a hundredth. */
  lemma Round2Positive(x: real)
    ensures Round2(x) > 0.0 <==> x >= 1.0 / 200.0
  {
    if x >= 1.0 / 200.0 {
      assert x * 100.0 + 0.5 >= 1.0;
    } else if x >= 0.0 {
      assert (x * 100.0 + 0.5).Floor == 0;
    }
  }

  /** The amount of the balance one trade may lose: `riskPercentage` percent of it. */
  function RiskAmount(balance: real, riskPercentage: real): (amount: real)
    ensures amount * 100.0 == balance * riskPercentage
    ensures balance >= 0.0 && riskPercentage >= 0.0 ==> amount >= 0.0
  {
    balance * riskPercentage / 100.0
  }

  /** The unrounded lot whose loss at the stop, `lot * distance * contractSize`, is the risk amount. */
  function RawLotSize(riskAmount: real, stopLossDistance: real, contractSize: real): (lot: real)
    requires stopLossDistance > 0.0 && contractSize > 0.0
    ensures lot * (stopLossDistance * contractSize) == riskAmount
  {
    riskAmount / (stopLossDistance * contractSize)
  }

  /** The lot size the engine opens with: the unrounded lot rounded to two decimals. */
  function LotSize(balance: real, rs: RiskSettings, contractSize: real): (lot: real)
    requires rs.stopLossDistance > 0.0 && contractSize > 0.0
    ensures lot > 0.0 <==> RawLotSize(RiskAmount(balance, rs.riskPercentage), rs.stopLossDistance, contractSize) >= 1.0 / 200.0
    ensures Abs(lot - RawLotSize(RiskAmount(balance, rs.riskPercentage), rs.stopLossDistance, contractSize)) <= 1.0 / 200.0
  {
    var raw := RawLotSize(RiskAmount(balance, rs.riskPercentage), rs.stopLossDistance, contractSize);
    Round2Positive(raw);
    Round2(raw)
  }

  /**
   * Rounding moves the loss at the stop away from the risk amount by at most half a
   * hundredth of a lot's loss at the stop.
   */
  lemma LotSizeRiskBound(balance: real, rs: RiskSettings, contractSize: real)
    requires rs.stopLossDistance > 0.0 && contractSize > 0.0
    ensures Abs(LotSize(balance, rs, contractSize) * (rs.stopLossDistance * contractSize) - RiskAmount(balance, rs.riskPercentage))
            <= rs.stopLossDistance * contractSize / 200.0
  {
    var k := rs.stopLossDistance * contractSize;
    ScaledErrorBound(LotSize(balance, rs, contractSize),
                     RawLotSize(RiskAmount(balance, rs.riskPercentage), rs.stopLossDistance, contractSize),
                     k, RiskAmount(balance, rs.riskPercentage));
  }

  /** If `raw * k` is exact and `lot` is within half a hundredth of `raw`, `lot * k` is within `k / 200`. */
  lemma ScaledErrorBound(lot: real, raw: real, k: real, amount: real)
    requires raw * k == amount && Abs(lot - raw) <= 1.0 / 200.0 && k >= 0.0
    ensures Abs(lot * k - amount) <= k / 200.0
  {
    var d := lot - raw;
    assert lot * k - amount == d * k;
    AbsMulBound(d, 1.0 / 200.0, k);
    assert (1.0 / 200.0) * k == k / 200.0;
  }

  /** Scaling both sides of `|d| <= e` by a non-negative factor. */
  lemma AbsMulBound(d: real, e: real, k: real)
    requires Abs(d) <= e && k >= 0.0
    ensures Abs(d * k) <= e * k
  {
    if d >= 0.0 {
      MulMonotone(0.0, d, k);
      MulMonotone(d, e, k);
    } else {
      MulMonotone(0.0, -d, k);
      MulMonotone(-d, e, k);
      assert (-d) * k == -(d * k);
    }
  }

  lemma MulMonotone(a: real, b: real, k: real)
    requires a <= b && k >= 0.0
    ensures a * k <= b * k
  {
    assert b * k - a * k == (b - a) * k;
  }
}
