/**
 * The risk panel: the unrounded sizing preview shown to the user, the single-key
 * settings update behind both sliders, and the ranges those sliders allow.
 */
module RiskPanel {
  import opened Assets
  import opened Sizing

  /** The two keys of a risk setting a slider can change. */
  datatype RiskKey = RiskPercentage | StopLossDistance

  function Field(s: RiskSettings, k: RiskKey): real {
    match k
    case RiskPercentage => s.riskPercentage
    case StopLossDistance => s.stopLossDistance
  }

  /** `{ ...settings, [key]: value }`: the settings with one key replaced. */
  function HandleChange(s: RiskSettings, k: RiskKey, v: real): (r: RiskSettings)
    ensures Field(r, k) == v
    ensures forall o :: o != k ==> Field(r, o) == Field(s, o)
  {
    match k
    case RiskPercentage => s.(riskPercentage := v)
    case StopLossDistance => s.(stopLossDistance := v)
  }

  const RISK_MIN: real := 0.1
  const RISK_MAX: real := 5.0
  const STOP_MIN: real := 1.0

  /** The upper end of the stop slider: wider for Bitcoin than for the other two. */
  function StopMax(sym: Symbol): real {
    if sym == BTCUSD then 2000.0 else 50.0
  }

  /** The values the slider for key `k` of `sym`'s panel can produce. */
  predicate InSlider(sym: Symbol, k: RiskKey, v: real) {
    match k
    case RiskPercentage => RISK_MIN <= v <= RISK_MAX
    case StopLossDistance => STOP_MIN <= v <= StopMax(sym)
  }

  /** Settings both of whose keys lie within their sliders' ranges. */
  predicate InRange(sym: Symbol, s: RiskSettings) {
    InSlider(sym, RiskPercentage, s.riskPercentage) && InSlider(sym, StopLossDistance, s.stopLossDistance)
  }

  /** The default settings of every symbol (1% risk, the asset's default stop) lie within the sliders. */
  function DefaultSettings(sym: Symbol): (s: RiskSettings)
    ensures InRange(sym, s)
    ensures s.stopLossDistance == AssetOf(sym).defaultStopLoss
  {
    RiskSettings(1.0, AssetOf(sym).defaultStopLoss)
  }

  /** A slider change keeps settings that were in range in range. */
  lemma HandleChangeInRange(sym: Symbol, s: RiskSettings, k: RiskKey, v: real)
    requires InRange(sym, s) && InSlider(sym, k, v)
    ensures InRange(sym, HandleChange(s, k, v))
  {
  }

  /** The `Risk Amount` line of the panel. */
  function PreviewRiskAmount(balance: real, s: RiskSettings): real {
    RiskAmount(balance, s.riskPercentage)
  }

  /**
   * The `Position Size` line of the panel: the unrounded lot that loses exactly the
   * risk amount when the symbol's price moves by the stop distance.
   */
  function EstimatedLotSize(sym: Symbol, balance: real, s: RiskSettings): (lot: real)
    requires s.stopLossDistance > 0.0
    ensures lot * (s.stopLossDistance * AssetOf(sym).contractSize) == PreviewRiskAmount(balance, s)
    ensures balance >= 0.0 && s.riskPercentage >= 0.0 ==> lot >= 0.0
  {
    var cs := AssetOf(sym).contractSize;
    var lot := RawLotSize(PreviewRiskAmount(balance, s), s.stopLossDistance, cs);
    assert lot < 0.0 ==> lot * (s.stopLossDistance * cs) < 0.0 by {
      if lot < 0.0 { MulMonotone(lot, 0.0, s.stopLossDistance * cs); NegTimesPositive(lot, s.stopLossDistance * cs); }
    }
    lot
  }

  lemma NegTimesPositive(a: real, k: real)
    requires a < 0.0 && k > 0.0
    ensures a * k < 0.0
  {
    assert (-a) * k > 0.0;
  }

  /**
   * With the same balance and settings, rounding the preview to two decimals gives
   * the lot the engine opens with.
   */
  lemma PreviewMatchesEngine(sym: Symbol, balance: real, s: RiskSettings)
    requires s.stopLossDistance > 0.0
    ensures Round2(EstimatedLotSize(sym, balance, s)) == LotSize(balance, s, AssetOf(sym).contractSize)
  {
  }

  /** With the default settings and the opening balance, the XAUUSD panel shows $500 at risk and 1 lot. */
  lemma DefaultXauPreview()
    ensures PreviewRiskAmount(INITIAL_BALANCE, DefaultSettings(XAUUSD)) == 500.0
    ensures EstimatedLotSize(XAUUSD, INITIAL_BALANCE, DefaultSettings(XAUUSD)) == 1.0
    ensures LotSize(INITIAL_BALANCE, DefaultSettings(XAUUSD), AssetOf(XAUUSD).contractSize) == 1.0
  {
    var lot := EstimatedLotSize(XAUUSD, INITIAL_BALANCE, DefaultSettings(XAUUSD));
    assert lot * 500.0 == 500.0;
    assert Hundredths(1.0) == 100;
  }
}
