/**
 * The static configuration of the engine: the three tradable instruments, their
 * contract sizes, default stop distances and opening prices, the starting
 * balance and the two cadences (constants.ts).
 */
module Assets {

  /** The supported instruments. */
  datatype Symbol = XAUUSD | BTCUSD | ETHUSD

  /** The symbols in the order both interval callbacks visit them. */
  const Symbols: seq<Symbol> := [XAUUSD, BTCUSD, ETHUSD]

  /** A record keyed by symbol: exactly one value per supported instrument. */
  datatype PerSymbol<T> = PerSymbol(xau: T, btc: T, eth: T) {

    function Get(s: Symbol): T {
      match s
      case XAUUSD => xau
      case BTCUSD => btc
      case ETHUSD => eth
    }

    /** The record spread `{ ...this, [s]: v }`. */
    function Set(s: Symbol, v: T): (r: PerSymbol<T>)
      ensures r.Get(s) == v
      ensures forall o :: o != s ==> r.Get(o) == Get(o)
    {
      match s
      case XAUUSD => this.(xau := v)
      case BTCUSD => this.(btc := v)
      case ETHUSD => this.(eth := v)
    }
  }

  /** One row of the asset table. */
  datatype Asset = Asset(
    name: string,
    initialPrice: real,
    contractSize: real,     // units of the underlying per lot
    pipValue: real,
    defaultStopLoss: real)  // default stop distance, in price units

  const INITIAL_BALANCE: real := 50000.0
  const CRON_INTERVAL_MS: nat := 30000
  const PRICE_TICK_INTERVAL_MS: nat := 1000
  const SIMULATION_DISCLAIMER: string := "This is a PAPER TRADING simulation. No real money is involved."

  /** The asset table. Every entry is strictly positive where sizing divides or multiplies by it. */
  function AssetOf(s: Symbol): (a: Asset)
    ensures a.contractSize > 0.0 && a.defaultStopLoss > 0.0 && a.initialPrice > 0.0 && a.pipValue > 0.0
  {
    match s
    case XAUUSD => Asset("Gold vs US Dollar", 2750.00, 100.0, 10.0, 5.00)
    case BTCUSD => Asset("Bitcoin vs US Dollar", 97000.00, 1.0, 1.0, 500.00)
    case ETHUSD => Asset("Ethereum vs US Dollar", 3350.00, 10.0, 1.0, 25.00)
  }

  /** The per-instrument constants the sizing rule depends on. */
  lemma AssetTable()
    ensures AssetOf(XAUUSD).contractSize == 100.0 && AssetOf(XAUUSD).defaultStopLoss == 5.0
    ensures AssetOf(BTCUSD).contractSize == 1.0 && AssetOf(BTCUSD).defaultStopLoss == 500.0
    ensures AssetOf(ETHUSD).contractSize == 10.0 && AssetOf(ETHUSD).defaultStopLoss == 25.0
  {
  }

  /** The symbol list names every instrument exactly once. */
  lemma SymbolsComplete(s: Symbol)
    ensures s in Symbols
    ensures forall i, j :: 0 <= i < j < |Symbols| ==> Symbols[i] != Symbols[j]
  {
  }
}
