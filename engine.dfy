/**
 * The decision-and-risk engine as a state machine over the application state: the
 * mark-to-market tick, the per-symbol decision step and the decision cycle, the
 * start/stop toggle and the risk-settings update, each as a function from the state
 * before to the state after, with the invariants those steps keep.
 */
module Engine {
  import opened Wrappers
  import opened Assets
  import opened Sizing
  import opened RiskPanel
  import opened Trades
  import opened ActivityLog

  /** The sentiment magnitude a signal must exceed before a position is opened. */
  const SENTIMENT_THRESHOLD: real := 0.4

  /** The mark-to-market callback runs every two price-tick intervals. */
  const TICK_PERIOD_MS: nat := PRICE_TICK_INTERVAL_MS * 2

  lemma Cadences()
    ensures TICK_PERIOD_MS == 2000 && TICK_PERIOD_MS < CRON_INTERVAL_MS
  {
  }

  /** What the signal provider returns for a symbol: a decision and a sentiment score. */
  datatype Analysis = Analysis(decision: TradeType, sentimentScore: real)

  /** The account ledger and the engine's running state. */
  datatype BotState = BotState(
    isRunning: bool,
    balance: real,
    equity: real,
    lastRunTime: Option<int>,
    statusMessage: string)

  /** Everything both callbacks read and write. */
  datatype AppState = AppState(
    bot: BotState,
    trades: seq<Trade>,
    prices: PerSymbol<real>,
    risk: PerSymbol<RiskSettings>,
    logs: seq<LogEntry>)

  function InitialState(): AppState {
    AppState(
      BotState(false, INITIAL_BALANCE, INITIAL_BALANCE, None, "Bot is idle. Waiting to start."),
      [],
      PerSymbol(AssetOf(XAUUSD).initialPrice, AssetOf(BTCUSD).initialPrice, AssetOf(ETHUSD).initialPrice),
      PerSymbol(DefaultSettings(XAUUSD), DefaultSettings(BTCUSD), DefaultSettings(ETHUSD)),
      [])
  }

  predicate SettingsInRange(risk: PerSymbol<RiskSettings>) {
    forall sym :: InRange(sym, risk.Get(sym))
  }

  /**
   * The invariant of the engine: well-formed trade records with distinct ids, at most
   * one OPEN trade per symbol, a balance that is the starting balance plus exactly the
   * realised profit of the CLOSED trades, a log of at most fifty entries, and risk
   * settings within their sliders.
   */
  predicate Consistent(s: AppState) {
    && AllWellFormed(s.trades)
    && UniqueIds(s.trades)
    && AtMostOneOpen(s.trades)
    && s.bot.balance == INITIAL_BALANCE + RealisedPnl(s.trades)
    && |s.logs| <= MAX_LOGS
    && SettingsInRange(s.risk)
  }

  lemma InitialConsistent()
    ensures Consistent(InitialState())
  {
  }

  // ---------------------------------------------------------------------------
  // Mark-to-market tick
  // ---------------------------------------------------------------------------

  function StopHitEntry(t: Trade, now: int): LogEntry {
    LogEntry(now, StopLossHit(t.symbol, t.tradeType, t.closePrice.GetOr(0.0), PnlOf(t)), Error)
  }

  /** One error entry per stop-loss closure, in the order of the closed records. */
  function LogStopHits(logs: seq<LogEntry>, closed: seq<Trade>, now: int): (r: seq<LogEntry>)
    ensures |logs| <= MAX_LOGS ==> |r| <= MAX_LOGS
  {
    if closed == [] then logs
    else AppendLog(LogStopHits(logs, closed[..|closed| - 1], now), StopHitEntry(closed[|closed| - 1], now))
  }

  /**
   * The settlement at the end of a tick, given the marked trades, the floating profit
   * and the trades stopped out: if any were, the marked trades replace the list, the
   * balance takes their profit and the equity is set from the old balance, the closed
   * profit and the floating profit, and each closure is logged; otherwise only the
   * equity is recomputed.
   */
  function Settle(s: AppState, fetched: PerSymbol<real>, marked: seq<Trade>, floatingPL: real, closed: seq<Trade>, now: int): AppState
  {
    if |closed| > 0 then
      var totalClosedPL := SumPnl(closed);
      s.(prices := fetched,
         trades := marked,
         bot := s.bot.(balance := s.bot.balance + totalClosedPL, equity := s.bot.balance + totalClosedPL + floatingPL),
         logs := LogStopHits(s.logs, closed, now))
    else
      s.(prices := fetched, bot := s.bot.(equity := s.bot.balance + floatingPL))
  }

  /**
   * One run of the price-tick callback with freshly fetched prices: the floating profit
   * is summed over the OPEN trades before any is stopped out, the breached trades
   * close, and the result is settled.
   */
  function Tick(s: AppState, fetched: PerSymbol<real>, now: int): (r: AppState)
    ensures r.prices == fetched && r.risk == s.risk
    ensures r.bot == s.bot.(balance := r.bot.balance, equity := r.bot.equity)
  {
    Settle(s, fetched, MarkAll(s.trades, fetched, now), FloatingPL(s.trades, fetched), StopClosed(s.trades, fetched, now), now)
  }

  /**
   * The trades after a tick: the same trades in the same places, where exactly the OPEN
   * ones whose stop the new price breaches have closed, at that price, with that profit.
   */
  lemma TickTrades(s: AppState, fetched: PerSymbol<real>, now: int)
    ensures Tick(s, fetched, now).trades == MarkAll(s.trades, fetched, now)
    ensures |Tick(s, fetched, now).trades| == |s.trades| && Evolves(s.trades, Tick(s, fetched, now).trades)
    ensures forall i :: 0 <= i < |s.trades| ==>
              (s.trades[i].status == OPEN && Tick(s, fetched, now).trades[i].status == CLOSED
               <==> s.trades[i].status == OPEN && StopHit(s.trades[i], fetched.Get(s.trades[i].symbol)))
  {
    NoStopUnchanged(s.trades, fetched, now);
    MarkAllEvolves(s.trades, fetched, now);
  }

  /** A tick moves the balance by exactly the profit realised by the trades it closed. */
  lemma TickBalance(s: AppState, fetched: PerSymbol<real>, now: int)
    ensures Tick(s, fetched, now).bot.balance == s.bot.balance + SumPnl(StopClosed(s.trades, fetched, now))
    ensures Tick(s, fetched, now).bot.balance - s.bot.balance
            == RealisedPnl(Tick(s, fetched, now).trades) - RealisedPnl(s.trades)
  {
    NoStopUnchanged(s.trades, fetched, now);
    MarkAllRealised(s.trades, fetched, now);
  }

  /**
   * The equity a tick publishes. With no closure it is the balance plus the floating
   * profit of the OPEN trades. On a tick that closes trades it is that plus, once more,
   * the profit of the trades just closed, which the balance already holds.
   */
  lemma TickEquity(s: AppState, fetched: PerSymbol<real>, now: int)
    ensures var r := Tick(s, fetched, now);
            r.bot.equity == r.bot.balance + FloatingPL(r.trades, fetched) + SumPnl(StopClosed(s.trades, fetched, now))
    ensures StopClosed(s.trades, fetched, now) == [] ==>
            Tick(s, fetched, now).bot.equity == Tick(s, fetched, now).bot.balance + FloatingPL(Tick(s, fetched, now).trades, fetched)
  {
    NoStopUnchanged(s.trades, fetched, now);
    MarkAllFloating(s.trades, fetched, now);
  }

  lemma TickPreserves(s: AppState, fetched: PerSymbol<real>, now: int)
    requires Consistent(s)
    ensures Consistent(Tick(s, fetched, now))
  {
    TickTrades(s, fetched, now);
    TickBalance(s, fetched, now);
    ClosingPreserves(s.trades, Tick(s, fetched, now).trades);
  }

  // ---------------------------------------------------------------------------
  // Decision step
  // ---------------------------------------------------------------------------

  /** A signal against the held position: SELL on a long, BUY on a short. */
  predicate IsReversal(held: TradeType, decision: TradeType) {
    (held == BUY && decision == SELL) || (held == SELL && decision == BUY)
  }

  /**
   * Closing `active` on a reversal signal: every trade carrying its id is replaced by
   * the closed record and its profit is credited to the balance. The status of the
   * record in the list is not looked at again.
   */
  function CloseOnReversal(s: AppState, sym: Symbol, active: Trade, price: real, now: int): AppState {
    var pnl := Profit(active, price);
    var closedTrade := CloseAt(active, price, now, pnl);
    s.(trades := ReplaceById(s.trades, closedTrade),
       bot := s.bot.(balance := s.bot.balance + pnl),
       logs := AppendLog(s.logs, LogEntry(now, ReversalClosed(sym, active.tradeType, pnl), if pnl >= 0.0 then Success else Warning)))
  }

  function NewTrade(id: TradeId, sym: Symbol, decision: TradeType, price: real, lotSize: real, risk: RiskSettings, now: int): Trade {
    Trade(id, sym, decision, price, lotSize, StopLossPrice(decision, price, risk.stopLossDistance),
          risk.riskPercentage, now, OPEN, None, None, None)
  }

  /** The open guard short of sizing: no OPEN trade for the symbol, a BUY or SELL, a strong enough sentiment. */
  predicate OpenSignal(s: AppState, sym: Symbol, analysis: Analysis) {
    FindActive(s.trades, sym).None? && analysis.decision != HOLD && Abs(analysis.sentimentScore) > SENTIMENT_THRESHOLD
  }

  /**
   * The body of the decision loop for one symbol, given the provider's answer (None
   * when the call failed). It closes the symbol's OPEN trade on a reversal, or opens a
   * risk-sized position on a strong enough signal, or does nothing.
   */
  function Decide(s: AppState, sym: Symbol, result: Option<Analysis>, id: TradeId, now: int): (r: AppState)
    requires s.risk.Get(sym).stopLossDistance > 0.0
    ensures r.prices == s.prices && r.risk == s.risk
    ensures r.bot == s.bot.(balance := r.bot.balance)
  {
    match result
    case None => s
    case Some(analysis) =>
      var active := FindActive(s.trades, sym);
      var price := s.prices.Get(sym);
      var risk := s.risk.Get(sym);
      if active.Some? && IsReversal(s.trades[active.value].tradeType, analysis.decision) then
        CloseOnReversal(s, sym, s.trades[active.value], price, now)
      else if active.None? && analysis.decision != HOLD && Abs(analysis.sentimentScore) > SENTIMENT_THRESHOLD then
        var lotSize := LotSize(s.bot.balance, risk, AssetOf(sym).contractSize);
        if lotSize <= 0.0 then
          s.(logs := AppendLog(s.logs, LogEntry(now, LotTooSmall(sym), Warning)))
        else
          s.(trades := s.trades + [NewTrade(id, sym, analysis.decision, price, lotSize, risk, now)],
             logs := AppendLog(s.logs, LogEntry(now, Opened(sym, analysis.decision, lotSize, price), Success)))
      else
        s
  }

  /**
   * A decision step appends a trade exactly when the provider answered, the open guard
   * holds and the sized lot is positive; the new trade is an OPEN position of that
   * symbol and direction at the current price, its stop the configured distance on the
   * losing side, its lot the rounded risk-sized lot, its risk the current setting.
   * Otherwise no trade is appended.
   */
  lemma DecideOpens(s: AppState, sym: Symbol, result: Option<Analysis>, id: TradeId, now: int)
    requires s.risk.Get(sym).stopLossDistance > 0.0
    ensures var r := Decide(s, sym, result, id, now);
            var risk := s.risk.Get(sym);
            && |s.trades| <= |r.trades| <= |s.trades| + 1
            && (|r.trades| == |s.trades| + 1 <==>
                 result.Some? && OpenSignal(s, sym, result.value) && LotSize(s.bot.balance, risk, AssetOf(sym).contractSize) > 0.0)
            && (|r.trades| == |s.trades| + 1 ==>
                 var t := r.trades[|s.trades|];
                 && r.trades[..|s.trades|] == s.trades
                 && r.bot.balance == s.bot.balance
                 && t.id == id && t.symbol == sym && t.tradeType == result.value.decision
                 && t.entryPrice == s.prices.Get(sym)
                 && (t.tradeType == BUY ==> t.stopLoss == t.entryPrice - risk.stopLossDistance)
                 && (t.tradeType == SELL ==> t.stopLoss == t.entryPrice + risk.stopLossDistance)
                 && t.status == OPEN && t.lotSize > 0.0
                 && t.lotSize == LotSize(s.bot.balance, risk, AssetOf(sym).contractSize)
                 && t.riskPercentage == risk.riskPercentage)
  {
    var r := Decide(s, sym, result, id, now);
    if |r.trades| == |s.trades| + 1 {
      assert (s.trades + [r.trades[|s.trades|]])[..|s.trades|] == s.trades;
    }
  }

  /**
   * A trade opened by a decision step loses exactly `distance * contractSize * lot` when
   * its stop is reached (and, by `StopLossFloor`, at least that at any price that
   * triggers the stop), and that loss differs from the configured risk amount by no
   * more than the two-decimal rounding of the lot allows.
   */
  lemma OpenedRiskAtStop(s: AppState, sym: Symbol, result: Option<Analysis>, id: TradeId, now: int)
    requires s.risk.Get(sym).stopLossDistance > 0.0
    requires |Decide(s, sym, result, id, now).trades| == |s.trades| + 1
    ensures var t := Decide(s, sym, result, id, now).trades[|s.trades|];
            var risk := s.risk.Get(sym);
            var loss := risk.stopLossDistance * AssetOf(sym).contractSize * t.lotSize;
            && Profit(t, t.stopLoss) == -loss
            && Abs(loss - RiskAmount(s.bot.balance, risk.riskPercentage)) <= risk.stopLossDistance * AssetOf(sym).contractSize / 200.0
  {
    DecideOpens(s, sym, result, id, now);
    var t := Decide(s, sym, result, id, now).trades[|s.trades|];
    var risk := s.risk.Get(sym);
    assert t.symbol == sym && t.tradeType != HOLD;
    assert t.stopLoss == StopLossPrice(t.tradeType, t.entryPrice, risk.stopLossDistance);
    SizedTradeRisk(t, s.bot.balance, risk);
  }

  /** The loss at the stop of a position sized by `LotSize`, against the risk amount. */
  lemma SizedTradeRisk(t: Trade, balance: real, risk: RiskSettings)
    requires t.tradeType != HOLD && risk.stopLossDistance > 0.0
    requires t.stopLoss == StopLossPrice(t.tradeType, t.entryPrice, risk.stopLossDistance)
    requires t.lotSize == LotSize(balance, risk, AssetOf(t.symbol).contractSize) && t.lotSize > 0.0
    ensures var loss := risk.stopLossDistance * AssetOf(t.symbol).contractSize * t.lotSize;
            && Profit(t, t.stopLoss) == -loss
            && Abs(loss - RiskAmount(balance, risk.riskPercentage)) <= risk.stopLossDistance * AssetOf(t.symbol).contractSize / 200.0
  {
    var cs := AssetOf(t.symbol).contractSize;
    LossAtStop(t, risk.stopLossDistance);
    LotSizeRiskBound(balance, risk, cs);
  }

  /**
   * On a reversal, only the symbol's OPEN trade changes: it becomes CLOSED at the
   * current price with its profit, the balance rises by that profit, no trade is
   * appended and the symbol is left with no OPEN trade.
   */
  lemma DecideReversal(s: AppState, sym: Symbol, analysis: Analysis, id: TradeId, now: int)
    requires s.risk.Get(sym).stopLossDistance > 0.0
    requires UniqueIds(s.trades) && AtMostOneOpen(s.trades)
    requires FindActive(s.trades, sym).Some?
    requires IsReversal(s.trades[FindActive(s.trades, sym).value].tradeType, analysis.decision)
    ensures var k := FindActive(s.trades, sym).value;
            var price := s.prices.Get(sym);
            var r := Decide(s, sym, Some(analysis), id, now);
            && r.trades == s.trades[k := CloseAt(s.trades[k], price, now, Profit(s.trades[k], price))]
            && r.bot.balance == s.bot.balance + Profit(s.trades[k], price)
            && FindActive(r.trades, sym).None?
  {
    var k := FindActive(s.trades, sym).value;
    var price := s.prices.Get(sym);
    var c := CloseAt(s.trades[k], price, now, Profit(s.trades[k], price));
    ReplaceByIdAt(s.trades, k, c);
    var r := Decide(s, sym, Some(analysis), id, now);
    forall j | 0 <= j < |r.trades| ensures !IsActive(r.trades[j], sym) {
      if j != k { assert r.trades[j] == s.trades[j]; }
    }
  }

  /**
   * No answer, or an answer that is neither a reversal of the symbol's OPEN trade nor
   * an open signal (a same-direction or HOLD decision on an OPEN trade, a HOLD with no
   * OPEN trade, a sentiment of magnitude 0.4 or less), leaves the state exactly as it was.
   */
  lemma DecideNoSignal(s: AppState, sym: Symbol, result: Option<Analysis>, id: TradeId, now: int)
    requires s.risk.Get(sym).stopLossDistance > 0.0
    requires result.None? ||
             (&& !(FindActive(s.trades, sym).Some? && IsReversal(s.trades[FindActive(s.trades, sym).value].tradeType, result.value.decision))
              && !OpenSignal(s, sym, result.value))
    ensures Decide(s, sym, result, id, now) == s
  {
  }

  /** An open signal whose rounded lot is not positive only logs a warning. */
  lemma DecideLotTooSmall(s: AppState, sym: Symbol, analysis: Analysis, id: TradeId, now: int)
    requires s.risk.Get(sym).stopLossDistance > 0.0
    requires OpenSignal(s, sym, analysis)
    requires LotSize(s.bot.balance, s.risk.Get(sym), AssetOf(sym).contractSize) <= 0.0
    ensures Decide(s, sym, Some(analysis), id, now) == s.(logs := AppendLog(s.logs, LogEntry(now, LotTooSmall(sym), Warning)))
  {
  }

  /**
   * Short of a reversal, a decision step leaves every existing trade and the balance
   * as they were: it can only append.
   */
  lemma DecideClosesOnlyOnReversal(s: AppState, sym: Symbol, result: Option<Analysis>, id: TradeId, now: int)
    requires s.risk.Get(sym).stopLossDistance > 0.0
    requires result.None? ||
             !(FindActive(s.trades, sym).Some? && IsReversal(s.trades[FindActive(s.trades, sym).value].tradeType, result.value.decision))
    ensures var r := Decide(s, sym, result, id, now);
            && |s.trades| <= |r.trades|
            && r.trades[..|s.trades|] == s.trades
            && r.bot == s.bot
  {
    DecideOpens(s, sym, result, id, now);
  }

  /** Appended trades carry the given id; earlier ones keep theirs. */
  lemma EvolvesKeepsFresh(a: seq<Trade>, b: seq<Trade>, x: TradeId, id: TradeId)
    requires Evolves(a, b) && IdFresh(a, x) && x != id
    requires forall i :: |a| <= i < |b| ==> b[i].id == id
    ensures IdFresh(b, x)
  {
    forall i | 0 <= i < |b| ensures b[i].id != x {
      if i < |a| { assert Closes(a[i], b[i]); }
    }
  }

  /** The reversal branch of a decision step keeps the engine invariant. */
  lemma ReversalPreserves(s: AppState, sym: Symbol, analysis: Analysis, id: TradeId, now: int)
    requires Consistent(s) && s.risk.Get(sym).stopLossDistance > 0.0
    requires FindActive(s.trades, sym).Some?
    requires IsReversal(s.trades[FindActive(s.trades, sym).value].tradeType, analysis.decision)
    ensures var r := Decide(s, sym, Some(analysis), id, now);
            Consistent(r) && Evolves(s.trades, r.trades) && |r.trades| == |s.trades|
  {
    var r := Decide(s, sym, Some(analysis), id, now);
    var k := FindActive(s.trades, sym).value;
    var price := s.prices.Get(sym);
    var c := CloseAt(s.trades[k], price, now, Profit(s.trades[k], price));
    DecideReversal(s, sym, analysis, id, now);
    assert Closes(s.trades[k], c);
    assert Evolves(s.trades, r.trades);
    ClosingPreserves(s.trades, r.trades);
    RealisedUpdate(s.trades, k, c);
  }

  /** The opening branch of a decision step keeps the engine invariant. */
  lemma OpeningPreserves(s: AppState, sym: Symbol, analysis: Analysis, id: TradeId, now: int)
    requires Consistent(s) && IdFresh(s.trades, id) && s.risk.Get(sym).stopLossDistance > 0.0
    requires !(FindActive(s.trades, sym).Some? && IsReversal(s.trades[FindActive(s.trades, sym).value].tradeType, analysis.decision))
    ensures var r := Decide(s, sym, Some(analysis), id, now);
            && Consistent(r)
            && Evolves(s.trades, r.trades)
            && forall i :: |s.trades| <= i < |r.trades| ==> r.trades[i].id == id
  {
    var r := Decide(s, sym, Some(analysis), id, now);
    DecideOpens(s, sym, Some(analysis), id, now);
    if |r.trades| == |s.trades| + 1 {
      var t := r.trades[|s.trades|];
      assert r.trades == s.trades + [t];
      RealisedAppend(s.trades, t);
      assert FindActive(s.trades, sym).None?;
    }
  }

  /** After the step for `sym`, the ids of the symbols not yet run are still fresh. */
  lemma FreshAfterStep(before: seq<Trade>, after: seq<Trade>, ids: PerSymbol<TradeId>, done: seq<Symbol>, sym: Symbol)
    requires Evolves(before, after)
    requires forall a, b :: a != b ==> ids.Get(a) != ids.Get(b)
    requires forall x :: x !in done ==> IdFresh(before, ids.Get(x))
    requires forall i :: |before| <= i < |after| ==> after[i].id == ids.Get(sym)
    ensures forall x :: x !in done + [sym] ==> IdFresh(after, ids.Get(x))
  {
    forall x | x !in done + [sym] ensures IdFresh(after, ids.Get(x)) {
      assert x !in done && x != sym;
      EvolvesKeepsFresh(before, after, ids.Get(x), ids.Get(sym));
    }
  }

  /** A decision step keeps the engine invariant and only closes or appends trades. */
  lemma DecidePreserves(s: AppState, sym: Symbol, result: Option<Analysis>, id: TradeId, now: int)
    requires Consistent(s) && IdFresh(s.trades, id)
    ensures s.risk.Get(sym).stopLossDistance > 0.0
    ensures var r := Decide(s, sym, result, id, now);
            && Consistent(r)
            && Evolves(s.trades, r.trades)
            && forall i :: |s.trades| <= i < |r.trades| ==> r.trades[i].id == id
  {
    assert InRange(sym, s.risk.Get(sym));
    if result.Some? {
      var active := FindActive(s.trades, sym);
      if active.Some? && IsReversal(s.trades[active.value].tradeType, result.value.decision) {
        ReversalPreserves(s, sym, result.value, id, now);
      } else {
        OpeningPreserves(s, sym, result.value, id, now);
      }
    }
  }

  // ---------------------------------------------------------------------------
  // Decision cycle
  // ---------------------------------------------------------------------------

  /** The decision steps for `syms`, in order. */
  function RunSymbols(s: AppState, syms: seq<Symbol>, analyses: PerSymbol<Option<Analysis>>, ids: PerSymbol<TradeId>, now: int): (r: AppState)
    requires forall x :: s.risk.Get(x).stopLossDistance > 0.0
    ensures r.prices == s.prices && r.risk == s.risk
    ensures r.bot == s.bot.(balance := r.bot.balance)
    decreases |syms|
  {
    if syms == [] then s
    else
      var sym := syms[|syms| - 1];
      Decide(RunSymbols(s, syms[..|syms| - 1], analyses, ids, now), sym, analyses.Get(sym), ids.Get(sym), now)
  }

  /**
   * One run of the decision callback: nothing when the engine is stopped; otherwise a
   * scan notice, the decision step for each symbol in turn, and the completion time.
   */
  function BotLogic(s: AppState, analyses: PerSymbol<Option<Analysis>>, ids: PerSymbol<TradeId>, now: int): AppState
    requires forall x :: s.risk.Get(x).stopLossDistance > 0.0
  {
    if !s.bot.isRunning then s
    else
      var scanned := s.(logs := AppendLog(s.logs, LogEntry(now, ScanStarted, Info)));
      var r := RunSymbols(scanned, Symbols, analyses, ids, now);
      r.(bot := r.bot.(lastRunTime := Some(now)))
  }

  /** Fresh ids for a cycle: one per symbol, pairwise distinct, none already in the list. */
  predicate FreshIds(ts: seq<Trade>, ids: PerSymbol<TradeId>) {
    && (forall a, b :: a != b ==> ids.Get(a) != ids.Get(b))
    && (forall x :: IdFresh(ts, ids.Get(x)))
  }

  lemma {:induction false} RunSymbolsPreserves(s: AppState, syms: seq<Symbol>, analyses: PerSymbol<Option<Analysis>>, ids: PerSymbol<TradeId>, now: int)
    requires Consistent(s) && FreshIds(s.trades, ids)
    requires forall i, j :: 0 <= i < j < |syms| ==> syms[i] != syms[j]
    requires forall x :: s.risk.Get(x).stopLossDistance > 0.0
    ensures var r := RunSymbols(s, syms, analyses, ids, now);
            && Consistent(r)
            && Evolves(s.trades, r.trades)
            && forall x :: x !in syms ==> IdFresh(r.trades, ids.Get(x))
    decreases |syms|
  {
    if syms != [] {
      var init, sym := syms[..|syms| - 1], syms[|syms| - 1];
      RunSymbolsPreserves(s, init, analyses, ids, now);
      var p := RunSymbols(s, init, analyses, ids, now);
      assert sym !in init;
      DecidePreserves(p, sym, analyses.Get(sym), ids.Get(sym), now);
      var r := Decide(p, sym, analyses.Get(sym), ids.Get(sym), now);
      EvolvesTransitive(s.trades, p.trades, r.trades);
      forall x | x !in syms ensures IdFresh(r.trades, ids.Get(x)) {
        assert x !in init && x != sym;
        EvolvesKeepsFresh(p.trades, r.trades, ids.Get(x), ids.Get(sym));
      }
    }
  }

  /**
   * A decision cycle keeps the engine invariant, only closes or appends trades (so a
   * trade goes from OPEN to CLOSED only, once), moves the balance by exactly the profit
   * realised in it, and stamps its completion time when the engine is running.
   */
  lemma BotLogicPreserves(s: AppState, analyses: PerSymbol<Option<Analysis>>, ids: PerSymbol<TradeId>, now: int)
    requires Consistent(s) && FreshIds(s.trades, ids)
    ensures forall x :: s.risk.Get(x).stopLossDistance > 0.0
    ensures var r := BotLogic(s, analyses, ids, now);
            && Consistent(r)
            && Evolves(s.trades, r.trades)
            && r.bot.balance - s.bot.balance == RealisedPnl(r.trades) - RealisedPnl(s.trades)
            && r.bot.lastRunTime == (if s.bot.isRunning then Some(now) else s.bot.lastRunTime)
  {
    forall x ensures s.risk.Get(x).stopLossDistance > 0.0 {
      assert InRange(x, s.risk.Get(x));
    }
    if s.bot.isRunning {
      var scanned := s.(logs := AppendLog(s.logs, LogEntry(now, ScanStarted, Info)));
      assert Consistent(scanned);
      RunSymbolsPreserves(scanned, Symbols, analyses, ids, now);
    }
  }

  /** While the engine is stopped the decision callback changes nothing. */
  lemma BotLogicIdle(s: AppState, analyses: PerSymbol<Option<Analysis>>, ids: PerSymbol<TradeId>, now: int)
    requires forall x :: s.risk.Get(x).stopLossDistance > 0.0
    requires !s.bot.isRunning
    ensures BotLogic(s, analyses, ids, now) == s
  {
  }

  /**
   * A trade stopped out by a tick is not closed again by a reversal signal in the step
   * that follows: the symbol has no OPEN trade left, so the balance is not credited twice.
   */
  lemma StopThenReversalCreditsOnce(s: AppState, fetched: PerSymbol<real>, now: int, k: nat,
                                    analysis: Analysis, id: TradeId, later: int)
    requires Consistent(s)
    requires k < |s.trades| && s.trades[k].status == OPEN
    requires StopHit(s.trades[k], fetched.Get(s.trades[k].symbol))
    requires IsReversal(s.trades[k].tradeType, analysis.decision)
    ensures s.risk.Get(s.trades[k].symbol).stopLossDistance > 0.0
    ensures var t := Tick(s, fetched, now);
            var r := Decide(t, s.trades[k].symbol, Some(analysis), id, later);
            && t.trades[k].status == CLOSED
            && r.bot.balance == t.bot.balance
            && r.trades[k] == t.trades[k]
  {
    var sym := s.trades[k].symbol;
    assert InRange(sym, s.risk.Get(sym));
    var t := Tick(s, fetched, now);
    TickTrades(s, fetched, now);
    assert t.trades[k].status == CLOSED;
    forall j | 0 <= j < |t.trades| ensures !IsActive(t.trades[j], sym) {
      assert Closes(s.trades[j], t.trades[j]);
      if j != k && s.trades[j].status == OPEN {
        if j < k { assert s.trades[j].symbol != s.trades[k].symbol; }
        else { assert s.trades[k].symbol != s.trades[j].symbol; }
      }
    }
    assert FindActive(t.trades, sym).None?;
  }

  // ---------------------------------------------------------------------------
  // Commands
  // ---------------------------------------------------------------------------

  /**
   * The start/stop button: without an API key nothing happens; otherwise the running
   * flag flips, the status message follows, and the transition is logged. Trades and
   * the ledger are left alone.
   */
  function Toggle(s: AppState, hasApiKey: bool, now: int): (r: AppState)
    ensures r.trades == s.trades && r.prices == s.prices && r.risk == s.risk
    ensures r.bot.balance == s.bot.balance && r.bot.equity == s.bot.equity && r.bot.lastRunTime == s.bot.lastRunTime
    ensures r.bot.isRunning == (if hasApiKey then !s.bot.isRunning else s.bot.isRunning)
    ensures !hasApiKey ==> r == s
  {
    if !hasApiKey then s
    else
      s.(bot := s.bot.(isRunning := !s.bot.isRunning,
                       statusMessage := if !s.bot.isRunning then "Bot running..." else "Bot stopped."),
         logs := AppendLog(s.logs, LogEntry(now, if !s.bot.isRunning then SystemStarted else SystemStopped, Info)))
  }

  /**
   * Replacing the active symbol's risk settings: every other symbol's settings, the
   * trades (open ones are never resized), the ledger and the log stay as they were.
   */
  function UpdateRisk(s: AppState, sym: Symbol, settings: RiskSettings): (r: AppState)
    ensures r.risk.Get(sym) == settings
    ensures forall o :: o != sym ==> r.risk.Get(o) == s.risk.Get(o)
    ensures r.trades == s.trades && r.bot == s.bot && r.logs == s.logs && r.prices == s.prices
  {
    s.(risk := s.risk.Set(sym, settings))
  }

  lemma TogglePreserves(s: AppState, hasApiKey: bool, now: int)
    requires Consistent(s)
    ensures Consistent(Toggle(s, hasApiKey, now))
  {
  }

  /** A slider movement on `sym`'s panel keeps the engine invariant. */
  lemma SliderChangePreserves(s: AppState, sym: Symbol, k: RiskKey, v: real)
    requires Consistent(s) && InSlider(sym, k, v)
    ensures Consistent(UpdateRisk(s, sym, HandleChange(s.risk.Get(sym), k, v)))
  {
    var r := UpdateRisk(s, sym, HandleChange(s.risk.Get(sym), k, v));
    HandleChangeInRange(sym, s.risk.Get(sym), k, v);
    forall o ensures InRange(o, r.risk.Get(o)) {
      if o != sym { assert InRange(o, s.risk.Get(o)); }
    }
  }

  // ---------------------------------------------------------------------------
  // The mark-to-market loop
  // ---------------------------------------------------------------------------

  /**
   * The loop of the price-tick callback over the trade list: accumulates the floating
   * profit of the OPEN trades, closes those whose stop is breached and collects the
   * closed records.
   */
  method MarkToMarket(trades: seq<Trade>, fetched: PerSymbol<real>, now: int)
    returns (marked: seq<Trade>, floatingPL: real, closedTradesDueToSL: seq<Trade>)
    ensures marked == MarkAll(trades, fetched, now)
    ensures floatingPL == FloatingPL(trades, fetched)
    ensures closedTradesDueToSL == StopClosed(trades, fetched, now)
  {
    marked, floatingPL, closedTradesDueToSL := [], 0.0, [];
    var i := 0;
    while i < |trades|
      invariant 0 <= i <= |trades|
      invariant marked == MarkAll(trades[..i], fetched, now)
      invariant floatingPL == FloatingPL(trades[..i], fetched)
      invariant closedTradesDueToSL == StopClosed(trades[..i], fetched, now)
    {
      var trade := trades[i];
      var next := trade;
      if trade.status == OPEN {
        var currentPrice := fetched.Get(trade.symbol);
        var profit := Profit(trade, currentPrice);
        floatingPL := floatingPL + profit;
        var slHit := false;
        if trade.tradeType == BUY && currentPrice <= trade.stopLoss { slHit := true; }
        if trade.tradeType == SELL && currentPrice >= trade.stopLoss { slHit := true; }
        if slHit {
          next := CloseAt(trade, currentPrice, now, profit);
          closedTradesDueToSL := closedTradesDueToSL + [next];
        }
      }
      assert trades[..i + 1][..i] == trades[..i];
      MarkAllPrefix(trades[..i + 1], fetched, now);
      marked := marked + [next];
      i := i + 1;
    }
    assert trades[..|trades|] == trades;
  }

  // ---------------------------------------------------------------------------
  // Scenarios
  // ---------------------------------------------------------------------------

  /** The long XAUUSD position the default settings open at the opening price. */
  function DefaultXauLong(): Trade {
    NewTrade("t1", XAUUSD, BUY, 2750.0, 1.0, DefaultSettings(XAUUSD), 0)
  }

  /**
   * A strong BUY signal on XAUUSD at the opening state opens one lot at 2750 with its
   * stop at 2745, and leaves the balance alone.
   */
  lemma OpenAtDefaults()
    ensures var s := InitialState().(bot := InitialState().bot.(isRunning := true));
            Decide(s, XAUUSD, Some(Analysis(BUY, 0.8)), "t1", 0).trades == [DefaultXauLong()]
  {
    var s := InitialState().(bot := InitialState().bot.(isRunning := true));
    DefaultXauPreview();
    assert FindActive(s.trades, XAUUSD).None?;
  }

  /**
   * That position, with the price falling to 2744: the tick closes it at 2744 with a
   * profit of -600, the balance drops to 49400, and the equity published on that tick
   * is 48800.
   */
  lemma StopLossScenario()
    ensures var s := InitialState().(trades := [DefaultXauLong()]);
            var fetched := PerSymbol(2744.0, 97000.0, 3350.0);
            var r := Tick(s, fetched, 2000);
            && r.trades == [CloseAt(DefaultXauLong(), 2744.0, 2000, -600.0)]
            && r.bot.balance == 49400.0
            && r.bot.equity == 48800.0
  {
    var s := InitialState().(trades := [DefaultXauLong()]);
    var fetched := PerSymbol(2744.0, 97000.0, 3350.0);
    var t := DefaultXauLong();
    assert Profit(t, 2744.0) == -600.0;
    assert [t][..0] == [];
    assert StopClosed(s.trades, fetched, 2000) == [CloseAt(t, 2744.0, 2000, -600.0)];
    assert FloatingPL(s.trades, fetched) == -600.0;
  }
}
