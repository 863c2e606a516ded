/**
 * The application component: the state the two callbacks share, held in mutable
 * fields, and the callbacks and handlers that update it in place. Each method is
 * proved to take the state where the corresponding engine function says, and to
 * keep the engine invariant.
 */
module BotApp {
  import opened Wrappers
  import opened Assets
  import opened Sizing
  import opened RiskPanel
  import opened Trades
  import opened ActivityLog
  import opened Engine

  class App {
    var botState: BotState
    var trades: seq<Trade>
    var prices: PerSymbol<real>
    var riskSettings: PerSymbol<RiskSettings>
    var logs: seq<LogEntry>

    function State(): AppState
      reads this
    {
      AppState(botState, trades, prices, riskSettings, logs)
    }

    ghost predicate Valid()
      reads this
    {
      Consistent(State())
    }

    /** The component's initial state: idle, the starting balance, opening prices, default risk, no trades, empty log. */
    constructor ()
      ensures State() == InitialState()
      ensures Valid()
    {
      botState := BotState(false, INITIAL_BALANCE, INITIAL_BALANCE, None, "Bot is idle. Waiting to start.");
      trades := [];
      prices := PerSymbol(AssetOf(XAUUSD).initialPrice, AssetOf(BTCUSD).initialPrice, AssetOf(ETHUSD).initialPrice);
      riskSettings := PerSymbol(DefaultSettings(XAUUSD), DefaultSettings(BTCUSD), DefaultSettings(ETHUSD));
      logs := [];
      InitialConsistent();
    }

    /** Appends one entry to the bounded activity log. */
    method AddLog(e: LogEntry)
      modifies this
      ensures State() == old(State()).(logs := AppendLog(old(logs), e))
    {
      logs := AppendLog(logs, e);
    }

    /** The price-tick callback, with the fetched prices and the current time as parameters. */
    method PriceTick(fetched: PerSymbol<real>, now: int)
      requires Valid()
      modifies this
      ensures State() == Tick(old(State()), fetched, now)
      ensures Valid()
    {
      TickPreserves(State(), fetched, now);
      var currentTrades, floatingPL, closedTradesDueToSL := MarkToMarket(trades, fetched, now);
      SettleTick(fetched, currentTrades, floatingPL, closedTradesDueToSL, now);
    }

    /** Step 3 of the price tick: the new prices, then the ledger update and the stop-loss log when trades closed. */
    method SettleTick(fetched: PerSymbol<real>, currentTrades: seq<Trade>, floatingPL: real, closedTradesDueToSL: seq<Trade>, now: int)
      modifies this
      ensures State() == Settle(old(State()), fetched, currentTrades, floatingPL, closedTradesDueToSL, now)
    {
      ghost var s0 := State();
      prices := fetched;
      if |closedTradesDueToSL| > 0 {
        trades := currentTrades;
        var totalClosedPL := SumPnl(closedTradesDueToSL);
        botState := botState.(balance := botState.balance + totalClosedPL,
                              equity := botState.balance + totalClosedPL + floatingPL);
        ghost var settled := Settle(s0, fetched, currentTrades, floatingPL, closedTradesDueToSL, now);
        assert State() == settled.(logs := s0.logs);
        LogStopLossHits(closedTradesDueToSL, now);
      } else {
        botState := botState.(equity := botState.balance + floatingPL);
      }
    }

    /** One error entry per trade the tick stopped out, in order. */
    method LogStopLossHits(closed: seq<Trade>, now: int)
      modifies this
      ensures State() == old(State()).(logs := LogStopHits(old(logs), closed, now))
    {
      var j := 0;
      while j < |closed|
        invariant 0 <= j <= |closed|
        invariant State() == old(State()).(logs := LogStopHits(old(logs), closed[..j], now))
      {
        assert closed[..j + 1][..j] == closed[..j];
        AddLog(StopHitEntry(closed[j], now));
        j := j + 1;
      }
      assert closed[..j] == closed;
    }

    /** The body of the decision loop for `sym`, given the provider's answer (None if the call failed). */
    method DecideSymbol(sym: Symbol, result: Option<Analysis>, id: TradeId, now: int)
      requires Valid() && IdFresh(trades, id)
      modifies this
      ensures riskSettings.Get(sym).stopLossDistance > 0.0
      ensures State() == Decide(old(State()), sym, result, id, now)
      ensures Valid()
      ensures Evolves(old(trades), trades)
      ensures forall i :: |old(trades)| <= i < |trades| ==> trades[i].id == id
    {
      DecidePreserves(State(), sym, result, id, now);
      if result.None? {
        return;
      }
      var analysis := result.value;
      var active := FindActive(trades, sym);
      var price := prices.Get(sym);
      var risk := riskSettings.Get(sym);
      if active.Some? {
        var activeTrade := trades[active.value];
        if IsReversal(activeTrade.tradeType, analysis.decision) {
          CloseOnReversalStep(sym, activeTrade, price, now);
          return;
        }
      }
      if active.None? && analysis.decision != HOLD {
        if Abs(analysis.sentimentScore) > SENTIMENT_THRESHOLD {
          var lotSize := LotSize(botState.balance, risk, AssetOf(sym).contractSize);
          if lotSize <= 0.0 {
            AddLog(LogEntry(now, LotTooSmall(sym), Warning));
            return;
          }
          var newTrade := NewTrade(id, sym, analysis.decision, price, lotSize, risk, now);
          trades := trades + [newTrade];
          AddLog(LogEntry(now, Opened(sym, analysis.decision, lotSize, price), Success));
        }
      }
    }

    /** Closes `activeTrade` at `price` on a reversal signal and credits its profit. */
    method CloseOnReversalStep(sym: Symbol, activeTrade: Trade, price: real, now: int)
      modifies this
      ensures State() == CloseOnReversal(old(State()), sym, activeTrade, price, now)
    {
      var pnl := Profit(activeTrade, price);
      var closedTrade := CloseAt(activeTrade, price, now, pnl);
      trades := ReplaceById(trades, closedTrade);
      botState := botState.(balance := botState.balance + pnl);
      AddLog(LogEntry(now, ReversalClosed(sym, activeTrade.tradeType, pnl), if pnl >= 0.0 then Success else Warning));
    }

    /**
     * The decision callback: when running, a scan notice, the decision step for each
     * symbol in the fixed order, and the completion time. The provider's answers and
     * the new trade ids are parameters.
     */
    method ExecuteBotLogic(analyses: PerSymbol<Option<Analysis>>, ids: PerSymbol<TradeId>, now: int)
      requires Valid() && FreshIds(trades, ids)
      modifies this
      ensures forall x :: old(riskSettings).Get(x).stopLossDistance > 0.0
      ensures State() == BotLogic(old(State()), analyses, ids, now)
      ensures Valid()
    {
      BotLogicPreserves(State(), analyses, ids, now);
      if !botState.isRunning {
        return;
      }
      AddLog(LogEntry(now, ScanStarted, Info));
      ScanSymbols(analyses, ids, now);
      botState := botState.(lastRunTime := Some(now));
    }

    /** The loop over the symbols, in the fixed order. */
    method ScanSymbols(analyses: PerSymbol<Option<Analysis>>, ids: PerSymbol<TradeId>, now: int)
      requires Valid() && FreshIds(trades, ids)
      modifies this
      ensures forall x :: old(riskSettings).Get(x).stopLossDistance > 0.0
      ensures State() == RunSymbols(old(State()), Symbols, analyses, ids, now)
      ensures Valid()
    {
      ghost var scanned := State();
      BotLogicPreserves(scanned, analyses, ids, now);
      for i := 0 to |Symbols|
        invariant Valid()
        invariant riskSettings == scanned.risk
        invariant State() == RunSymbols(scanned, Symbols[..i], analyses, ids, now)
        invariant forall x :: x !in Symbols[..i] ==> IdFresh(trades, ids.Get(x))
      {
        var sym := Symbols[i];
        ghost var before := trades;
        SymbolsComplete(sym);
        assert Symbols[..i + 1] == Symbols[..i] + [sym];
        DecideSymbol(sym, analyses.Get(sym), ids.Get(sym), now);
        FreshAfterStep(before, trades, ids, Symbols[..i], sym);
      }
      assert Symbols[..|Symbols|] == Symbols;
    }

    /** The start/stop button; whether an API key is configured is a parameter. */
    method ToggleBot(hasApiKey: bool, now: int)
      requires Valid()
      modifies this
      ensures State() == Toggle(old(State()), hasApiKey, now)
      ensures Valid()
    {
      TogglePreserves(State(), hasApiKey, now);
      if !hasApiKey {
        return;
      }
      var wasRunning := botState.isRunning;
      botState := botState.(isRunning := !wasRunning,
                            statusMessage := if !wasRunning then "Bot running..." else "Bot stopped.");
      AddLog(LogEntry(now, if !wasRunning then SystemStarted else SystemStopped, Info));
    }

    /** Stores new settings for the symbol whose panel is showing. */
    method HandleRiskUpdate(activeSymbol: Symbol, newSettings: RiskSettings)
      requires Valid()
      modifies this
      ensures State() == UpdateRisk(old(State()), activeSymbol, newSettings)
      ensures InRange(activeSymbol, newSettings) ==> Valid()
    {
      riskSettings := riskSettings.Set(activeSymbol, newSettings);
    }
  }
}
