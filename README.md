# Paper-trading decision-and-risk engine, in Dafny

This project models the engine of a paper-trading dashboard for three instruments: gold (XAUUSD), Bitcoin (BTCUSD) and Ether (ETHUSD). The engine has four parts:

- **A position book.** This is the list of trade records plus an account ledger: balance, equity, the running flag and the last run time.
- **A mark-to-market tick.** It runs every two seconds. With fresh prices, it computes the direction-aware floating profit of every OPEN trade. It closes each trade whose stop-loss the price has breached and credits the closed profit to the balance. Then it recomputes the equity.
- **A decision cycle.** It runs every thirty seconds while the engine is started. For each symbol it takes a `{decision, sentimentScore}` analysis and does one of three things:
  - closes the symbol's OPEN trade on a reversal signal;
  - opens a position sized so that hitting the stop loses a set percentage of the balance;
  - does nothing.
- **The risk panel.** It previews the same sizing formula unrounded and updates one setting at a time.

Modules:

- `Wrappers`: `Option`.
- `Assets`: the symbols, the per-symbol record type `PerSymbol`, the asset table and the timing constants.
- `Sizing`: the risk amount, the lot size and the two-decimal rounding.
- `RiskPanel`: the preview, the single-key update and the slider ranges.
- `Trades`: the trade record and the pure computations over the trade list. These are profit, stop-loss test, mark-to-market, lookup and replace-by-id.
- `ActivityLog`: the fifty-entry log buffer.
- `Engine`: the application state and the tick, decision step, decision cycle, toggle and risk update, as functions from state to state. It also holds the invariant they keep, lemmas about them, and the imperative mark-to-market loop.
- `BotApp`: the component itself, as a class `App`. Its fields are the state. Its methods are the callbacks and handlers, each updating the fields in place and proved to follow the `Engine` function of the same step.

Prices and amounts are `real`. The invariant `Engine.Consistent` has six parts:

- every trade record is well formed: BUY or SELL, a positive lot and close fields exactly when CLOSED;
- trade ids are distinct;
- at most one trade per symbol is OPEN;
- the balance is the starting balance plus the profit of the CLOSED trades;
- the log holds at most fifty entries;
- both risk settings of every symbol lie within their sliders.

Every step preserves it, except a risk-settings update with values outside the sliders: `BotApp.App.HandleRiskUpdate` keeps it only for in-range settings, which are the only ones the panel produces.

Points where the model follows the code as written:

- **Equity on a closing tick.** The floating profit is summed before the stop-loss check, so on a tick that closes trades the published equity is the new balance plus the floating profit of all trades that were OPEN, the closed ones included. Their profit is therefore counted twice until the next tick. On a tick with no closure, the equity is the balance plus the floating profit of the OPEN trades. `Engine.TickEquity` states both exactly as computed.
- **The reversal close does not look at the status again.** It replaces every record with the active trade's id and credits the profit. In this model each callback run, and each symbol's step within a decision cycle, is one atomic step. So a trade stopped out by a tick has no OPEN record left for a later reversal to close (`Engine.StopThenReversalCreditsOnce`). The interleaving of the two asynchronous callbacks is not represented.
- **Rounding.** `Number(x.toFixed(2))` is modelled as the nearest multiple of 0.01, with a tie going to the value of larger magnitude. That is `floor(|x| * 100 + 1/2) / 100` with the sign of `x`. For non-negative inputs (every lot computed from a non-negative balance), this equals `floor(x * 100 + 1/2) / 100`.

Inputs that come from outside the engine are parameters of the step that uses them:

- the fetched prices;
- the analyses, with `None` standing for a failed call;
- the new trade ids;
- the current time;
- whether an API key is configured.

Freshness of a new trade id is a precondition, standing for the uniqueness of random UUIDs.

## Model

| member | source | states |
|---|---|---|
| Assets.AssetOf | constants.ts:6-28 | every asset's initial price, contract size, pip value and default stop are positive |
| Assets.AssetTable | constants.ts:6-28 | contract sizes 100, 1, 10 and default stops 5, 500, 25 for XAUUSD, BTCUSD, ETHUSD |
| Assets.SymbolsComplete | App.tsx:168 | the scanned symbol list names every symbol exactly once |
| Assets.PerSymbol.Set | App.tsx:273-276 | the updated record holds the new value at the key and the old value at every other key |
| Sizing.Round2 | App.tsx:213 | the result is a multiple of 0.01 within half a hundredth of the input, with the input's sign |
| Sizing.Round2Nearest | App.tsx:213 | no multiple of 0.01 is closer to the input than its rounding |
| Sizing.Round2Positive | App.tsx:213-215 | a rounded lot is positive exactly when the unrounded lot is at least 0.005 |
| Sizing.RiskAmount | App.tsx:211 | the risk amount is `riskPercentage` percent of the balance, non-negative for non-negative inputs |
| Sizing.RawLotSize | App.tsx:213 | the unrounded lot loses exactly the risk amount over the stop distance |
| Sizing.LotSize | App.tsx:211-215 | the lot is within 0.005 of the unrounded lot, and positive exactly when that lot reaches 0.005 |
| Sizing.LotSizeRiskBound | App.tsx:211-213 | the loss of the rounded lot over the stop distance differs from the risk amount by at most `distance * contractSize / 200` |
| RiskPanel.HandleChange | RiskPanel.tsx:24-26 | the new settings have `key` set to the value and the other key unchanged |
| RiskPanel.DefaultSettings | App.tsx:40-44 | default settings use the asset's default stop and lie within both slider ranges |
| RiskPanel.HandleChangeInRange | RiskPanel.tsx:42-69 | a slider value keeps in-range settings in range (risk 0.1 to 5, stop 1 to 2000 for BTCUSD and 1 to 50 otherwise) |
| RiskPanel.EstimatedLotSize | RiskPanel.tsx:16-22 | the preview lot, with the symbol's contract size, loses exactly the previewed risk amount over the stop distance |
| RiskPanel.PreviewMatchesEngine | RiskPanel.tsx:22 | rounding the preview to two decimals gives the lot the engine opens with in App.tsx:213 |
| RiskPanel.DefaultXauPreview | RiskPanel.tsx:16-22 | at 50000 and the XAUUSD defaults the preview shows 500 at risk and 1 lot, and the engine sizes 1 lot |
| Trades.Profit | App.tsx:106-110 | a BUY gains exactly when the price is above entry, a SELL exactly when below, and loses in the opposite case |
| Trades.ProfitAntisymmetric | App.tsx:106-110 | the BUY and SELL profits of the same trade at the same price are opposite |
| Trades.LossAtStop | App.tsx:220-222 | a new position's stop is not hit at entry, is hit at the stop price, and loses `distance * contractSize * lot` there |
| Trades.StopLossFloor | App.tsx:114-116 | at any price that triggers the stop the loss is at least `distance * contractSize * lot` |
| Trades.MarkOne | App.tsx:102-135 | a trade becomes CLOSED exactly when it was OPEN and its stop is breached; then it closes at the current price and time with its profit, and otherwise it is returned unchanged |
| Trades.MarkAllEvolves | App.tsx:101-136 | the marked list has the same length and every record is unchanged or went from OPEN to CLOSED |
| Trades.ClosingPreserves | App.tsx:101-136 | closing trades in place keeps records well formed, ids distinct and at most one OPEN trade per symbol |
| Trades.MarkAllRealised | App.tsx:139-146 | after marking, the realised profit of the list grows by exactly the profit of the trades stopped out |
| Trades.MarkAllFloating | App.tsx:105-111 | the floating profit summed during the tick is that of the still-OPEN trades plus that of the trades stopped out |
| Trades.NoStopUnchanged | App.tsx:139-155 | no trade is stopped out exactly when marking leaves the list unchanged |
| Trades.FindActive | App.tsx:177 | the found index is the first OPEN trade of the symbol, and `None` means there is none |
| Trades.ReplaceByIdAt | App.tsx:199 | with distinct ids, replace-by-id changes only the position of that id |
| Trades.RealisedUpdate | App.tsx:199-200 | replacing one record changes the realised profit by the difference of the two records' realised profit |
| Trades.RealisedAppend | App.tsx:236 | appending a trade adds its realised profit, zero for an OPEN trade |
| ActivityLog.AppendLog | App.tsx:78 | the buffer grows by one up to fifty entries and then stays at fifty, and the new entry is last |
| ActivityLog.AppendLogKeepsNewest | App.tsx:78 | the buffer is the newest entries of the old buffer followed by the new one, in order |
| Engine.Cadences | App.tsx:157 | the tick period is 2000 ms, shorter than the 30000 ms decision period |
| Engine.InitialConsistent | App.tsx:32-52 | the initial state satisfies the engine invariant |
| Engine.LogStopHits | App.tsx:147-149 | logging the stop-loss closures keeps the log within fifty entries |
| Engine.Tick | App.tsx:82-157 | a tick sets the prices to the fetched ones and changes neither the risk settings nor any ledger field but balance and equity |
| Engine.TickTrades | App.tsx:101-140 | the trades after a tick are the marked trades; exactly the OPEN ones whose stop is breached have closed |
| Engine.TickBalance | App.tsx:139-146 | the balance moves by exactly the sum of the profit of the trades stopped out, which is the change in realised profit |
| Engine.TickEquity | App.tsx:139-155 | equity is the new balance plus the OPEN trades' floating profit plus the stopped-out trades' profit again, and with no closure the balance plus the floating profit |
| Engine.TickPreserves | App.tsx:82-157 | a tick keeps the engine invariant |
| Engine.Decide | App.tsx:171-242 | a decision step changes neither prices, risk settings nor any ledger field but the balance |
| Engine.DecideOpens | App.tsx:206-237 | a trade is appended exactly when there is no OPEN trade for the symbol, the decision is not HOLD, the sentiment magnitude exceeds 0.4 and the rounded lot is positive; the new trade is OPEN at the current price with the stop on the losing side, the rounded risk-sized lot and the current risk percentage, and the balance is unchanged |
| Engine.OpenedRiskAtStop | App.tsx:211-233 | a newly opened trade loses `distance * contractSize * lot` at its stop, within `distance * contractSize / 200` of the risk amount |
| Engine.SizedTradeRisk | App.tsx:211-222 | the same for any record sized and stopped by the engine's rules |
| Engine.DecideReversal | App.tsx:182-203 | on a reversal only the active trade changes, to CLOSED at the current price with its profit; the balance rises by that profit, nothing is appended and the symbol has no OPEN trade left |
| Engine.DecideNoSignal | App.tsx:182-239 | a failed analysis, or an answer that is neither a reversal of the symbol's OPEN trade nor an open signal (same-direction or HOLD decision on an OPEN trade, HOLD with no OPEN trade, sentiment magnitude at most 0.4), leaves the state unchanged |
| Engine.DecideLotTooSmall | App.tsx:211-217 | an open signal whose rounded lot is not positive only appends the lot-too-small warning to the log |
| Engine.DecideClosesOnlyOnReversal | App.tsx:182-239 | short of a reversal, a decision step leaves every existing trade and the whole ledger unchanged and can only append |
| Engine.DecidePreserves | App.tsx:176-237 | a decision step keeps the invariant, only closes or appends trades, and appends only the given id |
| Engine.RunSymbols | App.tsx:170-243 | the per-symbol steps change neither prices, risk settings nor any ledger field but the balance |
| Engine.RunSymbolsPreserves | App.tsx:170-243 | the steps over distinct symbols keep the invariant and only close or append trades |
| Engine.BotLogicPreserves | App.tsx:163-245 | a decision cycle keeps the invariant, only closes or appends trades, moves the balance by exactly the realised profit and records its completion time when running |
| Engine.BotLogicIdle | App.tsx:164 | while stopped, the decision cycle changes nothing |
| Engine.StopThenReversalCreditsOnce | App.tsx:177-203 | after a tick stops a trade out, a reversal signal for its symbol neither changes that record nor credits the balance again |
| Engine.Toggle | App.tsx:259-270 | without an API key nothing changes; otherwise the running flag flips and trades, balance, equity, prices and settings are unchanged |
| Engine.TogglePreserves | App.tsx:259-270 | toggling keeps the invariant |
| Engine.UpdateRisk | App.tsx:272-277 | only the active symbol's settings change; trades, ledger, log and prices are unchanged |
| Engine.SliderChangePreserves | RiskPanel.tsx:42-69 | a slider movement through the single-key update keeps the invariant |
| Engine.MarkToMarket | App.tsx:101-136 | the loop returns the marked trades, the floating profit of the trades OPEN before the check and the stopped-out records, as the list functions define them |
| Engine.OpenAtDefaults | App.tsx:207-236 | a strong BUY on XAUUSD from the initial state opens 1 lot at 2750 with its stop at 2745 |
| Engine.StopLossScenario | App.tsx:101-155 | that trade with XAUUSD at 2744 closes at 2744 with profit -600, the balance becomes 49400 and the equity 48800 |
| BotApp.App.constructor | App.tsx:32-52 | the component starts in the initial state, idle with the starting balance, opening prices, default settings and no trades |
| BotApp.App.AddLog | App.tsx:76-79 | the log becomes the bounded append of the entry and nothing else changes |
| BotApp.App.PriceTick | App.tsx:82-157 | the fields become the state `Engine.Tick` gives, and the invariant is kept |
| BotApp.App.SettleTick | App.tsx:139-155 | the balance, equity, trades and log are updated as step 3 of the tick prescribes |
| BotApp.App.LogStopLossHits | App.tsx:147-149 | one error entry is appended per closed trade, in order |
| BotApp.App.DecideSymbol | App.tsx:171-242 | the fields become the state `Engine.Decide` gives; the invariant is kept and trades only close or are appended with the given id |
| BotApp.App.CloseOnReversalStep | App.tsx:187-201 | the trade is replaced by id with its closed record, its profit is credited and the closure is logged |
| BotApp.App.ExecuteBotLogic | App.tsx:163-245 | the fields become the state of `Engine.BotLogic`, and the invariant is kept |
| BotApp.App.ScanSymbols | App.tsx:170-243 | the fields become the state of the per-symbol steps in the fixed order, and the invariant is kept |
| BotApp.App.ToggleBot | App.tsx:259-270 | the fields become the state of `Engine.Toggle`, and the invariant is kept |
| BotApp.App.HandleRiskUpdate | App.tsx:272-277 | the fields become the state of `Engine.UpdateRisk`; the invariant is kept when the new settings are within the sliders |

## Left out

- Price fetching (`priceService.ts`) is not part of this model. It makes network calls and has a time- and random-based fallback, so the fetched prices are a parameter of the tick.
- The AI market analysis is external to this model. Its result is a parameter, with `None` for a call that threw.
- The chart widget (`TradingViewWidget.tsx`) and the trade table (`TradeLog.tsx`) only render, so they are not modelled.
- `types.ts` is not part of this model. The record shapes are those App.tsx builds.
- React scheduling is not modelled: the intervals, the immediate run when the engine starts (App.tsx:248-255), ref syncing and the concurrent price fetches. Each callback run, and each symbol's step within a decision cycle, is one atomic step over the latest state. Interleavings of the two callbacks are therefore outside the model.
- The displayed analyses (`setAnalyses`) and the active tab are display state. The active symbol is a parameter of `HandleRiskUpdate`.
- Log messages are modelled as structured events with their level, not as the formatted strings. The `toLocaleTimeString` time text is omitted, and the entry id is the timestamp parameter.
- `alert` when no API key is configured is not modelled. The model has only the "nothing changes" effect.
- Ids come from `crypto.randomUUID()` and timestamps from `Date.now()`. Both are parameters, and one timestamp is used per step, where the source reads the clock at each use.
- Profits, the floating-profit sum and the balance and equity updates (App.tsx:110-111, 141-145, 189, 200) are exact real arithmetic; the double rounding of each operation in the source is not modelled.
- Sizing.Round2: IEEE-754 doubles are not modelled. A value whose binary form lies just below a tie rounds down in the source but up here, and `toFixed` switches to exponential notation for magnitudes of 1e21 and above.
- The slider step sizes (0.1 for risk, 10 or 0.5 for the stop) are not part of the range invariant. Only the minimum and maximum are.
