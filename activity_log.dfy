/**
 * The activity log: a bounded feed of engine events, newest last, that keeps only
 * the most recent fifty entries.
 */
module ActivityLog {
  import opened Assets
  import opened Trades

  const MAX_LOGS: nat := 50

  datatype Level = Info | Success | Error | Warning

  /** The events the engine reports; the displayed text is formatted from these fields. */
  datatype LogEvent =
    | ScanStarted
    | StopLossHit(symbol: Symbol, tradeType: TradeType, closePrice: real, pnl: real)
    | ReversalClosed(symbol: Symbol, tradeType: TradeType, pnl: real)
    | LotTooSmall(symbol: Symbol)
    | Opened(symbol: Symbol, decision: TradeType, lotSize: real, price: real)
    | SystemStarted
    | SystemStopped

  /** One entry; `id` is the timestamp at which it was appended. */
  datatype LogEntry = LogEntry(id: int, event: LogEvent, level: Level)

  /**
   * `[...logs.slice(-49), e]`: the entry appended after the last 49 earlier ones, so the
   * buffer never holds more than fifty entries and ends with the new one.
   */
  function AppendLog(logs: seq<LogEntry>, e: LogEntry): (r: seq<LogEntry>)
    ensures |r| == if |logs| < MAX_LOGS then |logs| + 1 else MAX_LOGS
    ensures r[|r| - 1] == e
  {
    var kept := if |logs| > MAX_LOGS - 1 then logs[|logs| - (MAX_LOGS - 1)..] else logs;
    kept + [e]
  }

  /** The buffer after an append is the newest `min(|logs| + 1, 50)` entries of `logs + [e]`, in order. */
  lemma AppendLogKeepsNewest(logs: seq<LogEntry>, e: LogEntry)
    ensures AppendLog(logs, e) == (logs + [e])[|logs| + 1 - |AppendLog(logs, e)|..]
  {
    var kept := if |logs| > MAX_LOGS - 1 then logs[|logs| - (MAX_LOGS - 1)..] else logs;
    assert (logs + [e])[|logs| - |kept|..] == kept + [e];
  }
}
