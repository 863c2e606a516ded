/**
 * Trades and the pure computations over the trade list that both interval
 * callbacks share: direction-aware profit, the stop-loss test, closing a trade,
 * marking every trade to market, the active-trade lookup and replace-by-id.
 */
module Trades {
  import opened Wrappers
  import opened Assets
  import opened Sizing

  /** A trading decision; a trade's own type is BUY or SELL. */
  datatype TradeType = BUY | SELL | HOLD

  datatype Status = OPEN | CLOSED

  /** An opaque, randomly generated identifier. */
  type TradeId = string

  datatype Trade = Trade(
    id: TradeId,
    symbol: Symbol,
    tradeType: TradeType,
    entryPrice: real,
    lotSize: real,
    stopLoss: real,          // the stop-loss price
    riskPercentage: real,    // the risk setting in force when the trade opened
    openTime: int,
    status: Status,
    closePrice: Option<real>,
    closeTime: Option<int>,
    pnl: Option<real>)

  // ---------------------------------------------------------------------------
  // Profit and stop loss
  // ---------------------------------------------------------------------------

  /**
   * Floating or realised profit at `price`: the move in the trade's favour (up for a
   * BUY, down otherwise) times contract size times lots.
   */
  function Profit(t: Trade, price: real): (r: real)
    ensures t.lotSize > 0.0 && t.tradeType == BUY ==> (r > 0.0 <==> price > t.entryPrice) && (r < 0.0 <==> price < t.entryPrice)
    ensures t.lotSize > 0.0 && t.tradeType != BUY ==> (r > 0.0 <==> price < t.entryPrice) && (r < 0.0 <==> price > t.entryPrice)
  {
    var diff := if t.tradeType == BUY then price - t.entryPrice else t.entryPrice - price;
    var contractSize := AssetOf(t.symbol).contractSize;
    assert diff * contractSize * t.lotSize == diff * (contractSize * t.lotSize);
    assert t.lotSize > 0.0 ==> contractSize * t.lotSize > 0.0 by {
      if t.lotSize > 0.0 { PositiveProduct(contractSize, t.lotSize); }
    }
    SignOfScaled(diff, contractSize * t.lotSize);
    diff * contractSize * t.lotSize
  }

  /** Multiplying by a positive factor keeps the sign. */
  lemma SignOfScaled(d: real, k: real)
    ensures k > 0.0 ==> (d * k > 0.0 <==> d > 0.0) && (d * k < 0.0 <==> d < 0.0)
  {
    if k > 0.0 {
      if d > 0.0 { assert d * k > 0.0 * k; }
      if d < 0.0 { assert (-d) * k > 0.0; }
    }
  }

  lemma PositiveProduct(a: real, b: real)
    requires a > 0.0 && b > 0.0
    ensures a * b > 0.0
  {
    MulMonotone(0.0, a, b);
    assert a * b != 0.0;
  }

  /** Opposite positions on the same entry gain and lose the same amount. */
  lemma ProfitAntisymmetric(t: Trade, price: real)
    ensures Profit(t.(tradeType := BUY), price) == -Profit(t.(tradeType := SELL), price)
  {
  }

  /** A long stops out at or below its stop price, a short at or above it; a HOLD never does. */
  predicate StopHit(t: Trade, price: real) {
    (t.tradeType == BUY && price <= t.stopLoss) || (t.tradeType == SELL && price >= t.stopLoss)
  }

  /** The stop-loss price of a new position `distance` away from `price`, on the losing side. */
  function StopLossPrice(decision: TradeType, price: real, distance: real): real {
    if decision == BUY then price - distance else price + distance
  }

  /**
   * A position whose stop lies `distance` from its entry on the losing side is not
   * stopped out at its entry price, is stopped out at its stop, and there loses
   * exactly `distance * contractSize * lotSize`.
   */
  lemma LossAtStop(t: Trade, distance: real)
    requires t.tradeType != HOLD && distance > 0.0
    requires t.stopLoss == StopLossPrice(t.tradeType, t.entryPrice, distance)
    ensures !StopHit(t, t.entryPrice) && StopHit(t, t.stopLoss)
    ensures Profit(t, t.stopLoss) == -(distance * AssetOf(t.symbol).contractSize * t.lotSize)
  {
  }

  /**
   * Wherever a stop-loss close happens, the realised loss is at least the loss at the
   * stop price: a price that gapped past the stop only makes it larger.
   */
  lemma StopLossFloor(t: Trade, distance: real, price: real)
    requires t.tradeType != HOLD && t.lotSize > 0.0
    requires t.stopLoss == StopLossPrice(t.tradeType, t.entryPrice, distance)
    requires StopHit(t, price)
    ensures Profit(t, price) <= -(distance * AssetOf(t.symbol).contractSize * t.lotSize)
  {
    var k := AssetOf(t.symbol).contractSize * t.lotSize;
    PositiveProduct(AssetOf(t.symbol).contractSize, t.lotSize);
    var diff := if t.tradeType == BUY then price - t.entryPrice else t.entryPrice - price;
    assert diff <= -distance;
    MulMonotone(diff, -distance, k);
    assert Profit(t, price) == diff * k;
    assert -(distance * AssetOf(t.symbol).contractSize * t.lotSize) == -distance * k;
  }

  // ---------------------------------------------------------------------------
  // Lifecycle
  // ---------------------------------------------------------------------------

  /** The closed record: status, close price, close time and realised profit set. */
  function CloseAt(t: Trade, price: real, now: int, pnl: real): Trade {
    t.(status := CLOSED, closePrice := Some(price), closeTime := Some(now), pnl := Some(pnl))
  }

  /**
   * The only change a trade ever undergoes: an OPEN trade becomes CLOSED with its close
   * fields set and every other field kept. A CLOSED trade never changes again.
   */
  predicate Closes(t: Trade, u: Trade) {
    u == t ||
    (t.status == OPEN && u.status == CLOSED && u.closePrice.Some? && u.closeTime.Some? && u.pnl.Some? &&
     u == t.(status := CLOSED, closePrice := u.closePrice, closeTime := u.closeTime, pnl := u.pnl))
  }

  /** Existing trades keep their places and only close; trades may be appended. */
  predicate Evolves(a: seq<Trade>, b: seq<Trade>) {
    |a| <= |b| && forall i :: 0 <= i < |a| ==> Closes(a[i], b[i])
  }

  lemma {:induction false} EvolvesTransitive(a: seq<Trade>, b: seq<Trade>, c: seq<Trade>)
    requires Evolves(a, b) && Evolves(b, c)
    ensures Evolves(a, c)
  {
    forall i | 0 <= i < |a| ensures Closes(a[i], c[i]) {
      assert Closes(a[i], b[i]) && Closes(b[i], c[i]);
    }
  }

  /** The record invariant: OPEN trades carry no close fields, CLOSED trades carry all of them. */
  predicate WellFormed(t: Trade) {
    t.tradeType != HOLD && t.lotSize > 0.0 &&
    (t.status == OPEN ==> t.closePrice.None? && t.closeTime.None? && t.pnl.None?) &&
    (t.status == CLOSED ==> t.closePrice.Some? && t.closeTime.Some? && t.pnl.Some?)
  }

  predicate AllWellFormed(ts: seq<Trade>) {
    forall i :: 0 <= i < |ts| ==> WellFormed(ts[i])
  }

  predicate UniqueIds(ts: seq<Trade>) {
    forall i, j :: 0 <= i < j < |ts| ==> ts[i].id != ts[j].id
  }

  predicate IdFresh(ts: seq<Trade>, id: TradeId) {
    forall i :: 0 <= i < |ts| ==> ts[i].id != id
  }

  predicate IsActive(t: Trade, sym: Symbol) {
    t.status == OPEN && t.symbol == sym
  }

  /** The risk-isolation invariant: no two OPEN trades share a symbol. */
  predicate AtMostOneOpen(ts: seq<Trade>) {
    forall i, j :: 0 <= i < j < |ts| && ts[i].status == OPEN && ts[j].status == OPEN ==> ts[i].symbol != ts[j].symbol
  }

  /** Closing trades in place keeps every record invariant of the list. */
  lemma ClosingPreserves(a: seq<Trade>, b: seq<Trade>)
    requires Evolves(a, b) && |a| == |b|
    requires AllWellFormed(a) && UniqueIds(a) && AtMostOneOpen(a)
    ensures AllWellFormed(b) && UniqueIds(b) && AtMostOneOpen(b)
  {
    forall i | 0 <= i < |b| ensures WellFormed(b[i]) && b[i].id == a[i].id && b[i].symbol == a[i].symbol
      && (b[i].status == OPEN ==> a[i].status == OPEN)
    {
      assert Closes(a[i], b[i]);
    }
  }

  // ---------------------------------------------------------------------------
  // Mark to market
  // ---------------------------------------------------------------------------

  /** One trade after a tick at `prices`: an OPEN trade whose stop is breached closes at the current price. */
  function MarkOne(t: Trade, prices: PerSymbol<real>, now: int): (u: Trade)
    ensures Closes(t, u)
    ensures (t.status == OPEN && u.status == CLOSED) <==> (t.status == OPEN && StopHit(t, prices.Get(t.symbol)))
    ensures u != t ==>
              u.closePrice == Some(prices.Get(t.symbol)) && u.closeTime == Some(now) && u.pnl == Some(Profit(t, prices.Get(t.symbol)))
  {
    var price := prices.Get(t.symbol);
    if t.status == OPEN && StopHit(t, price) then CloseAt(t, price, now, Profit(t, price)) else t
  }

  /** The trade list after a tick. */
  function MarkAll(ts: seq<Trade>, prices: PerSymbol<real>, now: int): seq<Trade> {
    seq(|ts|, i requires 0 <= i < |ts| => MarkOne(ts[i], prices, now))
  }

  /** The floating profit of one trade: its profit when OPEN, nothing otherwise. */
  function Floating(t: Trade, prices: PerSymbol<real>): real {
    if t.status == OPEN then Profit(t, prices.Get(t.symbol)) else 0.0
  }

  /** Total floating profit of the OPEN trades of a list. */
  function FloatingPL(ts: seq<Trade>, prices: PerSymbol<real>): real {
    if ts == [] then 0.0 else FloatingPL(ts[..|ts| - 1], prices) + Floating(ts[|ts| - 1], prices)
  }

  /** The records closed by a tick, in list order. */
  function StopClosed(ts: seq<Trade>, prices: PerSymbol<real>, now: int): seq<Trade> {
    if ts == [] then []
    else
      var t := ts[|ts| - 1];
      StopClosed(ts[..|ts| - 1], prices, now) +
        (if t.status == OPEN && StopHit(t, prices.Get(t.symbol)) then [MarkOne(t, prices, now)] else [])
  }

  /** `t.pnl || 0`. */
  function PnlOf(t: Trade): real {
    t.pnl.GetOr(0.0)
  }

  /** The sum of the recorded profits of a list of trades. */
  function SumPnl(ts: seq<Trade>): real {
    if ts == [] then 0.0 else SumPnl(ts[..|ts| - 1]) + PnlOf(ts[|ts| - 1])
  }

  /** A trade's contribution to realised profit: its pnl once CLOSED. */
  function Realised(t: Trade): real {
    if t.status == CLOSED then PnlOf(t) else 0.0
  }

  /** Total realised profit of the CLOSED trades of a list. */
  function RealisedPnl(ts: seq<Trade>): real {
    if ts == [] then 0.0 else RealisedPnl(ts[..|ts| - 1]) + Realised(ts[|ts| - 1])
  }

  lemma MarkAllPrefix(ts: seq<Trade>, prices: PerSymbol<real>, now: int)
    requires ts != []
    ensures MarkAll(ts, prices, now) == MarkAll(ts[..|ts| - 1], prices, now) + [MarkOne(ts[|ts| - 1], prices, now)]
  {
  }

  /** A tick only closes trades in place. */
  lemma MarkAllEvolves(ts: seq<Trade>, prices: PerSymbol<real>, now: int)
    ensures |MarkAll(ts, prices, now)| == |ts| && Evolves(ts, MarkAll(ts, prices, now))
  {
  }

  /** The tick adds to realised profit exactly the recorded profits of the trades it closes. */
  lemma {:induction false} MarkAllRealised(ts: seq<Trade>, prices: PerSymbol<real>, now: int)
    ensures RealisedPnl(MarkAll(ts, prices, now)) == RealisedPnl(ts) + SumPnl(StopClosed(ts, prices, now))
  {
    if ts != [] {
      var init, t := ts[..|ts| - 1], ts[|ts| - 1];
      MarkAllRealised(init, prices, now);
      MarkAllPrefix(ts, prices, now);
      var m := MarkAll(ts, prices, now);
      assert m[..|m| - 1] == MarkAll(init, prices, now);
      SumPnlAppend(StopClosed(init, prices, now),
        if t.status == OPEN && StopHit(t, prices.Get(t.symbol)) then [MarkOne(t, prices, now)] else []);
    }
  }

  /** The floating profit before the tick is that of the trades still open plus that of those it closed. */
  lemma {:induction false} MarkAllFloating(ts: seq<Trade>, prices: PerSymbol<real>, now: int)
    ensures FloatingPL(ts, prices) == FloatingPL(MarkAll(ts, prices, now), prices) + SumPnl(StopClosed(ts, prices, now))
  {
    if ts != [] {
      var init, t := ts[..|ts| - 1], ts[|ts| - 1];
      MarkAllFloating(init, prices, now);
      MarkAllPrefix(ts, prices, now);
      var m := MarkAll(ts, prices, now);
      assert m[..|m| - 1] == MarkAll(init, prices, now);
      SumPnlAppend(StopClosed(init, prices, now),
        if t.status == OPEN && StopHit(t, prices.Get(t.symbol)) then [MarkOne(t, prices, now)] else []);
    }
  }

  lemma {:induction false} SumPnlAppend(a: seq<Trade>, b: seq<Trade>)
    requires |b| <= 1
    ensures SumPnl(a + b) == SumPnl(a) + SumPnl(b)
  {
    if b != [] {
      assert (a + b)[..|a + b| - 1] == a;
      assert b[..0] == [];
    } else {
      assert a + b == a;
    }
  }

  /** A tick closes nothing exactly when it leaves the list as it was. */
  lemma {:induction false} NoStopUnchanged(ts: seq<Trade>, prices: PerSymbol<real>, now: int)
    ensures StopClosed(ts, prices, now) == [] <==> MarkAll(ts, prices, now) == ts
  {
    if ts != [] {
      var init, t := ts[..|ts| - 1], ts[|ts| - 1];
      NoStopUnchanged(init, prices, now);
      MarkAllPrefix(ts, prices, now);
      var m := MarkAll(ts, prices, now);
      if m == ts {
        assert MarkAll(init, prices, now) == m[..|m| - 1];
        assert MarkOne(t, prices, now) == t;
      }
      if StopClosed(ts, prices, now) == [] {
        assert StopClosed(init, prices, now) == [];
        assert ts == init + [t];
      }
    }
  }

  // ---------------------------------------------------------------------------
  // Lookup and replacement
  // ---------------------------------------------------------------------------

  /** The position of the first OPEN trade of `sym` (the source's `find`), if any. */
  function FindActive(ts: seq<Trade>, sym: Symbol): (r: Option<nat>)
    ensures r.Some? ==> r.value < |ts| && IsActive(ts[r.value], sym) && forall j :: 0 <= j < r.value ==> !IsActive(ts[j], sym)
    ensures r.None? ==> forall j :: 0 <= j < |ts| ==> !IsActive(ts[j], sym)
  {
    FindActiveFrom(ts, sym, 0)
  }

  function FindActiveFrom(ts: seq<Trade>, sym: Symbol, k: nat): (r: Option<nat>)
    requires k <= |ts|
    requires forall j :: 0 <= j < k ==> !IsActive(ts[j], sym)
    ensures r.Some? ==> k <= r.value < |ts| && IsActive(ts[r.value], sym) && forall j :: 0 <= j < r.value ==> !IsActive(ts[j], sym)
    ensures r.None? ==> forall j :: 0 <= j < |ts| ==> !IsActive(ts[j], sym)
    decreases |ts| - k
  {
    if k == |ts| then None
    else if IsActive(ts[k], sym) then Some(k)
    else FindActiveFrom(ts, sym, k + 1)
  }

  /** `ts.map(t => t.id === c.id ? c : t)`. */
  function ReplaceById(ts: seq<Trade>, c: Trade): seq<Trade> {
    seq(|ts|, i requires 0 <= i < |ts| => if ts[i].id == c.id then c else ts[i])
  }

  /** With unique ids, replacing by id changes exactly the one position holding that id. */
  lemma ReplaceByIdAt(ts: seq<Trade>, k: nat, c: Trade)
    requires UniqueIds(ts) && k < |ts| && ts[k].id == c.id
    ensures ReplaceById(ts, c) == ts[k := c]
  {
    var r := ReplaceById(ts, c);
    forall i | 0 <= i < |ts| ensures r[i] == ts[k := c][i] {
      if i != k {
        assert ts[i].id != ts[k].id by {
          if i < k { assert ts[i].id != ts[k].id; } else { assert ts[k].id != ts[i].id; }
        }
      }
    }
  }

  /** Replacing one trade changes realised profit by the difference of the two contributions. */
  lemma {:induction false} RealisedUpdate(ts: seq<Trade>, k: nat, c: Trade)
    requires k < |ts|
    ensures RealisedPnl(ts[k := c]) == RealisedPnl(ts) - Realised(ts[k]) + Realised(c)
  {
    var u := ts[k := c];
    var n := |ts|;
    if k == n - 1 {
      assert u[..n - 1] == ts[..n - 1];
    } else {
      RealisedUpdate(ts[..n - 1], k, c);
      assert u[..n - 1] == ts[..n - 1][k := c];
    }
  }

  /** Appending a trade adds its contribution to realised profit. */
  lemma RealisedAppend(ts: seq<Trade>, t: Trade)
    ensures RealisedPnl(ts + [t]) == RealisedPnl(ts) + Realised(t)
  {
    assert (ts + [t])[..|ts|] == ts;
  }
}
