/** Read-only views of the ledger: the portfolio snapshot, the recent-trade
    summary and the exposure summary. */
module Reports {
  import opened Positions
  import opened Ledger

  /** Number of recent trades summarised when the caller gives no limit. */
  const DefaultHistoryLimit: int := 50

  datatype PortfolioSnapshot = PortfolioSnapshot(
    initialBalance: real,
    cash: real,
    equity: real,
    openPositions: seq<Position>,
    realizedPnl: real,
    openCount: nat,
    tradeCount: nat)

  /** The portfolio snapshot: balances, equity, the open positions, the PnL
      realized over the whole history and the two counts. */
  function PortfolioState(a: Account): (s: PortfolioSnapshot)
    requires Valid(a)
    ensures s.initialBalance == a.initialBalance && s.cash == a.cash
    ensures s.realizedPnl == Sum(a.history, PnlOrZero)
    ensures s.openPositions == a.positions
    ensures s.openCount == |a.positions| && s.tradeCount == |a.history|
    ensures s.equity == Equity(a)
    ensures |a.positions| == 0 ==> s.equity == s.cash
    ensures Conserved(a) ==>
              s.cash + Sum(s.openPositions, Notional) == s.initialBalance + s.realizedPnl
  {
    PortfolioSnapshot(
      a.initialBalance, a.cash, Equity(a), a.positions,
      Sum(a.history, PnlOrZero), |a.positions|, |a.history|)
  }

  // ---------------------------------------------------------------------------
  // Recent trades
  // ---------------------------------------------------------------------------

  function Min(x: int, y: int): int {
    if x <= y then x else y
  }

  /** Python's `s[start:]` for any integer `start`: a negative start counts
      from the end and both ends are clamped to the sequence. */
  function SliceFrom(s: seq<Position>, start: int): seq<Position> {
    var k := if start < 0 then (if |s| + start < 0 then 0 else |s| + start)
             else (if start > |s| then |s| else start);
    s[k..]
  }

  /** Number of trades with a positive PnL. */
  function CountWins(ts: seq<Position>): nat {
    if |ts| == 0 then 0 else (if PnlOrZero(ts[0]) > 0.0 then 1 else 0) + CountWins(ts[1..])
  }

  /** Number of trades with a negative PnL. */
  function CountLosses(ts: seq<Position>): nat {
    if |ts| == 0 then 0 else (if PnlOrZero(ts[0]) < 0.0 then 1 else 0) + CountLosses(ts[1..])
  }

  /** Number of trades that broke even. */
  function CountFlat(ts: seq<Position>): nat {
    if |ts| == 0 then 0 else (if PnlOrZero(ts[0]) == 0.0 then 1 else 0) + CountFlat(ts[1..])
  }

  /** The counts are additive: counting a window split in two counts each
      part. */
  lemma {:induction false} CountsConcat(xs: seq<Position>, ys: seq<Position>)
    ensures CountWins(xs + ys) == CountWins(xs) + CountWins(ys)
    ensures CountLosses(xs + ys) == CountLosses(xs) + CountLosses(ys)
  {
    if |xs| == 0 {
      assert xs + ys == ys;
    } else {
      assert (xs + ys)[1..] == xs[1..] + ys;
      CountsConcat(xs[1..], ys);
    }
  }

  /** A single trade counts as a win exactly when its PnL is positive and as
      a loss exactly when it is negative. */
  lemma CountsSingle(t: Position)
    ensures CountWins([t]) == (if PnlOrZero(t) > 0.0 then 1 else 0)
    ensures CountLosses([t]) == (if PnlOrZero(t) < 0.0 then 1 else 0)
  {
    assert [t][1..] == [];
  }

  /** Every trade is exactly one of a win, a loss or break-even. */
  lemma {:induction false} CountsPartition(ts: seq<Position>)
    ensures CountWins(ts) + CountLosses(ts) + CountFlat(ts) == |ts|
  {
    if |ts| > 0 {
      CountsPartition(ts[1..]);
    }
  }

  datatype HistorySummary = HistorySummary(
    totalTrades: nat,
    wins: nat,
    losses: nat,
    winRate: real,
    totalPnl: real,
    trades: seq<Position>)

  /** Summary of the trades in `history[-limit:]`: their count, wins, losses,
      win rate and total PnL. */
  function TradeHistorySummary(a: Account, limit: int): (s: HistorySummary)
    ensures s.totalTrades == |s.trades|
    ensures s.wins == CountWins(s.trades) && s.losses == CountLosses(s.trades)
    ensures s.totalTrades > 0 ==> s.winRate == s.wins as real / s.totalTrades as real
    ensures s.totalPnl == Sum(s.trades, PnlOrZero)
    ensures limit > 0 ==>
              s.totalTrades == Min(limit, |a.history|) &&
              s.trades == a.history[|a.history| - s.totalTrades..]
    ensures limit == 0 ==> s.trades == a.history
    ensures limit < 0 ==> s.trades == a.history[Min(-limit, |a.history|)..]
    ensures s.wins + s.losses <= s.totalTrades
    ensures 0.0 <= s.winRate <= 1.0
    ensures s.totalTrades == 0 ==> s.winRate == 0.0
    ensures s.winRate == 0.0 <==> s.wins == 0
    ensures s.winRate == 1.0 <==> s.totalTrades > 0 && s.wins == s.totalTrades
    ensures s.totalPnl + Sum(a.history[..|a.history| - s.totalTrades], PnlOrZero) ==
            Sum(a.history, PnlOrZero)
  {
    var trades := SliceFrom(a.history, -limit);
    var wins := CountWins(trades);
    var losses := CountLosses(trades);
    var total := |trades|;
    CountsPartition(trades);
    var winRate := WinRate(wins, total);
    WindowShape(a.history, limit);
    HistorySummary(total, wins, losses, winRate, Sum(trades, PnlOrZero), trades)
  }

  /** The share of trades that won, 0 when there are none. It lies in
      [0, 1], is 0 exactly without wins and 1 exactly when every trade won. */
  function WinRate(wins: nat, total: nat): (r: real)
    requires wins <= total
    ensures total > 0 ==> r == wins as real / total as real
    ensures total > 0 ==> r * total as real == wins as real
    ensures total == 0 ==> r == 0.0
    ensures 0.0 <= r <= 1.0
    ensures r == 0.0 <==> wins == 0
    ensures r == 1.0 <==> total > 0 && wins == total
  {
    if total > 0 then
      var r := wins as real / total as real;
      assert r * total as real == wins as real;
      r
    else 0.0
  }

  /** `history[-limit:]` is the last `min(limit, |history|)` trades for a
      positive limit, the whole history for zero, and drops the first `-limit`
      trades for a negative limit; with the trades before it, it adds up to
      the whole history. */
  lemma WindowShape(h: seq<Position>, limit: int)
    ensures var w := SliceFrom(h, -limit);
            && |w| <= |h|
            && h == h[..|h| - |w|] + w
            && Sum(w, PnlOrZero) + Sum(h[..|h| - |w|], PnlOrZero) == Sum(h, PnlOrZero)
            && (limit > 0 ==> |w| == Min(limit, |h|) && w == h[|h| - |w|..])
            && (limit == 0 ==> w == h)
            && (limit < 0 ==> w == h[Min(-limit, |h|)..])
  {
    var w := SliceFrom(h, -limit);
    assert h == h[..|h| - |w|] + w;
    SumConcat(h[..|h| - |w|], w, PnlOrZero);
  }

  // ---------------------------------------------------------------------------
  // Exposure
  // ---------------------------------------------------------------------------

  datatype Exposure = Exposure(
    portfolio: PortfolioSnapshot,
    openPositionsCount: nat,
    totalNotionalCommitted: real)

  /** The portfolio snapshot with the number of open positions and the total
      notional they commit. */
  function ExplainCurrentExposure(a: Account): (e: Exposure)
    requires Valid(a)
    ensures e.portfolio == PortfolioState(a)
    ensures e.openPositionsCount == |a.positions|
    ensures e.totalNotionalCommitted >= 0.0
    ensures e.totalNotionalCommitted == 0.0 <==> |a.positions| == 0
    ensures Conserved(a) ==>
              e.totalNotionalCommitted == a.initialBalance + e.portfolio.realizedPnl - a.cash
  {
    var portfolio := PortfolioState(a);
    SumNotionalPositive(portfolio.openPositions);
    Exposure(portfolio, portfolio.openCount, Sum(portfolio.openPositions, Notional))
  }
}
