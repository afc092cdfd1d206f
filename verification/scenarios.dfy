/** Worked examples of the ledger on concrete figures. */
module Scenarios {
  import opened Results
  import opened Positions
  import opened Ledger
  import opened LedgerProperties
  import opened Reports
  import opened RiskSizing

  const Btc: string := "BTC/USDT"

  /** A fresh default account that has seen one BTC price of 100. */
  function Priced(): (a: Account)
    ensures Valid(a) && a.positions == [] && a.history == []
    ensures a.cash == DefaultInitialBalance && a.lastPrices == map[Btc := 100.0]
  {
    UpdatePrice(Init(DefaultInitialBalance), Btc, 100.0)
  }

  /** Opening a long of 1000 at the last price of 100 with its stop at 90:
      the side is accepted case-insensitively and the cash drops by 1000. */
  lemma OpenLongScenario()
    ensures ParseSide("LONG") == Some(Long)
    ensures var r := PlaceOrder(Priced(), Btc, "LONG", 1000.0, None, Some(90.0), None);
            && r.Ok?
            && r.value.0.cash == 9000.0
            && r.value.0.history == []
            && r.value.0.positions == [r.value.1]
            && r.value.1.side == Long && r.value.1.entryPrice == 100.0
            && r.value.1.notional == 1000.0 && r.value.1.stopLoss == Some(90.0)
  {
    assert Lower("LONG") == "long";
  }

  /** That long is closed automatically by a BTC price of 89, realizing
      1000 * (89 / 100 - 1) = -110, and the cash comes back as 9890. */
  lemma StopLossScenario(a: Account, p: Position)
    requires Valid(a) && a.cash == 9000.0 && a.history == [] && a.positions == [p]
    requires p.pair == Btc && p.side == Long && p.entryPrice == 100.0
    requires p.notional == 1000.0 && p.stopLoss == Some(90.0)
    ensures var b := UpdatePrice(a, Btc, 89.0);
            && b.positions == []
            && |b.history| == 1
            && b.history[0].status == Closed(89.0, -110.0)
            && b.cash == 9890.0
  {
    assert p.status == Open;
    assert Fires(p, Btc, 89.0);
    UpdatePriceCloses(a, Btc, 89.0);
    assert Fired(a.positions, Btc, 89.0) == [p];
    assert Kept(a.positions, Btc, 89.0) == [];
    assert PnlAt(p, 89.0) == -110.0;
    assert CloseAll([p], 89.0) == [CloseAt(p, 89.0)];
    assert Sum([p], Notional) == 1000.0;
    assert Sum([CloseAt(p, 89.0)], PnlOrZero) == -110.0;
  }

  /** A short of 1000 at 100 closed at 80 realizes 1000 * (100 / 80 - 1) = 250. */
  lemma ShortPnlScenario()
    ensures PnlAt(Position(0, Btc, Short, 100.0, 1000.0, None, None, Open), 80.0) == 250.0
  {
  }

  /** Asking for more than the cash fails and names both amounts. */
  lemma InsufficientFundsScenario()
    ensures PlaceOrder(Priced(), Btc, "short", 20000.0, None, None, None) ==
            Err(InsufficientFunds(20000.0, 10000.0))
  {
    assert Lower("short") == "short";
  }

  /** With equity 10000, risk 1%, last price 100 and stop 95 the stop distance
      is 0.05, the risk amount 100 and the suggested notional 2000. */
  lemma RiskSizingScenario()
    ensures SuggestNotionalFromRisk(Priced(), 1.0, Btc, 95.0) == Ok(Sizing(2000.0, 10000.0, 100.0, 100.0))
  {
    assert StopDistance(95.0, 100.0) == 0.05;
  }

  /** An account without trades reports a win rate of 0 rather than failing. */
  lemma EmptyHistoryScenario(balance: real)
    ensures TradeHistorySummary(Init(balance), DefaultHistoryLimit).totalTrades == 0
    ensures TradeHistorySummary(Init(balance), DefaultHistoryLimit).winRate == 0.0
  {
  }
}
