# Paper-trading ledger

A Dafny model of the simulated spot-trading ledger in
`crypto_trading_agent/simulation.py`. The ledger is one account. It holds
cash, the open positions in insertion order, an append-only history of
closed trades and the last price seen for each market. Its operations are
modelled as pure functions:

- `place_order` is `Ledger.PlaceOrder`;
- `close_position` is `Ledger.ClosePosition`;
- `update_price` is `Ledger.UpdatePrice`, and its loop is `Ledger.Sweep`
  over `Ledger.CheckAndMaybeClose`;
- `reset` is `Ledger.Reset`;
- `_equity` is `Ledger.Equity`;
- `portfolio_state` is `Reports.PortfolioState`;
- `trade_history_summary` is `Reports.TradeHistorySummary`;
- `explain_current_exposure` is `Reports.ExplainCurrentExposure`;
- `suggest_notional_from_risk` is `RiskSizing.SuggestNotionalFromRisk`.

The operations that can be refused are `Ledger.PlaceOrder`,
`Ledger.ClosePosition` and `RiskSizing.SuggestNotionalFromRisk`. Each returns
a `Result` that holds either its outcome or a `Failure`, where the source
raises `ValueError` or `KeyError` or returns an error dictionary. A refused
operation therefore yields no new account, and the caller keeps the old one
unchanged. `Ledger.Init`, `Ledger.Reset` and `Ledger.UpdatePrice` cannot be
refused and return the new account directly.

Modules:

- `Results` (results.dfy): `Option` and `Result`.
- `Positions` (positions.dfy): `SimPosition`, the side names, the PnL formula, the stop-loss and take-profit triggers, and sums over positions.
- `Ledger` (ledger.dfy): the account, its invariant `Valid` and the transitions.
- `LedgerProperties` (ledger_properties.dfy): cash conservation over any run of operations, a reference definition of what a price update closes, the lifecycle facts and the equity facts.
- `Reports` (reports.dfy): the portfolio snapshot, the recent-trade summary and the exposure summary.
- `RiskSizing` (risk.dfy): risk-based position sizing.
- `Scenarios` (scenarios.dfy): worked examples on concrete figures.

Two behaviours of the code are worth stating up front:

- Closing a position twice fails with `NotFound`: a close deletes the
  position from the open-position dictionary (`simulation.py:266`), so the
  lookup at `simulation.py:242-243` no longer finds it
  (`LedgerProperties.DoubleCloseFails`). The `status != "open"` branch
  (`simulation.py:246-247`) is kept in `Ledger.ClosePosition`;
  `LedgerProperties.FoundPositionIsOpen` shows it is never taken.
- The risk sizing checks equity, then the last price, then the risk
  percentage, then the stop distance (`simulation.py:424-454`).

## Model

| member | source | states |
|---|---|---|
| Ledger.Init | crypto_trading_agent/simulation.py:63-68 | a fresh account holds the initial balance in cash, has no positions, history or prices, satisfies the invariant and conserves cash |
| Ledger.Reset | crypto_trading_agent/simulation.py:116-130 | the balance becomes the new one if given, else the old one; cash equals it; positions, history and prices are emptied; the invariant and conservation hold; the identifier generator is not rewound (its effect is `LedgerProperties.ResetDoesNotReissue`) |
| Ledger.PlaceOrder | crypto_trading_agent/simulation.py:185-217 | refusals in the source's order: invalid side, non-positive notional, insufficient funds (naming both amounts), no price; success iff none applies; on success the new position is open, gets the generator's next identifier, which no open or recorded position holds, is appended last, keeps the given stops, enters at the given price or the last price, and cash drops by the notional and stays non-negative |
| Ledger.ClosePosition | crypto_trading_agent/simulation.py:242-267 | `NotFound` iff no open position has the id; `NoPriceAvailable` iff it exists, no price is given and its market has none; no other failure; on success the position leaves the open list (others keep their order), is appended to history closed at the given or last price with the PnL formula, and cash gains notional plus PnL, which is always a gain |
| Ledger.CheckAndMaybeClose | crypto_trading_agent/simulation.py:279-289 | a position whose stop-loss and take-profit did not fire leaves the account untouched; for a fired open position of the account, history grows by that position closed at the price with the PnL formula, cash by its notional plus that PnL, and exactly the positions with its id leave the open list; the invariant is kept |
| Ledger.Sweep | crypto_trading_agent/simulation.py:143-146 | the loop over the snapshot keeps the invariant and changes neither prices, balance nor identifiers |
| Ledger.UpdatePrice | crypto_trading_agent/simulation.py:132-146 | the last price of the pair is recorded and the others kept; the invariant holds afterwards |
| Ledger.TriggeredCloseSucceeds | crypto_trading_agent/simulation.py:288-289 | closing an open position of the account at a positive price is never refused and records exactly the position closed at that price |
| Ledger.Equity | crypto_trading_agent/simulation.py:80-94 | equity is cash when nothing is open, and also when no open position's market has a last price; its response to opening and closing is stated by `LedgerProperties.OpenAtMarkCommitsNotional` and `LedgerProperties.CloseAtMarkReleasesNotional` |
| LedgerProperties.UpdatePriceCloses | crypto_trading_agent/simulation.py:132-146 | a price update closes, at that price and in insertion order, exactly the open positions on that pair whose stop-loss or take-profit fired; every other position stays open and unchanged; history grows by exactly those closes and cash by their notional plus PnL |
| LedgerProperties.FilterMembers | crypto_trading_agent/simulation.py:143-146 | the reference filters select exactly the positions that fire and exactly those that do not |
| LedgerProperties.SweepSpec | crypto_trading_agent/simulation.py:143-146 | by induction over the snapshot, the loop's outcome equals the reference filters applied to the positions still to visit |
| LedgerProperties.PlaceOrderConserves | crypto_trading_agent/simulation.py:205-216 | opening a position preserves cash + committed notional == initial balance + realized PnL |
| LedgerProperties.ClosePositionConserves | crypto_trading_agent/simulation.py:256-266 | closing a position preserves the same conservation equation |
| LedgerProperties.UpdatePriceConserves | crypto_trading_agent/simulation.py:132-146 | a price update, with all the closes it triggers, preserves the conservation equation |
| LedgerProperties.Step | crypto_trading_agent/simulation.py:116-289 | any single operation, refused or not, keeps the account invariant |
| LedgerProperties.RunConserves | crypto_trading_agent/simulation.py:63-289 | from any conserving account, every sequence of operations with positive supplied prices ends in a conserving account |
| LedgerProperties.ClosesReturnCash | crypto_trading_agent/simulation.py:257-258 | closing any open positions returns their notional plus PnL, which in total is never negative |
| LedgerProperties.UpdatePriceCashGrows | crypto_trading_agent/simulation.py:132-146 | a price update never lowers cash |
| LedgerProperties.StepKeepsCashNonNegative | crypto_trading_agent/simulation.py:192-195 | one operation keeps cash and the initial balance non-negative, given a non-negative reset balance |
| LedgerProperties.RunKeepsCashNonNegative | crypto_trading_agent/simulation.py:63-289 | from non-negative cash and balance, cash stays non-negative over every sequence of operations whose resets use non-negative balances |
| LedgerProperties.FoundPositionIsOpen | crypto_trading_agent/simulation.py:245-247 | every position found by id is open, so the already-closed branch is dead |
| LedgerProperties.DoubleCloseFails | crypto_trading_agent/simulation.py:242-243 | after a successful close, closing the same id again fails with `NotFound`, whatever price is given |
| LedgerProperties.ResetDoesNotReissue | crypto_trading_agent/simulation.py:116-130 | the first position opened after a reset gets an identifier that no position held before the reset, open or closed |
| LedgerProperties.StepKeepsHistory | crypto_trading_agent/simulation.py:265 | every operation except reset keeps the recorded trades as a prefix of the history |
| LedgerProperties.CloseAtMarkReleasesNotional | crypto_trading_agent/simulation.py:80-94 | closing at the market's last price raises equity by exactly the position's notional |
| LedgerProperties.OpenAtMarkCommitsNotional | crypto_trading_agent/simulation.py:80-94 | opening at the market's last price lowers equity by exactly the notional |
| LedgerProperties.SumPartition | crypto_trading_agent/simulation.py:143-146 | any sum over the positions equals the sum over those kept plus the sum over those closed |
| Positions.ParseSide | crypto_trading_agent/simulation.py:185-187 | a side is accepted only if its lower-cased form is "long" or "short", and then that is the stored name |
| Positions.ParseSideCaseVariants | crypto_trading_agent/simulation.py:185-187 | a string is accepted as a side iff it is a case variant of that side's name; the stored name parses back to the same side |
| Positions.PnlAt | crypto_trading_agent/simulation.py:96-114 | for a long, PnL times the entry price is notional times the price rise; for a short, PnL times the price is notional times the price fall; its signs are stated by `Positions.PnlSign` |
| Positions.PnlSign | crypto_trading_agent/simulation.py:111-114 | a long gains iff the price rose and loses iff it fell; a short the reverse; the PnL is zero at entry and never reaches minus the notional |
| Positions.TriggerThreshold | crypto_trading_agent/simulation.py:279-286 | the stop-loss and take-profit tests (`StopLossHit`, `TakeProfitHit`, `Triggered`) are thresholds: a long's stop that fires at a price fires at every lower one and its target at every higher one, the reverse for a short; a position without stops never fires |
| Positions.TriggerOutcome | crypto_trading_agent/simulation.py:279-286 | a stop on the losing side of the entry never closes at a profit; a target on the winning side never closes at a loss |
| Positions.IndexOf | crypto_trading_agent/simulation.py:242-245 | finds the first position with the id, and finds none iff no position has it |
| Positions.RemoveAt | crypto_trading_agent/simulation.py:266 | removing one entry keeps every other entry in order |
| Positions.SumConcat | crypto_trading_agent/simulation.py:301 | a sum over a concatenation is the sum of the sums |
| Positions.SumRemoveAt | crypto_trading_agent/simulation.py:266 | removing an entry removes exactly its term from a sum |
| Positions.SumNotionalPositive | crypto_trading_agent/simulation.py:481 | committed notional is non-negative and zero iff no position is open |
| Positions.UnrealizedConcat | crypto_trading_agent/simulation.py:88-93 | the unrealized PnL of a concatenation is the sum of the two parts |
| Reports.PortfolioState | crypto_trading_agent/simulation.py:300-310 | the snapshot reports the account's initial balance and cash, the realized PnL summed over the whole history, the open positions and both counts; its equity is the ledger's equity and equals cash when nothing is open; under conservation, cash + committed == initial balance + realized PnL |
| Reports.CountsPartition | crypto_trading_agent/simulation.py:326-327 | each trade is exactly one of a win, a loss or break-even |
| Reports.CountsConcat | crypto_trading_agent/simulation.py:326-327 | wins and losses of two consecutive windows add up |
| Reports.CountsSingle | crypto_trading_agent/simulation.py:326-327 | a single trade is a win iff its PnL is positive and a loss iff it is negative |
| Reports.WinRate | crypto_trading_agent/simulation.py:329 | the win rate is wins / total, or 0 with no trades; it lies in [0, 1], is 0 iff there are no wins and 1 iff every trade won |
| Reports.TradeHistorySummary | crypto_trading_agent/simulation.py:325-339 | the window is `history[-limit:]`: the last min(limit, n) trades for a positive limit, all trades for zero, all but the first -limit for a negative one; wins and losses are the counts of positive and negative PnL in the window, and wins + losses <= total; the win rate is wins / total, 0 with no trades, lies in [0, 1], is 0 iff there are no wins and 1 iff every trade won; the total PnL is the window's sum, and with the earlier trades' PnL it gives the whole realized PnL |
| Reports.WindowShape | crypto_trading_agent/simulation.py:325 | Python's negative-index slice splits the history into older trades followed by the window |
| Reports.ExplainCurrentExposure | crypto_trading_agent/simulation.py:479-490 | carries the portfolio snapshot and the open count; committed notional is non-negative, zero iff nothing is open, and under conservation equals initial balance + realized PnL - cash |
| RiskSizing.StopDistance | crypto_trading_agent/simulation.py:447 | the fractional stop distance is non-negative, zero iff the stop equals the last price, and times the last price equals the price gap on either side |
| RiskSizing.SuggestNotionalFromRisk | crypto_trading_agent/simulation.py:421-469 | refusals in the code's order: non-positive equity, no last price, non-positive risk, zero stop distance; success iff none applies; on success it reports the equity and last price used, risk amount = equity * risk% / 100 > 0, a positive notional with notional * stop distance == risk amount; the account is not changed |
| RiskSizing.LongStopLosesRiskAmount | crypto_trading_agent/simulation.py:398-400 | a long opened at the last price with the suggested notional loses exactly the risk amount when closed at a stop below that price |
| RiskSizing.ShortStopLosesLessThanRiskAmount | crypto_trading_agent/simulation.py:398-400 | for a short, closing at a stop above the last price loses, but strictly less than the risk amount |
| Scenarios.OpenLongScenario | crypto_trading_agent/simulation.py:185-217 | "LONG" of 1000 at last price 100 with stop 90 is accepted and leaves 9000 cash |
| Scenarios.StopLossScenario | crypto_trading_agent/simulation.py:132-146 | that long is closed by a price of 89 with PnL -110, and cash becomes 9890 |
| Scenarios.ShortPnlScenario | crypto_trading_agent/simulation.py:113-114 | a short of 1000 at 100 closed at 80 realizes 250 |
| Scenarios.InsufficientFundsScenario | crypto_trading_agent/simulation.py:192-195 | a notional of 20000 against 10000 cash fails with both amounts |
| Scenarios.RiskSizingScenario | crypto_trading_agent/simulation.py:447-457 | equity 10000, risk 1%, last price 100, stop 95 gives risk amount 100 and notional 2000 |
| Scenarios.EmptyHistoryScenario | crypto_trading_agent/simulation.py:328-329 | an account without trades reports zero trades and a win rate of 0 |

## Left out

- Timestamps (`opened_at`, `closed_at`, `_now`): they are clock reads and no decision depends on them.
- Random identifiers (`uuid.uuid4`): a counter `nextId` issues them instead; it is not rewound by reset, so identifiers stay unique, as random ones do with overwhelming probability.
- Floating point: amounts and prices are exact reals; rounding, `inf` and `nan` are not modelled, nor is the `float(...)` conversion of arguments.
- Ledger.PlaceOrder: a supplied entry price must be positive, which the source does not check. A zero entry price makes a long's PnL divide by zero (`simulation.py:112`). A negative one never divides by zero, but it is not a price; the model excludes it so that every recorded position has a positive entry price.
- Ledger.ClosePosition and Ledger.UpdatePrice: a supplied price must be positive, which the source does not check either. A zero price makes a short's PnL divide by zero (`simulation.py:114`). A negative price would be accepted by the source and would close a long at a loss greater than its notional, so cash could fall and could go negative; the model does not cover such ticks, and its facts that closes never lower cash rest on this exclusion. `Ledger.Valid` carries positivity for recorded prices.
- Positions.ParseSide: lower-casing is modelled on ASCII letters only. Python's full Unicode `str.lower` cannot turn any other string into "long" or "short".
- Serialisation (`asdict`) and the human-readable message strings: reports carry the position records and the numbers, and failures carry the values that caused them.
- The `except Exception` branch of the risk sizing (`simulation.py:470-471`): every account has positive last prices (`Ledger.Valid`), so nothing in that body can raise.
- The error branch of `_check_and_maybe_close`'s call to close: the position comes from the live open list, so it is always found and a price is given.
- The process-wide `GLOBAL_SIMULATOR`: the account is passed explicitly to every function.
- `eval_strategy_quality` and `eval_last_error_context`: they only rename fields of the summaries that are modelled.
- The agent's own cap on notional (a share of equity, in `agent.py`), tool wiring and prompts: they are outside the ledger.
- Market data fetching and indicators (`market_tools.py`): network I/O. In the model, prices arrive only through `Ledger.UpdatePrice`.
