/** The single-account paper-trading ledger (`TradingSimulator`): cash, open
    positions in insertion order, the append-only trade history and the last
    price per market, with its transitions as pure functions. */
module Ledger {
  import opened Results
  import opened Positions

  /** Balance the process-wide simulator starts with. */
  const DefaultInitialBalance: real := 10000.0

  /** Why an operation was refused. The source raises `ValueError` or
      `KeyError`, or returns an error dictionary, for these. */
  datatype Failure =
    | InvalidSide(side: string)
    | NonPositiveNotional(notional: real)
    | InsufficientFunds(requested: real, available: real)
    | NoPriceAvailable(pair: string)
    | NotFound(id: nat)
    | NonPositiveEquity(equity: real)
    | NonPositiveRisk(riskPercent: real)
    | ZeroStopDistance(stopLoss: real)

  /** The account. `positions` keeps the insertion order of the source's
      dictionary; `nextId` stands for the identifier generator. */
  datatype Account = Account(
    initialBalance: real,
    cash: real,
    positions: seq<Position>,
    history: seq<Position>,
    lastPrices: map<string, real>,
    nextId: nat)

  /** Invariant of every reachable account: open positions are open, history
      entries are closed with the PnL formula at their close price, no
      identifier occurs twice among open and closed positions, every issued
      identifier is below `nextId`, and every known price is positive. */
  predicate Valid(a: Account) {
    && (forall i :: 0 <= i < |a.positions| ==>
          OpenWellFormed(a.positions[i]) && a.positions[i].id < a.nextId)
    && (forall i :: 0 <= i < |a.history| ==>
          ClosedWellFormed(a.history[i]) && a.history[i].id < a.nextId)
    && DistinctIds(a.positions + a.history)
    && (forall pair :: pair in a.lastPrices ==> a.lastPrices[pair] > 0.0)
  }

  /** Cash conservation: cash plus the notional still committed equals the
      initial balance plus everything realized so far. */
  predicate Conserved(a: Account) {
    a.cash + Sum(a.positions, Notional) == a.initialBalance + Sum(a.history, PnlOrZero)
  }

  /** A fresh account holding `initialBalance` in cash. */
  function Init(initialBalance: real): (a: Account)
    ensures Valid(a) && Conserved(a)
    ensures a.initialBalance == initialBalance && a.cash == initialBalance
    ensures a.positions == [] && a.history == [] && a.lastPrices == map[]
  {
    Account(initialBalance, initialBalance, [], [], map[], 0)
  }

  /** Clears positions, history and prices and restores the cash to the
      (possibly new) initial balance. The identifier generator is not
      rewound, so no identifier issued before the reset is issued again. */
  function Reset(a: Account, initialBalance: Option<real>): (r: Account)
    ensures Valid(r) && Conserved(r)
    ensures r.initialBalance == initialBalance.GetOr(a.initialBalance)
    ensures r.cash == r.initialBalance
    ensures r.positions == [] && r.history == [] && r.lastPrices == map[]
    ensures r.nextId == a.nextId
  {
    var balance := if initialBalance.Some? then initialBalance.value else a.initialBalance;
    Account(balance, balance, [], [], map[], a.nextId)
  }

  /** Opens a position: validates the side, the notional, the cash and the
      price in that order, then reserves the notional. */
  function PlaceOrder(
    a: Account, pair: string, side: string, notional: real,
    entryPrice: Option<real>, stopLoss: Option<real>, takeProfit: Option<real>
  ): (r: Result<(Account, Position), Failure>)
    requires Valid(a)
    requires entryPrice.Some? ==> entryPrice.value > 0.0
    ensures ParseSide(side).None? ==> r == Err(InvalidSide(side))
    ensures ParseSide(side).Some? && notional <= 0.0 ==> r == Err(NonPositiveNotional(notional))
    ensures ParseSide(side).Some? && 0.0 < notional && a.cash < notional ==>
              r == Err(InsufficientFunds(notional, a.cash))
    ensures ParseSide(side).Some? && 0.0 < notional <= a.cash && entryPrice.None? && pair !in a.lastPrices ==>
              r == Err(NoPriceAvailable(pair))
    ensures r.Ok? <==> ParseSide(side).Some? && 0.0 < notional <= a.cash &&
                       (entryPrice.Some? || pair in a.lastPrices)
    ensures r.Ok? ==>
              var (b, p) := r.value;
              && Valid(b)
              && p.status == Open
              && p.id == a.nextId
              && p.id !in IdsOf(a.positions + a.history)
              && b.positions == a.positions + [p]
              && b.history == a.history
              && b.lastPrices == a.lastPrices
              && b.initialBalance == a.initialBalance
              && b.cash == a.cash - notional
              && b.cash >= 0.0
              && b.nextId > a.nextId
              && p.pair == pair && Some(p.side) == ParseSide(side) && p.notional == notional
              && p.stopLoss == stopLoss && p.takeProfit == takeProfit
              && p.entryPrice == (if entryPrice.Some? then entryPrice.value else a.lastPrices[pair])
  {
    var parsed := ParseSide(side);
    if parsed.None? then Err(InvalidSide(side))
    else if notional <= 0.0 then Err(NonPositiveNotional(notional))
    else if notional > a.cash then Err(InsufficientFunds(notional, a.cash))
    else if entryPrice.None? && pair !in a.lastPrices then Err(NoPriceAvailable(pair))
    else
      var price := if entryPrice.Some? then entryPrice.value else a.lastPrices[pair];
      var p := Position(a.nextId, pair, parsed.value, price, notional, stopLoss, takeProfit, Open);
      var b := a.(cash := a.cash - notional, positions := a.positions + [p], nextId := a.nextId + 1);
      PlaceKeepsValid(a, p);
      Ok((b, p))
  }

  /** Identifiers of a sequence of positions. */
  function IdsOf(ps: seq<Position>): set<nat> {
    set i | 0 <= i < |ps| :: ps[i].id
  }

  lemma PlaceKeepsValid(a: Account, p: Position)
    requires Valid(a) && OpenWellFormed(p) && p.id == a.nextId
    ensures p.id !in IdsOf(a.positions + a.history)
    ensures Valid(a.(cash := a.cash - p.notional, positions := a.positions + [p], nextId := a.nextId + 1))
  {
    var b := a.(cash := a.cash - p.notional, positions := a.positions + [p], nextId := a.nextId + 1);
    var all := a.positions + a.history;
    var all' := b.positions + b.history;
    forall i | 0 <= i < |all|
      ensures all[i].id < a.nextId
    {
      if i >= |a.positions| {
        assert all[i] == a.history[i - |a.positions|];
      }
    }
    // Where each entry of the new sequence came from in the old one.
    forall i | 0 <= i < |all'| && i != |a.positions|
      ensures all'[i] == all[if i < |a.positions| then i else i - 1]
    {
    }
    forall i, j | 0 <= i < j < |all'|
      ensures all'[i].id != all'[j].id
    {
      if i == |a.positions| {
        assert all'[j].id < a.nextId;
      } else if j == |a.positions| {
        assert all'[i].id < a.nextId;
      }
    }
  }

  /** Closes the open position `id` at `price`, or at the market's last price
      when none is given: credits its notional plus PnL to cash and moves it,
      marked closed, to the end of history. */
  function ClosePosition(a: Account, id: nat, price: Option<real>): (r: Result<(Account, Position), Failure>)
    requires Valid(a)
    requires price.Some? ==> price.value > 0.0
    ensures (forall q :: q in a.positions ==> q.id != id) <==> r == Err(NotFound(id))
    ensures forall q :: q in a.positions && q.id == id ==>
              (price.None? && q.pair !in a.lastPrices <==> r == Err(NoPriceAvailable(q.pair)))
    ensures r.Err? ==> r.error.NotFound? || r.error.NoPriceAvailable?
    ensures r.Ok? ==>
              var (b, c) := r.value;
              && Valid(b)
              && c.id == id
              && c.(status := Open) in a.positions
              && ClosedWellFormed(c)
              && (price.Some? ==> c.status.closePrice == price.value)
              && (price.None? ==> c.pair in a.lastPrices && c.status.closePrice == a.lastPrices[c.pair])
              && b.history == a.history + [c]
              && (forall q :: q in b.positions <==> q in a.positions && q.id != id)
              && IndexOf(a.positions, id).Some?
              && b.positions == RemoveAt(a.positions, IndexOf(a.positions, id).value)
              && b.cash == a.cash + c.notional + c.status.pnl
              && b.cash > a.cash
              && b.lastPrices == a.lastPrices
              && b.initialBalance == a.initialBalance
              && b.nextId == a.nextId
  {
    match IndexOf(a.positions, id)
    case None => Err(NotFound(id))
    case Some(k) =>
      var pos := a.positions[k];
      OpenIdsUnique(a, k);
      if !pos.status.Open? then Ok((a, pos))
      else if price.None? && pos.pair !in a.lastPrices then Err(NoPriceAvailable(pos.pair))
      else
        var px := if price.Some? then price.value else a.lastPrices[pos.pair];
        var c := CloseAt(pos, px);
        var b := a.(cash := a.cash + pos.notional + c.status.pnl,
                    positions := RemoveAt(a.positions, k),
                    history := a.history + [c]);
        PnlSign(pos, px);
        CloseKeepsValid(a, k, c);
        Ok((b, c))
  }

  /** Open identifiers are unique: the entry at `k` is the only one with its id. */
  lemma OpenIdsUnique(a: Account, k: nat)
    requires Valid(a) && k < |a.positions|
    ensures forall q :: q in a.positions && q.id == a.positions[k].id ==> q == a.positions[k]
  {
    var all := a.positions + a.history;
    forall q | q in a.positions && q.id == a.positions[k].id
      ensures q == a.positions[k]
    {
      var i :| 0 <= i < |a.positions| && a.positions[i] == q;
      assert all[i] == q && all[k] == a.positions[k];
    }
  }

  lemma CloseKeepsValid(a: Account, k: nat, c: Position)
    requires Valid(a) && k < |a.positions|
    requires ClosedWellFormed(c) && c.id == a.positions[k].id
    ensures forall q :: q in RemoveAt(a.positions, k) <==> q in a.positions && q.id != c.id
    ensures Valid(a.(positions := RemoveAt(a.positions, k), history := a.history + [c]))
  {
    var ps, h := a.positions, a.history;
    var ps' := RemoveAt(ps, k);
    var all, all' := ps + h, ps' + (h + [c]);
    assert forall i :: 0 <= i < |h| ==> all[|ps| + i] == h[i];
    // Where each entry of the new sequence came from in the old one.
    forall i | 0 <= i < |all'|
      ensures all'[i].id == all[if i < k then i else if i < |all'| - 1 then i + 1 else k].id
    {
    }
    forall i, j | 0 <= i < j < |all'|
      ensures all'[i].id != all'[j].id
    {
      var mi := if i < k then i else if i < |all'| - 1 then i + 1 else k;
      var mj := if j < k then j else if j < |all'| - 1 then j + 1 else k;
      assert mi != mj;
      assert all[mi].id != all[mj].id;
    }
    forall q | q in ps
      ensures q in ps' <==> q.id != c.id
    {
      var i :| 0 <= i < |ps| && ps[i] == q;
      if i < k {
        assert ps'[i] == q;
        assert all[i] == q && all[k] == ps[k];
      } else if i > k {
        assert ps'[i - 1] == q;
        assert all[i] == q && all[k] == ps[k];
      } else {
        forall j | 0 <= j < |ps'|
          ensures ps'[j].id != c.id
        {
          var m := if j < k then j else j + 1;
          assert all[m] == ps'[j] && all[k] == ps[k];
        }
      }
    }
  }

  // ---------------------------------------------------------------------------
  // Price ingestion
  // ---------------------------------------------------------------------------

  /** The per-position check of a price ingestion: closes `p` at `price` when
      its stop-loss or take-profit fired. The close cannot be refused here,
      since `p` is open in `a`; a refusal would leave `a` as it is. */
  function CheckAndMaybeClose(a: Account, p: Position, price: real): (r: Account)
    requires Valid(a) && price > 0.0
    ensures Valid(r)
    ensures r.lastPrices == a.lastPrices && r.initialBalance == a.initialBalance && r.nextId == a.nextId
    ensures !Triggered(p, price) ==> r == a
    ensures p in a.positions && Triggered(p, price) ==>
              && r.history == a.history + [CloseAt(p, price)]
              && r.cash == a.cash + p.notional + PnlAt(p, price)
              && (forall q :: q in r.positions <==> q in a.positions && q.id != p.id)
  {
    TriggeredCloseSucceeds(a, p, price);
    if Triggered(p, price) then
      match ClosePosition(a, p.id, Some(price))
      case Ok((b, _)) => b
      case Err(_) => a
    else a
  }

  /** Closing an open position of `a` at a given positive price is never
      refused, and records exactly `CloseAt(p, price)`. */
  lemma TriggeredCloseSucceeds(a: Account, p: Position, price: real)
    requires Valid(a) && price > 0.0
    ensures p in a.positions ==> ClosePosition(a, p.id, Some(price)).Ok?
    ensures p in a.positions ==>
              var (b, c) := ClosePosition(a, p.id, Some(price)).value;
              && c == CloseAt(p, price)
              && b.history == a.history + [c]
              && b.cash == a.cash + p.notional + PnlAt(p, price)
              && (forall q :: q in b.positions <==> q in a.positions && q.id != p.id)
  {
    if p in a.positions {
      var k :| 0 <= k < |a.positions| && a.positions[k] == p;
      OpenIdsUnique(a, k);
      var (b, c) := ClosePosition(a, p.id, Some(price)).value;
      var o := c.(status := Open);
      assert o == p;
      assert c == o.(status := c.status);
    }
  }

  /** The ingestion loop over a snapshot `todo` of the open positions: every
      open position on `pair` is checked against `price`. */
  function Sweep(a: Account, todo: seq<Position>, pair: string, price: real): (r: Account)
    requires Valid(a) && price > 0.0
    ensures Valid(r)
    ensures r.lastPrices == a.lastPrices && r.initialBalance == a.initialBalance && r.nextId == a.nextId
    decreases |todo|
  {
    if |todo| == 0 then a
    else
      var p := todo[0];
      if p.pair != pair || !p.status.Open? then Sweep(a, todo[1..], pair, price)
      else Sweep(CheckAndMaybeClose(a, p, price), todo[1..], pair, price)
  }

  /** Records `price` as the last price of `pair`, then closes, at `price`,
      every open position on `pair` whose stop-loss or take-profit fired. */
  function UpdatePrice(a: Account, pair: string, price: real): (r: Account)
    requires Valid(a) && price > 0.0
    ensures Valid(r)
    ensures r.lastPrices == a.lastPrices[pair := price]
    ensures r.initialBalance == a.initialBalance && r.nextId == a.nextId
  {
    Sweep(a.(lastPrices := a.lastPrices[pair := price]), a.positions, pair, price)
  }

  // ---------------------------------------------------------------------------
  // Equity
  // ---------------------------------------------------------------------------

  /** Cash plus the unrealized PnL of every open position whose market has a
      last price. The notional committed to open positions is not part of
      it. */
  function Equity(a: Account): (e: real)
    requires Valid(a)
    ensures |a.positions| == 0 ==> e == a.cash
    ensures (forall i :: 0 <= i < |a.positions| ==> a.positions[i].pair !in a.lastPrices) ==> e == a.cash
  {
    UnmarkedIsZero(a.positions, a.lastPrices);
    a.cash + Unrealized(a.positions, a.lastPrices)
  }
}
