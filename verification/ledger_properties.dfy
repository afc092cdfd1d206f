/** Properties of the ledger transitions: cash conservation, the one-way
    open-to-closed lifecycle, what a price ingestion closes, and how opening or
    closing at the market price moves equity. */
module LedgerProperties {
  import opened Results
  import opened Positions
  import opened Ledger

  // ---------------------------------------------------------------------------
  // Reference definition of a price ingestion
  // ---------------------------------------------------------------------------

  /** `p` is closed by an ingestion of `price` for `pair`. */
  predicate Fires(p: Position, pair: string, price: real) {
    p.pair == pair && p.status.Open? && Triggered(p, price)
  }

  /** The positions, in order, that an ingestion closes. */
  function Fired(ps: seq<Position>, pair: string, price: real): seq<Position> {
    if |ps| == 0 then []
    else (if Fires(ps[0], pair, price) then [ps[0]] else []) + Fired(ps[1..], pair, price)
  }

  /** The positions, in order, that an ingestion leaves open. */
  function Kept(ps: seq<Position>, pair: string, price: real): seq<Position> {
    if |ps| == 0 then []
    else (if Fires(ps[0], pair, price) then [] else [ps[0]]) + Kept(ps[1..], pair, price)
  }

  /** The two filters select exactly the fired and the non-fired positions. */
  lemma {:induction false} FilterMembers(ps: seq<Position>, pair: string, price: real)
    ensures forall q :: q in Fired(ps, pair, price) <==> q in ps && Fires(q, pair, price)
    ensures forall q :: q in Kept(ps, pair, price) <==> q in ps && !Fires(q, pair, price)
  {
    if |ps| > 0 {
      FilterMembers(ps[1..], pair, price);
      assert ps == [ps[0]] + ps[1..];
    }
  }

  /** The history records of the positions `ps` closed at `price`. */
  function CloseAll(ps: seq<Position>, price: real): (r: seq<Position>)
    requires forall q :: q in ps ==> q.entryPrice > 0.0
    requires price > 0.0
    ensures |r| == |ps|
    ensures forall i :: 0 <= i < |ps| ==> r[i] == CloseAt(ps[i], price)
  {
    if |ps| == 0 then [] else [CloseAt(ps[0], price)] + CloseAll(ps[1..], price)
  }

  /** Splitting positions into those closed and those kept splits any sum. */
  lemma {:induction false} SumPartition(ps: seq<Position>, pair: string, price: real, f: Position -> real)
    ensures Sum(ps, f) == Sum(Kept(ps, pair, price), f) + Sum(Fired(ps, pair, price), f)
  {
    if |ps| > 0 {
      var p, rest := ps[0], ps[1..];
      SumPartition(rest, pair, price, f);
      assert ps == [p] + rest;
      SumCons(p, rest, f);
      if Fires(p, pair, price) {
        assert Kept(ps, pair, price) == Kept(rest, pair, price);
        assert Fired(ps, pair, price) == [p] + Fired(rest, pair, price);
        SumCons(p, Fired(rest, pair, price), f);
      } else {
        assert Fired(ps, pair, price) == Fired(rest, pair, price);
        assert Kept(ps, pair, price) == [p] + Kept(rest, pair, price);
        SumCons(p, Kept(rest, pair, price), f);
      }
    }
  }

  lemma DistinctOpenIds(a: Account)
    requires Valid(a)
    ensures DistinctIds(a.positions)
  {
    var all := a.positions + a.history;
    assert forall i :: 0 <= i < |a.positions| ==> all[i] == a.positions[i];
  }

  /** `r` is what an account with `history` and `cash` becomes after closing,
      at `price`, the fired positions of `todo` and keeping the others after
      the positions already visited (`kept`). */
  predicate SweepOutcome(history: seq<Position>, cash: real, kept: seq<Position>, todo: seq<Position>, pair: string, price: real, r: Account)
    requires price > 0.0
  {
    var fired := Fired(todo, pair, price);
    && (forall q :: q in fired ==> q.entryPrice > 0.0)
    && r.positions == kept + Kept(todo, pair, price)
    && r.history == history + CloseAll(fired, price)
    && r.cash == cash + Sum(fired, Notional) + Sum(CloseAll(fired, price), PnlOrZero)
  }

  /** One step of the ingestion loop at a time: with the positions already
      visited (`kept`, all still open) followed by the snapshot still to visit
      (`todo`), the loop closes exactly the fired positions of `todo`, in
      order, and keeps the rest. */
  lemma {:induction false} SweepSpec(b: Account, kept: seq<Position>, todo: seq<Position>, pair: string, price: real)
    requires Valid(b) && price > 0.0
    requires b.positions == kept + todo
    ensures SweepOutcome(b.history, b.cash, kept, todo, pair, price, Sweep(b, todo, pair, price))
    decreases |todo|
  {
    FilterMembers(todo, pair, price);
    forall q | q in Fired(todo, pair, price)
      ensures q.entryPrice > 0.0
    {
      var i :| 0 <= i < |todo| && todo[i] == q;
      assert b.positions[|kept| + i] == q;
    }
    if |todo| == 0 {
      assert kept + [] == kept;
      assert b.history + [] == b.history;
    } else {
      var p, rest := todo[0], todo[1..];
      assert b.positions[|kept|] == p;
      if !Fires(p, pair, price) {
        SweepSkip(b, kept, todo, pair, price);
      } else {
        SweepClose(b, kept, todo, pair, price);
      }
    }
  }

  /** The inductive step of `SweepSpec` for a position the ingestion keeps. */
  lemma {:induction false} SweepSkip(b: Account, kept: seq<Position>, todo: seq<Position>, pair: string, price: real)
    requires Valid(b) && price > 0.0
    requires b.positions == kept + todo && |todo| > 0 && !Fires(todo[0], pair, price)
    ensures SweepOutcome(b.history, b.cash, kept, todo, pair, price, Sweep(b, todo, pair, price))
    decreases |todo|, 0
  {
    var p, rest := todo[0], todo[1..];
    var r := Sweep(b, rest, pair, price);
    assert Sweep(b, todo, pair, price) == r;
    assert b.positions == (kept + [p]) + rest;
    SweepSpec(b, kept + [p], rest, pair, price);
    var kr := Kept(rest, pair, price);
    assert Kept(todo, pair, price) == [p] + kr;
    assert r.positions == kept + ([p] + kr);
    assert Fired(todo, pair, price) == Fired(rest, pair, price);
  }

  /** The inductive step of `SweepSpec` for a position the ingestion closes. */
  lemma {:induction false} SweepClose(b: Account, kept: seq<Position>, todo: seq<Position>, pair: string, price: real)
    requires Valid(b) && price > 0.0
    requires b.positions == kept + todo && |todo| > 0 && Fires(todo[0], pair, price)
    requires todo[0].entryPrice > 0.0
    ensures SweepOutcome(b.history, b.cash, kept, todo, pair, price, Sweep(b, todo, pair, price))
    decreases |todo|, 0
  {
    var p, rest := todo[0], todo[1..];
    var c := CloseAt(p, price);
    var b' := b.(cash := b.cash + p.notional + c.status.pnl,
                 positions := kept + rest,
                 history := b.history + [c]);
    FiredClose(b, kept, todo, pair, price);
    var m := CheckAndMaybeClose(b, p, price);
    assert m == b';
    var r := Sweep(m, rest, pair, price);
    assert Sweep(b, todo, pair, price) == r by {
      assert p.pair == pair && p.status.Open?;
    }
    SweepSpec(b', kept, rest, pair, price);
    OutcomeAfterClose(b.history, b.cash, kept, todo, pair, price, r);
  }

  /** The bookkeeping of one close, in terms of the reference filters. */
  lemma OutcomeAfterClose(history: seq<Position>, cash: real, kept: seq<Position>, todo: seq<Position>, pair: string, price: real, r: Account)
    requires price > 0.0 && |todo| > 0 && Fires(todo[0], pair, price) && todo[0].entryPrice > 0.0
    requires SweepOutcome(history + [CloseAt(todo[0], price)],
                          cash + todo[0].notional + CloseAt(todo[0], price).status.pnl,
                          kept, todo[1..], pair, price, r)
    ensures SweepOutcome(history, cash, kept, todo, pair, price, r)
  {
    var p, rest := todo[0], todo[1..];
    var c := CloseAt(p, price);
    var fr := Fired(rest, pair, price);
    var cr := CloseAll(fr, price);
    var fired := Fired(todo, pair, price);
    assert fired == [p] + fr;
    assert Kept(todo, pair, price) == Kept(rest, pair, price);
    CloseAllCons(p, fr, price);
    ConcatAssoc(history, [c], cr);
    SumCons(p, fr, Notional);
    SumCons(c, cr, PnlOrZero);
  }

  lemma CloseAllCons(p: Position, ps: seq<Position>, price: real)
    requires price > 0.0 && p.entryPrice > 0.0
    requires forall q :: q in ps ==> q.entryPrice > 0.0
    ensures CloseAll([p] + ps, price) == [CloseAt(p, price)] + CloseAll(ps, price)
  {
    assert ([p] + ps)[1..] == ps;
  }

  /** The close the ingestion loop performs on a fired position at the head
      of `todo`. */
  lemma FiredClose(b: Account, kept: seq<Position>, todo: seq<Position>, pair: string, price: real)
    requires Valid(b) && price > 0.0
    requires b.positions == kept + todo && |todo| > 0 && Fires(todo[0], pair, price)
    requires todo[0].entryPrice > 0.0
    ensures CheckAndMaybeClose(b, todo[0], price) ==
              b.(cash := b.cash + todo[0].notional + CloseAt(todo[0], price).status.pnl,
                 positions := kept + todo[1..],
                 history := b.history + [CloseAt(todo[0], price)])
  {
    var p, k := todo[0], |kept|;
    assert b.positions[k] == p;
    DistinctOpenIds(b);
    IndexOfDistinct(b.positions, k);
    assert RemoveAt(kept + todo, k) == kept + todo[1..];
  }

  /** What a price ingestion does to the open positions, the history and the
      cash: it closes at `price`, in insertion order, exactly the open
      positions on `pair` whose stop-loss or take-profit fired; every other
      position stays open and unchanged. */
  lemma UpdatePriceCloses(a: Account, pair: string, price: real)
    requires Valid(a) && price > 0.0
    ensures forall q :: q in Fired(a.positions, pair, price) ==> q.entryPrice > 0.0
    ensures UpdatePrice(a, pair, price).positions == Kept(a.positions, pair, price)
    ensures forall q :: q in a.positions ==>
              (q in UpdatePrice(a, pair, price).positions <==> !(q.pair == pair && Triggered(q, price)))
    ensures UpdatePrice(a, pair, price).history ==
              a.history + CloseAll(Fired(a.positions, pair, price), price)
    ensures UpdatePrice(a, pair, price).cash ==
              a.cash + Sum(Fired(a.positions, pair, price), Notional)
              + Sum(CloseAll(Fired(a.positions, pair, price), price), PnlOrZero)
  {
    var b := a.(lastPrices := a.lastPrices[pair := price]);
    assert [] + a.positions == a.positions;
    FilterMembers(a.positions, pair, price);
    SweepSpec(b, [], a.positions, pair, price);
    assert [] + Kept(a.positions, pair, price) == Kept(a.positions, pair, price);
  }

  // ---------------------------------------------------------------------------
  // Cash conservation
  // ---------------------------------------------------------------------------

  /** Opening a position moves exactly its notional from cash to committed. */
  lemma PlaceOrderConserves(
    a: Account, pair: string, side: string, notional: real,
    entryPrice: Option<real>, stopLoss: Option<real>, takeProfit: Option<real>)
    requires Valid(a) && Conserved(a)
    requires entryPrice.Some? ==> entryPrice.value > 0.0
    ensures PlaceOrder(a, pair, side, notional, entryPrice, stopLoss, takeProfit).Ok? ==>
              Conserved(PlaceOrder(a, pair, side, notional, entryPrice, stopLoss, takeProfit).value.0)
  {
    var r := PlaceOrder(a, pair, side, notional, entryPrice, stopLoss, takeProfit);
    if r.Ok? {
      var (b, p) := r.value;
      SumConcat(a.positions, [p], Notional);
    }
  }

  /** Closing a position returns its notional plus PnL to cash and books the
      same PnL as realized. */
  lemma ClosePositionConserves(a: Account, id: nat, price: Option<real>)
    requires Valid(a) && Conserved(a)
    requires price.Some? ==> price.value > 0.0
    ensures ClosePosition(a, id, price).Ok? ==> Conserved(ClosePosition(a, id, price).value.0)
  {
    var r := ClosePosition(a, id, price);
    if r.Ok? {
      var (b, c) := r.value;
      var k := IndexOf(a.positions, id).value;
      SumRemoveAt(a.positions, k, Notional);
      SumConcat(a.history, [c], PnlOrZero);
    }
  }

  /** A price ingestion, with all the closes it triggers, preserves cash
      conservation. */
  lemma UpdatePriceConserves(a: Account, pair: string, price: real)
    requires Valid(a) && Conserved(a) && price > 0.0
    ensures Conserved(UpdatePrice(a, pair, price))
  {
    UpdatePriceCloses(a, pair, price);
    var fired := Fired(a.positions, pair, price);
    SumPartition(a.positions, pair, price, Notional);
    SumConcat(a.history, CloseAll(fired, price), PnlOrZero);
  }

  /** One call into the ledger, with its arguments. */
  datatype Op =
    | PlaceOp(pair: string, side: string, notional: real,
              entryPrice: Option<real>, stopLoss: Option<real>, takeProfit: Option<real>)
    | CloseOp(id: nat, price: Option<real>)
    | PriceOp(pair: string, tick: real)
    | ResetOp(initialBalance: Option<real>)

  /** The caller's side of each operation: supplied prices are positive. */
  predicate Admissible(op: Op) {
    match op
    case PlaceOp(_, _, _, entryPrice, _, _) => entryPrice.Some? ==> entryPrice.value > 0.0
    case CloseOp(_, price) => price.Some? ==> price.value > 0.0
    case PriceOp(_, tick) => tick > 0.0
    case ResetOp(_) => true
  }

  /** Applies one operation; a refused operation leaves the account as it was. */
  function Step(a: Account, op: Op): (r: Account)
    requires Valid(a) && Admissible(op)
    ensures Valid(r)
  {
    match op
    case PlaceOp(pair, side, notional, entryPrice, stopLoss, takeProfit) =>
      (match PlaceOrder(a, pair, side, notional, entryPrice, stopLoss, takeProfit)
       case Ok((b, _)) => b
       case Err(_) => a)
    case CloseOp(id, price) =>
      (match ClosePosition(a, id, price)
       case Ok((b, _)) => b
       case Err(_) => a)
    case PriceOp(pair, price) => UpdatePrice(a, pair, price)
    case ResetOp(balance) => Reset(a, balance)
  }

  /** Applies a sequence of operations in order. */
  function Run(a: Account, ops: seq<Op>): (r: Account)
    requires Valid(a)
    requires forall i :: 0 <= i < |ops| ==> Admissible(ops[i])
    ensures Valid(r)
    decreases |ops|
  {
    if |ops| == 0 then a else Run(Step(a, ops[0]), ops[1..])
  }

  /** Cash conservation holds after any sequence of operations started from a
      valid account that conserves cash, such as a fresh one (`Init`). */
  lemma {:induction false} RunConserves(a: Account, ops: seq<Op>)
    requires Valid(a) && Conserved(a)
    requires forall i :: 0 <= i < |ops| ==> Admissible(ops[i])
    ensures Conserved(Run(a, ops))
    decreases |ops|
  {
    if |ops| > 0 {
      var op := ops[0];
      match op {
        case PlaceOp(pair, side, notional, entryPrice, stopLoss, takeProfit) =>
          PlaceOrderConserves(a, pair, side, notional, entryPrice, stopLoss, takeProfit);
        case CloseOp(id, price) =>
          ClosePositionConserves(a, id, price);
        case PriceOp(pair, price) =>
          UpdatePriceConserves(a, pair, price);
        case ResetOp(_) =>
      }
      RunConserves(Step(a, op), ops[1..]);
    }
  }

  // ---------------------------------------------------------------------------
  // Cash never goes negative
  // ---------------------------------------------------------------------------

  /** Closing open positions never costs cash: each close returns its
      notional plus a PnL that is above minus the notional. */
  lemma {:induction false} ClosesReturnCash(ps: seq<Position>, price: real)
    requires price > 0.0
    requires forall q :: q in ps ==> q.entryPrice > 0.0 && q.notional > 0.0
    ensures Sum(ps, Notional) + Sum(CloseAll(ps, price), PnlOrZero) >= 0.0
  {
    if |ps| > 0 {
      var p, rest := ps[0], ps[1..];
      assert p in ps;
      ClosesReturnCash(rest, price);
      PnlSign(p, price);
      SumCons(CloseAt(p, price), CloseAll(rest, price), PnlOrZero);
    }
  }

  /** A price ingestion never lowers cash. */
  lemma UpdatePriceCashGrows(a: Account, pair: string, price: real)
    requires Valid(a) && price > 0.0
    ensures UpdatePrice(a, pair, price).cash >= a.cash
  {
    UpdatePriceCloses(a, pair, price);
    FilterMembers(a.positions, pair, price);
    var fired := Fired(a.positions, pair, price);
    forall q | q in fired
      ensures q.entryPrice > 0.0 && q.notional > 0.0
    {
      var j :| 0 <= j < |a.positions| && a.positions[j] == q;
    }
    ClosesReturnCash(fired, price);
  }

  /** Resets, if any, are to a non-negative balance. */
  predicate NonNegativeReset(op: Op) {
    op.ResetOp? && op.initialBalance.Some? ==> op.initialBalance.value >= 0.0
  }

  /** One operation keeps cash and the initial balance non-negative: opening
      is refused beyond the cash, and closes only return cash. */
  lemma StepKeepsCashNonNegative(a: Account, op: Op)
    requires Valid(a) && Admissible(op) && NonNegativeReset(op)
    requires a.cash >= 0.0 && a.initialBalance >= 0.0
    ensures Step(a, op).cash >= 0.0 && Step(a, op).initialBalance >= 0.0
  {
    match op
    case PriceOp(pair, price) =>
      UpdatePriceCashGrows(a, pair, price);
    case _ =>
  }

  /** Cash is never negative after any sequence of operations from an account
      with non-negative cash and balance, as long as resets keep the balance
      non-negative. */
  lemma {:induction false} RunKeepsCashNonNegative(a: Account, ops: seq<Op>)
    requires Valid(a) && a.cash >= 0.0 && a.initialBalance >= 0.0
    requires forall i :: 0 <= i < |ops| ==> Admissible(ops[i]) && NonNegativeReset(ops[i])
    ensures Run(a, ops).cash >= 0.0
    ensures Run(a, ops).initialBalance >= 0.0
    decreases |ops|
  {
    if |ops| > 0 {
      StepKeepsCashNonNegative(a, ops[0]);
      RunKeepsCashNonNegative(Step(a, ops[0]), ops[1..]);
    }
  }

  // ---------------------------------------------------------------------------
  // Lifecycle
  // ---------------------------------------------------------------------------

  /** Only open positions are ever found by id, so the "already closed" branch
      of a close is never taken. */
  lemma FoundPositionIsOpen(a: Account, id: nat)
    requires Valid(a)
    ensures IndexOf(a.positions, id).Some? ==> a.positions[IndexOf(a.positions, id).value].status == Open
  {
  }

  /** A closed position is gone from the open positions: closing it again
      fails as not found, whatever price is offered. */
  lemma DoubleCloseFails(a: Account, id: nat, price: Option<real>, again: Option<real>)
    requires Valid(a)
    requires price.Some? ==> price.value > 0.0
    requires again.Some? ==> again.value > 0.0
    ensures ClosePosition(a, id, price).Ok? ==>
              ClosePosition(ClosePosition(a, id, price).value.0, id, again) == Err(NotFound(id))
  {
  }

  /** A reset does not rewind the identifier generator: the first position
      opened after it gets an identifier that no position held before. */
  lemma ResetDoesNotReissue(
    a: Account, balance: Option<real>, pair: string, side: string, notional: real,
    entryPrice: Option<real>, stopLoss: Option<real>, takeProfit: Option<real>)
    requires Valid(a)
    requires entryPrice.Some? ==> entryPrice.value > 0.0
    ensures var r := PlaceOrder(Reset(a, balance), pair, side, notional, entryPrice, stopLoss, takeProfit);
            r.Ok? ==> r.value.1.id !in IdsOf(a.positions + a.history)
  {
    var all := a.positions + a.history;
    forall i | 0 <= i < |all|
      ensures all[i].id < a.nextId
    {
      if i >= |a.positions| {
        assert all[i] == a.history[i - |a.positions|];
      }
    }
  }

  /** The history only grows at its end: every operation keeps the trades
      already recorded, in order. */
  lemma StepKeepsHistory(a: Account, op: Op)
    requires Valid(a) && Admissible(op) && !op.ResetOp?
    ensures |Step(a, op).history| >= |a.history|
    ensures Step(a, op).history[..|a.history|] == a.history
  {
    match op
    case PriceOp(pair, price) =>
      UpdatePriceCloses(a, pair, price);
    case _ =>
  }

  // ---------------------------------------------------------------------------
  // Equity
  // ---------------------------------------------------------------------------

  lemma UnrealizedRemoveAt(ps: seq<Position>, k: nat, lastPrices: map<string, real>)
    requires k < |ps|
    requires forall i :: 0 <= i < |ps| ==> ps[i].entryPrice > 0.0
    requires forall m :: m in lastPrices ==> lastPrices[m] > 0.0
    ensures Unrealized(RemoveAt(ps, k), lastPrices) ==
              Unrealized(ps, lastPrices) - Unrealized([ps[k]], lastPrices)
  {
    assert ps == ps[..k] + ([ps[k]] + ps[k + 1..]);
    UnrealizedConcat(ps[..k], [ps[k]] + ps[k + 1..], lastPrices);
    UnrealizedConcat([ps[k]], ps[k + 1..], lastPrices);
    UnrealizedConcat(ps[..k], ps[k + 1..], lastPrices);
  }

  /** Closing a position at its market's last price turns its unrealized PnL
      into cash and releases its notional: equity rises by the notional. */
  lemma CloseAtMarkReleasesNotional(a: Account, id: nat)
    requires Valid(a)
    ensures ClosePosition(a, id, None).Ok? ==>
              Equity(ClosePosition(a, id, None).value.0) ==
              Equity(a) + ClosePosition(a, id, None).value.1.notional
  {
    var r := ClosePosition(a, id, None);
    if r.Ok? {
      var (b, c) := r.value;
      var k := IndexOf(a.positions, id).value;
      UnrealizedRemoveAt(a.positions, k, a.lastPrices);
    }
  }

  /** Opening a position at its market's last price reserves its notional
      while its unrealized PnL is zero: equity falls by the notional. */
  lemma OpenAtMarkCommitsNotional(
    a: Account, pair: string, side: string, notional: real,
    stopLoss: Option<real>, takeProfit: Option<real>)
    requires Valid(a)
    ensures PlaceOrder(a, pair, side, notional, None, stopLoss, takeProfit).Ok? ==>
              Equity(PlaceOrder(a, pair, side, notional, None, stopLoss, takeProfit).value.0) ==
              Equity(a) - notional
  {
    var r := PlaceOrder(a, pair, side, notional, None, stopLoss, takeProfit);
    if r.Ok? {
      var (b, p) := r.value;
      UnrealizedConcat(a.positions, [p], a.lastPrices);
      PnlSign(p, p.entryPrice);
    }
  }
}
