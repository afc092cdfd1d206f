/** A simulated spot position (`SimPosition`), its side, its profit-and-loss
    formula, its stop-loss / take-profit triggers, and sums over sequences of
    positions. */
module Positions {
  import opened Results

  datatype Side = Long | Short

  /** `Open`, or `Closed` with the close price and the realized PnL, which the
      source always sets together; a PnL therefore exists exactly when the
      position is closed. The close timestamp is not modelled. */
  datatype Status = Open | Closed(closePrice: real, pnl: real)

  /** A position. `id` stands for the source's random identifier; the open
      timestamp is not modelled. */
  datatype Position = Position(
    id: nat,
    pair: string,
    side: Side,
    entryPrice: real,
    notional: real,
    stopLoss: Option<real>,
    takeProfit: Option<real>,
    status: Status)

  // ---------------------------------------------------------------------------
  // Side names
  // ---------------------------------------------------------------------------

  /** The lower-case spelling the source stores for a side. */
  function SideName(side: Side): string {
    match side
    case Long => "long"
    case Short => "short"
  }

  /** Lower-casing of one character (ASCII letters only). */
  function LowerChar(c: char): char {
    if 'A' <= c <= 'Z' then (c as int - 'A' as int + 'a' as int) as char else c
  }

  /** Lower-casing of a string, character by character. */
  function Lower(s: string): (r: string)
    ensures |r| == |s|
    ensures forall i :: 0 <= i < |s| ==> r[i] == LowerChar(s[i])
  {
    if |s| == 0 then "" else [LowerChar(s[0])] + Lower(s[1..])
  }

  /** Normalises a caller-supplied side: lower-cases it and accepts only
      "long" and "short". */
  function ParseSide(s: string): (r: Option<Side>)
    ensures r.Some? ==> Lower(s) == SideName(r.value)
    ensures r.None? ==> Lower(s) != "long" && Lower(s) != "short"
  {
    var l := Lower(s);
    if l == "long" then Some(Long)
    else if l == "short" then Some(Short)
    else None
  }

  /** A side is accepted exactly when the input is a case variant of its
      name, and the stored name parses back to the same side. */
  lemma ParseSideCaseVariants(s: string, side: Side)
    ensures ParseSide(s) == Some(side) <==>
              |s| == |SideName(side)| &&
              forall i :: 0 <= i < |s| ==> LowerChar(s[i]) == SideName(side)[i]
    ensures ParseSide(SideName(side)) == Some(side)
  {
    var name := SideName(side);
    assert Lower(name) == name;
    if |s| == |name| && forall i :: 0 <= i < |s| ==> LowerChar(s[i]) == name[i] {
      assert Lower(s) == name;
    }
  }

  // ---------------------------------------------------------------------------
  // Profit and loss
  // ---------------------------------------------------------------------------

  /** PnL in quote currency of `p` marked at `price`: for a long,
      notional * (price / entry - 1); for a short, notional * (entry / price - 1). */
  function PnlAt(p: Position, price: real): (r: real)
    requires p.entryPrice > 0.0 && price > 0.0
    ensures p.side == Long ==> r * p.entryPrice == p.notional * (price - p.entryPrice)
    ensures p.side == Short ==> r * price == p.notional * (p.entryPrice - price)
  {
    match p.side
    case Long => p.notional * (price / p.entryPrice - 1.0)
    case Short => p.notional * (p.entryPrice / price - 1.0)
  }

  /** The sign of the PnL follows the price move against the side, the PnL is
      zero at the entry price, and a position never loses more than its
      notional. */
  lemma PnlSign(p: Position, price: real)
    requires p.entryPrice > 0.0 && price > 0.0 && p.notional > 0.0
    ensures p.side == Long ==> (PnlAt(p, price) > 0.0 <==> price > p.entryPrice)
    ensures p.side == Long ==> (PnlAt(p, price) < 0.0 <==> price < p.entryPrice)
    ensures p.side == Short ==> (PnlAt(p, price) > 0.0 <==> price < p.entryPrice)
    ensures p.side == Short ==> (PnlAt(p, price) < 0.0 <==> price > p.entryPrice)
    ensures price == p.entryPrice ==> PnlAt(p, price) == 0.0
    ensures PnlAt(p, price) > -p.notional
  {
    if p.side == Long {
      LongPnlSign(p, price);
    } else {
      ShortPnlSign(p, price);
    }
  }

  lemma LongPnlSign(p: Position, price: real)
    requires p.entryPrice > 0.0 && price > 0.0 && p.notional > 0.0 && p.side == Long
    ensures PnlAt(p, price) > 0.0 <==> price > p.entryPrice
    ensures PnlAt(p, price) < 0.0 <==> price < p.entryPrice
    ensures PnlAt(p, price) == 0.0 <==> price == p.entryPrice
    ensures PnlAt(p, price) > -p.notional
  {
    RatioMoveSign(p.notional, price, p.entryPrice);
  }

  lemma ShortPnlSign(p: Position, price: real)
    requires p.entryPrice > 0.0 && price > 0.0 && p.notional > 0.0 && p.side == Short
    ensures PnlAt(p, price) > 0.0 <==> price < p.entryPrice
    ensures PnlAt(p, price) < 0.0 <==> price > p.entryPrice
    ensures PnlAt(p, price) == 0.0 <==> price == p.entryPrice
    ensures PnlAt(p, price) > -p.notional
  {
    RatioMoveSign(p.notional, p.entryPrice, price);
  }

  /** `n * (x / y - 1)` has the sign of `x - y` and stays above `-n`. */
  lemma RatioMoveSign(n: real, x: real, y: real)
    requires n > 0.0 && x > 0.0 && y > 0.0
    ensures n * (x / y - 1.0) > 0.0 <==> x > y
    ensures n * (x / y - 1.0) < 0.0 <==> x < y
    ensures n * (x / y - 1.0) == 0.0 <==> x == y
    ensures n * (x / y - 1.0) > -n
  {
    var q := x / y;
    assert x - y == (q - 1.0) * y;
    assert q > 0.0 by {
      assert q * y == x;
      ProductSign(y, q);
    }
    ProductSign(y, q - 1.0);
    ProductSign(n, q - 1.0);
  }

  /** Multiplying by a positive factor keeps the sign and stays above the
      negated factor when the other operand exceeds -1. */
  lemma ProductSign(n: real, d: real)
    requires n > 0.0
    ensures n * d > 0.0 <==> d > 0.0
    ensures n * d < 0.0 <==> d < 0.0
    ensures n * d == 0.0 <==> d == 0.0
    ensures d > -1.0 ==> n * d > -n
  {
    if d > -1.0 {
      assert n * (d + 1.0) > 0.0;
    }
  }

  // ---------------------------------------------------------------------------
  // Stop-loss / take-profit triggers
  // ---------------------------------------------------------------------------

  /** Stop-loss fired: a long at or below its stop, a short at or above it. */
  predicate StopLossHit(p: Position, price: real) {
    p.stopLoss.Some? &&
    ((p.side == Long && price <= p.stopLoss.value) ||
     (p.side == Short && price >= p.stopLoss.value))
  }

  /** Take-profit fired: a long at or above its target, a short at or below it. */
  predicate TakeProfitHit(p: Position, price: real) {
    p.takeProfit.Some? &&
    ((p.side == Long && price >= p.takeProfit.value) ||
     (p.side == Short && price <= p.takeProfit.value))
  }

  predicate Triggered(p: Position, price: real) {
    StopLossHit(p, price) || TakeProfitHit(p, price)
  }

  /** Each trigger is a threshold: a long's stop-loss that fires at a price
      fires at every lower one and its take-profit at every higher one, the
      reverse for a short, and a position without stops never fires. */
  lemma TriggerThreshold(p: Position, x: real, y: real)
    requires x <= y
    ensures p.side == Long ==> (StopLossHit(p, y) ==> StopLossHit(p, x))
    ensures p.side == Long ==> (TakeProfitHit(p, x) ==> TakeProfitHit(p, y))
    ensures p.side == Short ==> (StopLossHit(p, x) ==> StopLossHit(p, y))
    ensures p.side == Short ==> (TakeProfitHit(p, y) ==> TakeProfitHit(p, x))
    ensures p.stopLoss.None? && p.takeProfit.None? ==> !Triggered(p, x)
  {
  }

  /** A stop placed on the losing side of the entry never closes at a profit,
      and a target placed on the winning side never closes at a loss. */
  lemma TriggerOutcome(p: Position, price: real)
    requires p.entryPrice > 0.0 && price > 0.0 && p.notional > 0.0
    ensures StopLossHit(p, price) &&
            (p.side == Long ==> p.stopLoss.value <= p.entryPrice) &&
            (p.side == Short ==> p.stopLoss.value >= p.entryPrice)
            ==> PnlAt(p, price) <= 0.0
    ensures TakeProfitHit(p, price) &&
            (p.side == Long ==> p.takeProfit.value >= p.entryPrice) &&
            (p.side == Short ==> p.takeProfit.value <= p.entryPrice)
            ==> PnlAt(p, price) >= 0.0
  {
    PnlSign(p, price);
  }

  /** The position as recorded in history after closing at `price`. */
  function CloseAt(p: Position, price: real): (c: Position)
    requires p.entryPrice > 0.0 && price > 0.0
    ensures c.(status := p.status) == p
    ensures c.status.Closed? && c.status.closePrice == price
    ensures c.status.pnl == PnlAt(c, price)
  {
    p.(status := Closed(price, PnlAt(p, price)))
  }

  // ---------------------------------------------------------------------------
  // Well-formedness and identifiers
  // ---------------------------------------------------------------------------

  /** What every open position satisfies. */
  predicate OpenWellFormed(p: Position) {
    p.status.Open? && p.entryPrice > 0.0 && p.notional > 0.0
  }

  /** What every closed position in history satisfies: its recorded PnL is the
      PnL formula at its recorded close price. */
  predicate ClosedWellFormed(p: Position) {
    && p.status.Closed?
    && p.entryPrice > 0.0
    && p.notional > 0.0
    && p.status.closePrice > 0.0
    && p.status.pnl == PnlAt(p, p.status.closePrice)
  }

  predicate DistinctIds(ps: seq<Position>) {
    forall i, j :: 0 <= i < j < |ps| ==> ps[i].id != ps[j].id
  }

  /** Position of the first entry with identifier `id`, if any. */
  function IndexOf(ps: seq<Position>, id: nat): (r: Option<nat>)
    ensures r.Some? ==> r.value < |ps| && ps[r.value].id == id
    ensures r.Some? ==> forall j :: 0 <= j < r.value ==> ps[j].id != id
    ensures r.None? <==> forall j :: 0 <= j < |ps| ==> ps[j].id != id
  {
    if |ps| == 0 then None
    else if ps[0].id == id then Some(0)
    else
      match IndexOf(ps[1..], id)
      case Some(k) => Some(k + 1)
      case None => None
  }

  /** With distinct identifiers, the entry found is the only one with that id. */
  lemma IndexOfDistinct(ps: seq<Position>, k: nat)
    requires DistinctIds(ps) && k < |ps|
    ensures IndexOf(ps, ps[k].id) == Some(k)
  {
  }

  /** Removes the entry at index `k`, keeping the order of the others. */
  function RemoveAt(ps: seq<Position>, k: nat): (r: seq<Position>)
    requires k < |ps|
    ensures |r| == |ps| - 1
    ensures forall j :: 0 <= j < k ==> r[j] == ps[j]
    ensures forall j :: k <= j < |r| ==> r[j] == ps[j + 1]
  {
    ps[..k] + ps[k + 1..]
  }

  // ---------------------------------------------------------------------------
  // Sums
  // ---------------------------------------------------------------------------

  function Notional(p: Position): real {
    p.notional
  }

  /** The source's `(p.pnl or 0.0)`: the realized PnL, or zero while open. */
  function PnlOrZero(p: Position): real {
    if p.status.Closed? then p.status.pnl else 0.0
  }

  /** Sum of `f` over the positions, left to right. */
  function Sum(ps: seq<Position>, f: Position -> real): real {
    if |ps| == 0 then 0.0 else f(ps[0]) + Sum(ps[1..], f)
  }

  lemma {:induction false} SumConcat(xs: seq<Position>, ys: seq<Position>, f: Position -> real)
    ensures Sum(xs + ys, f) == Sum(xs, f) + Sum(ys, f)
  {
    if |xs| == 0 {
      assert xs + ys == ys;
    } else {
      assert (xs + ys)[1..] == xs[1..] + ys;
      SumConcat(xs[1..], ys, f);
    }
  }

  lemma ConcatAssoc<T>(a: seq<T>, b: seq<T>, c: seq<T>)
    ensures (a + b) + c == a + (b + c)
  {
  }

  lemma SumCons(p: Position, ps: seq<Position>, f: Position -> real)
    ensures Sum([p] + ps, f) == f(p) + Sum(ps, f)
  {
    assert ([p] + ps)[1..] == ps;
  }

  /** Removing one entry removes exactly its term from the sum. */
  lemma SumRemoveAt(ps: seq<Position>, k: nat, f: Position -> real)
    requires k < |ps|
    ensures Sum(RemoveAt(ps, k), f) == Sum(ps, f) - f(ps[k])
  {
    var front, back := ps[..k], ps[k + 1..];
    assert RemoveAt(ps, k) == front + back;
    assert ps == front + ([ps[k]] + back);
    SumConcat(front, [ps[k]] + back, f);
    SumCons(ps[k], back, f);
    SumConcat(front, back, f);
  }

  /** Open notional is positive exactly when some position is open. */
  lemma {:induction false} SumNotionalPositive(ps: seq<Position>)
    requires forall i :: 0 <= i < |ps| ==> ps[i].notional > 0.0
    ensures Sum(ps, Notional) >= 0.0
    ensures Sum(ps, Notional) == 0.0 <==> |ps| == 0
  {
    if |ps| > 0 {
      SumNotionalPositive(ps[1..]);
    }
  }

  /** Unrealized PnL of the open positions that have a last price, as summed by
      the source's equity loop. */
  function Unrealized(ps: seq<Position>, lastPrices: map<string, real>): real
    requires forall i :: 0 <= i < |ps| ==> ps[i].entryPrice > 0.0
    requires forall k :: k in lastPrices ==> lastPrices[k] > 0.0
  {
    if |ps| == 0 then 0.0
    else
      var p := ps[0];
      (if p.pair !in lastPrices || !p.status.Open? then 0.0 else PnlAt(p, lastPrices[p.pair]))
      + Unrealized(ps[1..], lastPrices)
  }

  lemma {:induction false} UnrealizedConcat(xs: seq<Position>, ys: seq<Position>, lastPrices: map<string, real>)
    requires forall i :: 0 <= i < |xs| ==> xs[i].entryPrice > 0.0
    requires forall i :: 0 <= i < |ys| ==> ys[i].entryPrice > 0.0
    requires forall k :: k in lastPrices ==> lastPrices[k] > 0.0
    ensures Unrealized(xs + ys, lastPrices) == Unrealized(xs, lastPrices) + Unrealized(ys, lastPrices)
  {
    if |xs| == 0 {
      assert xs + ys == ys;
    } else {
      assert (xs + ys)[1..] == xs[1..] + ys;
      UnrealizedConcat(xs[1..], ys, lastPrices);
    }
  }

  /** Positions whose market has no last price contribute nothing. */
  lemma {:induction false} UnmarkedIsZero(ps: seq<Position>, lastPrices: map<string, real>)
    requires forall i :: 0 <= i < |ps| ==> ps[i].entryPrice > 0.0
    requires forall k :: k in lastPrices ==> lastPrices[k] > 0.0
    ensures (forall i :: 0 <= i < |ps| ==> ps[i].pair !in lastPrices) ==> Unrealized(ps, lastPrices) == 0.0
  {
    if |ps| > 0 {
      UnmarkedIsZero(ps[1..], lastPrices);
    }
  }
}
