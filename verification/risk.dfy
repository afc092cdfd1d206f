/** Risk-based position sizing: the notional that loses a chosen percentage
    of equity if the price moves from the last price to the stop-loss. */
module RiskSizing {
  import opened Results
  import opened Positions
  import opened Ledger

  /** The figures reported with a suggestion. */
  datatype Sizing = Sizing(notional: real, equity: real, lastPrice: real, riskAmount: real)

  function Abs(x: real): real {
    if x < 0.0 then -x else x
  }

  /** Fractional distance between the last price and the stop-loss,
      |1 - stopLoss / lastPrice|. */
  function StopDistance(stopLoss: real, lastPrice: real): (d: real)
    requires lastPrice > 0.0
    ensures d >= 0.0
    ensures d == 0.0 <==> stopLoss == lastPrice
    ensures stopLoss < lastPrice ==> d * lastPrice == lastPrice - stopLoss
    ensures stopLoss > lastPrice ==> d * lastPrice == stopLoss - lastPrice
  {
    var q := stopLoss / lastPrice;
    assert q * lastPrice == stopLoss;
    Abs(1.0 - q)
  }

  /** Suggests a notional for risking `riskPercent` percent of equity with a
      stop at `stopLoss`. The checks run in this order: equity, last price,
      risk, stop distance. The account is not changed. */
  function SuggestNotionalFromRisk(a: Account, riskPercent: real, pair: string, stopLoss: real): (r: Result<Sizing, Failure>)
    requires Valid(a)
    ensures Equity(a) <= 0.0 ==> r == Err(NonPositiveEquity(Equity(a)))
    ensures Equity(a) > 0.0 && pair !in a.lastPrices ==> r == Err(NoPriceAvailable(pair))
    ensures Equity(a) > 0.0 && pair in a.lastPrices && riskPercent <= 0.0 ==>
              r == Err(NonPositiveRisk(riskPercent))
    ensures Equity(a) > 0.0 && pair in a.lastPrices && riskPercent > 0.0 && stopLoss == a.lastPrices[pair] ==>
              r == Err(ZeroStopDistance(stopLoss))
    ensures r.Ok? <==>
              Equity(a) > 0.0 && pair in a.lastPrices && riskPercent > 0.0 && stopLoss != a.lastPrices[pair]
    ensures r.Ok? ==>
              && r.value.equity == Equity(a)
              && r.value.lastPrice == a.lastPrices[pair]
              && r.value.riskAmount == Equity(a) * riskPercent / 100.0
              && r.value.riskAmount > 0.0
              && r.value.notional > 0.0
              && r.value.notional * StopDistance(stopLoss, r.value.lastPrice) == r.value.riskAmount
  {
    var equity := Equity(a);
    if equity <= 0.0 then Err(NonPositiveEquity(equity))
    else if pair !in a.lastPrices then Err(NoPriceAvailable(pair))
    else
      var lastPrice := a.lastPrices[pair];
      var riskFraction := riskPercent / 100.0;
      if riskFraction <= 0.0 then Err(NonPositiveRisk(riskPercent))
      else
        var stopDist := StopDistance(stopLoss, lastPrice);
        if stopDist <= 0.0 then Err(ZeroStopDistance(stopLoss))
        else
          var riskAmount := equity * riskFraction;
          var notional := riskAmount / stopDist;
          assert notional * stopDist == riskAmount;
          Ok(Sizing(notional, equity, lastPrice, riskAmount))
  }

  /** A long opened at the last price with the suggested notional loses
      exactly the risk amount when it is closed at a stop below that price. */
  lemma LongStopLosesRiskAmount(a: Account, riskPercent: real, pair: string, stopLoss: real, p: Position)
    requires Valid(a) && stopLoss > 0.0
    requires SuggestNotionalFromRisk(a, riskPercent, pair, stopLoss).Ok?
    requires var s := SuggestNotionalFromRisk(a, riskPercent, pair, stopLoss).value;
             stopLoss < s.lastPrice &&
             p.side == Long && p.entryPrice == s.lastPrice && p.notional == s.notional
    ensures PnlAt(p, stopLoss) == -SuggestNotionalFromRisk(a, riskPercent, pair, stopLoss).value.riskAmount
  {
    var s := SuggestNotionalFromRisk(a, riskPercent, pair, stopLoss).value;
    LongLoss(s.notional, s.lastPrice, stopLoss, StopDistance(stopLoss, s.lastPrice));
  }

  lemma LongLoss(n: real, e: real, stopLoss: real, d: real)
    requires e > 0.0 && d * e == e - stopLoss
    ensures n * (stopLoss / e - 1.0) == -(n * d)
  {
    var q := stopLoss / e;
    assert q * e == stopLoss;
    assert e * (d - (1.0 - q)) == 0.0;
    ProductSign(e, d - (1.0 - q));
  }

  /** For a short the sizing is conservative: closed at a stop above the last
      price it loses, but strictly less than the risk amount. */
  lemma ShortStopLosesLessThanRiskAmount(a: Account, riskPercent: real, pair: string, stopLoss: real, p: Position)
    requires Valid(a)
    requires SuggestNotionalFromRisk(a, riskPercent, pair, stopLoss).Ok?
    requires var s := SuggestNotionalFromRisk(a, riskPercent, pair, stopLoss).value;
             stopLoss > s.lastPrice &&
             p.side == Short && p.entryPrice == s.lastPrice && p.notional == s.notional
    ensures -SuggestNotionalFromRisk(a, riskPercent, pair, stopLoss).value.riskAmount < PnlAt(p, stopLoss) < 0.0
  {
    var s := SuggestNotionalFromRisk(a, riskPercent, pair, stopLoss).value;
    ShortLoss(s.notional, s.lastPrice, stopLoss, StopDistance(stopLoss, s.lastPrice));
  }

  /** With `d = (stopLoss - e) / e`, the short's loss fraction
      `(stopLoss - e) / stopLoss` is positive and smaller than `d`. */
  lemma ShortLoss(n: real, e: real, stopLoss: real, d: real)
    requires n > 0.0 && e > 0.0 && stopLoss > e && d * e == stopLoss - e
    ensures -(n * d) < n * (e / stopLoss - 1.0) < 0.0
  {
    var f := 1.0 - e / stopLoss;
    var gap := stopLoss - e;
    assert f * stopLoss == gap;
    ProductSign(stopLoss, f);
    ProductSign(e, d);
    assert stopLoss * (d - f) == d * gap;
    ProductSign(gap, d);
    ProductSign(stopLoss, d - f);
    ProductSign(n, f);
    ProductSign(n, d - f);
  }
}
