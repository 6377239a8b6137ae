/**
 * `calculate_spread`: the two directed spreads between a pair of venues
 * and the choice of the better one.
 */
module Spread {
  import opened Rounding
  import opened Venues

  /** The guard added to every ask before dividing by it. */
  const Epsilon: real := 0.0001

  /** Percentage gained buying at `ask` on one venue and selling at `bid`
      on the other; the division raises when `ask + Epsilon` is zero. */
  function DirectedSpread(bid: real, ask: real): (pct: real)
    requires ask + Epsilon != 0.0
    ensures pct == 0.0 <==> bid == ask
    ensures ask + Epsilon > 0.0 ==> (pct > 0.0 <==> bid > ask)
  {
    (bid - ask) / (ask + Epsilon) * 100.0
  }

  /** Both asks can be divided by. */
  predicate Divisible(ask1: real, ask2: real)
  {
    ask1 + Epsilon != 0.0 && ask2 + Epsilon != 0.0
  }

  /** The selected spread (rounded to 2 decimals) and its direction. */
  datatype Pick = Pick(pct: real, buy: Venue, sell: Venue)

  /** The larger of two reals. */
  function Max(a: real, b: real): (m: real)
    ensures m >= a && m >= b && (m == a || m == b)
  {
    if a >= b then a else b
  }

  /** `calculate_spread(exch1, exch2, bid1, ask1, bid2, ask2)`: the spread
      is the larger direction, rounded; the first venue buys only when its
      direction is STRICTLY better, so a tie names the second venue as the
      buyer. */
  function CalculateSpread(exch1: Venue, exch2: Venue, bid1: real, ask1: real, bid2: real, ask2: real): (p: Pick)
    requires Divisible(ask1, ask2)
    ensures p.pct == Round(Max(DirectedSpread(bid2, ask1), DirectedSpread(bid1, ask2)), 2)
    ensures p.buy == exch1 && p.sell == exch2 <== DirectedSpread(bid2, ask1) > DirectedSpread(bid1, ask2)
    ensures p.buy == exch2 && p.sell == exch1 <== DirectedSpread(bid2, ask1) <= DirectedSpread(bid1, ask2)
    ensures multiset{p.buy, p.sell} == multiset{exch1, exch2}
  {
    var spreadBuy := DirectedSpread(bid2, ask1);
    var spreadSell := DirectedSpread(bid1, ask2);
    if spreadBuy > spreadSell then Pick(Round(spreadBuy, 2), exch1, exch2)
    else Pick(Round(spreadSell, 2), exch2, exch1)
  }

  /** No direction rounds to more than the selected spread. */
  lemma SpreadIsBest(exch1: Venue, exch2: Venue, bid1: real, ask1: real, bid2: real, ask2: real)
    requires Divisible(ask1, ask2)
    ensures Round(DirectedSpread(bid2, ask1), 2) <= CalculateSpread(exch1, exch2, bid1, ask1, bid2, ask2).pct
    ensures Round(DirectedSpread(bid1, ask2), 2) <= CalculateSpread(exch1, exch2, bid1, ask1, bid2, ask2).pct
  {
    var a, b := DirectedSpread(bid2, ask1), DirectedSpread(bid1, ask2);
    RoundMonotone(a, Max(a, b), 2);
    RoundMonotone(b, Max(a, b), 2);
  }

  /** Swapping the two venues together with their prices keeps the spread;
      it keeps the direction too unless the two directions tie, in which
      case the buyer follows the argument order. */
  lemma SwapSymmetry(exch1: Venue, exch2: Venue, bid1: real, ask1: real, bid2: real, ask2: real)
    requires Divisible(ask1, ask2)
    ensures var p, q := CalculateSpread(exch1, exch2, bid1, ask1, bid2, ask2),
                        CalculateSpread(exch2, exch1, bid2, ask2, bid1, ask1);
      && p.pct == q.pct
      && (DirectedSpread(bid2, ask1) != DirectedSpread(bid1, ask2) ==> p.buy == q.buy && p.sell == q.sell)
      && (DirectedSpread(bid2, ask1) == DirectedSpread(bid1, ask2) ==> p.buy == exch2 && q.buy == exch1)
  {
  }

  /** Quotes (100, 101) on ByBit and (103, 104) on KuCoin: buying on ByBit
      and selling on KuCoin yields 1.98%. */
  lemma WorkedExample()
    ensures CalculateSpread(ByBit, KuCoin, 100.0, 101.0, 103.0, 104.0) == Pick(1.98, ByBit, KuCoin)
  {
    var a := DirectedSpread(103.0, 101.0);
    var b := DirectedSpread(100.0, 104.0);
    assert a == 200.0 / 101.0001;
    assert 1.98 < a < 1.985;
    assert b < 0.0;
    var p := Pow10(2);
    assert p == 100.0;
    assert 198.0 < a * p < 198.5;
    assert RoundInt(a * p) == 198;
    UnfoldRoundToScale(a, p);
  }
}
