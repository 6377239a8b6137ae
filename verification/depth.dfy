/**
 * `get_avg_price_top_5`: the size-weighted mean price of the order-book
 * levels a venue returns, with the total size, or nothing when the levels
 * hold no size at all.
 */
module Depth {
  import opened Rounding

  /** One order-book level: a price and the size offered at it. */
  datatype Level = Level(price: real, size: real)

  /** The mean fill price (5 decimals) and filled size (2 decimals), or
      `(None, None)` in the Python code. */
  datatype Fill = NoFill | Fill(price: real, volume: real)

  function SizeOf(l: Level): real { l.size }

  function CostOf(l: Level): real { l.price * l.size }

  /** The sum of `w` over the levels, accumulated front to back. */
  function SumBy(ls: seq<Level>, w: Level -> real): real
  {
    if |ls| == 0 then 0.0 else SumBy(ls[..|ls| - 1], w) + w(ls[|ls| - 1])
  }

  function TotalSize(ls: seq<Level>): real { SumBy(ls, SizeOf) }

  function TotalCost(ls: seq<Level>): real { SumBy(ls, CostOf) }

  /** The mean fill: nothing exactly when the sizes sum to zero, otherwise
      the cost-over-size ratio and the total size, each within half a unit
      of its rounding. */
  function MeanFill(ls: seq<Level>): (f: Fill)
    ensures f.NoFill? <==> TotalSize(ls) == 0.0
    ensures f.Fill? ==> -0.000005 <= f.price - TotalCost(ls) / TotalSize(ls) <= 0.000005
    ensures f.Fill? ==> -0.005 <= f.volume - TotalSize(ls) <= 0.005
  {
    if TotalSize(ls) == 0.0 then NoFill
    else Fill(Round(TotalCost(ls) / TotalSize(ls), 5), Round(TotalSize(ls), 2))
  }

  /** The Python accumulation loop, level by level. */
  method AvgPriceTop5(orderBook: seq<Level>) returns (f: Fill)
    ensures f == MeanFill(orderBook)
  {
    var totalVolume := 0.0;
    var totalCost := 0.0;
    for i := 0 to |orderBook|
      invariant totalVolume == TotalSize(orderBook[..i])
      invariant totalCost == TotalCost(orderBook[..i])
    {
      assert orderBook[..i + 1][..i] == orderBook[..i];
      totalCost := totalCost + orderBook[i].price * orderBook[i].size;
      totalVolume := totalVolume + orderBook[i].size;
    }
    assert orderBook[..|orderBook|] == orderBook;
    if totalVolume == 0.0 {
      return NoFill;
    }
    return Fill(Round(totalCost / totalVolume, 5), Round(totalVolume, 2));
  }

  lemma {:induction false} SumByAppend(a: seq<Level>, b: seq<Level>, w: Level -> real)
    ensures SumBy(a + b, w) == SumBy(a, w) + SumBy(b, w)
    decreases |b|
  {
    if |b| > 0 {
      var b' := b[..|b| - 1];
      assert (a + b)[..|a + b| - 1] == a + b';
      SumByAppend(a, b', w);
    } else {
      assert a + b == a;
    }
  }

  /** Sums do not depend on the order of the levels. */
  lemma {:induction false} SumByPermutation(a: seq<Level>, b: seq<Level>, w: Level -> real)
    requires multiset(a) == multiset(b)
    ensures SumBy(a, w) == SumBy(b, w)
    decreases |a|
  {
    if |a| == 0 {
      assert |b| == |multiset(b)| == 0;
    } else {
      var x := a[|a| - 1];
      var a' := a[..|a| - 1];
      assert a == a' + [x];
      assert x in multiset(b);
      var j :| 0 <= j < |b| && b[j] == x;
      var b' := b[..j] + b[j + 1..];
      assert b == b[..j] + [x] + b[j + 1..];
      assert multiset(b') == multiset(b) - multiset{x};
      assert multiset(a') == multiset(a) - multiset{x};
      SumByPermutation(a', b', w);
      SumByRemoveAt(b, j, w);
    }
  }

  /** Taking level j out of a book takes its weight out of the sum. */
  lemma SumByRemoveAt(b: seq<Level>, j: int, w: Level -> real)
    requires 0 <= j < |b|
    ensures SumBy(b, w) == SumBy(b[..j] + b[j + 1..], w) + w(b[j])
  {
    var x := b[j];
    assert b == (b[..j] + [x]) + b[j + 1..];
    assert (b[..j] + [x])[..j] == b[..j];
    SumByAppend(b[..j] + [x], b[j + 1..], w);
    SumByAppend(b[..j], b[j + 1..], w);
  }

  /** Reordering the levels leaves the mean fill unchanged. */
  lemma MeanFillPermutation(a: seq<Level>, b: seq<Level>)
    requires multiset(a) == multiset(b)
    ensures MeanFill(a) == MeanFill(b)
  {
    SumByPermutation(a, b, SizeOf);
    SumByPermutation(a, b, CostOf);
  }

  /** With non-negative sizes, the cost lies between the lowest and the
      highest price times the total size. */
  lemma {:induction false} CostBetween(ls: seq<Level>, lo: real, hi: real)
    requires forall i :: 0 <= i < |ls| ==> ls[i].size >= 0.0 && lo <= ls[i].price <= hi
    ensures lo * TotalSize(ls) <= TotalCost(ls) <= hi * TotalSize(ls)
    decreases |ls|
  {
    if |ls| > 0 {
      var l := ls[|ls| - 1];
      CostBetween(ls[..|ls| - 1], lo, hi);
      MulMonotone(lo, l.price, l.size);
      MulMonotone(l.price, hi, l.size);
    }
  }

  /** With non-negative sizes, the mean fill price lies between the
      roundings of the lowest and the highest level price. */
  lemma MeanFillBetween(ls: seq<Level>, lo: real, hi: real)
    requires forall i :: 0 <= i < |ls| ==> ls[i].size >= 0.0 && lo <= ls[i].price <= hi
    requires TotalSize(ls) != 0.0
    ensures MeanFill(ls).Fill?
    ensures Round(lo, 5) <= MeanFill(ls).price <= Round(hi, 5)
  {
    var s, c := TotalSize(ls), TotalCost(ls);
    CostBetween(ls, lo, hi);
    assert s > 0.0 by {
      SizesNonNegative(ls);
    }
    assert lo <= c / s by {
      assert (lo * s) / s == lo;
      DivMonotone(lo * s, c, s);
    }
    assert c / s <= hi by {
      assert (hi * s) / s == hi;
      DivMonotone(c, hi * s, s);
    }
    RoundMonotone(lo, c / s, 5);
    RoundMonotone(c / s, hi, 5);
  }

  lemma {:induction false} SizesNonNegative(ls: seq<Level>)
    requires forall i :: 0 <= i < |ls| ==> ls[i].size >= 0.0
    ensures TotalSize(ls) >= 0.0
    decreases |ls|
  {
    if |ls| > 0 {
      SizesNonNegative(ls[..|ls| - 1]);
    }
  }

  /** A book whose levels all have size zero gives no fill. */
  lemma {:induction false} ZeroSizesGiveNoFill(ls: seq<Level>)
    requires forall i :: 0 <= i < |ls| ==> ls[i].size == 0.0
    ensures MeanFill(ls) == NoFill
  {
    if |ls| > 0 {
      ZeroSizesGiveNoFill(ls[..|ls| - 1]);
    }
  }

  /** Two unit levels at 100 and 102 fill at 101 for a size of 2. */
  lemma TwoLevelExample()
    ensures MeanFill([Level(100.0, 1.0), Level(102.0, 1.0)]) == Fill(101.0, 2.0)
  {
    var ls := [Level(100.0, 1.0), Level(102.0, 1.0)];
    assert ls[..1][..0] == [];
    assert ls[..1] == [Level(100.0, 1.0)];
    assert SumBy(ls[..1], SizeOf) == 1.0 && SumBy(ls[..1], CostOf) == 100.0;
    assert TotalSize(ls) == 2.0 && TotalCost(ls) == 202.0;
    RoundExact(101 * 100000, 5);
    assert 10100000.0 / Pow10(5) == 101.0;
    RoundExact(200, 2);
    assert 200.0 / Pow10(2) == 2.0;
  }
}
