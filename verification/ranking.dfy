/**
 * The loop of `get_spread_data` up to the top-20 cut: walk the symbols
 * both venues list, skip those with a missing price, compute the spread,
 * admit by spread and volume, price the admitted ones on the order books,
 * then sort by spread (highest first) and keep the first 20.
 */
module Ranking {
  import opened Wrappers
  import opened Text
  import opened Venues
  import opened Tickers
  import opened Spread
  import opened Depth

  /** Admission bounds: 0.6 <= spread <= 35 (percent, after rounding). */
  const MinSpread: real := 0.6
  const MaxSpread: real := 35.0
  /** Both rounded 24h volumes must be strictly above this. */
  const MinVolume: real := 200000.0
  /** Rows kept after sorting. */
  const TopN: nat := 20

  /** The order-book levels a venue returns for a coin's USDT pair on one
      side, or None when the response lacks that side (an unlisted pair,
      say): the Python code then raises reading it. Fetching is outside
      the model. */
  type DepthSource = (Venue, string, Side) -> Option<seq<Level>>

  /** One row of the table before enrichment. */
  datatype Candidate = Candidate(
    symbol: string,
    bid1: real, ask1: real, bid2: real, ask2: real,
    pick: Pick,
    buyFill: Fill, sellFill: Fill)

  /** `symbol.split('/')[0]`: the coin whose order books and networks are
      looked up. */
  function BaseCoin(symbol: string): (coin: string)
    ensures |coin| <= |symbol| && symbol[..|coin|] == coin && '/' !in coin
    ensures |coin| < |symbol| ==> symbol[|coin|] == '/'
  {
    BeforeFirst(symbol, '/')
  }

  /** The threshold test on the rounded spread and the two volumes. */
  predicate Admitted(pct: real, volume1: real, volume2: real)
  {
    MinSpread <= pct <= MaxSpread && volume1 > MinVolume && volume2 > MinVolume
  }

  /** The bounds are inclusive for the spread and strict for the volumes. */
  lemma AdmissionBoundaries()
    ensures Admitted(0.6, 200000.1, 200000.1) && Admitted(35.0, 200000.1, 200000.1)
    ensures !Admitted(0.59, 200000.1, 200000.1) && !Admitted(35.01, 200000.1, 200000.1)
    ensures !Admitted(1.0, 200000.0, 300000.0) && !Admitted(1.0, 300000.0, 200000.0)
  {
  }

  /** Both venues list the symbol with both prices present. */
  predicate Priced(d1: map<string, Quote>, d2: map<string, Quote>, s: string)
  {
    && s in d1 && s in d2
    && d1[s].bid.Some? && d1[s].ask.Some? && d2[s].bid.Some? && d2[s].ask.Some?
  }

  function PickFor(v1: Venue, v2: Venue, d1: map<string, Quote>, d2: map<string, Quote>, s: string): Pick
    requires Priced(d1, d2, s)
    requires Divisible(d1[s].ask.value, d2[s].ask.value)
  {
    CalculateSpread(v1, v2, d1[s].bid.value, d1[s].ask.value, d2[s].bid.value, d2[s].ask.value)
  }

  /** The symbol yields a row: both prices on both sides, and a spread and
      volumes inside the bounds. */
  predicate Qualifies(v1: Venue, v2: Venue, d1: map<string, Quote>, d2: map<string, Quote>, s: string)
  {
    && Priced(d1, d2, s)
    && Divisible(d1[s].ask.value, d2[s].ask.value)
    && Admitted(PickFor(v1, v2, d1, d2, s).pct, d1[s].volume, d2[s].volume)
  }

  /** Both order-book sides the row is priced on can be read: the buy
      venue's asks and the sell venue's bids of the symbol's coin. */
  predicate BooksReadable(v1: Venue, v2: Venue, d1: map<string, Quote>, d2: map<string, Quote>,
                          s: string, depth: DepthSource)
    requires Priced(d1, d2, s)
    requires Divisible(d1[s].ask.value, d2[s].ask.value)
  {
    var p := PickFor(v1, v2, d1, d2, s);
    depth(p.buy, BaseCoin(s), Asks).Some? && depth(p.sell, BaseCoin(s), Bids).Some?
  }

  /** Visiting `s` raises: both prices are there but an ask divides by
      zero, or the symbol is admitted and an order book it is priced on
      cannot be read. */
  predicate Raises(v1: Venue, v2: Venue, d1: map<string, Quote>, d2: map<string, Quote>,
                   s: string, depth: DepthSource)
  {
    && Priced(d1, d2, s)
    && (|| !Divisible(d1[s].ask.value, d2[s].ask.value)
        || (Qualifies(v1, v2, d1, d2, s) && !BooksReadable(v1, v2, d1, d2, s, depth)))
  }

  /** The error a raising symbol raises: the division comes first, then the
      buy side's book, then the sell side's. */
  function RaisedError(v1: Venue, v2: Venue, d1: map<string, Quote>, d2: map<string, Quote>,
                       s: string, depth: DepthSource): (e: ScanError)
    requires Raises(v1, v2, d1, d2, s, depth)
    ensures e.ZeroDivision? || e.OrderBookUnavailable?
    ensures e.ZeroDivision? <==> !Divisible(d1[s].ask.value, d2[s].ask.value)
    ensures e.ZeroDivision? ==> e.symbol == s
    ensures e.OrderBookUnavailable? ==> e.coin == BaseCoin(s) && (e.venue == v1 || e.venue == v2)
  {
    if !Divisible(d1[s].ask.value, d2[s].ask.value) then ZeroDivision(s)
    else
      var p := PickFor(v1, v2, d1, d2, s);
      if depth(p.buy, BaseCoin(s), Asks).None? then OrderBookUnavailable(p.buy, BaseCoin(s))
      else OrderBookUnavailable(p.sell, BaseCoin(s))
  }

  /** The row built for an admitted symbol: the four prices, the spread
      decision, the mean fill on the buy venue's asks and the mean fill on
      the sell venue's bids, both for the symbol's coin. */
  function MakeCandidate(v1: Venue, v2: Venue, d1: map<string, Quote>, d2: map<string, Quote>,
                         s: string, depth: DepthSource): (c: Candidate)
    requires Priced(d1, d2, s)
    requires Divisible(d1[s].ask.value, d2[s].ask.value)
    requires BooksReadable(v1, v2, d1, d2, s, depth)
    ensures c.symbol == s && c.pick == PickFor(v1, v2, d1, d2, s)
    ensures c.bid1 == d1[s].bid.value && c.ask1 == d1[s].ask.value
    ensures c.bid2 == d2[s].bid.value && c.ask2 == d2[s].ask.value
    ensures c.buyFill == MeanFill(depth(c.pick.buy, BaseCoin(s), Asks).value)
    ensures c.sellFill == MeanFill(depth(c.pick.sell, BaseCoin(s), Bids).value)
  {
    var p := PickFor(v1, v2, d1, d2, s);
    Candidate(s, d1[s].bid.value, d1[s].ask.value, d2[s].bid.value, d2[s].ask.value, p,
              MeanFill(depth(p.buy, BaseCoin(s), Asks).value),
              MeanFill(depth(p.sell, BaseCoin(s), Bids).value))
  }

  /** One iteration of the loop: no row, one row, or the raised error. */
  function Evaluate(v1: Venue, v2: Venue, d1: map<string, Quote>, d2: map<string, Quote>,
                    s: string, depth: DepthSource): (r: Result<seq<Candidate>, ScanError>)
    ensures r.Failure? <==> Raises(v1, v2, d1, d2, s, depth)
    ensures r.Failure? ==> r.error == RaisedError(v1, v2, d1, d2, s, depth)
    ensures r.Success? ==> (|r.value| == 1 <==> Qualifies(v1, v2, d1, d2, s)) && |r.value| <= 1
    ensures r.Success? && Qualifies(v1, v2, d1, d2, s) ==>
      BooksReadable(v1, v2, d1, d2, s, depth) && r.value == [MakeCandidate(v1, v2, d1, d2, s, depth)]
  {
    if Raises(v1, v2, d1, d2, s, depth) then Failure(RaisedError(v1, v2, d1, d2, s, depth))
    else if Qualifies(v1, v2, d1, d2, s) then Success([MakeCandidate(v1, v2, d1, d2, s, depth)])
    else Success([])
  }

  /** The loop over the common symbols in iteration order `order`: it
      raises exactly when some symbol raises, and then with the error of
      the first one; otherwise it yields the row of every qualifying
      symbol and nothing else. */
  function Candidates(v1: Venue, v2: Venue, d1: map<string, Quote>, d2: map<string, Quote>,
                      order: seq<string>, depth: DepthSource): (r: Result<seq<Candidate>, ScanError>)
    ensures r.Success? <==> forall s :: s in order ==> !Raises(v1, v2, d1, d2, s, depth)
    ensures r.Failure? ==> exists i :: (0 <= i < |order| && FirstRaise(v1, v2, d1, d2, order, depth, i)
      && r.error == RaisedError(v1, v2, d1, d2, order[i], depth))
    ensures r.Success? ==> forall c :: c in r.value ==>
      && c.symbol in order && Qualifies(v1, v2, d1, d2, c.symbol)
      && BooksReadable(v1, v2, d1, d2, c.symbol, depth)
      && c == MakeCandidate(v1, v2, d1, d2, c.symbol, depth)
    ensures r.Success? ==> forall s :: s in order && Qualifies(v1, v2, d1, d2, s) ==>
      BooksReadable(v1, v2, d1, d2, s, depth) && MakeCandidate(v1, v2, d1, d2, s, depth) in r.value
    decreases |order|
  {
    if |order| == 0 then Success([])
    else
      assert forall s :: s in order <==> s == order[0] || s in order[1..];
      match Evaluate(v1, v2, d1, d2, order[0], depth)
      case Failure(e) =>
        assert FirstRaise(v1, v2, d1, d2, order, depth, 0);
        Failure(e)
      case Success(row) =>
        match Candidates(v1, v2, d1, d2, order[1..], depth)
        case Failure(e) =>
          var i :| 0 <= i < |order[1..]| && FirstRaise(v1, v2, d1, d2, order[1..], depth, i)
            && e == RaisedError(v1, v2, d1, d2, order[1..][i], depth);
          FirstRaiseShift(v1, v2, d1, d2, order, depth, i);
          Failure(e)
        case Success(rows) => Success(row + rows)
  }

  /** `order[i]` raises and no symbol before it does. */
  predicate FirstRaise(v1: Venue, v2: Venue, d1: map<string, Quote>, d2: map<string, Quote>,
                       order: seq<string>, depth: DepthSource, i: int)
    requires 0 <= i < |order|
  {
    && Raises(v1, v2, d1, d2, order[i], depth)
    && forall j :: 0 <= j < i ==> !Raises(v1, v2, d1, d2, order[j], depth)
  }

  /** A symbol that does not raise in front of the loop moves the first
      raising symbol one place on. */
  lemma FirstRaiseShift(v1: Venue, v2: Venue, d1: map<string, Quote>, d2: map<string, Quote>,
                        order: seq<string>, depth: DepthSource, i: int)
    requires 0 <= i < |order| - 1
    requires !Raises(v1, v2, d1, d2, order[0], depth)
    requires FirstRaise(v1, v2, d1, d2, order[1..], depth, i)
    ensures FirstRaise(v1, v2, d1, d2, order, depth, i + 1)
  {
    forall j | 0 <= j < i + 1 ensures !Raises(v1, v2, d1, d2, order[j], depth) {
      if j > 0 {
        assert order[j] == order[1..][j - 1];
      }
    }
  }

  /** Highest spread first. */
  predicate SortedDesc(rs: seq<Candidate>)
  {
    forall i, j :: 0 <= i < j < |rs| ==> rs[i].pick.pct >= rs[j].pick.pct
  }

  function Insert(c: Candidate, rs: seq<Candidate>): (r: seq<Candidate>)
    requires SortedDesc(rs)
    ensures SortedDesc(r)
    ensures multiset(r) == multiset(rs) + multiset{c}
    ensures |r| == |rs| + 1
    ensures r[0] == c || (|rs| > 0 && r[0] == rs[0])
  {
    if |rs| == 0 then [c]
    else if c.pick.pct >= rs[0].pick.pct then
      ConsSorted(c, rs);
      [c] + rs
    else
      var t := Insert(c, rs[1..]);
      assert rs == [rs[0]] + rs[1..];
      assert rs[0].pick.pct >= t[0].pick.pct;
      ConsSorted(rs[0], t);
      [rs[0]] + t
  }

  /** A row at least as high as the head of a sorted sequence can go in front. */
  lemma ConsSorted(c: Candidate, rs: seq<Candidate>)
    requires SortedDesc(rs)
    requires |rs| > 0 ==> c.pick.pct >= rs[0].pick.pct
    ensures SortedDesc([c] + rs)
  {
    var r := [c] + rs;
    forall i, j | 0 <= i < j < |r| ensures r[i].pick.pct >= r[j].pick.pct {
      assert r[j] == rs[j - 1];
      if i > 0 {
        assert r[i] == rs[i - 1];
      }
    }
  }

  /** `sort_values(by='Spread (%)', ascending=False)`: a permutation with
      the highest spread first. */
  function SortDesc(cs: seq<Candidate>): (r: seq<Candidate>)
    ensures SortedDesc(r)
    ensures multiset(r) == multiset(cs)
    ensures |r| == |cs|
  {
    if |cs| == 0 then []
    else
      assert cs == [cs[0]] + cs[1..];
      Insert(cs[0], SortDesc(cs[1..]))
  }

  function Min(a: int, b: int): int { if a <= b then a else b }

  /** `.head(20)` of the sorted rows: at most 20 rows, highest spread first,
      each an admitted row, and none of the rows left out beats a kept one. */
  function Rank(cs: seq<Candidate>): (r: seq<Candidate>)
    ensures |r| == Min(TopN, |cs|)
    ensures SortedDesc(r)
    ensures multiset(r) <= multiset(cs)
    ensures forall x, i :: x in multiset(cs) - multiset(r) && 0 <= i < |r| ==> x.pick.pct <= r[i].pick.pct
  {
    var sorted := SortDesc(cs);
    var k := Min(TopN, |cs|);
    TakeDominates(cs, sorted, k);
    sorted[..k]
  }

  /** The first k rows of a sorted permutation of `cs` are sorted, come out
      of `cs`, and beat every row of `cs` left out. */
  lemma TakeDominates(cs: seq<Candidate>, sorted: seq<Candidate>, k: nat)
    requires SortedDesc(sorted) && multiset(sorted) == multiset(cs) && k <= |sorted|
    ensures SortedDesc(sorted[..k])
    ensures multiset(sorted[..k]) <= multiset(cs)
    ensures forall x, i :: x in multiset(cs) - multiset(sorted[..k]) && 0 <= i < k ==> x.pick.pct <= sorted[..k][i].pick.pct
  {
    PrefixDominatesRest(sorted, k);
    var r := sorted[..k];
    forall i, j | 0 <= i < j < |r| ensures r[i].pick.pct >= r[j].pick.pct {
      assert r[i] == sorted[i] && r[j] == sorted[j];
    }
  }

  /** With at most 20 rows, `head(20)` keeps every row. */
  lemma RankKeepsAllWhenFew(cs: seq<Candidate>)
    requires |cs| <= TopN
    ensures multiset(Rank(cs)) == multiset(cs)
  {
    var sorted := SortDesc(cs);
    assert sorted[..|cs|] == sorted;
  }

  /** In a sorted sequence, every element after position k is at most every
      element before it, and prefix and rest split the multiset. */
  lemma PrefixDominatesRest(s: seq<Candidate>, k: nat)
    requires SortedDesc(s) && k <= |s|
    ensures multiset(s) - multiset(s[..k]) == multiset(s[k..])
    ensures multiset(s[..k]) <= multiset(s)
    ensures forall x, i :: x in multiset(s[k..]) && 0 <= i < k ==> x.pick.pct <= s[i].pick.pct
  {
    assert s == s[..k] + s[k..];
    forall x, i | x in multiset(s[k..]) && 0 <= i < k
      ensures x.pick.pct <= s[i].pick.pct
    {
      var j :| 0 <= j < |s[k..]| && s[k..][j] == x;
      assert s[k + j] == x;
    }
  }
}
