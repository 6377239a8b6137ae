/**
 * The scan end to end: `get_spread_data` after the loop (top-20 cut,
 * network enrichment of both venues, dropping incomplete rows), and the
 * refresh path of `update_data`/`fetch_data` (refuse identical venues,
 * normalise both ticker lists, intersect their symbols).
 */
module Engine {
  import opened Wrappers
  import opened Text
  import opened Venues
  import opened Tickers
  import opened Spread
  import opened Depth
  import opened Chains
  import opened Ranking

  /** The coin-info response a venue returns for a coin (fetching, and the
      request signing of BingX and MEXC, are outside the model). */
  type InfoSource = (Venue, string) -> InfoResponse

  /** A row of the final table: the candidate row followed by the joined
      deposit and withdraw chains of the first and of the second venue. */
  datatype Opportunity = Opportunity(
    row: Candidate,
    deposit1: string, withdraw1: string,
    deposit2: string, withdraw2: string)

  /** The outcome of one refresh: nothing (both pickers name the same
      venue), the raised error, or the table. */
  datatype ScanResult = Skipped | Failed(error: ScanError) | Done(table: seq<Opportunity>)

  /** `set(data1.keys()).intersection(set(data2.keys()))`. */
  function CommonSymbols(d1: map<string, Quote>, d2: map<string, Quote>): (s: set<string>)
    ensures forall x :: x in s <==> x in d1 && x in d2
  {
    d1.Keys * d2.Keys
  }

  /** No symbol is visited twice. */
  predicate NoRepeats(order: seq<string>)
  {
    forall i, j :: 0 <= i < j < |order| ==> order[i] != order[j]
  }

  /** `order` lists every element of `s` exactly once: the iteration order
      of a Python set. */
  predicate IsEnumeration(order: seq<string>, s: set<string>)
  {
    && (forall x :: x in order ==> x in s)
    && (forall x :: x in s ==> x in order)
    && NoRepeats(order)
  }

  /** `df['Coin'].str.split('/').str[0]`: one coin per kept row. */
  function Coins(rows: seq<Candidate>): (coins: seq<string>)
    ensures |coins| == |rows|
    ensures forall i :: 0 <= i < |rows| ==> coins[i] == BaseCoin(rows[i].symbol)
  {
    seq(|rows|, i requires 0 <= i < |rows| => BaseCoin(rows[i].symbol))
  }

  /** Assigning the four chain columns, position by position. */
  function Attach(rows: seq<Candidate>, dep1: seq<string>, wd1: seq<string>,
                  dep2: seq<string>, wd2: seq<string>): (os: seq<Opportunity>)
    requires |dep1| == |wd1| == |dep2| == |wd2| == |rows|
    ensures |os| == |rows|
    ensures forall i :: 0 <= i < |rows| ==> os[i] == Opportunity(rows[i], dep1[i], wd1[i], dep2[i], wd2[i])
  {
    seq(|rows|, i requires 0 <= i < |rows| => Opportunity(rows[i], dep1[i], wd1[i], dep2[i], wd2[i]))
  }

  /** A row with no empty string and no missing fill, i.e. one that
      `replace("", NA)` followed by `dropna()` keeps. */
  predicate Complete(o: Opportunity)
  {
    && o.row.symbol != ""
    && o.row.buyFill.Fill? && o.row.sellFill.Fill?
    && o.deposit1 != "" && o.withdraw1 != "" && o.deposit2 != "" && o.withdraw2 != ""
  }

  predicate OppsSorted(os: seq<Opportunity>)
  {
    forall i, j :: 0 <= i < j < |os| ==> os[i].row.pick.pct >= os[j].row.pick.pct
  }

  /** No two rows of the table share a symbol. */
  predicate RowSymbolsDistinct(os: seq<Opportunity>)
  {
    forall i, j :: 0 <= i < j < |os| ==> os[i].row.symbol != os[j].row.symbol
  }

  /** `dropna()`: keeps each complete row as often as it occurs and drops
      every other row, in order. */
  function DropIncomplete(os: seq<Opportunity>): (r: seq<Opportunity>)
    ensures forall o :: multiset(r)[o] == (if Complete(o) then multiset(os)[o] else 0)
    ensures forall o :: o in r <==> o in os && Complete(o)
    ensures |r| <= |os|
    ensures OppsSorted(os) ==> OppsSorted(r)
    ensures RowSymbolsDistinct(os) ==> RowSymbolsDistinct(r)
  {
    if |os| == 0 then []
    else
      var rest := DropIncomplete(os[1..]);
      DropStep(os, rest);
      if Complete(os[0]) then [os[0]] + rest else rest
  }

  /** `dropna()` works row by row: dropping from a concatenation is dropping
      from each part, so the kept rows stay in their input order. */
  lemma {:induction false} DropAppend(a: seq<Opportunity>, b: seq<Opportunity>)
    ensures DropIncomplete(a + b) == DropIncomplete(a) + DropIncomplete(b)
    decreases |a|
  {
    if |a| == 0 {
      assert a + b == b;
    } else {
      assert (a + b)[0] == a[0];
      assert (a + b)[1..] == a[1..] + b;
      DropAppend(a[1..], b);
    }
  }

  /** One step of `dropna()`: the head goes in front of the rows kept from
      the tail exactly when it is complete, and the step keeps every fact
      stated of the whole. */
  lemma DropStep(os: seq<Opportunity>, rest: seq<Opportunity>)
    requires |os| > 0
    requires forall o :: multiset(rest)[o] == (if Complete(o) then multiset(os[1..])[o] else 0)
    requires |rest| <= |os[1..]|
    requires OppsSorted(os[1..]) ==> OppsSorted(rest)
    requires RowSymbolsDistinct(os[1..]) ==> RowSymbolsDistinct(rest)
    ensures var r := if Complete(os[0]) then [os[0]] + rest else rest;
      && (forall o :: multiset(r)[o] == (if Complete(o) then multiset(os)[o] else 0))
      && (forall o :: o in r <==> o in os && Complete(o))
      && |r| <= |os|
      && (OppsSorted(os) ==> OppsSorted(r))
      && (RowSymbolsDistinct(os) ==> RowSymbolsDistinct(r))
  {
    var r := if Complete(os[0]) then [os[0]] + rest else rest;
    DropCounts(os, rest);
    HeadBeforeKept(os, rest);
    if OppsSorted(os) {
      assert OppsSorted(os[1..]);
      if Complete(os[0]) {
        OppsConsSorted(os[0], rest);
      }
    }
    if RowSymbolsDistinct(os) {
      assert RowSymbolsDistinct(os[1..]);
      if Complete(os[0]) {
        OppsConsDistinct(os[0], rest);
      }
    }
  }

  /** The counts and the membership of one step of `dropna()`. */
  lemma DropCounts(os: seq<Opportunity>, rest: seq<Opportunity>)
    requires |os| > 0
    requires forall o :: multiset(rest)[o] == (if Complete(o) then multiset(os[1..])[o] else 0)
    ensures forall o :: o in rest ==> o in os[1..]
    ensures forall o ::
      multiset(if Complete(os[0]) then [os[0]] + rest else rest)[o] == (if Complete(o) then multiset(os)[o] else 0)
    ensures forall o ::
      o in (if Complete(os[0]) then [os[0]] + rest else rest) <==> o in os && Complete(o)
  {
    assert os == [os[0]] + os[1..];
    assert multiset(os) == multiset{os[0]} + multiset(os[1..]);
    var r := if Complete(os[0]) then [os[0]] + rest else rest;
    if Complete(os[0]) {
      assert multiset(r) == multiset{os[0]} + multiset(rest);
    }
    forall o ensures o in r <==> o in os && Complete(o) {
      assert o in r <==> multiset(r)[o] > 0;
      assert o in os <==> multiset(os)[o] > 0;
    }
    forall o | o in rest ensures o in os[1..] {
      assert multiset(rest)[o] > 0;
    }
  }

  /** The head of a sorted (or symbol-distinct) table stands above (or
      apart from) every row kept from its tail. */
  lemma HeadBeforeKept(os: seq<Opportunity>, rest: seq<Opportunity>)
    requires |os| > 0
    requires forall o :: o in rest ==> o in os[1..]
    ensures OppsSorted(os) ==> forall i :: 0 <= i < |rest| ==> os[0].row.pick.pct >= rest[i].row.pick.pct
    ensures RowSymbolsDistinct(os) ==> forall i :: 0 <= i < |rest| ==> os[0].row.symbol != rest[i].row.symbol
  {
    forall i | 0 <= i < |rest|
      ensures exists j :: 0 < j < |os| && os[j] == rest[i]
    {
      assert rest[i] in os[1..];
      var j :| 0 <= j < |os[1..]| && os[1..][j] == rest[i];
      assert os[j + 1] == rest[i];
    }
  }

  /** A row whose symbol no row of a symbol-distinct table has can go in front. */
  lemma OppsConsDistinct(o: Opportunity, rest: seq<Opportunity>)
    requires RowSymbolsDistinct(rest)
    requires forall i :: 0 <= i < |rest| ==> o.row.symbol != rest[i].row.symbol
    ensures RowSymbolsDistinct([o] + rest)
  {
    var r := [o] + rest;
    forall i, j | 0 <= i < j < |r| ensures r[i].row.symbol != r[j].row.symbol {
      assert r[j] == rest[j - 1];
      if i > 0 {
        assert r[i] == rest[i - 1];
      }
    }
  }

  /** A row at least as high as every row of a sorted sequence can go in front. */
  lemma OppsConsSorted(o: Opportunity, rest: seq<Opportunity>)
    requires OppsSorted(rest)
    requires forall i :: 0 <= i < |rest| ==> o.row.pick.pct >= rest[i].row.pick.pct
    ensures OppsSorted([o] + rest)
  {
    var r := [o] + rest;
    forall i, j | 0 <= i < j < |r| ensures r[i].row.pick.pct >= r[j].row.pick.pct {
      assert r[j] == rest[j - 1];
      if i > 0 {
        assert r[i] == rest[i - 1];
      }
    }
  }

  /** The chain strings a row of coin `coin` receives from venue `v`. */
  predicate ChainsFrom(v: Venue, coin: string, info: InfoSource, deposit: string, withdraw: string)
  {
    && CoinInfo(v, coin, info(v, coin)).Success?
    && deposit == Join(CoinInfo(v, coin, info(v, coin)).value.0, ", ")
    && withdraw == Join(CoinInfo(v, coin, info(v, coin)).value.1, ", ")
  }

  /** Both venues' chain strings of a row come from its coin's lookups. */
  predicate EnrichedFrom(v1: Venue, v2: Venue, info: InfoSource, o: Opportunity)
  {
    && ChainsFrom(v1, BaseCoin(o.row.symbol), info, o.deposit1, o.withdraw1)
    && ChainsFrom(v2, BaseCoin(o.row.symbol), info, o.deposit2, o.withdraw2)
  }

  /** Position i of `get_coins_info`'s lists belongs to coin i. */
  lemma CoinsInfoChains(v: Venue, coins: seq<string>, info: InfoSource, i: int)
    requires CoinsInfo(v, coins, info).Success? && 0 <= i < |coins|
    ensures ChainsFrom(v, coins[i], info, CoinsInfo(v, coins, info).value.0[i], CoinsInfo(v, coins, info).value.1[i])
  {
  }

  /** Row i of the attached table carries the chains of coin i. */
  lemma AttachedAt(v1: Venue, v2: Venue, ranked: seq<Candidate>, info: InfoSource,
                   lists1: (seq<string>, seq<string>), lists2: (seq<string>, seq<string>), i: int)
    requires CoinsInfo(v1, Coins(ranked), info) == Success(lists1)
    requires CoinsInfo(v2, Coins(ranked), info) == Success(lists2)
    requires 0 <= i < |ranked|
    ensures Attach(ranked, lists1.0, lists1.1, lists2.0, lists2.1)[i].row == ranked[i]
    ensures EnrichedFrom(v1, v2, info, Attach(ranked, lists1.0, lists1.1, lists2.0, lists2.1)[i])
  {
    CoinsInfoChains(v1, Coins(ranked), info, i);
    CoinsInfoChains(v2, Coins(ranked), info, i);
  }

  /** Attaching the lists of both venues enriches every row from its coin. */
  lemma AttachEnriches(v1: Venue, v2: Venue, ranked: seq<Candidate>, info: InfoSource,
                       lists1: (seq<string>, seq<string>), lists2: (seq<string>, seq<string>))
    requires CoinsInfo(v1, Coins(ranked), info) == Success(lists1)
    requires CoinsInfo(v2, Coins(ranked), info) == Success(lists2)
    ensures |lists1.0| == |lists1.1| == |lists2.0| == |lists2.1| == |ranked|
    ensures forall o :: o in Attach(ranked, lists1.0, lists1.1, lists2.0, lists2.1) ==>
      o.row in ranked && EnrichedFrom(v1, v2, info, o)
    ensures SortedDesc(ranked) ==> OppsSorted(Attach(ranked, lists1.0, lists1.1, lists2.0, lists2.1))
    ensures forall o: Opportunity :: o.row in ranked && EnrichedFrom(v1, v2, info, o) ==>
      o in Attach(ranked, lists1.0, lists1.1, lists2.0, lists2.1)
  {
    var enriched := Attach(ranked, lists1.0, lists1.1, lists2.0, lists2.1);
    AttachedRowsEnriched(v1, v2, ranked, info, lists1, lists2);
    EnrichedRowsAttached(v1, v2, ranked, info, lists1, lists2);
    if SortedDesc(ranked) {
      forall i, j | 0 <= i < j < |enriched|
        ensures enriched[i].row.pick.pct >= enriched[j].row.pick.pct
      {
        assert enriched[i].row == ranked[i] && enriched[j].row == ranked[j];
      }
    }
  }

  /** Every attached row is a ranked row carrying its coin's chains. */
  lemma AttachedRowsEnriched(v1: Venue, v2: Venue, ranked: seq<Candidate>, info: InfoSource,
                             lists1: (seq<string>, seq<string>), lists2: (seq<string>, seq<string>))
    requires CoinsInfo(v1, Coins(ranked), info) == Success(lists1)
    requires CoinsInfo(v2, Coins(ranked), info) == Success(lists2)
    ensures forall o :: o in Attach(ranked, lists1.0, lists1.1, lists2.0, lists2.1) ==>
      o.row in ranked && EnrichedFrom(v1, v2, info, o)
  {
    var enriched := Attach(ranked, lists1.0, lists1.1, lists2.0, lists2.1);
    forall o | o in enriched
      ensures o.row in ranked && EnrichedFrom(v1, v2, info, o)
    {
      var i :| 0 <= i < |enriched| && enriched[i] == o;
      AttachedAt(v1, v2, ranked, info, lists1, lists2, i);
    }
  }

  /** Every ranked row carrying its coin's chains is attached. */
  lemma EnrichedRowsAttached(v1: Venue, v2: Venue, ranked: seq<Candidate>, info: InfoSource,
                             lists1: (seq<string>, seq<string>), lists2: (seq<string>, seq<string>))
    requires CoinsInfo(v1, Coins(ranked), info) == Success(lists1)
    requires CoinsInfo(v2, Coins(ranked), info) == Success(lists2)
    ensures forall o: Opportunity :: o.row in ranked && EnrichedFrom(v1, v2, info, o) ==>
      o in Attach(ranked, lists1.0, lists1.1, lists2.0, lists2.1)
  {
    var enriched := Attach(ranked, lists1.0, lists1.1, lists2.0, lists2.1);
    forall o: Opportunity | o.row in ranked && EnrichedFrom(v1, v2, info, o)
      ensures o in enriched
    {
      var i :| 0 <= i < |ranked| && ranked[i] == o.row;
      AttachedAt(v1, v2, ranked, info, lists1, lists2, i);
      assert enriched[i] == o;
    }
  }

  /** The candidate rows of a table, in order. */
  function Rows(os: seq<Opportunity>): (rs: seq<Candidate>)
    ensures |rs| == |os| && forall i :: 0 <= i < |os| ==> rs[i] == os[i].row
  {
    if |os| == 0 then [] else [os[0].row] + Rows(os[1..])
  }

  /** A table holds a row at most as often as its candidate row occurs
      among the table's candidate rows. */
  lemma RowCounts(os: seq<Opportunity>)
    ensures forall o :: multiset(os)[o] <= multiset(Rows(os))[o.row]
  {
    forall o: Opportunity ensures multiset(os)[o] <= multiset(Rows(os))[o.row] {
      RowCount(os, o);
    }
  }

  /** The count of one row, by induction over the table. */
  lemma {:induction false} RowCount(os: seq<Opportunity>, o: Opportunity)
    ensures multiset(os)[o] <= multiset(Rows(os))[o.row]
    decreases |os|
  {
    if |os| > 0 {
      RowCount(os[1..], o);
      var x, rs := os[0], Rows(os[1..]);
      assert os == [x] + os[1..];
      assert Rows(os) == [x.row] + rs;
      assert multiset(os)[o] == multiset{x}[o] + multiset(os[1..])[o];
      assert multiset(Rows(os))[o.row] == multiset{x.row}[o.row] + multiset(rs)[o.row];
    }
  }

  /** Attaching chains adds one table row per ranked row: no row gains a
      second copy, and distinct symbols stay distinct. */
  lemma AttachCounts(ranked: seq<Candidate>, os: seq<Opportunity>)
    requires |os| == |ranked| && forall i :: 0 <= i < |os| ==> os[i].row == ranked[i]
    ensures forall o :: multiset(os)[o] <= multiset(ranked)[o.row]
    ensures SymbolsDistinct(ranked) ==> RowSymbolsDistinct(os)
  {
    assert Rows(os) == ranked;
    RowCounts(os);
  }

  /** Both venues' coin-info lookups succeed for the coins of `ranked`. */
  predicate LookupsSucceed(v1: Venue, v2: Venue, ranked: seq<Candidate>, info: InfoSource)
  {
    CoinsInfo(v1, Coins(ranked), info).Success? && CoinsInfo(v2, Coins(ranked), info).Success?
  }

  /** The enrichment of the kept rows: the network lists of both venues
      for each row's coin, then `replace("", NA)` and `dropna()`. It fails
      exactly when a lookup fails, and otherwise keeps exactly the complete
      enriched rows, in order. */
  function Enrich(v1: Venue, v2: Venue, ranked: seq<Candidate>, info: InfoSource)
    : (r: Result<seq<Opportunity>, ScanError>)
    ensures r.Success? <==> LookupsSucceed(v1, v2, ranked, info)
    ensures r.Success? ==> |r.value| <= |ranked|
    ensures r.Success? && SortedDesc(ranked) ==> OppsSorted(r.value)
    ensures r.Success? ==> forall o :: o in r.value <==>
      o.row in ranked && Complete(o) && EnrichedFrom(v1, v2, info, o)
    ensures r.Success? ==> forall o :: multiset(r.value)[o] <= multiset(ranked)[o.row]
    ensures r.Success? && SymbolsDistinct(ranked) ==> RowSymbolsDistinct(r.value)
    ensures r.Failure? ==>
      && r.error.CoinInfoUnavailable? && (r.error.venue == v1 || r.error.venue == v2)
      && exists i :: 0 <= i < |ranked| && r.error.coin == BaseCoin(ranked[i].symbol)
    ensures CoinsInfo(v1, Coins(ranked), info).Failure? ==>
      r == Failure(CoinsInfo(v1, Coins(ranked), info).error)
    ensures CoinsInfo(v1, Coins(ranked), info).Success? && CoinsInfo(v2, Coins(ranked), info).Failure? ==>
      r == Failure(CoinsInfo(v2, Coins(ranked), info).error)
  {
    match CoinsInfo(v1, Coins(ranked), info)
    case Failure(e) =>
      LookupFailureNamesRow(v1, ranked, info);
      Failure(e)
    case Success(lists1) =>
      match CoinsInfo(v2, Coins(ranked), info)
      case Failure(e) =>
        LookupFailureNamesRow(v2, ranked, info);
        Failure(e)
      case Success(lists2) =>
        EnrichedTable(v1, v2, ranked, info, lists1, lists2);
        EnrichedTableCounts(ranked, lists1, lists2);
        Success(DropIncomplete(Attach(ranked, lists1.0, lists1.1, lists2.0, lists2.1)))
  }

  /** The table `dropna()` leaves of the attached rows: exactly the
      complete enriched ones, in ranked order. */
  lemma EnrichedTable(v1: Venue, v2: Venue, ranked: seq<Candidate>, info: InfoSource,
                      lists1: (seq<string>, seq<string>), lists2: (seq<string>, seq<string>))
    requires CoinsInfo(v1, Coins(ranked), info) == Success(lists1)
    requires CoinsInfo(v2, Coins(ranked), info) == Success(lists2)
    ensures |lists1.0| == |lists1.1| == |lists2.0| == |lists2.1| == |ranked|
    ensures var t := DropIncomplete(Attach(ranked, lists1.0, lists1.1, lists2.0, lists2.1));
      && |t| <= |ranked|
      && (SortedDesc(ranked) ==> OppsSorted(t))
      && (forall o :: o in t <==> o.row in ranked && Complete(o) && EnrichedFrom(v1, v2, info, o))
  {
    AttachEnriches(v1, v2, ranked, info, lists1, lists2);
  }

  /** `dropna()` after attaching leaves at most one table row per ranked
      row, so distinct ranked symbols stay distinct. */
  lemma EnrichedTableCounts(ranked: seq<Candidate>, lists1: (seq<string>, seq<string>), lists2: (seq<string>, seq<string>))
    requires |lists1.0| == |lists1.1| == |lists2.0| == |lists2.1| == |ranked|
    ensures var t := DropIncomplete(Attach(ranked, lists1.0, lists1.1, lists2.0, lists2.1));
      && (forall o :: multiset(t)[o] <= multiset(ranked)[o.row])
      && (SymbolsDistinct(ranked) ==> RowSymbolsDistinct(t))
  {
    var os := Attach(ranked, lists1.0, lists1.1, lists2.0, lists2.1);
    AttachCounts(ranked, os);
    var t := DropIncomplete(os);
    forall o: Opportunity ensures multiset(t)[o] <= multiset(ranked)[o.row] {
      assert multiset(t)[o] <= multiset(os)[o];
    }
  }

  /** A failed `get_coins_info` names the venue and the coin of one of the rows. */
  lemma LookupFailureNamesRow(v: Venue, ranked: seq<Candidate>, info: InfoSource)
    requires CoinsInfo(v, Coins(ranked), info).Failure?
    ensures CoinsInfo(v, Coins(ranked), info).error.CoinInfoUnavailable?
    ensures CoinsInfo(v, Coins(ranked), info).error.venue == v
    ensures exists i :: 0 <= i < |ranked| && CoinsInfo(v, Coins(ranked), info).error.coin == BaseCoin(ranked[i].symbol)
  {
    var coins := Coins(ranked);
    var e := CoinsInfo(v, coins, info).error;
    var i :| 0 <= i < |coins| && CoinInfo(v, coins[i], info(v, coins[i])) == Failure(e);
    assert e.coin == BaseCoin(ranked[i].symbol);
  }

  /** A row the table may hold: complete, for a qualifying symbol of
      `order`, built from its quotes and order books, and enriched from
      its coin on both venues. */
  predicate ValidRow(v1: Venue, v2: Venue, d1: map<string, Quote>, d2: map<string, Quote>,
                     order: seq<string>, depth: DepthSource, info: InfoSource, o: Opportunity)
  {
    && Complete(o)
    && o.row.symbol in order
    && Qualifies(v1, v2, d1, d2, o.row.symbol)
    && BooksReadable(v1, v2, d1, d2, o.row.symbol, depth)
    && o.row == MakeCandidate(v1, v2, d1, d2, o.row.symbol, depth)
    && EnrichedFrom(v1, v2, info, o)
  }

  /** Why `get_spread_data` raised: the first raising symbol of the loop,
      or, after a loop that raised nothing, a failed coin-info lookup of
      either venue for the coin of a qualifying symbol among the top rows. */
  predicate ExplainsFailure(v1: Venue, v2: Venue, d1: map<string, Quote>, d2: map<string, Quote>,
                            order: seq<string>, depth: DepthSource, e: ScanError)
  {
    || (exists i :: 0 <= i < |order| && FirstRaise(v1, v2, d1, d2, order, depth, i)
          && e == RaisedError(v1, v2, d1, d2, order[i], depth))
    || (&& e.CoinInfoUnavailable? && (e.venue == v1 || e.venue == v2)
        && (exists s :: s in order && Qualifies(v1, v2, d1, d2, s) && e.coin == BaseCoin(s))
        && Candidates(v1, v2, d1, d2, order, depth).Success?
        && e.coin in Coins(Rank(Candidates(v1, v2, d1, d2, order, depth).value)))
  }

  /** `get_spread_data(data1, data2, common_symbols, exch1, exch2)`, with the
      symbols visited in the order `order`: it succeeds exactly when the loop
      raises nothing and both venues' lookups succeed on the top rows; the
      table then holds exactly the complete enriched top rows. */
  function SpreadData(v1: Venue, v2: Venue, d1: map<string, Quote>, d2: map<string, Quote>,
                      order: seq<string>, depth: DepthSource, info: InfoSource)
    : (r: Result<seq<Opportunity>, ScanError>)
    ensures r.Success? <==>
      && Candidates(v1, v2, d1, d2, order, depth).Success?
      && LookupsSucceed(v1, v2, Rank(Candidates(v1, v2, d1, d2, order, depth).value), info)
    ensures r.Success? ==> |r.value| <= TopN && OppsSorted(r.value)
    ensures r.Success? ==> forall o :: o in r.value ==>
      ValidRow(v1, v2, d1, d2, order, depth, info, o) && o.row in Rank(Candidates(v1, v2, d1, d2, order, depth).value)
    ensures r.Success? ==> forall o: Opportunity ::
      o.row in Rank(Candidates(v1, v2, d1, d2, order, depth).value) && Complete(o) && EnrichedFrom(v1, v2, info, o)
      ==> o in r.value
    ensures r.Success? && NoRepeats(order) ==> RowSymbolsDistinct(r.value)
    ensures r.Failure? ==> ExplainsFailure(v1, v2, d1, d2, order, depth, r.error)
    ensures Candidates(v1, v2, d1, d2, order, depth).Failure? ==>
      r == Failure(Candidates(v1, v2, d1, d2, order, depth).error)
    ensures (Candidates(v1, v2, d1, d2, order, depth).Success? &&
             CoinsInfo(v1, Coins(Rank(Candidates(v1, v2, d1, d2, order, depth).value)), info).Failure?) ==>
      r == Failure(CoinsInfo(v1, Coins(Rank(Candidates(v1, v2, d1, d2, order, depth).value)), info).error)
    ensures (Candidates(v1, v2, d1, d2, order, depth).Success? &&
             CoinsInfo(v1, Coins(Rank(Candidates(v1, v2, d1, d2, order, depth).value)), info).Success? &&
             CoinsInfo(v2, Coins(Rank(Candidates(v1, v2, d1, d2, order, depth).value)), info).Failure?) ==>
      r == Failure(CoinsInfo(v2, Coins(Rank(Candidates(v1, v2, d1, d2, order, depth).value)), info).error)
  {
    match Candidates(v1, v2, d1, d2, order, depth)
    case Failure(e) => Failure(e)
    case Success(cands) =>
      var r := Enrich(v1, v2, Rank(cands), info);
      if r.Success? then
        RankedRowsValid(v1, v2, d1, d2, order, depth, info, cands, r.value);
        RankedSymbolsDistinct(v1, v2, d1, d2, order, depth, cands);
        r
      else
        LookupFailureExplained(v1, v2, d1, d2, order, depth, info, cands, r.error);
        r
  }

  /** Every complete enriched row of the top candidates is a valid row. */
  lemma RankedRowsValid(v1: Venue, v2: Venue, d1: map<string, Quote>, d2: map<string, Quote>,
                        order: seq<string>, depth: DepthSource, info: InfoSource,
                        cands: seq<Candidate>, os: seq<Opportunity>)
    requires Candidates(v1, v2, d1, d2, order, depth) == Success(cands)
    requires forall o :: o in os ==> o.row in Rank(cands) && Complete(o) && EnrichedFrom(v1, v2, info, o)
    ensures forall o :: o in os ==> ValidRow(v1, v2, d1, d2, order, depth, info, o)
  {
    forall o | o in os ensures ValidRow(v1, v2, d1, d2, order, depth, info, o) {
      assert o.row in multiset(Rank(cands));
      assert o.row in cands;
    }
  }

  /** The top rows of a loop that visits no symbol twice have distinct symbols. */
  lemma RankedSymbolsDistinct(v1: Venue, v2: Venue, d1: map<string, Quote>, d2: map<string, Quote>,
                              order: seq<string>, depth: DepthSource, cands: seq<Candidate>)
    requires Candidates(v1, v2, d1, d2, order, depth) == Success(cands)
    ensures NoRepeats(order) ==> SymbolsDistinct(Rank(cands))
  {
    if NoRepeats(order) {
      CandidatesDistinct(v1, v2, d1, d2, order, depth);
      SubMultisetDistinct(Rank(cands), cands);
    }
  }

  /** A sequence drawn from a symbol-distinct one, without repeating any
      element more often than it occurs there, is symbol-distinct. */
  lemma SubMultisetDistinct(xs: seq<Candidate>, ys: seq<Candidate>)
    requires multiset(xs) <= multiset(ys) && SymbolsDistinct(ys)
    ensures SymbolsDistinct(xs)
  {
    forall i, j | 0 <= i < j < |xs| ensures xs[i].symbol != xs[j].symbol {
      if xs[i] == xs[j] {
        TwiceCounted(xs, i, j);
        OnceCounted(ys, xs[i]);
      } else {
        assert xs[i] in multiset(ys) && xs[j] in multiset(ys);
        var p :| 0 <= p < |ys| && ys[p] == xs[i];
        var q :| 0 <= q < |ys| && ys[q] == xs[j];
      }
    }
  }

  /** An element at two positions is counted at least twice. */
  lemma TwiceCounted(xs: seq<Candidate>, i: int, j: int)
    requires 0 <= i < j < |xs| && xs[i] == xs[j]
    ensures multiset(xs)[xs[i]] >= 2
  {
    assert xs == xs[..j] + xs[j..];
    assert xs[i] in xs[..j] && xs[j] in xs[j..];
    assert multiset(xs) == multiset(xs[..j]) + multiset(xs[j..]);
  }

  /** In a symbol-distinct sequence every element occurs at most once. */
  lemma {:induction false} OnceCounted(ys: seq<Candidate>, c: Candidate)
    requires SymbolsDistinct(ys)
    ensures multiset(ys)[c] <= 1
    decreases |ys|
  {
    if |ys| > 0 {
      assert ys == [ys[0]] + ys[1..];
      assert multiset(ys) == multiset{ys[0]} + multiset(ys[1..]);
      assert SymbolsDistinct(ys[1..]) by {
        forall i, j | 0 <= i < j < |ys[1..]| ensures ys[1..][i].symbol != ys[1..][j].symbol {
          assert ys[1..][i] == ys[i + 1] && ys[1..][j] == ys[j + 1];
        }
      }
      OnceCounted(ys[1..], c);
      if c == ys[0] {
        assert c !in ys[1..] by {
          forall k | 0 <= k < |ys[1..]| ensures ys[1..][k] != c {
            assert ys[1..][k] == ys[k + 1];
          }
        }
      }
    }
  }

  /** A failed lookup for a top candidate's coin explains the failure. */
  lemma LookupFailureExplained(v1: Venue, v2: Venue, d1: map<string, Quote>, d2: map<string, Quote>,
                               order: seq<string>, depth: DepthSource, info: InfoSource,
                               cands: seq<Candidate>, e: ScanError)
    requires Candidates(v1, v2, d1, d2, order, depth) == Success(cands)
    requires e.CoinInfoUnavailable? && (e.venue == v1 || e.venue == v2)
    requires exists i :: 0 <= i < |Rank(cands)| && e.coin == BaseCoin(Rank(cands)[i].symbol)
    ensures ExplainsFailure(v1, v2, d1, d2, order, depth, e)
  {
    var ranked := Rank(cands);
    var i :| 0 <= i < |ranked| && e.coin == BaseCoin(ranked[i].symbol);
    assert ranked[i] in multiset(cands);
    assert ranked[i] in cands;
    assert Coins(ranked)[i] == e.coin;
  }

  /** When at most 20 rows qualify, none is lost to the cut: the complete
      enriched row of every qualifying symbol is in the table. */
  lemma SpreadDataKeepsQualifyingRows(v1: Venue, v2: Venue, d1: map<string, Quote>, d2: map<string, Quote>,
                                      order: seq<string>, depth: DepthSource, info: InfoSource,
                                      s: string, o: Opportunity)
    requires SpreadData(v1, v2, d1, d2, order, depth, info).Success?
    requires |Candidates(v1, v2, d1, d2, order, depth).value| <= TopN
    requires s in order && Qualifies(v1, v2, d1, d2, s)
    requires o.row == MakeCandidate(v1, v2, d1, d2, s, depth)
    requires Complete(o) && EnrichedFrom(v1, v2, info, o)
    ensures o in SpreadData(v1, v2, d1, d2, order, depth, info).value
  {
    var cands := Candidates(v1, v2, d1, d2, order, depth).value;
    RankKeepsAllWhenFew(cands);
    assert o.row in multiset(cands);
  }

  /** The refresh: identical venues do nothing; otherwise both ticker lists
      are normalised and the symbols both list are scanned, visited in the
      order `order` (the iteration order of the intersection set). */
  function Scan(v1: Venue, v2: Venue, raw1: seq<RawTicker>, raw2: seq<RawTicker>,
                order: seq<string>, depth: DepthSource, info: InfoSource): (r: ScanResult)
    requires Normalise(v1, raw1).Success? && Normalise(v2, raw2).Success? ==>
      IsEnumeration(order, CommonSymbols(Normalise(v1, raw1).value, Normalise(v2, raw2).value))
    ensures r.Skipped? <==> v1 == v2
    ensures r.Done? <==>
      && v1 != v2 && Normalise(v1, raw1).Success? && Normalise(v2, raw2).Success?
      && SpreadData(v1, v2, Normalise(v1, raw1).value, Normalise(v2, raw2).value, order, depth, info).Success?
    ensures r.Done? ==> |r.table| <= TopN && OppsSorted(r.table)
    ensures r.Done? ==> forall o :: o in r.table ==>
      && o.row.symbol in CommonSymbols(Normalise(v1, raw1).value, Normalise(v2, raw2).value)
      && ValidRow(v1, v2, Normalise(v1, raw1).value, Normalise(v2, raw2).value, order, depth, info, o)
    ensures r.Done? ==> forall o: Opportunity ::
      && o.row in Rank(Candidates(v1, v2, Normalise(v1, raw1).value, Normalise(v2, raw2).value, order, depth).value)
      && Complete(o) && EnrichedFrom(v1, v2, info, o)
      ==> o in r.table
    ensures r.Done? ==> RowSymbolsDistinct(r.table)
    ensures v1 != v2 && Normalise(v1, raw1).Failure? ==> r == Failed(MalformedTicker(v1))
    ensures (v1 != v2 && Normalise(v1, raw1).Success? && Normalise(v2, raw2).Success? &&
             SpreadData(v1, v2, Normalise(v1, raw1).value, Normalise(v2, raw2).value, order, depth, info).Failure?) ==>
      r == Failed(SpreadData(v1, v2, Normalise(v1, raw1).value, Normalise(v2, raw2).value, order, depth, info).error)
    ensures r.Failed? ==>
      || (r.error == MalformedTicker(v1) && Normalise(v1, raw1).Failure?)
      || (r.error == MalformedTicker(v2) && Normalise(v2, raw2).Failure?)
      || (&& Normalise(v1, raw1).Success? && Normalise(v2, raw2).Success?
          && ExplainsFailure(v1, v2, Normalise(v1, raw1).value, Normalise(v2, raw2).value, order, depth, r.error))
  {
    if v1 == v2 then Skipped
    else
      match Normalise(v1, raw1)
      case Failure(e) => Failed(e)
      case Success(d1) =>
        match Normalise(v2, raw2)
        case Failure(e) => Failed(e)
        case Success(d2) =>
          match SpreadData(v1, v2, d1, d2, order, depth, info)
          case Failure(e) => Failed(e)
          case Success(table) => Done(table)
  }

  /** A symbol listed by only one venue, or missing a bid or an ask on
      either, never reaches the table. */
  lemma UnpricedSymbolsExcluded(v1: Venue, v2: Venue, raw1: seq<RawTicker>, raw2: seq<RawTicker>,
                                order: seq<string>, depth: DepthSource, info: InfoSource, s: string)
    requires Normalise(v1, raw1).Success? && Normalise(v2, raw2).Success? ==>
      IsEnumeration(order, CommonSymbols(Normalise(v1, raw1).value, Normalise(v2, raw2).value))
    requires Normalise(v1, raw1).Success? && Normalise(v2, raw2).Success?
    requires !Priced(Normalise(v1, raw1).value, Normalise(v2, raw2).value, s)
    ensures Scan(v1, v2, raw1, raw2, order, depth, info).Done? ==>
      forall o :: o in Scan(v1, v2, raw1, raw2, order, depth, info).table ==> o.row.symbol != s
  {
  }

  /** A scanned symbol yields a candidate row exactly when it qualifies;
      with the intersection as the iteration order, that is: both venues
      list it, all four prices are present, 0.6 <= spread <= 35 and both
      volumes exceed 200000. */
  lemma CandidateIffQualifies(v1: Venue, v2: Venue, d1: map<string, Quote>, d2: map<string, Quote>,
                              order: seq<string>, depth: DepthSource, s: string)
    requires IsEnumeration(order, CommonSymbols(d1, d2))
    requires Candidates(v1, v2, d1, d2, order, depth).Success?
    ensures (exists c :: c in Candidates(v1, v2, d1, d2, order, depth).value && c.symbol == s)
      <==> Qualifies(v1, v2, d1, d2, s)
  {
    var cs := Candidates(v1, v2, d1, d2, order, depth).value;
    if Qualifies(v1, v2, d1, d2, s) {
      assert s in CommonSymbols(d1, d2);
      assert MakeCandidate(v1, v2, d1, d2, s, depth) in cs;
    }
  }

  /** No two rows share a symbol. */
  predicate SymbolsDistinct(cs: seq<Candidate>)
  {
    forall i, j :: 0 <= i < j < |cs| ==> cs[i].symbol != cs[j].symbol
  }

  /** One pass of the loop: the rows of `order` are those of its first
      symbol followed by those of the rest. */
  lemma CandidatesUnfold(v1: Venue, v2: Venue, d1: map<string, Quote>, d2: map<string, Quote>,
                         order: seq<string>, depth: DepthSource)
    requires |order| > 0
    requires Candidates(v1, v2, d1, d2, order, depth).Success?
    ensures Evaluate(v1, v2, d1, d2, order[0], depth).Success?
    ensures Candidates(v1, v2, d1, d2, order[1..], depth).Success?
    ensures Candidates(v1, v2, d1, d2, order, depth).value ==
      Evaluate(v1, v2, d1, d2, order[0], depth).value + Candidates(v1, v2, d1, d2, order[1..], depth).value
  {
  }

  /** Putting at most one row of a fresh symbol in front keeps the symbols distinct. */
  lemma DistinctCons(row: seq<Candidate>, rest: seq<Candidate>, s: string)
    requires |row| <= 1 && (|row| == 1 ==> row[0].symbol == s)
    requires forall c :: c in rest ==> c.symbol != s
    requires SymbolsDistinct(rest)
    ensures SymbolsDistinct(row + rest)
  {
    var cs := row + rest;
    forall i, j | 0 <= i < j < |cs| ensures cs[i].symbol != cs[j].symbol {
      assert cs[j] == rest[j - |row|];
      if i < |row| {
        assert rest[j - |row|] in rest;
      } else {
        assert cs[i] == rest[i - |row|];
      }
    }
  }

  /** Each visited symbol gives at most one candidate row. */
  lemma {:induction false} CandidatesDistinct(v1: Venue, v2: Venue, d1: map<string, Quote>, d2: map<string, Quote>,
                                              order: seq<string>, depth: DepthSource)
    requires NoRepeats(order)
    requires Candidates(v1, v2, d1, d2, order, depth).Success?
    ensures SymbolsDistinct(Candidates(v1, v2, d1, d2, order, depth).value)
    decreases |order|
  {
    if |order| > 0 {
      CandidatesUnfold(v1, v2, d1, d2, order, depth);
      var rest := Candidates(v1, v2, d1, d2, order[1..], depth).value;
      CandidatesDistinct(v1, v2, d1, d2, order[1..], depth);
      assert order[0] !in order[1..] by {
        forall k | 0 <= k < |order[1..]| ensures order[1..][k] != order[0] {
          assert order[1..][k] == order[k + 1];
        }
      }
      DistinctCons(Evaluate(v1, v2, d1, d2, order[0], depth).value, rest, order[0]);
    }
  }
}
