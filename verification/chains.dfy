/**
 * Transfer-network partitioning: `get_<venue>_coin_info` splits a coin's
 * network list into deposit-enabled and withdraw-enabled labels, and
 * `get_coins_info` joins each list with ", " for every coin.
 */
module Chains {
  import opened Wrappers
  import opened Text
  import opened Venues

  /** A status field as the venue sends it: a JSON boolean or a string. */
  datatype Flag = FlagBool(b: bool) | FlagText(t: string)

  /** One network entry, projected from the venue's field names:
      `chain` is ByBit/KuCoin/Huobi/Bitget `chain`, BingX `name`, MEXC
      `network`; `display` is ByBit `chainType`, KuCoin `chainName`, Huobi
      `fullName`, BingX `network` (unused for Bitget and MEXC). */
  datatype ChainRec = ChainRec(chain: string, display: string, deposit: Flag, withdraw: Flag)

  /** One coin entry of a coin-info response. */
  datatype CoinRow = CoinRow(coin: string, chains: seq<ChainRec>)

  /** A decoded coin-info response: the list the venue's code indexes
      (an empty or null list decodes to no rows), or a response lacking
      the field the code reads. KuCoin's single `data` object is one row. */
  datatype InfoResponse = Malformed | Rows(rows: seq<CoinRow>)

  /** The venue's test for "this network is open". */
  predicate Enabled(v: Venue, f: Flag)
    ensures Enabled(v, f) && f.FlagBool? ==> f.b && (v == KuCoin || v == BingX || v == MEXC)
    ensures Enabled(v, f) && f.FlagText? ==> v == ByBit || v == Huobi || v == Bitget
  {
    match v
    case ByBit => f == FlagText("1")
    case Huobi => f == FlagText("allowed")
    case Bitget => f == FlagText("true")
    case KuCoin => f == FlagBool(true)
    case BingX => f == FlagBool(true)
    case MEXC => f == FlagBool(true)
  }

  /** Venues whose labels read "chain(display)"; Bitget and MEXC list the
      bare chain. */
  predicate LabelsWithDisplay(v: Venue)
  {
    v != Bitget && v != MEXC
  }

  function Label(v: Venue, c: ChainRec): (s: string)
    ensures LabelsWithDisplay(v) ==> |s| > 0
  {
    if LabelsWithDisplay(v) then c.chain + "(" + c.display + ")" else c.chain
  }

  predicate DepositOpen(v: Venue, c: ChainRec) { Enabled(v, c.deposit) }

  predicate WithdrawOpen(v: Venue, c: ChainRec) { Enabled(v, c.withdraw) }

  /** The loop over a coin's networks: one pass, appending each label to
      the deposit list, the withdraw list, both or neither. */
  function Partition(v: Venue, cs: seq<ChainRec>): (r: (seq<string>, seq<string>))
    ensures forall x :: x in r.0 <==> exists i :: 0 <= i < |cs| && DepositOpen(v, cs[i]) && Label(v, cs[i]) == x
    ensures forall x :: x in r.1 <==> exists i :: 0 <= i < |cs| && WithdrawOpen(v, cs[i]) && Label(v, cs[i]) == x
    decreases |cs|
  {
    if |cs| == 0 then ([], [])
    else
      var init := cs[..|cs| - 1];
      var c := cs[|cs| - 1];
      assert forall i :: 0 <= i < |init| ==> init[i] == cs[i];
      var (dep, wd) := Partition(v, init);
      (dep + (if DepositOpen(v, c) then [Label(v, c)] else []),
       wd + (if WithdrawOpen(v, c) then [Label(v, c)] else []))
  }

  /** Partitioning keeps the order of the networks: the lists for `a + b`
      are the lists for `a` followed by those for `b`. */
  lemma {:induction false} PartitionAppend(v: Venue, a: seq<ChainRec>, b: seq<ChainRec>)
    ensures Partition(v, a + b).0 == Partition(v, a).0 + Partition(v, b).0
    ensures Partition(v, a + b).1 == Partition(v, a).1 + Partition(v, b).1
    decreases |b|
  {
    if |b| == 0 {
      assert a + b == a;
    } else {
      var b' := b[..|b| - 1];
      assert (a + b)[..|a + b| - 1] == a + b';
      assert (a + b)[|a + b| - 1] == b[|b| - 1];
      PartitionAppend(v, a, b');
    }
  }

  /** A single network lands in each list whose flag it has set. */
  lemma PartitionSingle(v: Venue, c: ChainRec)
    ensures Partition(v, [c]).0 == (if DepositOpen(v, c) then [Label(v, c)] else [])
    ensures Partition(v, [c]).1 == (if WithdrawOpen(v, c) then [Label(v, c)] else [])
  {
    assert [c][..0] == [];
  }

  /** The first entry for `coin`, as MEXC's list comprehension then `[0]`. */
  function FirstFor(rows: seq<CoinRow>, coin: string): (r: Option<CoinRow>)
    ensures r.None? <==> forall i :: 0 <= i < |rows| ==> rows[i].coin != coin
    ensures r.Some? ==> exists i :: (0 <= i < |rows| && rows[i] == r.value && r.value.coin == coin &&
      forall j :: 0 <= j < i ==> rows[j].coin != coin)
  {
    if |rows| == 0 then None
    else if rows[0].coin == coin then Some(rows[0])
    else
      var r := FirstFor(rows[1..], coin);
      assert forall i :: 1 <= i < |rows| ==> rows[i] == rows[1..][i - 1];
      r
  }

  /** The coin entry the venue's code reads: MEXC searches the full list by
      coin name, every other venue takes the first row. */
  function EntryFor(v: Venue, coin: string, rows: seq<CoinRow>): (r: Option<CoinRow>)
    ensures r.Some? ==> r.value in rows
    ensures v == MEXC ==> (r.None? <==> forall i :: 0 <= i < |rows| ==> rows[i].coin != coin)
    ensures v == MEXC && r.Some? ==> r.value.coin == coin
    ensures v != MEXC ==> (r.None? <==> |rows| == 0)
    ensures v != MEXC && r.Some? ==> r.value == rows[0]
  {
    if v == MEXC then FirstFor(rows, coin)
    else if |rows| == 0 then None
    else Some(rows[0])
  }

  /** Venues whose code turns a missing entry into two empty lists;
      KuCoin and Huobi index it unguarded and raise. */
  predicate GuardsMissingEntry(v: Venue)
  {
    v != KuCoin && v != Huobi
  }

  /** `get_<venue>_coin_info(coin)` on an already fetched response. */
  function CoinInfo(v: Venue, coin: string, resp: InfoResponse): (r: Result<(seq<string>, seq<string>), ScanError>)
    ensures r.Failure? <==>
      if resp.Malformed? then v != BingX
      else !GuardsMissingEntry(v) && EntryFor(v, coin, resp.rows).None?
    ensures r.Failure? ==> r.error == CoinInfoUnavailable(v, coin)
    ensures r.Success? && resp.Rows? && EntryFor(v, coin, resp.rows).Some? ==>
      r.value == Partition(v, EntryFor(v, coin, resp.rows).value.chains)
    ensures r.Success? && (resp.Malformed? || EntryFor(v, coin, resp.rows).None?) ==> r.value == ([], [])
  {
    match resp
    case Malformed =>
      if v == BingX then Success(([], [])) else Failure(CoinInfoUnavailable(v, coin))
    case Rows(rows) =>
      match EntryFor(v, coin, rows)
      case None =>
        if GuardsMissingEntry(v) then Success(([], [])) else Failure(CoinInfoUnavailable(v, coin))
      case Some(row) => Success(Partition(v, row.chains))
  }

  /** The outcome of one coin's lookup: its deposit and withdraw labels. */
  type Lookup = Result<(seq<string>, seq<string>), ScanError>

  /** The loop of `get_coins_info` over the lookups already made: one
      joined deposit string and one joined withdraw string per lookup, in
      order; the first failed lookup aborts the loop. */
  function Collect(rs: seq<Lookup>): (r: Result<(seq<string>, seq<string>), ScanError>)
    ensures r.Success? <==> forall i :: 0 <= i < |rs| ==> rs[i].Success?
    ensures r.Success? ==> |r.value.0| == |rs| && |r.value.1| == |rs|
    ensures r.Success? ==> forall i :: 0 <= i < |rs| ==>
      r.value.0[i] == Join(rs[i].value.0, ", ") && r.value.1[i] == Join(rs[i].value.1, ", ")
    ensures r.Failure? ==> exists i :: (0 <= i < |rs| && rs[i] == Failure(r.error) &&
      forall j :: 0 <= j < i ==> rs[j].Success?)
  {
    if |rs| == 0 then Success(([], []))
    else
      match rs[0]
      case Failure(e) => Failure(e)
      case Success(lists) =>
        var rest := Collect(rs[1..]);
        assert forall i :: 1 <= i < |rs| ==> rs[i] == rs[1..][i - 1];
        match rest
        case Failure(e) =>
          var k :| 0 <= k < |rs[1..]| && rs[1..][k] == Failure(e) && forall j :: 0 <= j < k ==> rs[1..][j].Success?;
          assert rs[k + 1] == Failure(e);
          Failure(e)
        case Success(more) =>
          var r0 := [Join(lists.0, ", ")] + more.0;
          var r1 := [Join(lists.1, ", ")] + more.1;
          assert forall i :: 1 <= i < |rs| ==> r0[i] == more.0[i - 1] && r1[i] == more.1[i - 1];
          Success((r0, r1))
  }

  /** `get_coins_info(coins, venue)`: one joined deposit string and one
      joined withdraw string per coin, in coin order; the first coin whose
      lookup raises aborts the whole call. */
  function CoinsInfo(v: Venue, coins: seq<string>, info: (Venue, string) -> InfoResponse)
    : (r: Result<(seq<string>, seq<string>), ScanError>)
    ensures r.Success? <==> forall i :: 0 <= i < |coins| ==> CoinInfo(v, coins[i], info(v, coins[i])).Success?
    ensures r.Success? ==> |r.value.0| == |coins| && |r.value.1| == |coins|
    ensures r.Success? ==> forall i :: 0 <= i < |coins| ==>
      && r.value.0[i] == Join(CoinInfo(v, coins[i], info(v, coins[i])).value.0, ", ")
      && r.value.1[i] == Join(CoinInfo(v, coins[i], info(v, coins[i])).value.1, ", ")
    ensures r.Failure? ==> exists i :: (0 <= i < |coins| &&
      CoinInfo(v, coins[i], info(v, coins[i])) == Failure(r.error) &&
      forall j :: 0 <= j < i ==> CoinInfo(v, coins[j], info(v, coins[j])).Success?)
  {
    var rs := seq(|coins|, i requires 0 <= i < |coins| => CoinInfo(v, coins[i], info(v, coins[i])));
    assert forall i :: 0 <= i < |coins| ==> rs[i] == CoinInfo(v, coins[i], info(v, coins[i]));
    var r := Collect(rs);
    if r.Failure? then
      var k :| 0 <= k < |rs| && rs[k] == Failure(r.error) && forall j :: 0 <= j < k ==> rs[j].Success?;
      assert CoinInfo(v, coins[k], info(v, coins[k])) == Failure(r.error);
      r
    else r
  }

  /** For venues that print "chain(display)", a joined deposit string is
      empty exactly when no network has deposits open. */
  lemma JoinedDepositEmptyIffNoneOpen(v: Venue, cs: seq<ChainRec>)
    requires LabelsWithDisplay(v)
    ensures Join(Partition(v, cs).0, ", ") == "" <==> forall i :: 0 <= i < |cs| ==> !DepositOpen(v, cs[i])
  {
    var dep := Partition(v, cs).0;
    JoinEmptyIff(dep);
    if |dep| > 0 {
      assert dep[0] in dep;
      var i :| 0 <= i < |cs| && DepositOpen(v, cs[i]) && Label(v, cs[i]) == dep[0];
    } else {
      forall i | 0 <= i < |cs| ensures DepositOpen(v, cs[i]) ==> Label(v, cs[i]) in dep {
      }
    }
  }

  /** The same for the withdraw string. */
  lemma JoinedWithdrawEmptyIffNoneOpen(v: Venue, cs: seq<ChainRec>)
    requires LabelsWithDisplay(v)
    ensures Join(Partition(v, cs).1, ", ") == "" <==> forall i :: 0 <= i < |cs| ==> !WithdrawOpen(v, cs[i])
  {
    var wd := Partition(v, cs).1;
    JoinEmptyIff(wd);
    if |wd| > 0 {
      assert wd[0] in wd;
      var i :| 0 <= i < |cs| && WithdrawOpen(v, cs[i]) && Label(v, cs[i]) == wd[0];
    } else {
      forall i | 0 <= i < |cs| ensures WithdrawOpen(v, cs[i]) ==> Label(v, cs[i]) in wd {
      }
    }
  }
}
