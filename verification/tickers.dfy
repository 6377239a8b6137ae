/**
 * Ticker normalisation: each venue's `get_<venue>_data` turns the list of
 * ticker records of its response into a map from canonical symbol to
 * (bid, ask, rounded 24h quote volume).
 */
module Tickers {
  import opened Wrappers
  import opened Rounding
  import opened Text
  import opened Venues

  /** A decoded JSON field: a value `float(...)` accepts, or other text. */
  datatype Field = Num(x: real) | Str(s: string)

  /** One ticker record of a venue's response, by field name. */
  type RawTicker = map<string, Field>

  /** What the scanner keeps per symbol; only BingX can leave a price out. */
  datatype Quote = Quote(bid: Option<real>, ask: Option<real>, volume: real)

  const SymbolField: string := "symbol"

  function BidField(v: Venue): string
  {
    match v
    case ByBit => "bid1Price"
    case KuCoin => "buy"
    case Huobi => "bid"
    case BingX => "bidPrice"
    case Bitget => "bidPr"
    case MEXC => "bidPrice"
  }

  function AskField(v: Venue): string
  {
    match v
    case ByBit => "ask1Price"
    case KuCoin => "sell"
    case Huobi => "ask"
    case BingX => "askPrice"
    case Bitget => "askPr"
    case MEXC => "askPrice"
  }

  function VolumeField(v: Venue): string
  {
    match v
    case ByBit => "turnover24h"
    case KuCoin => "volValue"
    case Huobi => "vol"
    case BingX => "quoteVolume"
    case Bitget => "usdtVolume"
    case MEXC => "quoteVolume"
  }

  /** BingX alone checks whether a price field is present before reading it. */
  predicate PricesOptional(v: Venue)
  {
    v == BingX
  }

  /** The canonical key of a venue-native symbol (SymbolKeyShape states
      what each venue's rewrite guarantees). */
  function SymbolKey(v: Venue, raw: string): string
  {
    match v
    case KuCoin => ReplaceAll(raw, "-", "/")
    case BingX => ReplaceAll(raw, "-", "/")
    case ByBit => SlashBeforeUsdt(raw)
    case MEXC => SlashBeforeUsdt(raw)
    case Huobi => SlashBeforeUsdt(AsciiUpper(raw))
    case Bitget => SlashBeforeUsdt(AsciiUpper(raw))
  }

  /** KuCoin and BingX keys keep the length and hold no '-'; on the other
      venues each "USDT" of the symbol becomes "/USDT" with the text around
      it rewritten on its own, and dropping the '/' before each "USDT" gives
      back the symbol (upper-cased on Huobi and Bitget, whose keys hold no
      lower-case ASCII letter). */
  lemma SymbolKeyShape(v: Venue, raw: string)
    ensures (v == KuCoin || v == BingX) ==> |SymbolKey(v, raw)| == |raw| && '-' !in SymbolKey(v, raw)
    ensures v != KuCoin && v != BingX ==> forall a, b ::
      SymbolKey(v, a + "USDT" + b) == SymbolKey(v, a) + "/USDT" + SymbolKey(v, b)
    ensures (v == ByBit || v == MEXC) ==> ReplaceAll(SymbolKey(v, raw), "/USDT", "USDT") == raw
    ensures (v == Huobi || v == Bitget) ==> ReplaceAll(SymbolKey(v, raw), "/USDT", "USDT") == AsciiUpper(raw)
    ensures (v == Huobi || v == Bitget) ==>
      forall i :: 0 <= i < |SymbolKey(v, raw)| ==> !('a' <= SymbolKey(v, raw)[i] <= 'z')
  {
    var k := SymbolKey(v, raw);
    if v != KuCoin && v != BingX {
      forall a, b ensures SymbolKey(v, a + "USDT" + b) == SymbolKey(v, a) + "/USDT" + SymbolKey(v, b) {
        if v == ByBit || v == MEXC {
          SlashAround(a, b);
        } else {
          UpperAround(a, b);
          SlashAround(AsciiUpper(a), AsciiUpper(b));
        }
      }
    }
    if v == KuCoin || v == BingX {
      ReplaceCharPointwise(raw, '-', '/');
      assert forall i :: 0 <= i < |k| ==> k[i] != '-';
    } else if v == ByBit || v == MEXC {
      SlashBeforeUsdtRoundTrip(raw);
    } else {
      var u := AsciiUpper(raw);
      SlashBeforeUsdtRoundTrip(u);
      ReplaceAllChars(u, "USDT", "/USDT");
      forall i | 0 <= i < |k| ensures !('a' <= k[i] <= 'z') {
        assert k[i] in k;
        if k[i] in u {
          var j :| 0 <= j < |u| && u[j] == k[i];
        }
      }
    }
  }

  /** Upper-casing leaves the "USDT" between two texts in place. */
  lemma UpperAround(a: string, b: string)
    ensures AsciiUpper(a + "USDT" + b) == AsciiUpper(a) + "USDT" + AsciiUpper(b)
  {
    var s := a + "USDT" + b;
    var r := AsciiUpper(a) + "USDT" + AsciiUpper(b);
    forall i | 0 <= i < |s| ensures AsciiUpper(s)[i] == r[i] {
      if i < |a| {
        assert s[i] == a[i];
      } else if i < |a| + 4 {
        assert s[i] == "USDT"[i - |a|];
      } else {
        assert s[i] == b[i - |a| - 4];
      }
    }
  }

  /** A ByBit spot symbol gains the slash of the canonical pair. */
  lemma SymbolKeyExample()
    ensures SymbolKey(ByBit, "BTCUSDT") == "BTC/USDT"
    ensures SymbolKey(Huobi, "btcusdt") == "BTC/USDT"
  {
    SymbolKeyShape(ByBit, "");
    assert "BTCUSDT" == "BTC" + "USDT" + "";
    assert AsciiUpper("btcusdt") == "BTCUSDT";
  }

  predicate IsNumber(t: RawTicker, name: string)
  {
    name in t && t[name].Num?
  }

  /** A price field the venue's code can read: a number, or (BingX only) absent. */
  predicate PriceReadable(v: Venue, t: RawTicker, name: string)
  {
    IsNumber(t, name) || (PricesOptional(v) && name !in t)
  }

  /** A record the venue's comprehension reads without raising. */
  predicate WellFormed(v: Venue, t: RawTicker)
  {
    && SymbolField in t && t[SymbolField].Str?
    && PriceReadable(v, t, BidField(v))
    && PriceReadable(v, t, AskField(v))
    && IsNumber(t, VolumeField(v))
  }

  /** The canonical key of a readable record. */
  function KeyOf(v: Venue, t: RawTicker): string
    requires WellFormed(v, t)
  {
    SymbolKey(v, t[SymbolField].s)
  }

  function ReadPrice(t: RawTicker, name: string): Option<real>
  {
    if name in t && t[name].Num? then Some(t[name].x) else None
  }

  /** The (bid, ask, volume) tuple of a readable record: the volume is
      rounded to one decimal, and only BingX can leave a price out. */
  function QuoteOf(v: Venue, t: RawTicker): (q: Quote)
    requires WellFormed(v, t)
    ensures q.bid.None? ==> PricesOptional(v) && BidField(v) !in t
    ensures q.ask.None? ==> PricesOptional(v) && AskField(v) !in t
    ensures q.bid.Some? ==> IsNumber(t, BidField(v)) && q.bid.value == t[BidField(v)].x
    ensures q.ask.Some? ==> IsNumber(t, AskField(v)) && q.ask.value == t[AskField(v)].x
    ensures -0.05 <= q.volume - t[VolumeField(v)].x <= 0.05
  {
    Quote(ReadPrice(t, BidField(v)), ReadPrice(t, AskField(v)), Round(t[VolumeField(v)].x, 1))
  }

  /** One dictionary entry of `get_<venue>_data`, or the error its
      evaluation raises. */
  function Project(v: Venue, t: RawTicker): (r: Result<(string, Quote), ScanError>)
    ensures r.Success? <==> WellFormed(v, t)
    ensures r.Success? ==> r.value.0 == KeyOf(v, t) && r.value.1 == QuoteOf(v, t)
    ensures r.Failure? ==> r.error == MalformedTicker(v)
  {
    if WellFormed(v, t) then Success((KeyOf(v, t), QuoteOf(v, t)))
    else Failure(MalformedTicker(v))
  }

  /** `get_<venue>_data`: the dictionary comprehension over the records.
      A record that cannot be read aborts the whole comprehension; a later
      record with the same key overwrites an earlier one. */
  function Normalise(v: Venue, ts: seq<RawTicker>): (r: Result<map<string, Quote>, ScanError>)
    ensures r.Success? <==> forall i :: 0 <= i < |ts| ==> WellFormed(v, ts[i])
    ensures r.Failure? ==> r.error == MalformedTicker(v)
    decreases |ts|
  {
    if |ts| == 0 then Success(map[])
    else
      var init := ts[..|ts| - 1];
      assert forall i :: 0 <= i < |init| ==> init[i] == ts[i];
      match Normalise(v, init)
      case Failure(e) => Failure(e)
      case Success(m) =>
        match Project(v, ts[|ts| - 1])
        case Failure(e) => Failure(e)
        case Success(entry) => Success(m[entry.0 := entry.1])
  }

  /** Appending a readable record stores its quote under its key. */
  lemma NormaliseStep(v: Venue, ts: seq<RawTicker>)
    requires |ts| > 0
    requires forall i :: 0 <= i < |ts| ==> WellFormed(v, ts[i])
    ensures Normalise(v, ts[..|ts| - 1]).Success?
    ensures Normalise(v, ts) == Success(Normalise(v, ts[..|ts| - 1]).value[KeyOf(v, ts[|ts| - 1]) := QuoteOf(v, ts[|ts| - 1])])
  {
    var init := ts[..|ts| - 1];
    assert forall i :: 0 <= i < |init| ==> init[i] == ts[i];
  }

  /** Every key of the normalised map is the key of some record. */
  lemma {:induction false} NormaliseKeysSound(v: Venue, ts: seq<RawTicker>, k: string)
    requires forall i :: 0 <= i < |ts| ==> WellFormed(v, ts[i])
    requires Normalise(v, ts).Success? && k in Normalise(v, ts).value
    ensures exists i :: 0 <= i < |ts| && KeyOf(v, ts[i]) == k
    decreases |ts|
  {
    var init := ts[..|ts| - 1];
    assert forall i :: 0 <= i < |init| ==> init[i] == ts[i];
    NormaliseStep(v, ts);
    if k != KeyOf(v, ts[|ts| - 1]) {
      NormaliseKeysSound(v, init, k);
      var i :| 0 <= i < |init| && KeyOf(v, init[i]) == k;
      assert KeyOf(v, ts[i]) == k;
    }
  }

  /** The key of every record is a key of the normalised map. */
  lemma {:induction false} NormaliseKeysComplete(v: Venue, ts: seq<RawTicker>, i: int)
    requires forall j :: 0 <= j < |ts| ==> WellFormed(v, ts[j])
    requires 0 <= i < |ts|
    ensures Normalise(v, ts).Success? && KeyOf(v, ts[i]) in Normalise(v, ts).value
    decreases |ts|
  {
    var init := ts[..|ts| - 1];
    assert forall j :: 0 <= j < |init| ==> init[j] == ts[j];
    NormaliseStep(v, ts);
    if i < |init| {
      NormaliseKeysComplete(v, init, i);
      assert KeyOf(v, init[i]) == KeyOf(v, ts[i]);
    }
  }

  /** The normalised map has exactly one key per record key. */
  lemma NormaliseKeys(v: Venue, ts: seq<RawTicker>)
    requires forall i :: 0 <= i < |ts| ==> WellFormed(v, ts[i])
    ensures Normalise(v, ts).Success?
    ensures forall k :: k in Normalise(v, ts).value <==>
      exists i :: 0 <= i < |ts| && KeyOf(v, ts[i]) == k
  {
    forall k | k in Normalise(v, ts).value
      ensures exists i :: 0 <= i < |ts| && KeyOf(v, ts[i]) == k
    {
      NormaliseKeysSound(v, ts, k);
    }
    forall i | 0 <= i < |ts|
      ensures KeyOf(v, ts[i]) in Normalise(v, ts).value
    {
      NormaliseKeysComplete(v, ts, i);
    }
  }

  /** Each key holds the quote of the LAST record that produced it: a later
      record silently overwrites an earlier one with the same key. */
  lemma {:induction false} NormaliseLastWins(v: Venue, ts: seq<RawTicker>, i: int)
    requires forall j :: 0 <= j < |ts| ==> WellFormed(v, ts[j])
    requires 0 <= i < |ts| && LastWithKey(v, ts, i)
    ensures Normalise(v, ts).Success?
    ensures KeyOf(v, ts[i]) in Normalise(v, ts).value
    ensures Normalise(v, ts).value[KeyOf(v, ts[i])] == QuoteOf(v, ts[i])
    decreases |ts|
  {
    var init := ts[..|ts| - 1];
    var t := ts[|ts| - 1];
    NormaliseStep(v, ts);
    if i < |ts| - 1 {
      assert init[i] == ts[i];
      assert KeyOf(v, t) != KeyOf(v, ts[i]);
      assert LastWithKey(v, init, i) by {
        forall j | i < j < |init| ensures KeyOf(v, init[j]) != KeyOf(v, init[i]) {
          assert init[j] == ts[j];
        }
      }
      NormaliseLastWins(v, init, i);
    }
  }

  /** Record `i` is the last one whose key is its key. */
  predicate LastWithKey(v: Venue, ts: seq<RawTicker>, i: int)
    requires 0 <= i < |ts|
    requires forall j :: 0 <= j < |ts| ==> WellFormed(v, ts[j])
  {
    forall j :: i < j < |ts| ==> KeyOf(v, ts[j]) != KeyOf(v, ts[i])
  }

  /** ByBit and MEXC symbols never collide: distinct native symbols keep
      distinct keys. */
  lemma UsdtVenueKeysInjective(v: Venue, a: string, b: string)
    requires v == ByBit || v == MEXC
    requires SymbolKey(v, a) == SymbolKey(v, b)
    ensures a == b
  {
    SlashBeforeUsdtInjective(a, b);
  }

  /** KuCoin and BingX keys turn every '-' into '/' and change nothing else. */
  lemma DashVenueKey(v: Venue, raw: string)
    requires v == KuCoin || v == BingX
    ensures |SymbolKey(v, raw)| == |raw|
    ensures forall i :: 0 <= i < |raw| ==>
      SymbolKey(v, raw)[i] == (if raw[i] == '-' then '/' else raw[i])
  {
    ReplaceCharPointwise(raw, '-', '/');
  }

  /** On KuCoin and BingX two symbols that differ only in '-' against '/'
      share a key. */
  lemma DashSlashShareKey(v: Venue, a: string, b: string)
    requires v == KuCoin || v == BingX
    requires |a| == |b|
    requires forall i :: 0 <= i < |a| ==> a[i] == b[i] || (a[i] == '-' && b[i] == '/') || (a[i] == '/' && b[i] == '-')
    ensures SymbolKey(v, a) == SymbolKey(v, b)
  {
    DashVenueKey(v, a);
    DashVenueKey(v, b);
    var ka, kb := SymbolKey(v, a), SymbolKey(v, b);
    assert forall i :: 0 <= i < |ka| ==> ka[i] == kb[i];
  }

  /** KuCoin (and BingX) can merge two instruments: "BTC-USDT" and
      "BTC/USDT" share a key, and by NormaliseLastWins the later record
      silently wins. */
  lemma DashVenueCollision()
    ensures SymbolKey(KuCoin, "BTC-USDT") == SymbolKey(KuCoin, "BTC/USDT")
  {
    DashSlashShareKey(KuCoin, "BTC-USDT", "BTC/USDT");
  }

  /** Huobi (and Bitget) upper-case before rewriting, so a symbol and its
      upper-cased form (say "btcusdt" and "BTCUSDT") share a key. */
  lemma CaseCollision(v: Venue, raw: string)
    requires v == Huobi || v == Bitget
    ensures SymbolKey(v, raw) == SymbolKey(v, AsciiUpper(raw))
  {
    AsciiUpperIdempotent(raw);
  }
}
