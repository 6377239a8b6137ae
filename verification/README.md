# arbi_scanner core in Dafny

This project models the decision logic of the arbitrage scanner in
`main.py`. The scanner compares two crypto exchanges ("venues": ByBit,
KuCoin, Huobi, BingX, Bitget, MEXC). It:

- reads each venue's spot tickers into a map `symbol -> (bid, ask, 24h volume)`;
- intersects the two maps' symbols;
- computes the best directed spread for each common symbol, and which venue to
  buy on and which to sell on;
- keeps the symbols whose rounded spread lies in [0.6, 35] percent and whose
  rounded volumes both exceed 200000;
- prices each kept row against the top of the order book, on the buy venue's
  asks and the sell venue's bids;
- sorts by spread and keeps the top 20;
- attaches, per venue, the comma-joined lists of networks open for deposit and
  for withdrawal;
- drops every row with an empty cell.

Everything is pure:

- The HTTP responses are inputs. The decoded ticker records are
  `seq<RawTicker>`. The order books are a function
  `(venue, coin, side) -> Option<levels>`, where None stands for a response
  that lacks the side the code reads. The coin-info responses are a function
  `(venue, coin) -> InfoResponse`.
- The iteration order of the Python `set` of common symbols is a parameter
  `order`, constrained to enumerate that set exactly once.
- Failures that abort the Python coroutine with an exception become a
  `ScanError` in a `Result`:
  - a ticker record without a readable field (`MalformedTicker`);
  - the `ZeroDivisionError` raised when an ask equals -0.0001 (`ZeroDivision`);
  - an order-book response without the side the code reads (`OrderBookUnavailable`);
  - a coin-info lookup that fails (`CoinInfoUnavailable`): a malformed
    response on every venue but BingX, or a KuCoin or Huobi response
    without the indexed entry.

Modules, following the program's structure:

| file | module | models |
|---|---|---|
| `wrappers.dfy` | `Wrappers` | `Option` and `Result` |
| `rounding.dfy` | `Rounding` | Python's `round(x, n)`: nearest, ties to even |
| `text.dfy` | `Text` | `str.replace`, ASCII `str.upper`, `', '.join`, `split('/')[0]` |
| `venues.dfy` | `Venues` | the venue names of the two pickers; the error type |
| `tickers.dfy` | `Tickers` | `get_<venue>_data`: key rewriting, field names, dict-comprehension semantics |
| `spread.dfy` | `Spread` | `calculate_spread` |
| `depth.dfy` | `Depth` | `get_avg_price_top_5` |
| `chains.dfy` | `Chains` | `get_<venue>_coin_info` and `get_coins_info` |
| `ranking.dfy` | `Ranking` | the admission filter of `get_spread_data`, the sort and `head(20)` |
| `engine.dfy` | `Engine` | `get_spread_data` end to end, and `update_data` / `fetch_data` |

Behaviour of the code worth noting:

- Two raw symbols that rewrite to the same key do not raise an error. The dict
  comprehension keeps the last record.
- A spread tie (`spread_buy == spread_sell`) makes the second venue the buyer.
- The KuCoin and Huobi coin-info functions have no guard for a missing entry.
  A missing entry raises and aborts the whole refresh.
- A division by zero in `calculate_spread` aborts the refresh. It is not
  skipped.
- Order books are always those of the coin's USDT pair (`coin + "USDT"` and
  its variants). This holds even when the common symbol has another quote
  currency.
- An admitted row whose buy-side asks or sell-side bids cannot be read
  aborts the refresh. One way this happens: a key with no '/' (a ByBit
  "ETHBTC") has the coin "ETHBTC", so the book of the pair "ETHBTCUSDT" is
  requested. The buy side is read first, so its failure is the one reported.

## Model

| member | source | states |
|---|---|---|
| Rounding.RoundInt | main.py:396 | the integer chosen is within 0.5 of the input, and an exact tie goes to the even neighbour, as Python's round does |
| Rounding.Round | main.py:477 | round(x, n) is within half a unit of the n-th decimal of x |
| Rounding.RoundHasNDecimals | main.py:396 | round(x, n) has at most n decimals: it is an integer number of units of 10^-n |
| Rounding.RoundMonotone | main.py:477 | rounding never swaps two values: x1 <= x2 gives round(x1, n) <= round(x2, n) |
| Rounding.RoundExact | main.py:396 | a value that already has at most n decimals comes back unchanged |
| Text.ReplaceAll | main.py:80 | str.replace of a non-empty pattern maps the empty string to itself, never shortens the input when the replacement is at least as long as the pattern, and keeps the length when both are equally long |
| Text.ReplaceAllChars | main.py:94 | every character of the result comes from the input or from the replacement |
| Text.ReplaceWithoutOccurrence | main.py:80 | a text in which the pattern never occurs is returned unchanged |
| Text.ReplaceCharPointwise | main.py:80 | replacing one character by one character keeps the length and maps every position independently, as `replace("-", "/")` does |
| Text.SlashAround | main.py:65 | `replace("USDT", "/USDT")` turns an occurrence of "USDT" into "/USDT" and rewrites the text before and after it independently, so every "USDT" gains a '/' in front |
| Text.SlashBeforeUsdtQuote | main.py:65 | a symbol `base + "USDT"` whose base holds no "USDT" becomes `base + "/USDT"` |
| Text.SlashBeforeUsdtRoundTrip | main.py:65 | `replace("/USDT", "USDT")` undoes `replace("USDT", "/USDT")` on every text |
| Text.SlashBeforeUsdtInjective | main.py:65 | `replace("USDT", "/USDT")` is injective: two symbols with the same rewritten key are the same symbol |
| Text.AsciiUpper | main.py:94 | upper-casing keeps the length and maps each lower-case ASCII letter to its capital, leaving other characters alone |
| Text.AsciiUpperIdempotent | main.py:125 | upper-casing twice is upper-casing once |
| Text.Join | main.py:372 | `sep.join(xs)` starts with the first item, and its length is the items' total plus one separator per gap; no items give the empty string |
| Text.JoinSnoc | main.py:372-373 | appending an item to a non-empty list appends one separator and the item, so the joined text holds every item, in list order |
| Text.JoinEmptyIff | main.py:372 | `', '.join(xs)` is empty exactly when xs is empty or is one empty string |
| Text.BeforeFirst | main.py:521 | `split(c)[0]` is the longest prefix without c, and is followed by c when shorter than the input |
| Text.BeforeFirstOfJoined | main.py:462 | the part before the first '/' of "coin/quote", for a slash-free coin, is the coin |
| Venues.Parse | main.py:618 | the picker text names the venue whose functions are dispatched; any other text names none |
| Venues.NamesIdentifyVenues | main.py:559-560 | distinct venues carry distinct names, so the `exch1 == exch2` test compares venues |
| Tickers.SymbolKeyShape | main.py:65-131 | KuCoin and BingX keys keep the length and hold no '-'; on ByBit, MEXC, Huobi and Bitget the key of `a + "USDT" + b` is the key of a, then "/USDT", then the key of b; on ByBit and MEXC removing the '/' before each "USDT" gives back the symbol; on Huobi and Bitget it gives back the upper-cased symbol, and the key holds no lower-case ASCII letter |
| Tickers.SymbolKeyExample | main.py:65-94 | the ByBit symbol "BTCUSDT" and the Huobi symbol "btcusdt" both have the key "BTC/USDT" |
| Tickers.Project | main.py:65-66 | one record gives an entry exactly when it is well formed, keyed by its rewritten symbol and holding its quote; otherwise the venue's ticker error |
| Tickers.QuoteOf | main.py:109-111 | a missing price only for BingX with the field absent; present prices are the record's numbers; volume within 0.05 of the record's |
| Tickers.Normalise | main.py:94-95 | the comprehension succeeds exactly when every record is well formed; failure names the venue |
| Tickers.NormaliseKeys | main.py:80-81 | the keys of the map are exactly the rewritten symbols of the records |
| Tickers.NormaliseLastWins | main.py:125-126 | a key's value is the quote of the last record with that key |
| Tickers.UsdtVenueKeysInjective | main.py:130-131 | on ByBit and MEXC two distinct raw symbols always get distinct keys, so no record is overwritten |
| Tickers.DashVenueKey | main.py:109 | on KuCoin and BingX the key is the symbol with each '-' turned into '/' |
| Tickers.DashSlashShareKey | main.py:80 | on KuCoin and BingX two symbols that differ only in '-' against '/' share a key |
| Tickers.DashVenueCollision | main.py:80 | on KuCoin "BTC-USDT" and "BTC/USDT" land on the same key |
| Tickers.CaseCollision | main.py:94 | on Huobi and Bitget a symbol and its upper-cased spelling land on the same key |
| Spread.DirectedSpread | main.py:467-468 | a directed spread is zero exactly when bid equals ask, and, for a positive divisor, positive exactly when the bid is above the ask |
| Spread.CalculateSpread | main.py:466-477 | the result is the rounded larger directed spread; buy on the first venue only when its direction is strictly better; the two venues are returned as a pair |
| Spread.SpreadIsBest | main.py:470-475 | the reported spread is at least the rounded value of either direction |
| Spread.SwapSymmetry | main.py:467-475 | swapping the venues keeps the spread and the trade direction, except on a tie, where the second argument buys |
| Spread.WorkedExample | main.py:466-477 | bids 100 and 103, asks 101 and 104 on ByBit and KuCoin give 1.98% buying on ByBit |
| Depth.MeanFill | main.py:386-396 | no fill exactly when the sizes sum to zero; otherwise the price is within 0.000005 of cost over size and the volume within 0.005 of the size |
| Depth.AvgPriceTop5 | main.py:386-396 | the accumulation loop computes the mean fill |
| Depth.MeanFillPermutation | main.py:389-391 | the mean fill depends only on the multiset of levels, not their order |
| Depth.MeanFillBetween | main.py:389-396 | with non-negative sizes the mean price lies between the rounded lowest and highest level price |
| Depth.ZeroSizesGiveNoFill | main.py:393-394 | a book whose sizes are all zero, the empty book included, gives (None, None) |
| Depth.TwoLevelExample | main.py:396 | levels 100x1 and 102x1 give price 101 and volume 2 |
| Chains.Enabled | main.py:170-352 | a network counts as open only on the venue's own flag: the text "1", "allowed" or "true" for ByBit, Huobi and Bitget, the boolean true for KuCoin, BingX and MEXC |
| Chains.Label | main.py:172 | the label "chain(display)" is never empty for the venues that print it |
| Chains.Partition | main.py:170-175 | a label is in the deposit (withdraw) list exactly when some network with that label is open for deposit (withdraw) |
| Chains.PartitionAppend | main.py:196-201 | the loop keeps the networks' order: the lists of a concatenation are the concatenated lists |
| Chains.PartitionSingle | main.py:221-225 | one network lands in each list whose status flag is set |
| Chains.FirstFor | main.py:340-345 | the first entry whose coin matches, or none when no entry matches |
| Chains.EntryFor | main.py:161-345 | MEXC reads the first row of its coin and finds none exactly when no row matches; every other venue reads the first row of the response and finds none exactly when the response has no rows |
| Chains.CoinInfo | main.py:161-354 | a lookup fails only for a KuCoin or Huobi response without the entry, or a malformed response outside BingX; a missing entry elsewhere gives two empty lists |
| Chains.Collect | main.py:370-375 | over the lookups in order: succeeds exactly when all do, with one joined deposit and withdraw string per lookup; otherwise the first failed lookup's error |
| Chains.CoinsInfo | main.py:357-375 | succeeds exactly when every coin's lookup does; one joined deposit and withdraw string per coin, in order; otherwise the first failing coin's error |
| Chains.JoinedDepositEmptyIffNoneOpen | main.py:372 | a joined deposit cell is empty exactly when no network is open for deposit |
| Chains.JoinedWithdrawEmptyIffNoneOpen | main.py:373 | a joined withdraw cell is empty exactly when no network is open for withdrawal |
| Ranking.BaseCoin | main.py:521 | the coin of a symbol is its slash-free prefix, followed by '/' when shorter |
| Ranking.AdmissionBoundaries | main.py:503 | 0.6 and 35 are admitted and 0.59 and 35.01 are not; a volume of exactly 200000 is rejected |
| Ranking.RaisedError | main.py:405-468 | a raising symbol raises the division error exactly when an ask divides by zero, and then names the symbol; otherwise the order-book error names the symbol's coin and one of the two venues |
| Ranking.MakeCandidate | main.py:505-510 | the row carries the symbol, its four prices and its spread decision; the buy fill is the mean fill of the buy venue's asks and the sell fill that of the sell venue's bids, both for the symbol's coin |
| Ranking.Evaluate | main.py:498-510 | one symbol raises exactly when an ask divides by zero or an admitted symbol's book cannot be read; otherwise it yields one row exactly when it qualifies, and that row is the one built for it |
| Ranking.Candidates | main.py:497-510 | the loop succeeds exactly when no symbol raises, and otherwise reports the first raising symbol's error; every row qualifies and is built from its quotes and books, and every qualifying symbol yields its row |
| Ranking.SortDesc | main.py:518 | the sort is a permutation of the rows with spreads in descending order |
| Ranking.Rank | main.py:518-520 | head(20) keeps min(20, n) sorted rows out of the input, and every dropped row's spread is at most every kept row's |
| Ranking.RankKeepsAllWhenFew | main.py:518-520 | with at most 20 rows, the cut keeps all of them |
| Engine.CommonSymbols | main.py:620 | a symbol is common exactly when both maps have it |
| Engine.Coins | main.py:521 | one coin per row, the part of its symbol before '/' |
| Engine.Attach | main.py:523-529 | row i receives the four chain strings at position i |
| Engine.DropIncomplete | main.py:531-532 | dropna keeps each row with no empty string and no missing fill exactly as often as it occurs, drops every other row, and keeps a sorted or symbol-distinct table so |
| Engine.DropAppend | main.py:532 | dropna on a concatenation is dropna on each part, concatenated, so the kept rows stay in input order |
| Engine.CoinsInfoChains | main.py:370-373 | position i of the joined lists comes from coin i's lookup |
| Engine.AttachEnriches | main.py:523-529 | the attached rows are exactly the ranked rows with their own coin's network strings from both venues, and the order is kept |
| Engine.Enrich | main.py:521-532 | enrichment succeeds exactly when both venues' lookups succeed; it then keeps exactly the complete ranked rows carrying their coin's chains, sorted; a table row occurs at most as often as its candidate row among the ranked rows, so distinct ranked symbols stay distinct; a failure names either venue and the coin of a ranked row, and is the first venue's error whenever its lookup fails, otherwise the second venue's |
| Engine.SpreadData | main.py:480-532 | succeeds exactly when the loop raises nothing and both lookups succeed on the top rows; at most 20 sorted rows, each a complete, qualifying, readable row built from its quotes and enriched from its coin, and every complete enriched top row is kept; when no symbol is visited twice no two rows share a symbol; a failure is the first raising symbol's error or a lookup error for a qualifying symbol's coin; a lookup error blames the coin of a top row; a loop error comes before any lookup, and the first venue's lookup error before the second's, each being that venue's first failing coin |
| Engine.SpreadDataKeepsQualifyingRows | main.py:518-532 | when at most 20 symbols qualify, the complete enriched row of every qualifying symbol is in the table |
| Engine.Scan | main.py:583-622 | identical venues skip the refresh; otherwise the table exists exactly when both ticker lists and the scan succeed, and then holds at most 20 sorted valid rows of common symbols, including every complete enriched top row; no two rows share a symbol; a failure is a ticker error of the venue whose list fails, the first venue's when its list fails, or, when both lists normalise, exactly SpreadData's error |
| Engine.UnpricedSymbolsExcluded | main.py:498-501 | a symbol missing a bid or an ask on either venue never reaches the table |
| Engine.CandidateIffQualifies | main.py:497-503 | a common symbol yields a candidate row exactly when it qualifies |
| Engine.CandidatesDistinct | main.py:497 | each visited symbol yields at most one row |

## Left out

- HTTP requests, request signing (HMAC for BingX and MEXC), timestamps, `asyncio.sleep` and the coroutine scheduling are left out. Responses are inputs.
- The outer JSON envelopes (`result.list`, `data.ticker`, `result.rows`, `data` and so on) are already navigated. Ticker records come as a sequence of field maps, and coin-info responses as a sequence of coin entries (`Malformed` when the field is missing). Picking the entry, the `[0]` or MEXC's search by coin, is modelled by Chains.EntryFor and Chains.CoinInfo.
- The order-book envelopes (`result`, `tick`, `data`) and the side fields are read by the depth function. It returns None for a response that lacks them, and the raised error is `OrderBookUnavailable`. A level that is not a [price, size] pair of numbers is not modelled.
- A network entry missing one of its status or name fields raises a KeyError in the source. The model's network records always carry their fields.
- A coin entry without its network list (`chains` or `networkList`) raises a KeyError on ByBit, KuCoin, Huobi and Bitget (main.py:170, 196, 221, 308), and gives empty lists on BingX and MEXC (main.py:270-273, 340-345). The model's coin entries always carry the list.
- The GUI (`ArbitrageGUI`, the timer, `populate_table`) and `.env` loading are left out. The Scan result is what the table would show.
- The numbers are exact reals. IEEE-754 double rounding and `float()` string parsing are not modelled. A price field is either a number or absent.
- Text.AsciiUpper: it upper-cases ASCII letters only, while Python's `str.upper` also maps non-ASCII letters.
- Ranking.SortDesc: pandas' default quicksort is not stable. The model fixes one order (stable insertion), so the order among equal spreads is not the source's.
- Engine.Scan: the iteration order of the common-symbol `set` is a parameter. The result is stated for every enumeration, not for CPython's hash order.
- Tickers.QuoteOf: the 24h volume is stated only to within 0.05 of the field, as round(x, 1) promises. The exact tie rule is in Rounding.RoundInt.
