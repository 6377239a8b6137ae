/**
 * The six venues the scanner knows, the names the user picks them by,
 * and the ways a scan can fail.
 */
module Venues {
  import opened Wrappers

  datatype Venue = ByBit | KuCoin | Huobi | BingX | Bitget | MEXC

  /** The display name; the Python code dispatches on its lower-case form. */
  function Name(v: Venue): string
  {
    match v
    case ByBit => "ByBit"
    case KuCoin => "KuCoin"
    case Huobi => "Huobi"
    case BingX => "BingX"
    case Bitget => "Bitget"
    case MEXC => "MEXC"
  }

  /** Resolves a picker entry to its venue; this replaces the lookup of
      `get_<name>_...` handlers by name. */
  function Parse(name: string): (r: Option<Venue>)
    ensures r.Some? ==> Name(r.value) == name
    ensures r.None? ==> forall v: Venue :: Name(v) != name
  {
    if name == "ByBit" then Some(ByBit)
    else if name == "KuCoin" then Some(KuCoin)
    else if name == "Huobi" then Some(Huobi)
    else if name == "BingX" then Some(BingX)
    else if name == "Bitget" then Some(Bitget)
    else if name == "MEXC" then Some(MEXC)
    else None
  }

  /** Distinct venues have distinct names, so comparing the picked names
      (as the refresh handler does) is comparing venues, and a name
      resolves back to the venue it names. */
  lemma NamesIdentifyVenues(v: Venue, w: Venue)
    ensures Name(v) == Name(w) <==> v == w
    ensures Parse(Name(v)) == Some(v)
  {
  }

  /** One side of an order book. */
  datatype Side = Bids | Asks

  /** Why a whole scan is abandoned (the Python code raises). */
  datatype ScanError =
    | MalformedTicker(venue: Venue)                 // a ticker record lacks a field or a number
    | ZeroDivision(symbol: string)                  // an ask of exactly -0.0001
    | CoinInfoUnavailable(venue: Venue, coin: string) // an unguarded coin-info lookup failed
    | OrderBookUnavailable(venue: Venue, coin: string) // an order-book response lacks its side
}
