/** The static reference data of the backend: the ten NSE companies the
    dashboard serves (TOP10) and the table that maps each app symbol to its
    Yahoo Finance ticker (YF_MAP), with the two lookups made on them. */
module Config {
  import opened Wrappers

  /** One entry of TOP10: a display name and the app symbol. */
  datatype Company = Company(name: string, symbol: string)

  const TOP10: seq<Company> := [
    Company("Reliance Industries Ltd", "RELIANCE"),
    Company("Tata Consultancy Services", "TCS"),
    Company("Infosys Ltd", "INFY"),
    Company("HDFC Bank Ltd", "HDFCBANK"),
    Company("ICICI Bank Ltd", "ICICIBANK"),
    Company("State Bank of India", "SBIN"),
    Company("Bajaj Finance Ltd", "BAJFINANCE"),
    Company("Larsen & Toubro Ltd", "LT"),
    Company("ITC Ltd", "ITC"),
    Company("Bharti Airtel Ltd", "BHARTIARTL")
  ]

  const YF_MAP: map<string, string> := map[
    "RELIANCE" := "RELIANCE.NS",
    "TCS" := "TCS.NS",
    "INFY" := "INFY.NS",
    "HDFCBANK" := "HDFCBANK.NS",
    "ICICIBANK" := "ICICIBANK.NS",
    "SBIN" := "SBIN.NS",
    "BAJFINANCE" := "BAJFINANCE.NS",
    "LT" := "LT.NS",
    "ITC" := "ITC.NS",
    "BHARTIARTL" := "BHARTIARTL.NS"
  ]

  /** True when `symbol` is the symbol of some TOP10 entry. */
  predicate Listed(symbol: string) {
    exists i :: 0 <= i < |TOP10| && TOP10[i].symbol == symbol
  }

  /** Every TOP10 symbol is a key of YF_MAP and maps to its ".NS" ticker. */
  lemma ListedAreMapped()
    ensures forall i :: 0 <= i < |TOP10| ==>
      TOP10[i].symbol in YF_MAP && YF_MAP[TOP10[i].symbol] == TOP10[i].symbol + ".NS"
  {
  }

  /** Every key of YF_MAP is a TOP10 symbol. */
  lemma MappedAreListed(key: string)
    requires key in YF_MAP
    ensures Listed(key)
  {
    if key == "RELIANCE" { assert TOP10[0].symbol == key; }
    else if key == "TCS" { assert TOP10[1].symbol == key; }
    else if key == "INFY" { assert TOP10[2].symbol == key; }
    else if key == "HDFCBANK" { assert TOP10[3].symbol == key; }
    else if key == "ICICIBANK" { assert TOP10[4].symbol == key; }
    else if key == "SBIN" { assert TOP10[5].symbol == key; }
    else if key == "BAJFINANCE" { assert TOP10[6].symbol == key; }
    else if key == "LT" { assert TOP10[7].symbol == key; }
    else if key == "ITC" { assert TOP10[8].symbol == key; }
    else { assert TOP10[9].symbol == key; }
  }

  /** yf_symbol: the Yahoo ticker of an app symbol, or None when the symbol
      is not configured. Every TOP10 symbol, and no other string, maps to its
      ".NS" (National Stock Exchange) ticker. */
  function YfSymbol(symbol: string): (r: Option<string>)
    ensures r.Some? <==> Listed(symbol)
    ensures r.Some? ==> r.value == symbol + ".NS"
  {
    ListedAreMapped();
    if symbol in YF_MAP then
      MappedAreListed(symbol);
      Some(YF_MAP[symbol])
    else None
  }

  /** The first entry of `entries` whose symbol is `symbol`, by index. */
  function FirstWithSymbol(entries: seq<Company>, symbol: string): (r: Option<nat>)
    ensures r.Some? ==> r.value < |entries| && entries[r.value].symbol == symbol
    ensures r.Some? ==> forall j :: 0 <= j < r.value ==> entries[j].symbol != symbol
    ensures r.None? ==> forall j :: 0 <= j < |entries| ==> entries[j].symbol != symbol
  {
    if entries == [] then None
    else if entries[0].symbol == symbol then Some(0)
    else match FirstWithSymbol(entries[1..], symbol)
      case None => None
      case Some(k) => Some(k + 1)
  }

  /** The `name` of a series response: the name of the first TOP10 entry with
      that symbol, or the symbol itself when TOP10 has none. */
  function DisplayName(symbol: string): (name: string)
    ensures !Listed(symbol) ==> name == symbol
    ensures forall i :: 0 <= i < |TOP10| && TOP10[i].symbol == symbol ==> name == TOP10[i].name
  {
    Top10SymbolsDistinct();
    match FirstWithSymbol(TOP10, symbol)
    case Some(k) => TOP10[k].name
    case None => symbol
  }

  /** The symbols of TOP10 are pairwise distinct, so "the first entry with
      that symbol" is the only one. */
  lemma Top10SymbolsDistinct()
    ensures forall i, j :: 0 <= i < j < |TOP10| ==> TOP10[i].symbol != TOP10[j].symbol
  {
  }

  /** No configured ticker is the empty string, so the falsiness test of
      fetch_and_store rejects exactly the unmapped symbols. */
  lemma TickersNonEmpty(symbol: string)
    ensures YfSymbol(symbol).Some? ==> YfSymbol(symbol).value != ""
  {
  }
}
