/** The fixed price table that stands in for a market-data feed. */
module Market {
  import opened Wrappers

  /** Quoted unit prices, in cents: 150.00, 250.00 and 2800.00. */
  const Quotes: map<string, int> := map["AAPL" := 15000, "TSLA" := 25000, "GOOGL" := 280000]

  /** The current unit price of `symbol`; `None` is the "unknown stock symbol" failure. */
  function SharePrice(symbol: string): (r: Option<int>)
    ensures r.Some? <==> symbol in Quotes
    ensures r.Some? ==> r.value > 0
  {
    if symbol in Quotes then Some(Quotes[symbol]) else None
  }
}
