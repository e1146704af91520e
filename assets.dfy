/** One market record as the dashboard receives it from the listing endpoint,
    and the result of one fetch. Numbers are `real`: the floating-point
    representation of JavaScript numbers (rounding, NaN, infinities) is not
    modelled. Fields the endpoint may omit are `Option`s. */
module Assets {

  datatype Option<T> = None | Some(value: T)

  /** One element of the response array: identifier, display name, ticker
      symbol, icon URL, market-cap rank, price, market capitalisation, 24-hour
      volume and the 1-hour, 24-hour and 7-day percentage price changes. */
  datatype Asset = Asset(
    id: string,
    name: string,
    symbol: string,
    image: string,
    marketCapRank: Option<int>,
    currentPrice: real,
    marketCap: real,
    totalVolume: real,
    change1h: Option<real>,
    change24h: Option<real>,
    change7d: Option<real>)

  /** What one request to the listing endpoint yields: the parsed array, or a
      failure (network error, a status outside the success range, or a body
      that is not JSON). */
  datatype FetchResult = Success(data: seq<Asset>) | Failure

  /** JavaScript's `x || 0` for an optional number: an absent value (and 0
      itself) becomes 0, any other value is kept. */
  function OrZero(x: Option<real>): (r: real)
    ensures r == 0.0 <==> x.None? || x.value == 0.0
    ensures x.Some? && x.value != 0.0 ==> r == x.value
  {
    match x
    case None => 0.0
    case Some(v) => v
  }
}
