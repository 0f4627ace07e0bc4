/**
 * The single-endpoint provider adapter: one GET asking for exactly the
 * requested symbols; the body's `rates` are passed on as they are, and
 * any failure becomes an empty map.
 */
module FrankfurterApi {
  import opened Text
  import opened Rates

  /** The name under which this provider is counted. */
  const Name: string := "frankfurterApi"

  /** The text of the URL template before its first `%s`. */
  const ApiUrlPrefix: string := "https://api.frankfurter.app/latest?from="

  const ApiUrl: string := ApiUrlPrefix + "%s&to=%s"

  /** The decoded reply body; `rates` may be absent (null). */
  datatype FrankfurterResponse = FrankfurterResponse(amount: real, base: string, date: string, rates: Option<RateMap>)

  /**
   * The URL queried for `base` and `symbols`: the endpoint with the
   * upper-cased base and the upper-cased symbols comma-joined in the order
   * given.
   */
  function RequestUrl(base: string, symbols: seq<string>): (r: string)
    ensures r == ApiUrlPrefix + Upper(base) + "&to=" + Join(',', UpperAll(symbols))
  {
    assert '%' !in ApiUrlPrefix;
    assert ApiUrl == ApiUrlPrefix + "%s" + "&to=" + "%s" + "";
    FormatTwo(ApiUrlPrefix, "&to=", "", Upper(base), Upper(Join(',', symbols)));
    UpperJoin(',', symbols);
    Format(ApiUrl, [Upper(base), Upper(Join(',', symbols))])
  }

  /**
   * The rates of one call, given the network's answer to each URL. Only
   * one endpoint is asked, so the answer at `RequestUrl` alone decides the
   * result: the body's rates, unfiltered, when the body and its rates are
   * present, otherwise empty.
   */
  function GetRates(base: string, symbols: seq<string>, net: string -> Upstream<FrankfurterResponse>): (r: RateMap)
    ensures
      var reply := net(RequestUrl(base, symbols));
      if reply.Body? && reply.body.rates.Some? then r == reply.body.rates.value else r == map[]
  {
    match net(RequestUrl(base, symbols))
    case Body(FrankfurterResponse(_, _, _, Some(rates))) => rates
    case _ => map[]
  }
}
