/**
 * Values shared by the providers and the orchestrator: a map from currency
 * code to rate, what one provider call produced, and what one upstream
 * HTTP exchange produced.
 */
module Rates {

  datatype Option<+T> = None | Some(value: T)

  /** Currency code to rate; rates are exact reals. */
  type RateMap = map<string, real>

  /** One provider call as the orchestrator sees it: it threw, or it returned a map. */
  datatype Outcome = Threw | Returned(rates: RateMap)
  {
    /** The call counts as a response: it returned a non-empty map. */
    predicate Succeeded() {
      Returned? && rates != map[]
    }

    /** The map the orchestrator keeps for this call: a throw counts as empty. */
    function Reply(): (r: RateMap)
      ensures r != map[] <==> Succeeded()
    {
      if Returned? then rates else map[]
    }
  }

  /**
   * One HTTP exchange with an upstream endpoint: the transport or the
   * decoding threw, the body was null, or a body of type B was decoded.
   */
  datatype Upstream<B> = Failed | NullBody | Body(body: B)
}
