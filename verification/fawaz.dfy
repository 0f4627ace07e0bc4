/**
 * The primary/fallback provider adapter. Both endpoints answer with the
 * whole rate table of a base currency, keyed by lower-case codes:
 * `{"date": ..., "<base>": {"<symbol>": rate, ...}}`. The adapter picks
 * the requested symbols out of it and keys them in upper case.
 */
module FawazApi {
  import opened Text
  import opened Rates

  /** The name under which this provider is counted. */
  const Name: string := "fawazApi"

  /**
   * The text of each URL template before its `%s`; the templates end in
   * `%s.json`. Each prefix is one URL written as a few short literals: the
   * verifier cannot see that a single long literal has no `%` in it, and
   * the pieces let it check that piece by piece.
   */
  const PrimaryUrlPrefix: string :=
    "https://cdn." + "jsdelivr.net/npm/" + "@fawazahmed0/" + "currency-api@latest/" + "v1/currencies/"
  const FallbackUrlPrefix: string := "https://currency-" + "api.pages.dev/" + "v1/currencies/"

  const PrimaryUrlTemplate: string := PrimaryUrlPrefix + "%s.json"
  const FallbackUrlTemplate: string := FallbackUrlPrefix + "%s.json"

  /**
   * The decoded reply body: every top-level field other than `date` is a
   * table of rates, keyed by the field name (a lower-case base code).
   * A rate that is absent or null in the table is absent here.
   */
  datatype FawazResponse = FawazResponse(date: string, rates: map<string, map<string, real>>)

  /** Percent-freeness of both prefixes, checked on their short pieces. */
  lemma PrefixesHaveNoPercent()
    ensures '%' !in PrimaryUrlPrefix && '%' !in FallbackUrlPrefix
  {
    assert '%' !in "https://cdn." && '%' !in "jsdelivr.net/npm/" && '%' !in "@fawazahmed0/";
    assert '%' !in "currency-api@latest/" && '%' !in "v1/currencies/";
    assert '%' !in "https://currency-" && '%' !in "api.pages.dev/";
  }

  /** The primary URL: its template with the lower-cased base in place of `%s`. */
  function PrimaryUrl(base: string): (r: string)
    ensures r == PrimaryUrlPrefix + Lower(base) + ".json"
  {
    PrefixesHaveNoPercent();
    assert PrimaryUrlTemplate == PrimaryUrlPrefix + "%s" + ".json";
    FormatOne(PrimaryUrlPrefix, ".json", Lower(base), []);
    assert [Lower(base)] + [] == [Lower(base)];
    Format(PrimaryUrlTemplate, [Lower(base)])
  }

  /** The fallback URL: its template with the lower-cased base in place of `%s`. */
  function FallbackUrl(base: string): (r: string)
    ensures r == FallbackUrlPrefix + Lower(base) + ".json"
  {
    PrefixesHaveNoPercent();
    assert FallbackUrlTemplate == FallbackUrlPrefix + "%s" + ".json";
    FormatOne(FallbackUrlPrefix, ".json", Lower(base), []);
    assert [Lower(base)] + [] == [Lower(base)];
    Format(FallbackUrlTemplate, [Lower(base)])
  }

  // ---------------------------------------------------------------------
  // Picking the requested symbols out of a rate table

  /**
   * The map built by visiting `symbols` in order and, for each one whose
   * lower-case form is in `table`, storing that rate under its upper-case form.
   */
  function Extracted(table: map<string, real>, symbols: seq<string>): RateMap
    decreases |symbols|
  {
    if symbols == [] then map[]
    else
      var prev := Extracted(table, symbols[..|symbols| - 1]);
      var s := symbols[|symbols| - 1];
      if Lower(s) in table then prev[Upper(s) := table[Lower(s)]] else prev
  }

  /**
   * The extracted map holds exactly the upper-cased requested symbols that
   * the table has, each with the table's rate for its lower-case form;
   * a symbol the table lacks is left out, never given a rate.
   */
  lemma {:induction false} ExtractedExactly(table: map<string, real>, symbols: seq<string>)
    ensures forall k :: k in Extracted(table, symbols) <==>
      exists s :: s in symbols && Lower(s) in table && Upper(s) == k
    ensures forall s :: s in symbols && Lower(s) in table ==>
      Upper(s) in Extracted(table, symbols) && Extracted(table, symbols)[Upper(s)] == table[Lower(s)]
    decreases |symbols|
  {
    if symbols != [] {
      var init := symbols[..|symbols| - 1];
      var last := symbols[|symbols| - 1];
      ExtractedExactly(table, init);
      assert symbols == init + [last];
      forall s | s in symbols && Lower(s) in table
        ensures Upper(s) in Extracted(table, symbols) && Extracted(table, symbols)[Upper(s)] == table[Lower(s)]
      {
        if Lower(last) in table && Upper(s) == Upper(last) {
          SameUpperSameLower(s, last);
        }
      }
    }
  }

  /** What one fetch produced: it threw, or it returned the picked rates. */
  function FetchResult(base: string, symbols: seq<string>, reply: Upstream<FawazResponse>): (r: Outcome)
    ensures r == Threw <==> reply.Failed?
    ensures r.Returned? && r.rates != map[] ==> reply.Body? && Lower(base) in reply.body.rates
    ensures reply.Body? && Lower(base) in reply.body.rates ==>
      r == Returned(Extracted(reply.body.rates[Lower(base)], symbols))
  {
    match reply
    case Failed => Threw
    case NullBody => Returned(map[])
    case Body(body) =>
      if Lower(base) in body.rates then Returned(Extracted(body.rates[Lower(base)], symbols))
      else Returned(map[])
  }

  /**
   * Fetches `url` and picks the requested symbols from the table of the
   * lower-cased base. A failed exchange propagates as a throw; a null body
   * or a body without that table gives an empty map.
   */
  method FetchRates(url: string, base: string, symbols: seq<string>, net: string -> Upstream<FawazResponse>)
    returns (result: Outcome)
    ensures net(url).Failed? <==> result == Threw
    ensures result.Returned? && result.rates != map[] ==>
      net(url).Body? && Lower(base) in net(url).body.rates
    ensures net(url).Body? && Lower(base) in net(url).body.rates ==>
      result == Returned(Extracted(net(url).body.rates[Lower(base)], symbols))
  {
    var rates: RateMap := map[];
    var reply := net(url);
    if reply.Failed? {
      return Threw;
    }
    if reply.Body? && Lower(base) in reply.body.rates {
      var table := reply.body.rates[Lower(base)];
      for i := 0 to |symbols|
        invariant rates == Extracted(table, symbols[..i])
      {
        var symbol := symbols[i];
        assert symbols[..i + 1][..i] == symbols[..i];
        if Lower(symbol) in table {
          rates := rates[Upper(symbol) := table[Lower(symbol)]];
        }
      }
      assert symbols[..|symbols|] == symbols;
    }
    return Returned(rates);
  }

  /**
   * The rates of one call, given the network's answer to each URL: the
   * primary's picked rates when non-empty (the fallback is then not asked);
   * otherwise the fallback's, or an empty map if the fallback throws too.
   * It never throws.
   */
  method GetRates(base: string, symbols: seq<string>, net: string -> Upstream<FawazResponse>)
    returns (rates: RateMap)
    ensures FetchResult(base, symbols, net(PrimaryUrl(base))).Succeeded() ==>
      rates == FetchResult(base, symbols, net(PrimaryUrl(base))).rates
    ensures !FetchResult(base, symbols, net(PrimaryUrl(base))).Succeeded() ==>
      rates == FetchResult(base, symbols, net(FallbackUrl(base))).Reply()
    ensures forall k :: k in rates ==> exists s :: s in symbols && Upper(s) == k
  {
    rates := map[];
    var baseLower := Lower(base);
    var primary := FetchRates(Format(PrimaryUrlTemplate, [baseLower]), base, symbols, net);
    assert primary == FetchResult(base, symbols, net(PrimaryUrl(base)));
    if primary.Returned? {
      rates := primary.rates;
      if rates != map[] {
        NeverFabricated(base, symbols, net(PrimaryUrl(base)));
        return;
      }
    }
    var fallback := FetchRates(Format(FallbackUrlTemplate, [baseLower]), base, symbols, net);
    assert fallback == FetchResult(base, symbols, net(FallbackUrl(base)));
    if fallback.Returned? {
      rates := fallback.rates;
      NeverFabricated(base, symbols, net(FallbackUrl(base)));
    }
  }

  /** Every key a fetch returns is the upper case of a requested symbol. */
  lemma NeverFabricated(base: string, symbols: seq<string>, reply: Upstream<FawazResponse>)
    ensures FetchResult(base, symbols, reply).Returned? ==>
      forall k :: k in FetchResult(base, symbols, reply).rates ==> exists s :: s in symbols && Upper(s) == k
  {
    if reply.Body? && Lower(base) in reply.body.rates {
      ExtractedExactly(reply.body.rates[Lower(base)], symbols);
    }
  }
}
