/**
 * The aggregation orchestrator. A request is answered from the cache when
 * its key is there; otherwise every provider is asked in list order, each
 * call counted in the metrics, throws and empty replies are dropped, and
 * the remaining replies are averaged symbol by symbol into the answer,
 * which is cached. The network is not modelled: each call's outcome is
 * given, one per provider.
 */
module Exchange {
  import opened Text
  import opened Rates
  import opened Metrics
  import FawazApi
  import FrankfurterApi

  /**
   * What a request yields: a rate map (empty when no provider had rates),
   * or the fault raised when a later reply lacks a symbol of the first.
   */
  datatype Answer = Answer(rates: RateMap) | MissingRateFault

  // ---------------------------------------------------------------------
  // Cache key

  /** The base, a colon, and the symbols comma-joined in the order given (not sorted). */
  function CacheKey(base: string, symbols: seq<string>): (r: string)
    ensures |base| < |r| && r[..|base|] == base && r[|base|] == ':'
    ensures r[|base| + 1..] == Join(',', symbols)
  {
    base + ":" + Join(',', symbols)
  }

  /**
   * Two requests share a cache entry exactly when they have the same base
   * and the same symbol list in the same order, as long as the base has no
   * colon, the list is non-empty and no symbol has a comma.
   */
  lemma CacheKeyInjective(base1: string, symbols1: seq<string>, base2: string, symbols2: seq<string>)
    requires ':' !in base1 && ':' !in base2
    requires |symbols1| > 0 && |symbols2| > 0
    requires forall i :: 0 <= i < |symbols1| ==> ',' !in symbols1[i]
    requires forall i :: 0 <= i < |symbols2| ==> ',' !in symbols2[i]
    ensures CacheKey(base1, symbols1) == CacheKey(base2, symbols2) <==> base1 == base2 && symbols1 == symbols2
  {
    SplitAtFirst(':', base1, Join(',', symbols1), base2, Join(',', symbols2));
    JoinInjective(',', symbols1, symbols2);
  }

  // ---------------------------------------------------------------------
  // Consensus: the per-symbol mean

  /** Every reply has every symbol of the first reply. */
  predicate CoversFirst(replies: seq<RateMap>)
    requires |replies| > 0
  {
    forall i, s :: 0 <= i < |replies| && s in replies[0] ==> s in replies[i]
  }

  /** Sum of the rates for `s` over `replies`, all of which have `s`. */
  function SumOf(replies: seq<RateMap>, s: string): real
    requires forall i :: 0 <= i < |replies| ==> s in replies[i]
  {
    if replies == [] then 0.0
    else SumOf(replies[..|replies| - 1], s) + replies[|replies| - 1][s]
  }

  /**
   * The consensus of the replies: for each symbol of the first reply, its
   * rates summed over all replies and divided by their number.
   */
  function Mean(replies: seq<RateMap>): (r: RateMap)
    requires |replies| > 0 && CoversFirst(replies)
    ensures r.Keys == replies[0].Keys
  {
    map s | s in replies[0] :: SumOf(replies, s) / (|replies| as real)
  }

  /**
   * Averages the replies symbol by symbol over the symbols of the first.
   * A later reply without one of those symbols makes it fail instead.
   */
  method AverageRates(replies: seq<RateMap>) returns (answer: Answer)
    requires |replies| > 0
    ensures answer.Answer? <==> CoversFirst(replies)
    ensures answer.Answer? ==> answer.rates == Mean(replies)
  {
    var average: RateMap := map[];
    var todo := replies[0].Keys;
    while todo != {}
      invariant todo <= replies[0].Keys
      invariant average.Keys == replies[0].Keys - todo
      invariant forall s :: s in average ==>
        && (forall i :: 0 <= i < |replies| ==> s in replies[i])
        && average[s] == SumOf(replies, s) / (|replies| as real)
      decreases todo
    {
      var symbol :| symbol in todo;
      var sum := 0.0;
      for i := 0 to |replies|
        invariant forall j :: 0 <= j < i ==> symbol in replies[j]
        invariant sum == SumOf(replies[..i], symbol)
      {
        if symbol !in replies[i] {
          return MissingRateFault;
        }
        assert replies[..i + 1][..i] == replies[..i];
        sum := sum + replies[i][symbol];
      }
      assert replies[..|replies|] == replies;
      average := average[symbol := sum / (|replies| as real)];
      todo := todo - {symbol};
    }
    assert forall s :: s in replies[0] ==> s in average;
    return Answer(average);
  }

  /** Rates that all lie between `lo` and `hi` sum to between `n * lo` and `n * hi`. */
  lemma {:induction false} SumBetween(replies: seq<RateMap>, s: string, lo: real, hi: real)
    requires forall i :: 0 <= i < |replies| ==> s in replies[i] && lo <= replies[i][s] <= hi
    ensures (|replies| as real) * lo <= SumOf(replies, s) <= (|replies| as real) * hi
  {
    if replies != [] {
      var n := |replies| - 1;
      SumBetween(replies[..n], s, lo, hi);
      assert (n as real + 1.0) * lo == (n as real) * lo + lo;
      assert (n as real + 1.0) * hi == (n as real) * hi + hi;
    }
  }

  /** The consensus rate of a symbol lies between the least and the greatest reply for it. */
  lemma MeanBetween(replies: seq<RateMap>, s: string, lo: real, hi: real)
    requires |replies| > 0 && CoversFirst(replies)
    requires s in replies[0]
    requires forall i :: 0 <= i < |replies| ==> lo <= replies[i][s] <= hi
    ensures lo <= Mean(replies)[s] <= hi
  {
    var n := |replies| as real;
    SumBetween(replies, s, lo, hi);
    var m := SumOf(replies, s) / n;
    assert m * n == SumOf(replies, s);
    ScaledBounds(lo, m, n);
    ScaledBounds(m, hi, n);
  }

  /** Multiplying by a positive number keeps the order of two reals. */
  lemma ScaledBounds(a: real, b: real, n: real)
    requires n > 0.0 && a * n <= b * n
    ensures a <= b
  {
    assert (b - a) * n >= 0.0;
  }

  /** When every reply agrees on a symbol's rate, the consensus is that rate. */
  lemma MeanUnanimous(replies: seq<RateMap>, s: string, x: real)
    requires |replies| > 0 && CoversFirst(replies)
    requires s in replies[0]
    requires forall i :: 0 <= i < |replies| ==> replies[i][s] == x
    ensures Mean(replies)[s] == x
  {
    MeanBetween(replies, s, x, x);
  }

  /** The consensus of a single reply is that reply. */
  lemma MeanOfOne(reply: RateMap)
    ensures CoversFirst([reply]) && Mean([reply]) == reply
  {
    forall s | s in reply
      ensures Mean([reply])[s] == reply[s]
    {
      assert [reply][..0] == [];
      assert SumOf([reply], s) == reply[s];
    }
  }

  // ---------------------------------------------------------------------
  // One round of provider calls

  /** The non-empty replies of a round, in provider order; throws count as empty. */
  function Replies(outcomes: seq<Outcome>): (r: seq<RateMap>)
    ensures forall m :: m in r ==> m != map[]
    ensures forall i :: 0 <= i < |outcomes| && outcomes[i].Succeeded() ==> outcomes[i].rates in r
    ensures forall m :: m in r ==> exists i :: 0 <= i < |outcomes| && outcomes[i] == Returned(m)
    ensures |r| <= |outcomes|
  {
    if outcomes == [] then []
    else
      var init := outcomes[..|outcomes| - 1];
      var last := outcomes[|outcomes| - 1];
      assert forall i :: 0 <= i < |init| ==> init[i] == outcomes[i];
      Replies(init) + (if last.Succeeded() then [last.rates] else [])
  }

  /** The replies of two consecutive stretches of providers are those of each, in order. */
  lemma {:induction false} RepliesAppend(a: seq<Outcome>, b: seq<Outcome>)
    ensures Replies(a + b) == Replies(a) + Replies(b)
    decreases |b|
  {
    if b != [] {
      var n := |b| - 1;
      assert (a + b)[..|a + b| - 1] == a + b[..n];
      RepliesAppend(a, b[..n]);
    } else {
      assert a + b == a;
    }
  }

  /** A provider that throws contributes nothing, and the others' replies are unaffected. */
  lemma ThrowingProviderIgnored(before: seq<Outcome>, after: seq<Outcome>)
    ensures Replies(before + [Threw] + after) == Replies(before) + Replies(after)
  {
    assert [Threw][..0] == [];
    assert Replies([Threw]) == [];
    RepliesAppend(before, [Threw]);
    RepliesAppend(before + [Threw], after);
  }

  /** Counters after one provider call: a request, then a response if it returned rates. */
  function AfterCall(stats: StatsMap, api: string, outcome: Outcome): (r: StatsMap)
    ensures r.Keys == stats.Keys + {api}
    ensures r[api].totalRequests == StatsOf(stats, api).totalRequests + 1
    ensures r[api].totalResponses
         == StatsOf(stats, api).totalResponses + (if outcome.Succeeded() then 1 else 0)
    ensures forall n :: n in stats && n != api ==> r[n] == stats[n]
  {
    var requested := AfterRequest(stats, api);
    if outcome.Succeeded() then AfterResponse(requested, api) else requested
  }

  /** Counters after calling every provider of `apis` in order. */
  function AfterRound(stats: StatsMap, apis: seq<string>, outcomes: seq<Outcome>): (r: StatsMap)
    requires |apis| == |outcomes|
    ensures forall n :: n in r <==> n in stats || n in apis
    decreases |apis|
  {
    if apis == [] then stats
    else
      var n := |apis| - 1;
      AfterCall(AfterRound(stats, apis[..n], outcomes[..n]), apis[n], outcomes[n])
  }

  /** How often `name` occurs in `apis`. */
  function Count(apis: seq<string>, name: string): nat
  {
    if apis == [] then 0
    else Count(apis[..|apis| - 1], name) + (if apis[|apis| - 1] == name then 1 else 0)
  }

  /** How many of the calls made under `name` returned rates. */
  function CountSucceeded(apis: seq<string>, outcomes: seq<Outcome>, name: string): nat
    requires |apis| == |outcomes|
  {
    if apis == [] then 0
    else
      var n := |apis| - 1;
      CountSucceeded(apis[..n], outcomes[..n], name) + (if apis[n] == name && outcomes[n].Succeeded() then 1 else 0)
  }

  /** The counters of `name`, zero when it is not tracked yet. */
  function StatsOf(stats: StatsMap, name: string): ApiStats
  {
    if name in stats then stats[name] else ApiStats(0, 0)
  }

  /**
   * After a round, a name's requests grew by the number of calls made under it and its responses by
   * the number of those calls that returned rates.
   */
  lemma {:induction false} RoundCounts(stats: StatsMap, apis: seq<string>, outcomes: seq<Outcome>, name: string)
    requires |apis| == |outcomes|
    ensures StatsOf(AfterRound(stats, apis, outcomes), name).totalRequests
         == StatsOf(stats, name).totalRequests + Count(apis, name)
    ensures StatsOf(AfterRound(stats, apis, outcomes), name).totalResponses
         == StatsOf(stats, name).totalResponses + CountSucceeded(apis, outcomes, name)
    decreases |apis|
  {
    if apis != [] {
      var n := |apis| - 1;
      RoundCounts(stats, apis[..n], outcomes[..n], name);
      assert apis == apis[..n] + [apis[n]];
    }
  }

  /** Calls that returned rates are among the calls made. */
  lemma {:induction false} SucceededAtMostCalled(apis: seq<string>, outcomes: seq<Outcome>, name: string)
    requires |apis| == |outcomes|
    ensures CountSucceeded(apis, outcomes, name) <= Count(apis, name)
    decreases |apis|
  {
    if apis != [] {
      var n := |apis| - 1;
      SucceededAtMostCalled(apis[..n], outcomes[..n], name);
    }
  }

  /**
   * A round loses no tracked name and lowers no counter, and if no provider
   * had more responses than requests before it, none has after it.
   */
  lemma {:induction false} RoundMonotone(stats: StatsMap, apis: seq<string>, outcomes: seq<Outcome>)
    requires |apis| == |outcomes|
    ensures NoCounterDecreases(stats, AfterRound(stats, apis, outcomes))
    ensures ResponsesBounded(stats) ==> ResponsesBounded(AfterRound(stats, apis, outcomes))
  {
    var after := AfterRound(stats, apis, outcomes);
    forall name | name in stats || name in after
      ensures name in stats ==>
                (name in after
                 && stats[name].totalRequests <= after[name].totalRequests
                 && stats[name].totalResponses <= after[name].totalResponses)
      ensures ResponsesBounded(stats) && name in after ==>
                after[name].totalResponses <= after[name].totalRequests
    {
      RoundCounts(stats, apis, outcomes, name);
      SucceededAtMostCalled(apis, outcomes, name);
    }
  }

  /**
   * The two providers are counted under different names, so a call to the
   * primary/fallback provider leaves the single-endpoint provider's counters alone.
   */
  lemma FawazCallKeepsFrankfurterCounters(stats: StatsMap, outcome: Outcome)
    ensures FawazApi.Name != FrankfurterApi.Name
    ensures FrankfurterApi.Name in stats ==>
      AfterCall(stats, FawazApi.Name, outcome)[FrankfurterApi.Name] == stats[FrankfurterApi.Name]
  {
  }

  /** Likewise, a call to the single-endpoint provider leaves the other's counters alone. */
  lemma FrankfurterCallKeepsFawazCounters(stats: StatsMap, outcome: Outcome)
    ensures FrankfurterApi.Name != FawazApi.Name
    ensures FawazApi.Name in stats ==>
      AfterCall(stats, FrankfurterApi.Name, outcome)[FawazApi.Name] == stats[FawazApi.Name]
  {
  }

  // ---------------------------------------------------------------------
  // The orchestrator

  class ExchangeService {
    /** Names of the providers, in the order they are asked. */
    const apis: seq<string>
    const metrics: MetricsService
    /** Cache key to the consensus computed for it. */
    var cache: map<string, RateMap>

    ghost predicate Valid()
      reads this, metrics
    {
      metrics.Valid()
    }

    constructor (apis: seq<string>, metrics: MetricsService)
      requires metrics.Valid()
      ensures Valid()
      ensures this.apis == apis && this.metrics == metrics && cache == map[]
    {
      this.apis := apis;
      this.metrics := metrics;
      cache := map[];
    }

    /**
     * Calls every provider once, in list order, counting each request and
     * each non-empty reply, and collects the non-empty replies in order.
     */
    method AskProviders(outcomes: seq<Outcome>) returns (results: seq<RateMap>)
      requires metrics.Valid()
      requires |outcomes| == |apis|
      modifies metrics
      ensures metrics.Valid()
      ensures metrics.stats == AfterRound(old(metrics.stats), apis, outcomes)
      ensures metrics.totalQueries == old(metrics.totalQueries) + |results|
      ensures results == Replies(outcomes)
    {
      results := [];
      for i := 0 to |apis|
        invariant metrics.Valid()
        invariant metrics.stats == AfterRound(old(metrics.stats), apis[..i], outcomes[..i])
        invariant metrics.totalQueries == old(metrics.totalQueries) + |results|
        invariant results == Replies(outcomes[..i])
      {
        assert apis[..i + 1][..i] == apis[..i];
        assert outcomes[..i + 1][..i] == outcomes[..i];
        metrics.RecordRequest(apis[i]);
        if outcomes[i].Succeeded() {
          metrics.RecordResponse(apis[i]);
          results := results + [outcomes[i].rates];
        }
      }
      assert apis[..|apis|] == apis;
      assert outcomes[..|outcomes|] == outcomes;
    }

    /**
     * Answers a request for `symbols` against `base`, with `outcomes[i]`
     * what provider `apis[i]` does if it is called.
     */
    method GetRates(base: string, symbols: seq<string>, outcomes: seq<Outcome>) returns (answer: Answer)
      requires Valid()
      requires |outcomes| == |apis|
      modifies this, metrics
      ensures Valid()
      // A cache hit answers from the cache and touches nothing.
      ensures CacheKey(base, symbols) in old(cache) ==>
        && answer == Answer(old(cache)[CacheKey(base, symbols)])
        && cache == old(cache)
        && metrics.stats == old(metrics.stats)
        && metrics.totalQueries == old(metrics.totalQueries)
      // A miss asks every provider once, counting each request and each non-empty reply.
      ensures CacheKey(base, symbols) !in old(cache) ==>
        && metrics.stats == AfterRound(old(metrics.stats), apis, outcomes)
        && metrics.totalQueries == old(metrics.totalQueries) + |Replies(outcomes)|
      // No replies: an empty answer, and nothing cached.
      ensures CacheKey(base, symbols) !in old(cache) && Replies(outcomes) == [] ==>
        answer == Answer(map[]) && cache == old(cache)
      // A later reply lacking a symbol of the first: a fault, and nothing cached.
      ensures CacheKey(base, symbols) !in old(cache) && Replies(outcomes) != []
              && !CoversFirst(Replies(outcomes)) ==>
        answer == MissingRateFault && cache == old(cache)
      // Otherwise the consensus is answered and cached under the key.
      ensures CacheKey(base, symbols) !in old(cache) && Replies(outcomes) != []
              && CoversFirst(Replies(outcomes)) ==>
        && answer == Answer(Mean(Replies(outcomes)))
        && cache == old(cache)[CacheKey(base, symbols) := Mean(Replies(outcomes))]
      // Cached entries are never altered or dropped.
      ensures old(cache).Keys <= cache.Keys
      ensures forall k :: k in old(cache) ==> cache[k] == old(cache)[k]
      // No provider ends up with more responses than requests.
      ensures ResponsesBounded(old(metrics.stats)) ==> ResponsesBounded(metrics.stats)
    {
      var key := CacheKey(base, symbols);
      if key in cache {
        return Answer(cache[key]);
      }

      var results := AskProviders(outcomes);
      RoundMonotone(old(metrics.stats), apis, outcomes);

      if results == [] {
        return Answer(map[]);
      }

      answer := AverageRates(results);
      if answer.Answer? {
        cache := cache[key := answer.rates];
      }
    }
  }
}
