# Exchange-rate aggregation engine, modelled in Dafny

This project models the rate-aggregation engine of a small exchange-rate
service. A client asks for the rates of some symbols against a base
currency. The engine works like this:

- It builds a cache key from the base and the symbol list. If the key is
  cached, it answers from the cache.
- Otherwise it asks every registered provider in list order. Each call is
  wrapped in metrics calls: a request is always counted, and a response is
  counted only when the provider returned rates.
- A provider that throws counts as an empty reply. Empty replies are
  dropped.
- If no reply remains, the answer is an empty map and nothing is cached.
- Otherwise the engine averages the remaining replies symbol by symbol,
  over the symbols of the first reply. It caches that consensus and
  returns it.

Two provider adapters are modelled:

- `fawazApi` asks a primary endpoint and, if that fails or yields nothing,
  a fallback endpoint. Both return a whole rate table keyed by lower-case
  codes, and the adapter picks out the requested symbols.
- `frankfurterApi` asks a single endpoint for exactly the requested
  symbols and passes its `rates` on unchanged.

Modules, one per source file (plus two shared ones):

- `Text` (`text.dfy`): ASCII case mapping, comma-joining with its inverse
  `Split`, and `%s` formatting. Shared by the others.
- `Rates` (`rates.dfy`): `RateMap`, the per-call `Outcome`
  (`Threw | Returned(rates)`) and the upstream exchange
  `Upstream<B>` (`Failed | NullBody | Body(body)`).
- `Metrics` (`metrics.dfy`): the counter store, as the class
  `MetricsService`. Its fields are `stats: map<string, ApiStats>` and
  `totalQueries`. Its invariant `Valid()` says that `totalQueries` equals
  the sum of the per-provider response counts. The pure transitions
  `AfterRequest` and `AfterResponse` specify its two mutators.
- `FawazApi` (`fawaz.dfy`) and `FrankfurterApi` (`frankfurter.dfy`): the
  adapters. The network is a parameter `net: string -> Upstream<...>` that
  gives the reply for each URL, so the URL an adapter builds decides which
  reply it gets. The provider names are the constants `FawazApi.Name`
  (`"fawazApi"`) and `FrankfurterApi.Name` (`"frankfurterApi"`).
- `Exchange` (`exchange.dfy`): the cache key, the consensus `Mean` and the
  loop `AverageRates` proved against it, and the round of provider calls.
  The round is specified by `AfterRound` and `Replies`. The class
  `ExchangeService` holds the provider names, the metrics object and the
  `cache` map. `GetRates` takes the round's outcomes, one per provider.

Rates are Dafny `real`s, so the mean is exact. The strict averaging
behaviour is kept, not hardened. In the source, a later reply that lacks a
symbol of the first reply makes the unboxing of a null rate throw. Here
that is the explicit answer `MissingRateFault`. The metrics effects of the
round stay, and nothing is cached.

Some facts about the code that the model keeps:

- Provider calls are made one after another, in list order
  (`ExchangeService.java:49` uses a sequential stream).
- The base goes into the cache key exactly as passed
  (`ExchangeService.java:44`). The HTTP layer, not the engine, upper-cases it.
- The single-endpoint adapter returns the upstream `rates` map verbatim,
  without upper-casing its keys (`FrankfurterApiService.java:62-63`).
- `recordResponse` needs only that the provider has counters
  (`MetricsService.java:32`). It does not need a request in the same round.

## Model

| member | source | states |
|---|---|---|
| `Exchange.CacheKeyInjective` | src/main/java/com/tess/exchangerateapp/services/ExchangeService.java:44 | Two requests get the same cache key iff they have the same base and the same symbols in the same order. This holds when the base has no colon, the list is non-empty and no symbol has a comma. Symbol order is not normalised. |
| `Exchange.CacheKey` | src/main/java/com/tess/exchangerateapp/services/ExchangeService.java:44 | The key is the base exactly as passed, then a colon, then the symbols comma-joined in the order given, with no sorting or case change. |
| `Exchange.ExchangeService.GetRates` | src/main/java/com/tess/exchangerateapp/services/ExchangeService.java:43-73 | On a cache hit: the cached map, with the cache and every counter unchanged. On a miss: the counters become `AfterRound` of the old ones and `totalQueries` grows by the number of non-empty replies. With no reply: an empty answer and an unchanged cache. With a reply lacking a symbol of the first: `MissingRateFault` and an unchanged cache. Otherwise: the `Mean` of the replies, cached under the key. Existing cache entries are never altered or removed. If no provider had more responses than requests before the call, none has after it. |
| `Exchange.ExchangeService.AskProviders` | src/main/java/com/tess/exchangerateapp/services/ExchangeService.java:49-63 | Every provider is called once, in list order. The counters become `AfterRound` of the old ones, `totalQueries` grows by the number of non-empty replies, and the collected replies are exactly `Replies(outcomes)`, in provider order. |
| `Exchange.ExchangeService.constructor` | src/main/java/com/tess/exchangerateapp/services/ExchangeService.java:19-31 | The service starts with the given providers and metrics object and an empty cache. |
| `Exchange.AverageRates` | src/main/java/com/tess/exchangerateapp/services/ExchangeService.java:81-88 | The loop succeeds iff every reply has every symbol of the first reply. It then returns exactly `Mean(replies)`. |
| `Exchange.Mean` | src/main/java/com/tess/exchangerateapp/services/ExchangeService.java:83-86 | The consensus has exactly the symbols of the first reply. |
| `Exchange.MeanBetween` | src/main/java/com/tess/exchangerateapp/services/ExchangeService.java:84-85 | Each consensus rate lies between the smallest and the largest rate the replies give for that symbol. |
| `Exchange.MeanUnanimous` | src/main/java/com/tess/exchangerateapp/services/ExchangeService.java:84-85 | When every reply gives the same rate for a symbol, the consensus is that rate. |
| `Exchange.MeanOfOne` | src/main/java/com/tess/exchangerateapp/services/ExchangeService.java:83-86 | A single reply is its own consensus. |
| `Exchange.Replies` | src/main/java/com/tess/exchangerateapp/services/ExchangeService.java:49-63 | The kept replies are all non-empty. Every call that returned a non-empty map contributes its map. Every kept map was returned by some call. |
| `Exchange.RepliesAppend` | src/main/java/com/tess/exchangerateapp/services/ExchangeService.java:49-63 | Filtering is done call by call and keeps provider order: the replies of two stretches of providers are those of each, concatenated. |
| `Exchange.ThrowingProviderIgnored` | src/main/java/com/tess/exchangerateapp/services/ExchangeService.java:59-62 | A provider that throws contributes nothing, and the other providers' replies are kept as they are. |
| `Exchange.AfterCall` | src/main/java/com/tess/exchangerateapp/services/ExchangeService.java:51-56 | One provider call always adds one request to that name, tracking it from zero if it was unseen. It adds one response only when the call returned a non-empty map. Every other name keeps its counters. |
| `Exchange.AfterRound` | src/main/java/com/tess/exchangerateapp/services/ExchangeService.java:49-56 | After calling every provider in order, a name is tracked iff it was tracked before or was called. |
| `Exchange.FawazCallKeepsFrankfurterCounters` | src/main/java/com/tess/exchangerateapp/services/FawazApiService.java:38-41 | The primary/fallback provider is counted as `fawazApi`, a different name from the other provider's, so its calls never touch the other provider's counters. |
| `Exchange.FrankfurterCallKeepsFawazCounters` | src/main/java/com/tess/exchangerateapp/services/FrankfurterApiService.java:38-41 | The single-endpoint provider is counted as `frankfurterApi`, a different name from the other provider's, so its calls never touch the other provider's counters. |
| `Exchange.RoundCounts` | src/main/java/com/tess/exchangerateapp/services/ExchangeService.java:49-56 | After a round, a name's requests grew by the number of calls under that name, counting from zero for an unseen name. Its responses grew by the number of those calls that returned rates. |
| `Exchange.SucceededAtMostCalled` | src/main/java/com/tess/exchangerateapp/services/ExchangeService.java:51-56 | Within a round, a name gets no more responses than requests. |
| `Exchange.RoundMonotone` | src/main/java/com/tess/exchangerateapp/services/ExchangeService.java:51-56 | A round drops no tracked name and lowers no counter. It keeps every provider's responses at or below its requests. |
| `Metrics.AfterRequest` | src/main/java/com/tess/exchangerateapp/services/MetricsService.java:23-25 | An unseen name gets counters (1 request, 0 responses). A known name's requests grow by one and its responses stay. Other names are unchanged. No counter decreases. |
| `Metrics.AfterResponse` | src/main/java/com/tess/exchangerateapp/services/MetricsService.java:31-32 | The name must already be tracked. Its responses grow by one and its requests stay. Other names are unchanged. No counter decreases. |
| `Metrics.TotalResponsesRemove` | src/main/java/com/tess/exchangerateapp/services/MetricsService.java:16-17 | The sum of response counters can be taken by removing any tracked name first. |
| `Metrics.RequestKeepsTotal` | src/main/java/com/tess/exchangerateapp/services/MetricsService.java:23-25 | A request leaves the sum of response counters unchanged. |
| `Metrics.ResponseAddsOne` | src/main/java/com/tess/exchangerateapp/services/MetricsService.java:31-34 | A response raises the sum of response counters by exactly one, just as it raises `totalQueries` by one. |
| `Metrics.MetricsService.constructor` | src/main/java/com/tess/exchangerateapp/services/MetricsService.java:16-17 | The store starts with no tracked names and zero queries, which satisfies the invariant. |
| `Metrics.MetricsService.RecordRequest` | src/main/java/com/tess/exchangerateapp/services/MetricsService.java:23-25 | The counters become `AfterRequest` of the old ones and `totalQueries` is unchanged. This keeps `totalQueries` equal to the sum of responses. |
| `Metrics.MetricsService.RecordResponse` | src/main/java/com/tess/exchangerateapp/services/MetricsService.java:31-34 | The name must already be tracked. The counters become `AfterResponse` of the old ones and `totalQueries` grows by one. This keeps `totalQueries` equal to the sum of responses. |
| `Metrics.MetricsService.GetMetrics` | src/main/java/com/tess/exchangerateapp/services/MetricsService.java:44-64 | The report carries the current `totalQueries` and one entry per tracked name: each name exactly once, with its current counters. Its entries' responses sum to its `totalQueries`. Nothing changes. |
| `FawazApi.PrimaryUrl` | src/main/java/com/tess/exchangerateapp/services/FawazApiService.java:57-61 | The primary URL is `https://cdn.jsdelivr.net/npm/@fawazahmed0/currency-api@latest/v1/currencies/`, then the lower-cased base, then `.json`. |
| `FawazApi.FallbackUrl` | src/main/java/com/tess/exchangerateapp/services/FawazApiService.java:71 | The fallback URL is `https://currency-api.pages.dev/v1/currencies/`, then the lower-cased base, then `.json`. |
| `FawazApi.ExtractedExactly` | src/main/java/com/tess/exchangerateapp/services/FawazApiService.java:98-103 | The picked map's keys are exactly the upper-cased requested symbols whose lower-case form the table has. Each key carries the table's rate for that form. A missing symbol is left out. |
| `FawazApi.FetchRates` | src/main/java/com/tess/exchangerateapp/services/FawazApiService.java:88-107 | It throws iff the exchange fails. A non-empty result needs a body holding the lower-cased base's table. Given that table, the result is the requested symbols picked out of it. A null body or a missing table gives an empty map. |
| `FawazApi.FetchResult` | src/main/java/com/tess/exchangerateapp/services/FawazApiService.java:88-107 | What one fetch yields for a given reply. It is a throw iff the exchange failed. It has rates only if the body holds the lower-cased base's table, and given that table it is exactly the requested symbols picked out of it. A null body or a missing table gives an empty map. |
| `FawazApi.NeverFabricated` | src/main/java/com/tess/exchangerateapp/services/FawazApiService.java:98-101 | Every key a fetch returns is the upper case of a requested symbol. |
| `FawazApi.GetRates` | src/main/java/com/tess/exchangerateapp/services/FawazApiService.java:55-78 | A non-empty primary result is returned as is. Otherwise the fallback's result is returned, or an empty map if the fallback throws. It never throws. Every key is the upper case of a requested symbol. |
| `Text.UpperJoin` | src/main/java/com/tess/exchangerateapp/services/FrankfurterApiService.java:54 | Upper-casing the comma-joined symbols equals joining the upper-cased symbols. |
| `Text.SplitJoin` | src/main/java/com/tess/exchangerateapp/services/ExchangeService.java:44 | Splitting a comma-join of a non-empty, comma-free list gives the list back. |
| `Text.JoinInjective` | src/main/java/com/tess/exchangerateapp/services/ExchangeService.java:44 | Comma-joining is one-to-one on non-empty lists of comma-free symbols. |
| `FrankfurterApi.RequestUrl` | src/main/java/com/tess/exchangerateapp/services/FrankfurterApiService.java:54-55 | The URL is `https://api.frankfurter.app/latest?from=`, then the upper-cased base, then `&to=`, then the upper-cased symbols comma-joined in the given order. |
| `FrankfurterApi.GetRates` | src/main/java/com/tess/exchangerateapp/services/FrankfurterApiService.java:53-71 | A body with rates gives exactly those rates, unfiltered. A failed exchange, a null body or absent rates give an empty map. |

## Left out

- HTTP transport and JSON decoding (`RestTemplate`, Jackson) are foreign calls. Each upstream exchange is the input `Upstream<B>`: a failure of transport, status or decoding is `Failed`. A body that decodes to no rate tables is an empty table map. If Jackson leaves that component null, the lookup throws, and `FawazApi.GetRates` returns the same empty map either way.
- FrankfurterApi.GetRates: a null rate value inside `rates` is not represented, since a decoded rate is a `real`. In the source such a map is passed on verbatim and counts as a non-empty reply, so a response is recorded. The averaging then throws on unboxing it, even when every reply has the symbol. The model covers only maps whose every rate is present.
- A provider that returns null is the same as `Threw`: the null check throws inside the guarded block.
- Floating point: `Double` rounding and the summation order of `DoubleStream.sum` are not modelled, since rates are exact reals.
- Concurrency: `ConcurrentHashMap`, `AtomicInteger` and the unsynchronised `++` on the counters are not modelled. The model is single-threaded, like the sequential provider stream.
- Metrics.MetricsService.RecordRequest: the counters are unbounded naturals, so the 32-bit `int` wrap-around after 2^31 - 1 is not modelled.
- Metrics.MetricsService.RecordResponse: the same wrap-around, of the per-provider counter and of `totalQueries`, is not modelled.
- The per-provider counters are values in the `stats` map, which the methods reassign. The source mutates shared `ApiStats` objects in place, but nothing else holds them, so no aliasing is lost.
- Metrics.MetricsService.GetMetrics: the report is a `MetricsReport` datatype, not a nested string-keyed map. Its entries come in an unspecified order, as the source's hash-map iteration order is.
- Exchange.ExchangeService.GetRates: the map it returns is the cached object itself. A caller that mutated it would change the cache, and that aliasing is not modelled.
- Logging has no behavioural effect and is left out.
- The HTTP controllers are not part of this model. They check for a non-empty symbol list and upper-case the base; `GetRates` does not assume either.
- Case mapping is ASCII only. Java's locale-sensitive case mapping of other letters is not modelled.
- `String.format` is modelled for `%s` only. The exception for a `%s` without an argument is not modelled, but both call sites give one argument per `%s`, as the contracts of `FawazApi.PrimaryUrl`, `FawazApi.FallbackUrl` and `FrankfurterApi.RequestUrl` show.
- `String.join` is modelled with a one-character delimiter, which is all the source uses.
