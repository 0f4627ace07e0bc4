/**
 * The usage-metrics recorder: per provider, how many calls were attempted
 * and how many returned rates, and a global count of successful queries.
 */
module Metrics {

  /** Counters of one provider. */
  datatype ApiStats = ApiStats(totalRequests: nat, totalResponses: nat)

  /** Provider name to its counters. */
  type StatsMap = map<string, ApiStats>

  /** One line of a metrics report. */
  datatype ApiEntry = ApiEntry(name: string, totalRequests: nat, totalResponses: nat)

  /** A metrics report: the global query count and one entry per tracked provider. */
  datatype MetricsReport = MetricsReport(totalQueries: nat, apis: seq<ApiEntry>)

  // ---------------------------------------------------------------------
  // State transitions of the counter store

  /** Counters after one request attempt by `api`; an unseen name starts from zero. */
  function AfterRequest(stats: StatsMap, api: string): (r: StatsMap)
    ensures r.Keys == stats.Keys + {api}
    ensures api !in stats ==> r[api] == ApiStats(1, 0)
    ensures api in stats ==> r[api] == ApiStats(stats[api].totalRequests + 1, stats[api].totalResponses)
    ensures forall n :: n in stats && n != api ==> r[n] == stats[n]
    ensures NoCounterDecreases(stats, r)
  {
    var s := if api in stats then stats[api] else ApiStats(0, 0);
    stats[api := s.(totalRequests := s.totalRequests + 1)]
  }

  /** Counters after one non-empty reply from `api`, which must already be tracked. */
  function AfterResponse(stats: StatsMap, api: string): (r: StatsMap)
    requires api in stats
    ensures r.Keys == stats.Keys
    ensures r[api] == ApiStats(stats[api].totalRequests, stats[api].totalResponses + 1)
    ensures forall n :: n in stats && n != api ==> r[n] == stats[n]
    ensures NoCounterDecreases(stats, r)
  {
    stats[api := stats[api].(totalResponses := stats[api].totalResponses + 1)]
  }

  /** No tracked name disappears and no counter goes down. */
  predicate NoCounterDecreases(before: StatsMap, after: StatsMap) {
    && before.Keys <= after.Keys
    && forall n :: n in before ==>
         && before[n].totalRequests <= after[n].totalRequests
         && before[n].totalResponses <= after[n].totalResponses
  }

  /** Every tracked provider has answered at most as often as it was asked. */
  predicate ResponsesBounded(stats: StatsMap) {
    forall n :: n in stats ==> stats[n].totalResponses <= stats[n].totalRequests
  }

  // ---------------------------------------------------------------------
  // Sum of the response counters

  /** Sum of `totalResponses` over every tracked name. */
  ghost function TotalResponses(stats: StatsMap): nat
    decreases |stats|
  {
    if stats == map[] then 0
    else
      var n :| n in stats;
      stats[n].totalResponses + TotalResponses(stats - {n})
  }

  /** The sum may be taken by removing any tracked name first. */
  lemma {:induction false} TotalResponsesRemove(stats: StatsMap, n: string)
    requires n in stats
    ensures TotalResponses(stats) == stats[n].totalResponses + TotalResponses(stats - {n})
    decreases |stats|
  {
    var m :| m in stats && TotalResponses(stats) == stats[m].totalResponses + TotalResponses(stats - {m});
    if m != n {
      assert |stats - {m}| < |stats| by {
        assert (stats - {m}).Keys == stats.Keys - {m};
      }
      assert |stats - {n}| < |stats| by {
        assert (stats - {n}).Keys == stats.Keys - {n};
      }
      TotalResponsesRemove(stats - {m}, n);
      TotalResponsesRemove(stats - {n}, m);
      assert stats - {m} - {n} == stats - {n} - {m};
    }
  }

  /** Replacing one name's counters changes the sum by the difference in its responses. */
  lemma TotalResponsesUpdate(stats: StatsMap, n: string, v: ApiStats)
    ensures n in stats ==>
      TotalResponses(stats[n := v]) + stats[n].totalResponses == TotalResponses(stats) + v.totalResponses
    ensures n !in stats ==>
      TotalResponses(stats[n := v]) == TotalResponses(stats) + v.totalResponses
  {
    TotalResponsesRemove(stats[n := v], n);
    if n in stats {
      TotalResponsesRemove(stats, n);
      assert stats[n := v] - {n} == stats - {n};
    } else {
      assert stats[n := v] - {n} == stats;
    }
  }

  /** A request leaves the sum of responses unchanged. */
  lemma RequestKeepsTotal(stats: StatsMap, api: string)
    ensures TotalResponses(AfterRequest(stats, api)) == TotalResponses(stats)
  {
    var s := if api in stats then stats[api] else ApiStats(0, 0);
    TotalResponsesUpdate(stats, api, s.(totalRequests := s.totalRequests + 1));
  }

  /** A response raises the sum of responses by exactly one. */
  lemma ResponseAddsOne(stats: StatsMap, api: string)
    requires api in stats
    ensures TotalResponses(AfterResponse(stats, api)) == TotalResponses(stats) + 1
  {
    TotalResponsesUpdate(stats, api, stats[api].(totalResponses := stats[api].totalResponses + 1));
  }

  /** Sum of `totalResponses` over the entries of a report. */
  function EntryResponses(entries: seq<ApiEntry>): nat
  {
    if entries == [] then 0
    else EntryResponses(entries[..|entries| - 1]) + entries[|entries| - 1].totalResponses
  }

  /**
   * `entries` reports exactly the names of `stats` outside `rest`, once
   * each and with their counters, and `rest` holds the others unchanged.
   */
  ghost predicate PartialReport(stats: StatsMap, rest: StatsMap, entries: seq<ApiEntry>) {
    && rest.Keys <= stats.Keys
    && (forall n :: n in rest ==> rest[n] == stats[n])
    && (forall i :: 0 <= i < |entries| ==>
          var e := entries[i];
          e.name in stats && e.name !in rest && stats[e.name] == ApiStats(e.totalRequests, e.totalResponses))
    && (forall n :: n in stats && n !in rest ==>
          exists i :: 0 <= i < |entries| && entries[i].name == n)
    && (forall i, j :: 0 <= i < j < |entries| ==> entries[i].name != entries[j].name)
    && |entries| + |rest| == |stats|
    && EntryResponses(entries) + TotalResponses(rest) == TotalResponses(stats)
  }

  /** Moving one name from `rest` to the end of the report keeps it partial. */
  lemma PartialReportStep(stats: StatsMap, rest: StatsMap, entries: seq<ApiEntry>, n: string)
    requires PartialReport(stats, rest, entries)
    requires n in rest
    ensures PartialReport(stats, rest - {n},
                          entries + [ApiEntry(n, rest[n].totalRequests, rest[n].totalResponses)])
  {
    var e := ApiEntry(n, rest[n].totalRequests, rest[n].totalResponses);
    var entries' := entries + [e];
    var rest' := rest - {n};
    assert rest'.Keys == rest.Keys - {n};
    forall m | m in stats && m !in rest'
      ensures exists i :: 0 <= i < |entries'| && entries'[i].name == m
    {
      if m == n {
        assert entries'[|entries|].name == m;
      } else {
        var i :| 0 <= i < |entries| && entries[i].name == m;
        assert entries'[i].name == m;
      }
    }
    assert EntryResponses(entries') + TotalResponses(rest') == TotalResponses(stats) by {
      TotalResponsesRemove(rest, n);
      assert entries'[..|entries|] == entries;
    }
  }

  /** Once nothing is left, the report lists every tracked name exactly once. */
  lemma PartialReportDone(stats: StatsMap, rest: StatsMap, entries: seq<ApiEntry>)
    requires PartialReport(stats, rest, entries)
    requires rest == map[]
    ensures |entries| == |stats|
    ensures forall i :: 0 <= i < |entries| ==>
      var e := entries[i];
      e.name in stats && stats[e.name] == ApiStats(e.totalRequests, e.totalResponses)
    ensures forall n :: n in stats ==> exists i :: 0 <= i < |entries| && entries[i].name == n
    ensures forall i, j :: 0 <= i < j < |entries| ==> entries[i].name != entries[j].name
    ensures EntryResponses(entries) == TotalResponses(stats)
  {
  }

  // ---------------------------------------------------------------------
  // The recorder

  class MetricsService {
    var stats: StatsMap
    var totalQueries: nat

    /** The global query count is the sum of the per-provider response counts. */
    ghost predicate Valid()
      reads this
    {
      totalQueries == TotalResponses(stats)
    }

    constructor ()
      ensures Valid()
      ensures stats == map[] && totalQueries == 0
    {
      stats := map[];
      totalQueries := 0;
    }

    /** Records a request attempt by `api`, creating its counters on first use. */
    method RecordRequest(api: string)
      requires Valid()
      modifies this
      ensures Valid()
      ensures stats == AfterRequest(old(stats), api)
      ensures totalQueries == old(totalQueries)
    {
      RequestKeepsTotal(stats, api);
      stats := AfterRequest(stats, api);
    }

    /**
     * Records a non-empty reply from `api`. Its counters must exist: the
     * recorder looks them up without a default.
     */
    method RecordResponse(api: string)
      requires Valid()
      requires api in stats
      modifies this
      ensures Valid()
      ensures stats == AfterResponse(old(stats), api)
      ensures totalQueries == old(totalQueries) + 1
    {
      ResponseAddsOne(stats, api);
      stats := AfterResponse(stats, api);
      totalQueries := totalQueries + 1;
    }

    /**
     * Reports the global query count and one entry per tracked provider
     * (in no particular order), without changing anything.
     */
    method GetMetrics() returns (report: MetricsReport)
      requires Valid()
      ensures report.totalQueries == totalQueries
      ensures |report.apis| == |stats|
      ensures forall i :: 0 <= i < |report.apis| ==>
        var e := report.apis[i];
        e.name in stats && stats[e.name] == ApiStats(e.totalRequests, e.totalResponses)
      ensures forall n :: n in stats ==>
        exists i :: 0 <= i < |report.apis| && report.apis[i].name == n
      ensures forall i, j :: 0 <= i < j < |report.apis| ==> report.apis[i].name != report.apis[j].name
      ensures EntryResponses(report.apis) == report.totalQueries
    {
      var rest := stats;
      var entries: seq<ApiEntry> := [];
      while rest != map[]
        invariant PartialReport(stats, rest, entries)
        decreases |rest|
      {
        var n :| n in rest;
        var e := ApiEntry(n, rest[n].totalRequests, rest[n].totalResponses);
        PartialReportStep(stats, rest, entries, n);
        entries := entries + [e];
        rest := rest - {n};
      }
      PartialReportDone(stats, rest, entries);
      report := MetricsReport(totalQueries, entries);
    }
  }
}
