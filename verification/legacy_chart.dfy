/**
 * The older chart service: the same table and the same per-row rules as the
 * `Chart` module, but failures are thrown rather than returned, and the entry
 * point keeps its own one-minute cache keyed by the bare chart type.
 */
module LegacyChart {
  import opened Wrappers
  import opened Document
  import Chart
  import Cache

  /** A call that either returns a value or throws an error with a message. */
  datatype Outcome<T> = Returned(value: T) | Thrown(message: string)

  /** The inline cache's time to live: one minute, in milliseconds. */
  const CACHE_TTL: int := 60000

  /** The inline cache: chart type to tracks and the time they were fetched. */
  type ChartCache = map<string, Cache.CacheItem<seq<Chart.Track>>>

  /** Seen as a result: a thrown error is an `Err` carrying its message. */
  function AsResult<T>(o: Outcome<T>): (r: Result<T, string>)
    ensures r.Ok? <==> o.Returned?
    ensures o.Returned? ==> r.value == o.value
    ensures o.Thrown? ==> r.error == o.message
  {
    match o
    case Returned(v) => Ok(v)
    case Thrown(m) => Err(m)
  }

  /**
   * `getChart(chartType)`: an unknown type throws before anything is fetched;
   * a failed fetch or a page that throws outside the rows propagates; the rows
   * become tracks, a throwing row being skipped.
   */
  function GetChart(chartType: Option<string>, fetch: Fetcher<seq<Row<Chart.ChartRow>>>): (r: Outcome<seq<Chart.Track>>)
    ensures !Chart.IsChartType(chartType.GetOr(Chart.DEFAULT_CHART_TYPE)) ==> r == Thrown(Chart.InvalidTypeMessage())
  {
    var t := chartType.GetOr(Chart.DEFAULT_CHART_TYPE);
    if !Chart.IsChartType(t) then Thrown(Chart.InvalidTypeMessage())
    else
      Chart.ChartTable(t);
      var path := Chart.LookupPath(Chart.CHART_TYPES, t).value;
      match fetch(path + "/")
      case Err(e) => Thrown(e)
      case Ok(Broken(m)) => Thrown(m)
      case Ok(Parsed(rows)) => Returned(Chart.ExtractRows(rows))
  }

  /**
   * `getMelonChart(chartType)` at time `now`: an unknown type throws without
   * touching the cache; an entry younger than one minute is returned as is;
   * otherwise `getChart` runs, and its tracks are stored under the bare type
   * stamped with `now`, or its error propagates and the cache is left alone.
   */
  function GetMelonChart(cache: ChartCache, chartType: string, now: int, fetch: Fetcher<seq<Row<Chart.ChartRow>>>): (r: (Outcome<seq<Chart.Track>>, ChartCache))
    ensures !Chart.IsChartType(chartType) ==> r == (Thrown(Chart.InvalidTypeMessage()), cache)
  {
    if !Chart.IsChartType(chartType) then (Thrown(Chart.InvalidTypeMessage()), cache)
    else
      var l := Cache.GetOrFetch(Cache.CacheService(cache, CACHE_TTL), chartType, now, None, AsResult(GetChart(Some(chartType), fetch)));
      (match l.outcome case Ok(v) => Returned(v) case Err(e) => Thrown(e), l.cache.store)
  }

  // ---------------------------------------------------------------------------
  // properties

  /** The older service computes what the newer one returns: the same tracks, or the same error as a throw. */
  lemma AgreesWithChart(chartType: Option<string>, fetch: Fetcher<seq<Row<Chart.ChartRow>>>)
    ensures AsResult(GetChart(chartType, fetch)) == Chart.GetChart(chartType, fetch)
  {
    Chart.ChartTable(chartType.GetOr(Chart.DEFAULT_CHART_TYPE));
  }

  /** The legacy entry point rejects the same types as the newer one, but throws the unquoted message. */
  lemma InvalidTypeThrows(t: string, cache: ChartCache, now: int, fetch: Fetcher<seq<Row<Chart.ChartRow>>>)
    requires !Chart.IsChartType(t)
    ensures GetChart(Some(t), fetch) == Thrown(Chart.InvalidTypeMessage())
    ensures GetMelonChart(cache, t, now, fetch) == (Thrown(Chart.InvalidTypeMessage()), cache)
  {
  }

  /** An entry is served, without running `getChart`, exactly when it is younger than one minute. */
  lemma InlineCacheHit(cache: ChartCache, t: string, now: int, f1: Fetcher<seq<Row<Chart.ChartRow>>>, f2: Fetcher<seq<Row<Chart.ChartRow>>>)
    requires Chart.IsChartType(t)
    requires t in cache && now - cache[t].timestamp < CACHE_TTL
    ensures GetMelonChart(cache, t, now, f1) == GetMelonChart(cache, t, now, f2) == (Returned(cache[t].data), cache)
  {
  }

  /**
   * On a miss, the tracks `getChart` returns are stored under the bare chart
   * type stamped with the time read before the fetch, and no other entry changes.
   */
  lemma InlineCacheMissStores(cache: ChartCache, t: string, now: int, fetch: Fetcher<seq<Row<Chart.ChartRow>>>, tracks: seq<Chart.Track>)
    requires Chart.IsChartType(t)
    requires !(t in cache && now - cache[t].timestamp < CACHE_TTL)
    requires GetChart(Some(t), fetch) == Returned(tracks)
    ensures var (o, c) := GetMelonChart(cache, t, now, fetch);
      o == Returned(tracks) && c == cache[t := Cache.CacheItem(tracks, now)]
  {
    var l := Cache.GetOrFetch(Cache.CacheService(cache, CACHE_TTL), t, now, None, AsResult(GetChart(Some(t), fetch)));
    assert l.cache.store == cache[t := Cache.CacheItem(tracks, now)];
  }

  /** When `getChart` throws on a miss, the error propagates and the cache is not modified. */
  lemma InlineCacheKeptOnThrow(cache: ChartCache, t: string, now: int, fetch: Fetcher<seq<Row<Chart.ChartRow>>>, m: string)
    requires Chart.IsChartType(t)
    requires !(t in cache && now - cache[t].timestamp < CACHE_TTL)
    requires GetChart(Some(t), fetch) == Thrown(m)
    ensures GetMelonChart(cache, t, now, fetch) == (Thrown(m), cache)
  {
  }
}
