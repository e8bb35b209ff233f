/**
 * The chart prefetcher: a two-state machine (running or stopped) holding one
 * repeating timer per chart type while it runs. Each operation is a pure step
 * from one state to the next, returning the effects it issues in order: an
 * immediate prefetch of a chart type, the creation of a repeating timer, or the
 * cancellation of one. Timer handles are drawn from a counter in the state.
 */
module Prefetch {
  import opened Wrappers
  import Chart
  import Cache

  /** The chart types kept warm, in the order their prefetches and timers are issued. */
  const CHART_TYPES: seq<string> := ["top100", "hot100", "day", "week", "month"]

  /** The default period: a little less than the cache's one-minute default time to live. */
  const DEFAULT_INTERVAL_MS: int := 50000

  /**
   * The configuration. A callback is modelled by whether it is present; what a
   * present callback does when invoked (return, or throw) is a parameter of
   * `PrefetchChart`.
   */
  datatype Config = Config(enabled: bool, intervalMs: int, hasOnSuccess: bool, hasOnError: bool)

  /** The default configuration: enabled, every 50 seconds, both callbacks present. */
  const DEFAULT_CONFIG: Config := Config(true, DEFAULT_INTERVAL_MS, true, true)

  /**
   * A partial configuration as passed to the constructor or `updateConfig`: an
   * absent property keeps the current value. A callback property given as
   * `undefined` is `Some(false)`, which removes the callback.
   */
  datatype PartialConfig = PartialConfig(
    enabled: Option<bool>,
    intervalMs: Option<int>,
    onSuccess: Option<bool>,
    onError: Option<bool>)

  /** A repeating timer: its handle, the chart type it refreshes, and its period. */
  datatype Timer = Timer(handle: nat, chartType: string, intervalMs: int)

  datatype Effect =
    | PrefetchNow(chartType: string)
    | SetInterval(handle: nat, chartType: string, intervalMs: int)
    | ClearInterval(handle: nat)

  datatype Prefetcher = Prefetcher(config: Config, running: bool, timers: seq<Timer>, nextHandle: nat)

  /** How a call to `getMelonChart` for one chart type completed. */
  datatype Completion =
    | Settled(result: Result<seq<Chart.Track>, string>)
    | Threw(message: string)

  /** One invocation of a configured callback, with its arguments. */
  datatype Callback = OnSuccess(chartType: string) | OnError(chartType: string, message: string)

  /**
   * One run of `prefetchChart`: the callbacks invoked, in order, and the message
   * of the error that escaped it (a rejected promise), if any.
   */
  datatype Run = Run(calls: seq<Callback>, escaped: Option<string>)

  // ---------------------------------------------------------------------------
  // configuration

  /** `{ ...c, ...p }`: each property present in `p` overrides the one in `c`. */
  function Merge(c: Config, p: PartialConfig): (r: Config)
    ensures p.enabled.None? ==> r.enabled == c.enabled
    ensures p.enabled.Some? ==> r.enabled == p.enabled.value
    ensures p.intervalMs.None? ==> r.intervalMs == c.intervalMs
    ensures p.intervalMs.Some? ==> r.intervalMs == p.intervalMs.value
    ensures r.hasOnSuccess == p.onSuccess.GetOr(c.hasOnSuccess)
    ensures r.hasOnError == p.onError.GetOr(c.hasOnError)
  {
    Config(
      p.enabled.GetOr(c.enabled),
      p.intervalMs.GetOr(c.intervalMs),
      p.onSuccess.GetOr(c.hasOnSuccess),
      p.onError.GetOr(c.hasOnError))
  }

  /** The partial configuration with no properties. */
  const NO_CHANGE: PartialConfig := PartialConfig(None, None, None, None)

  /** `new ChartPrefetcher(config)`: the defaults overridden by `config`, stopped, with no timers. */
  function New(p: PartialConfig): (r: Prefetcher)
    ensures !r.running && r.timers == []
    ensures r.config == Merge(DEFAULT_CONFIG, p)
  {
    Prefetcher(Merge(DEFAULT_CONFIG, p), false, [], 0)
  }

  // ---------------------------------------------------------------------------
  // the invariant

  /** Every timer handle is below the counter, and no two timers share one. */
  predicate HandlesFresh(timers: seq<Timer>, nextHandle: nat) {
    (forall k :: 0 <= k < |timers| ==> timers[k].handle < nextHandle)
    && (forall j, k :: 0 <= j < k < |timers| ==> timers[j].handle != timers[k].handle)
  }

  /** Running, the prefetcher holds exactly one timer per chart type, in table order; stopped, none. */
  predicate Valid(p: Prefetcher) {
    && (p.running ==> |p.timers| == |CHART_TYPES| && forall k :: 0 <= k < |p.timers| ==> p.timers[k].chartType == CHART_TYPES[k])
    && (!p.running ==> p.timers == [])
    && HandlesFresh(p.timers, p.nextHandle)
  }

  // ---------------------------------------------------------------------------
  // operations

  /** One timer per chart type, with consecutive handles from `first`. */
  function NewTimers(first: nat, intervalMs: int): (ts: seq<Timer>)
    ensures |ts| == |CHART_TYPES|
    ensures forall k :: 0 <= k < |ts| ==> ts[k] == Timer(first + k, CHART_TYPES[k], intervalMs)
  {
    seq(|CHART_TYPES|, k requires 0 <= k < |CHART_TYPES| => Timer(first + k, CHART_TYPES[k], intervalMs))
  }

  function Prefetches(types: seq<string>): (es: seq<Effect>)
    ensures |es| == |types| && forall k :: 0 <= k < |es| ==> es[k] == PrefetchNow(types[k])
  {
    seq(|types|, k requires 0 <= k < |types| => PrefetchNow(types[k]))
  }

  function Schedules(ts: seq<Timer>): (es: seq<Effect>)
    ensures |es| == |ts| && forall k :: 0 <= k < |es| ==> es[k] == SetInterval(ts[k].handle, ts[k].chartType, ts[k].intervalMs)
  {
    seq(|ts|, k requires 0 <= k < |ts| => SetInterval(ts[k].handle, ts[k].chartType, ts[k].intervalMs))
  }

  function Cancellations(ts: seq<Timer>): (es: seq<Effect>)
    ensures |es| == |ts| && forall k :: 0 <= k < |es| ==> es[k] == ClearInterval(ts[k].handle)
  {
    seq(|ts|, k requires 0 <= k < |ts| => ClearInterval(ts[k].handle))
  }

  /**
   * `start()`: nothing when disabled or already running; otherwise the
   * prefetcher becomes running, every chart type is prefetched at once, and one
   * repeating timer per chart type is appended to the timer list.
   */
  function Start(p: Prefetcher): (r: (Prefetcher, seq<Effect>))
    ensures !p.config.enabled || p.running ==> r == (p, [])
    ensures p.config.enabled && !p.running ==>
      var ts := NewTimers(p.nextHandle, p.config.intervalMs);
      && r.0.running && r.0.config == p.config
      && r.0.timers == p.timers + ts
      && r.1 == Prefetches(CHART_TYPES) + Schedules(ts)
  {
    if !p.config.enabled || p.running then (p, [])
    else
      var ts := NewTimers(p.nextHandle, p.config.intervalMs);
      (Prefetcher(p.config, true, p.timers + ts, p.nextHandle + |ts|), Prefetches(CHART_TYPES) + Schedules(ts))
  }

  /** `stop()`: nothing when stopped; otherwise every timer is cancelled, the list emptied and the prefetcher stopped. */
  function Stop(p: Prefetcher): (r: (Prefetcher, seq<Effect>))
    ensures !p.running ==> r == (p, [])
    ensures p.running ==> !r.0.running && r.0.timers == [] && r.0.config == p.config && r.1 == Cancellations(p.timers)
  {
    if !p.running then (p, [])
    else (p.(running := false, timers := []), Cancellations(p.timers))
  }

  /** `isActive()`. */
  function IsActive(p: Prefetcher): bool {
    p.running
  }

  /**
   * `updateConfig(c)`: a running prefetcher is stopped, the configuration is
   * overridden by `c`, and the prefetcher is started again when it was running
   * and is still enabled.
   */
  function UpdateConfig(p: Prefetcher, c: PartialConfig): (r: (Prefetcher, seq<Effect>))
    ensures r.0.config == Merge(p.config, c)
  {
    var wasRunning := p.running;
    var (stopped, cancelled) := if wasRunning then Stop(p) else (p, []);
    var updated := stopped.(config := Merge(stopped.config, c));
    var (restarted, scheduled) := if wasRunning && updated.config.enabled then Start(updated) else (updated, []);
    (restarted, cancelled + scheduled)
  }

  /** The `catch` block: onError with the caught message, when present; an error it throws escapes. */
  function CatchBlock(config: Config, chartType: string, message: string, raises: Callback -> Option<string>): Run {
    if config.hasOnError then Run([OnError(chartType, message)], raises(OnError(chartType, message))) else Run([], None)
  }

  /**
   * `prefetchChart(type)` once `getMelonChart(type)` has completed. The
   * callback chosen by the result runs inside the `try`, so an error it throws
   * is caught and reported to onError as well. `raises(cb)` is what the
   * caller's callback does when invoked as `cb`: `None` when it returns,
   * `Some(m)` when it throws an error with message `m`.
   */
  function PrefetchChart(config: Config, chartType: string, completion: Completion, raises: Callback -> Option<string>): (r: Run)
    ensures |r.calls| <= 2
    ensures forall k :: 0 <= k < |r.calls| ==> r.calls[k].chartType == chartType
    ensures (|r.calls| > 0 && r.calls[0].OnSuccess?) <==> config.hasOnSuccess && completion.Settled? && completion.result.Ok?
    ensures (|r.calls| > 0 && r.calls[0].OnError?) <==> config.hasOnError && (completion.Threw? || completion.result.Err?)
    ensures |r.calls| > 0 && r.calls[0].OnError? ==>
      r.calls[0].message == if completion.Threw? then completion.message else completion.result.error
    ensures |r.calls| == 2 <==> completion.Settled? && config.hasOnError && |r.calls| > 0 && raises(r.calls[0]).Some?
    ensures |r.calls| == 2 ==> r.calls[1] == OnError(chartType, raises(r.calls[0]).value)
    ensures r.escaped.Some? <==> |r.calls| > 0 && r.calls[|r.calls| - 1].OnError? && raises(r.calls[|r.calls| - 1]).Some?
    ensures r.escaped.Some? ==> r.escaped == raises(r.calls[|r.calls| - 1])
  {
    match completion
    case Threw(m) => CatchBlock(config, chartType, m, raises)
    case Settled(result) =>
      var chosen: seq<Callback> :=
        if result.Ok? && config.hasOnSuccess then [OnSuccess(chartType)]
        else if result.Err? && config.hasOnError then [OnError(chartType, result.error)]
        else [];
      if chosen == [] then Run([], None)
      else match raises(chosen[0])
        case None => Run(chosen, None)
        case Some(e) =>
          var caught := CatchBlock(config, chartType, e, raises);
          Run(chosen + caught.calls, caught.escaped)
  }

  // ---------------------------------------------------------------------------
  // properties

  /** A new prefetcher satisfies the invariant, and by default is enabled with a 50-second period. */
  lemma NewIsValid(p: PartialConfig)
    ensures Valid(New(p))
    ensures New(NO_CHANGE).config.enabled && New(NO_CHANGE).config.intervalMs == 50000
    ensures !IsActive(New(p))
  {
  }

  /** The default period is shorter than the cache's default time to live, so a refresh lands before expiry. */
  lemma DefaultIntervalBeforeExpiry()
    ensures DEFAULT_CONFIG.intervalMs < Cache.DEFAULT_TTL
  {
  }

  /** Every prefetched chart type is one the chart service accepts. */
  lemma PrefetchedTypesAreValid()
    ensures forall k :: 0 <= k < |CHART_TYPES| ==> Chart.IsChartType(CHART_TYPES[k])
  {
    Chart.ChartKeysListed();
  }

  /** Starting keeps the invariant: the new timers take fresh handles, one per chart type. */
  lemma StartKeepsValid(p: Prefetcher)
    requires Valid(p)
    ensures Valid(Start(p).0)
  {
    if p.config.enabled && !p.running {
      var ts := NewTimers(p.nextHandle, p.config.intervalMs);
      assert p.timers == [];
      assert Start(p).0.timers == ts;
    }
  }

  /** Stopping keeps the invariant. */
  lemma StopKeepsValid(p: Prefetcher)
    requires Valid(p)
    ensures Valid(Stop(p).0)
  {
  }

  /**
   * Starting a stopped, enabled prefetcher prefetches each chart type once and
   * creates exactly one timer per chart type, with the configured period.
   */
  lemma StartSchedulesEachTypeOnce(p: Prefetcher)
    requires Valid(p) && p.config.enabled && !p.running
    ensures var (q, es) := Start(p);
      && |q.timers| == |CHART_TYPES|
      && (forall k :: 0 <= k < |q.timers| ==> q.timers[k].chartType == CHART_TYPES[k] && q.timers[k].intervalMs == p.config.intervalMs)
      && |es| == 2 * |CHART_TYPES|
      && (forall k :: 0 <= k < |CHART_TYPES| ==> es[k] == PrefetchNow(CHART_TYPES[k]))
      && (forall k :: 0 <= k < |CHART_TYPES| ==> es[|CHART_TYPES| + k].SetInterval? && es[|CHART_TYPES| + k].chartType == CHART_TYPES[k])
  {
    var ts := NewTimers(p.nextHandle, p.config.intervalMs);
    assert p.timers + ts == ts;
    var es := Prefetches(CHART_TYPES) + Schedules(ts);
    assert forall k :: 0 <= k < |CHART_TYPES| ==> es[|CHART_TYPES| + k] == Schedules(ts)[k];
  }

  /** Calling `start()` twice without `stop()` issues nothing the second time: never more than one timer per type. */
  lemma StartTwice(p: Prefetcher)
    requires Valid(p)
    ensures var q := Start(p).0; Start(q) == (q, []) && |q.timers| <= |CHART_TYPES|
  {
    StartKeepsValid(p);
  }

  /** `stop()` cancels exactly the timers it held, and a second `stop()` does nothing. */
  lemma StopCancelsItsTimers(p: Prefetcher)
    requires p.running
    ensures var (q, es) := Stop(p);
      && |es| == |p.timers|
      && (forall k :: 0 <= k < |es| ==> es[k] == ClearInterval(p.timers[k].handle))
      && Stop(q) == (q, [])
  {
  }

  /** A stop followed by a start uses handles distinct from every handle just cancelled. */
  lemma RestartUsesFreshHandles(p: Prefetcher)
    requires Valid(p) && p.running && p.config.enabled
    ensures var q := Start(Stop(p).0).0;
      forall j, k :: 0 <= j < |p.timers| && 0 <= k < |q.timers| ==> p.timers[j].handle != q.timers[k].handle
  {
    var s := Stop(p).0;
    assert s.nextHandle == p.nextHandle && s.timers == [];
    var ts := NewTimers(s.nextHandle, s.config.intervalMs);
    assert Start(s).0.timers == ts;
  }

  /**
   * After `updateConfig(c)` the prefetcher is running exactly when it was
   * running before and the merged configuration is enabled; a stopped
   * prefetcher stays stopped and issues nothing.
   */
  lemma UpdateConfigRunning(p: Prefetcher, c: PartialConfig)
    requires Valid(p)
    ensures IsActive(UpdateConfig(p, c).0) <==> p.running && Merge(p.config, c).enabled
    ensures !p.running ==> UpdateConfig(p, c) == (p.(config := Merge(p.config, c)), [])
  {
    var none: seq<Effect> := [];
    assert none + none == none;
  }

  /** `updateConfig` keeps the invariant, and a restart replaces every timer: the old ones are cancelled first. */
  lemma UpdateConfigKeepsValid(p: Prefetcher, c: PartialConfig)
    requires Valid(p)
    ensures Valid(UpdateConfig(p, c).0)
    ensures p.running ==> UpdateConfig(p, c).1[..|p.timers|] == Cancellations(p.timers)
  {
    if p.running {
      var s := Stop(p).0;
      StopKeepsValid(p);
      var u := s.(config := Merge(s.config, c));
      assert Valid(u);
      StartKeepsValid(u);
    }
  }

  /** Disabling a running prefetcher through `updateConfig` cancels every timer and leaves it stopped. */
  lemma DisableStops(p: Prefetcher)
    requires Valid(p) && p.running
    ensures var (q, es) := UpdateConfig(p, PartialConfig(Some(false), None, None, None));
      !q.running && q.timers == [] && es == Cancellations(p.timers)
  {
    assert Cancellations(p.timers) + [] == Cancellations(p.timers);
  }

  /** With both callbacks present and neither throwing, exactly one of them is invoked, and nothing escapes. */
  lemma ExactlyOneCallback(config: Config, chartType: string, completion: Completion, raises: Callback -> Option<string>)
    requires config.hasOnSuccess && config.hasOnError
    requires forall cb :: raises(cb).None?
    ensures |PrefetchChart(config, chartType, completion, raises).calls| == 1
    ensures PrefetchChart(config, chartType, completion, raises).escaped.None?
  {
  }

  /** An onSuccess that throws is caught, so onError runs as well, with the thrown message. */
  lemma ThrowingSuccessAlsoReportsError(config: Config, chartType: string, tracks: seq<Chart.Track>, e: string, raises: Callback -> Option<string>)
    requires config.hasOnSuccess && config.hasOnError
    requires raises(OnSuccess(chartType)) == Some(e)
    ensures var r := PrefetchChart(config, chartType, Settled(Ok(tracks)), raises);
      r.calls == [OnSuccess(chartType), OnError(chartType, e)] && r.escaped == raises(OnError(chartType, e))
  {
  }

  /** An onError that throws on an error result is caught and onError runs a second time; a second throw escapes. */
  lemma ThrowingErrorRunsTwice(config: Config, chartType: string, m: string, e: string, raises: Callback -> Option<string>)
    requires config.hasOnError
    requires raises(OnError(chartType, m)) == Some(e)
    ensures var r := PrefetchChart(config, chartType, Settled(Err(m)), raises);
      r.calls == [OnError(chartType, m), OnError(chartType, e)] && r.escaped == raises(OnError(chartType, e))
  {
  }
}
