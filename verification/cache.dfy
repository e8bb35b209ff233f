/**
 * The process-wide TTL cache: a map from keys to values stamped with the time
 * they were fetched. Time is an explicit parameter (`now`, read once before the
 * fetch) and the fetch itself is represented by its outcome, together with a
 * flag saying whether the cache asked for it.
 */
module Cache {
  import opened Wrappers

  /** One minute, in milliseconds: the initial default time to live. */
  const DEFAULT_TTL: int := 60000

  datatype CacheItem<T> = CacheItem(data: T, timestamp: int)

  /** The static state of the cache: the entries and the current default TTL. */
  datatype CacheService<T> = CacheService(store: map<string, CacheItem<T>>, defaultTTL: int)

  /** The outcome of one `getOrFetch`: what the caller receives, whether the fetch ran, and the new state. */
  datatype Lookup<T, E> = Lookup(outcome: Result<T, E>, invoked: bool, cache: CacheService<T>)

  /** The state before any call: no entries, and a default TTL of one minute. */
  function Init<T>(): (c: CacheService<T>)
    ensures forall k :: k !in c.store
    ensures c.defaultTTL == DEFAULT_TTL
  {
    CacheService(map[], DEFAULT_TTL)
  }

  /** An entry for `key` exists and is younger than `ttl` at time `now` (strictly). */
  predicate IsFresh<T>(store: map<string, CacheItem<T>>, key: string, now: int, ttl: int) {
    key in store && now - store[key].timestamp < ttl
  }

  /** The TTL a call uses: its own argument when given, else the default current at call time. */
  function EffectiveTTL<T>(c: CacheService<T>, ttl: Option<int>): (t: int)
    ensures ttl.Some? ==> t == ttl.value
    ensures ttl.None? ==> t == c.defaultTTL
  {
    ttl.GetOr(c.defaultTTL)
  }

  /**
   * `getOrFetch(key, fetchFn, ttl)` at time `now`, where `fetched` is what
   * `fetchFn` would produce (a value, or the error it throws). A fresh entry is
   * returned without running the fetch; otherwise the fetch runs, a value is
   * stored stamped with `now`, and an error propagates leaving the state alone.
   */
  function GetOrFetch<T, E>(c: CacheService<T>, key: string, now: int, ttl: Option<int>, fetched: Result<T, E>): (r: Lookup<T, E>)
    ensures r.invoked <==> !IsFresh(c.store, key, now, EffectiveTTL(c, ttl))
    ensures !r.invoked ==> r.outcome == Ok(c.store[key].data) && r.cache == c
    ensures r.invoked ==> r.outcome == fetched
    ensures r.invoked && fetched.Ok? ==> key in r.cache.store && r.cache.store[key] == CacheItem(fetched.value, now)
    ensures r.invoked && fetched.Err? ==> r.cache == c
    ensures r.cache.defaultTTL == c.defaultTTL
    ensures forall k :: k != key ==> (k in r.cache.store <==> k in c.store)
    ensures forall k :: k != key && k in c.store ==> r.cache.store[k] == c.store[k]
  {
    if IsFresh(c.store, key, now, EffectiveTTL(c, ttl)) then
      Lookup(Ok(c.store[key].data), false, c)
    else
      match fetched
      case Err(e) => Lookup(Err(e), true, c)
      case Ok(v) => Lookup(Ok(v), true, c.(store := c.store[key := CacheItem(v, now)]))
  }

  /** `setDefaultTTL(ttl)`: only the default changes. */
  function SetDefaultTTL<T>(c: CacheService<T>, ttl: int): (r: CacheService<T>)
    ensures r.store == c.store && r.defaultTTL == ttl
  {
    c.(defaultTTL := ttl)
  }

  /** `clear()`: every entry is dropped; the default TTL is kept. */
  function Clear<T>(c: CacheService<T>): (r: CacheService<T>)
    ensures forall k :: k !in r.store
    ensures r.defaultTTL == c.defaultTTL
  {
    c.(store := map[])
  }

  /** `invalidate(key)`: whether an entry was present, and the state without it. */
  function Invalidate<T>(c: CacheService<T>, key: string): (r: (bool, CacheService<T>))
    ensures r.0 <==> key in c.store
    ensures key !in r.1.store
    ensures forall k :: k != key ==> (k in r.1.store <==> k in c.store)
    ensures forall k :: k != key && k in c.store ==> r.1.store[k] == c.store[k]
    ensures r.1.defaultTTL == c.defaultTTL
  {
    if key in c.store then (true, c.(store := c.store - {key})) else (false, c)
  }

  // ---------------------------------------------------------------------------
  // properties relating several calls

  /** The freshness boundary: an entry stamped `ts` is a hit up to `ts + ttl - 1` and a miss from `ts + ttl`. */
  lemma FreshnessBoundary<T>(store: map<string, CacheItem<T>>, key: string, ttl: int)
    requires key in store
    ensures IsFresh(store, key, store[key].timestamp + ttl - 1, ttl)
    ensures !IsFresh(store, key, store[key].timestamp + ttl, ttl)
  {
  }

  /** A hit does not depend on what the fetch would have produced: the fetch is not consulted. */
  lemma HitIgnoresFetch<T, E>(c: CacheService<T>, key: string, now: int, ttl: Option<int>, f1: Result<T, E>, f2: Result<T, E>)
    requires IsFresh(c.store, key, now, EffectiveTTL(c, ttl))
    ensures GetOrFetch(c, key, now, ttl, f1) == GetOrFetch(c, key, now, ttl, f2)
  {
  }

  /**
   * A value fetched at `now` is served from the cache to a read at `later` with
   * the same TTL exactly when less than `ttl` has elapsed.
   */
  lemma RereadWithinTTL<T, E>(c: CacheService<T>, key: string, now: int, later: int, ttl: Option<int>, v: T, f: Result<T, E>)
    requires !IsFresh(c.store, key, now, EffectiveTTL(c, ttl))
    ensures var c1 := GetOrFetch<T, E>(c, key, now, ttl, Ok(v)).cache;
      var r := GetOrFetch(c1, key, later, ttl, f);
      (!r.invoked <==> later - now < EffectiveTTL(c, ttl)) && (!r.invoked ==> r.outcome == Ok(v))
  {
  }

  /**
   * The stamp is taken before the fetch: a fetch that took `duration` leaves an
   * entry whose age at completion is `duration`, so a fetch slower than the TTL
   * stores an entry that is already stale when it completes.
   */
  lemma SlowFetchStoresStaleEntry<T, E>(c: CacheService<T>, key: string, now: int, duration: int, ttl: Option<int>, v: T, f: Result<T, E>)
    requires !IsFresh(c.store, key, now, EffectiveTTL(c, ttl))
    requires duration >= EffectiveTTL(c, ttl)
    ensures var c1 := GetOrFetch<T, E>(c, key, now, ttl, Ok(v)).cache;
      GetOrFetch(c1, key, now + duration, ttl, f).invoked
  {
  }

  /** A failed fetch leaves a stale entry in place, so the next read fetches again. */
  lemma FailedFetchKeepsStaleEntry<T, E>(c: CacheService<T>, key: string, now: int, ttl: Option<int>, e: E, f: Result<T, E>)
    requires !IsFresh(c.store, key, now, EffectiveTTL(c, ttl))
    ensures var r := GetOrFetch(c, key, now, ttl, Err(e));
      r.outcome == Err(e) && r.cache == c && GetOrFetch(r.cache, key, now, ttl, f).invoked
  {
  }

  /** After `invalidate(key)`, the next read of `key` misses. */
  lemma InvalidateThenMiss<T, E>(c: CacheService<T>, key: string, now: int, ttl: Option<int>, f: Result<T, E>)
    ensures GetOrFetch(Invalidate(c, key).1, key, now, ttl, f).invoked
  {
  }

  /** Invalidating twice reports the second time that nothing was removed, and changes nothing more. */
  lemma InvalidateIdempotent<T>(c: CacheService<T>, key: string)
    ensures var c1 := Invalidate(c, key).1; Invalidate(c1, key) == (false, c1)
  {
  }

  /** After `clear()`, every read misses. */
  lemma ClearThenMiss<T, E>(c: CacheService<T>, key: string, now: int, ttl: Option<int>, f: Result<T, E>)
    ensures GetOrFetch(Clear(c), key, now, ttl, f).invoked
  {
  }

  /** After `setDefaultTTL(d)`, calls without their own TTL judge freshness by `d`. */
  lemma DefaultTTLGovernsLaterCalls<T, E>(c: CacheService<T>, d: int, key: string, now: int, f: Result<T, E>)
    ensures GetOrFetch(SetDefaultTTL(c, d), key, now, None, f).invoked <==> !IsFresh(c.store, key, now, d)
  {
  }
}
