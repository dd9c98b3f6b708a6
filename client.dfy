/** The API client's own logic (src/aareguru_mcp/client.py): an in-memory
    cache with a time-to-live per entry, evicted lazily on lookup, and a
    throttle that keeps dispatched upstream requests at least
    `min_request_interval_seconds` apart. Clock readings are parameters (`now`,
    `received`), in seconds; the upstream HTTP exchange is an input value
    (`Upstream`), standing for what the server answered. */
module Client {
  import opened Wrappers
  import opened Dicts
  import opened CacheKeys

  /** The settings the client reads. Both durations are whole seconds, at
      least 0, as the settings declare them. */
  datatype Settings = Settings(
    appName: string,
    appVersion: string,
    cacheTtlSeconds: nat,
    minRequestIntervalSeconds: nat)

  /** A cached response and the instant after which it is stale. Entries are
      never changed once made; a new response replaces the whole entry. */
  datatype CacheEntry<D> = CacheEntry(data: D, expiresAt: real)
  {
    /** `is_expired`: strictly later than the expiry instant. */
    predicate IsExpired(now: real)
    {
      now > expiresAt
    }
  }

  /** `CacheEntry(data, ttl_seconds)` made at instant `now`. */
  function NewCacheEntry<D>(data: D, ttlSeconds: nat, now: real): (e: CacheEntry<D>)
    ensures e.data == data
    ensures !e.IsExpired(now)
    ensures forall t :: e.IsExpired(t) ==> t > now
  {
    CacheEntry(data, now + ttlSeconds as real)
  }

  /** An entry made at `created` is expired at `t` exactly when `t` is past
      `created + ttl`: so a ttl-0 entry is expired at any later instant, and an
      entry with a positive ttl is not expired when it is made. */
  lemma EntryLifetime<D>(data: D, ttlSeconds: nat, created: real, t: real)
    ensures NewCacheEntry(data, ttlSeconds, created).IsExpired(t) <==> t > created + ttlSeconds as real
    ensures ttlSeconds == 0 && t > created ==> NewCacheEntry(data, ttlSeconds, created).IsExpired(t)
    ensures ttlSeconds > 0 ==> !NewCacheEntry(data, ttlSeconds, created).IsExpired(created)
  {
  }

  type Cache<D> = map<string, CacheEntry<D>>

  /** `_get_cached(key)` as a function of the cache: the data of a live entry,
      or nothing; an expired entry is deleted on the way. */
  function Lookup<D>(cache: Cache<D>, key: string, now: real): (r: (Option<D>, Cache<D>))
    ensures r.0.Some? <==> key in cache && !cache[key].IsExpired(now)
    ensures r.0.Some? ==> r.0.value == cache[key].data
    ensures key in cache && cache[key].IsExpired(now) ==> r.1 == cache - {key}
    ensures key !in cache || !cache[key].IsExpired(now) ==> r.1 == cache
  {
    if key in cache then
      if !cache[key].IsExpired(now) then (Some(cache[key].data), cache)
      else (None, cache - {key})
    else (None, cache)
  }

  /** What a lookup leaves in the cache is the old cache, less at most the
      looked-up key: every other key keeps its entry. */
  lemma LookupTouchesOnlyItsKey<D>(cache: Cache<D>, key: string, now: real, other: string)
    requires other != key
    ensures var after := Lookup(cache, key, now).1;
      (other in after <==> other in cache) && (other in after ==> after[other] == cache[other])
  {
  }

  /** A stored entry is found again, with the same data, at any instant up to
      its expiry. */
  lemma {:induction false} StoreThenLookup<D>(cache: Cache<D>, key: string, data: D, ttlSeconds: nat, stored: real, now: real)
    requires now <= stored + ttlSeconds as real
    ensures Lookup(cache[key := NewCacheEntry(data, ttlSeconds, stored)], key, now).0 == Some(data)
  {
    var c := cache[key := NewCacheEntry(data, ttlSeconds, stored)];
    assert key in c && !c[key].IsExpired(now);
  }

  /** How long `_rate_limit` sleeps: the rest of the minimum interval since
      the previous dispatch, or nothing. */
  function ThrottleWait(last: Option<real>, minInterval: nat, now: real): (wait: real)
    ensures wait >= 0.0
    ensures last.None? ==> wait == 0.0
    ensures last.Some? ==> now + wait >= last.value + minInterval as real
    ensures wait > 0.0 ==> last.Some? && now + wait == last.value + minInterval as real
  {
    if last.Some? && now - last.value < minInterval as real then
      minInterval as real - (now - last.value)
    else 0.0
  }

  /** With no minimum interval and a clock that does not run backwards, the
      throttle never waits. */
  lemma NoIntervalNoWait(last: Option<real>, now: real)
    requires last.Some? ==> last.value <= now
    ensures ThrottleWait(last, 0, now) == 0.0
  {
  }

  /** What the upstream server answered when the request went out. */
  datatype Upstream<D> =
    | Unreachable(reason: string)              // httpx.RequestError: connect error, timeout
    | Response(status: int, body: Option<D>)   // body None: not valid JSON

  /** The exceptions `_request` lets through to its caller. */
  datatype FetchError =
    | HttpStatusError(status: int)
    | RequestError(reason: string)
    | InvalidJson

  /** `raise_for_status()` then `json()`: only a 2xx response with a JSON body
      yields data. */
  function Outcome<D>(answer: Upstream<D>): (r: Result<D, FetchError>)
    ensures r.Ok? <==> answer.Response? && 200 <= answer.status < 300 && answer.body.Some?
    ensures r.Ok? ==> r.value == answer.body.value
  {
    match answer
    case Unreachable(reason) => Err(RequestError(reason))
    case Response(status, body) =>
      if !(200 <= status < 300) then Err(HttpStatusError(status))
      else if body.None? then Err(InvalidJson)
      else Ok(body.value)
  }

  /** `params = params or {}` followed by the app identification entries. */
  function WithIdentity(settings: Settings, params: Option<Params>): (r: Params)
    requires params.Some? ==> DistinctKeys(params.value)
    ensures DistinctKeys(r)
    ensures Get(r, "app") == Some(settings.appName)
    ensures Get(r, "version") == Some(settings.appVersion)
    ensures forall k :: k != "app" && k != "version" ==>
      Get(r, k) == if params.Some? then Get(params.value, k) else None
  {
    var base := if params.Some? then params.value else [];
    Set(Set(base, "app", settings.appName), "version", settings.appVersion)
  }

  /** The two fields of the client that change. */
  datatype ClientState<D> = ClientState(cache: Cache<D>, lastRequestTime: Option<real>)

  /** What one `_request` call returns, whether it went upstream, and the
      client state it leaves behind. */
  datatype Exchange<D> = Exchange(result: Result<D, FetchError>, dispatched: bool, after: ClientState<D>)

  /** The key of a request, computed after the identification entries are in. */
  function RequestKey(settings: Settings, endpoint: string, params: Option<Params>): string
    requires params.Some? ==> DistinctKeys(params.value)
  {
    CacheKey(endpoint, WithIdentity(settings, params))
  }

  /** `_request` from the cache check on, for the request whose key is `key`:
      look up (when caching), otherwise throttle, fetch and store (when caching
      and the fetch succeeded). `now` is the clock when the call starts,
      `received` the clock when the response arrives. */
  function KeyedStep<D>(settings: Settings, before: ClientState<D>, key: string,
                        useCache: bool, now: real, answer: Upstream<D>, received: real): (x: Exchange<D>)
    ensures x.dispatched <==> !(useCache && key in before.cache && !before.cache[key].IsExpired(now))
    ensures !x.dispatched ==> x.after == before && x.result == Ok(before.cache[key].data)
    ensures x.dispatched ==>
      && x.result == Outcome(answer)
      && x.after.lastRequestTime == Some(now + ThrottleWait(before.lastRequestTime, settings.minRequestIntervalSeconds, now))
    ensures useCache && x.dispatched && x.result.Ok? ==>
      x.after.cache == before.cache[key := NewCacheEntry(x.result.value, settings.cacheTtlSeconds, received)]
  {
    var (cached, cache) := if useCache then Lookup(before.cache, key, now) else (None, before.cache);
    if cached.Some? then
      Exchange(Ok(cached.value), false, ClientState(cache, before.lastRequestTime))
    else
      var sent := now + ThrottleWait(before.lastRequestTime, settings.minRequestIntervalSeconds, now);
      var result := Outcome(answer);
      var stored := if useCache && result.Ok? then cache[key := NewCacheEntry(result.value, settings.cacheTtlSeconds, received)] else cache;
      Exchange(result, true, ClientState(stored, Some(sent)))
  }

  /** `_request(endpoint, params, use_cache)` as a function of the client state. */
  function RequestStep<D>(settings: Settings, before: ClientState<D>, endpoint: string, params: Option<Params>,
                          useCache: bool, now: real, answer: Upstream<D>, received: real): (x: Exchange<D>)
    requires params.Some? ==> DistinctKeys(params.value)
    ensures !useCache ==> x.dispatched && x.result == Outcome(answer) && x.after.cache == before.cache
  {
    KeyedStep(settings, before, RequestKey(settings, endpoint, params), useCache, now, answer, received)
  }

  /** The order in which the caller inserted its parameters makes no
      difference to the key: the same items give the same key. */
  lemma RequestKeyIgnoresParamOrder(settings: Settings, endpoint: string, p: Params, q: Params)
    requires DistinctKeys(p) && DistinctKeys(q)
    requires multiset(p) == multiset(q)
    ensures RequestKey(settings, endpoint, Some(p)) == RequestKey(settings, endpoint, Some(q))
  {
    SetSameItems(p, q, "app", settings.appName);
    SetSameItems(Set(p, "app", settings.appName), Set(q, "app", settings.appName), "version", settings.appVersion);
    CacheKeyOrderIndependent(endpoint, WithIdentity(settings, Some(p)), WithIdentity(settings, Some(q)));
  }

  /** Hence a request does not depend on parameter order either: same result,
      same dispatch decision, same new client state. */
  lemma RequestIgnoresParamOrder<D>(settings: Settings, before: ClientState<D>, endpoint: string, p: Params, q: Params,
                                    useCache: bool, now: real, answer: Upstream<D>, received: real)
    requires DistinctKeys(p) && DistinctKeys(q)
    requires multiset(p) == multiset(q)
    ensures RequestStep(settings, before, endpoint, Some(p), useCache, now, answer, received)
         == RequestStep(settings, before, endpoint, Some(q), useCache, now, answer, received)
  {
    RequestKeyIgnoresParamOrder(settings, endpoint, p, q);
  }

  /** A cache hit answers from the cache: no throttle, no upstream call, and
      the client state is left as it was. */
  lemma CacheHitSkipsThrottle<D>(settings: Settings, before: ClientState<D>, key: string,
                                 now: real, answer: Upstream<D>, received: real)
    requires key in before.cache && !before.cache[key].IsExpired(now)
    ensures var x := KeyedStep(settings, before, key, true, now, answer, received);
      && !x.dispatched
      && x.after == before
      && x.result == Ok(before.cache[key].data)
  {
  }

  /** The cache changes only at the request's own key; a new entry appears there
      only for a cacheable request that went upstream and succeeded, and
      without `use_cache` the cache is not touched at all. */
  lemma CacheWriteDiscipline<D>(settings: Settings, before: ClientState<D>, key: string,
                                useCache: bool, now: real, answer: Upstream<D>, received: real)
    ensures var x := KeyedStep(settings, before, key, useCache, now, answer, received);
      && x.after.cache - {key} == before.cache - {key}
      && (!useCache ==> x.after.cache == before.cache)
      && (key in x.after.cache && (key !in before.cache || x.after.cache[key] != before.cache[key]) ==>
            useCache && x.dispatched && x.result.Ok?
            && x.after.cache[key] == NewCacheEntry(x.result.value, settings.cacheTtlSeconds, received))
  {
    if useCache {
      var cache := Lookup(before.cache, key, now).1;
      assert cache - {key} == before.cache - {key};
    }
  }

  /** Every dispatch is recorded, at least the minimum interval after the
      previous one; a request answered from the cache records nothing; a
      request without `use_cache` always goes upstream. */
  lemma DispatchesAreSpaced<D>(settings: Settings, before: ClientState<D>, key: string,
                               useCache: bool, now: real, answer: Upstream<D>, received: real)
    ensures var x := KeyedStep(settings, before, key, useCache, now, answer, received);
      && (x.dispatched ==> x.after.lastRequestTime.Some? && x.after.lastRequestTime.value >= now)
      && (x.dispatched && before.lastRequestTime.Some? ==>
            x.after.lastRequestTime.value >= before.lastRequestTime.value + settings.minRequestIntervalSeconds as real)
      && (!x.dispatched ==> x.after.lastRequestTime == before.lastRequestTime)
      && (!useCache ==> x.dispatched && x.result == Outcome(answer))
  {
  }

  /** The same cacheable request repeated before the stored entry expires is
      answered from the cache with the data the first call returned, and does
      not go upstream again. */
  lemma {:induction false} RepeatWithinTtlIsServedFromCache<D>(settings: Settings, before: ClientState<D>, key: string,
      now1: real, answer1: Upstream<D>, received1: real,
      now2: real, answer2: Upstream<D>, received2: real)
    requires KeyedStep(settings, before, key, true, now1, answer1, received1).dispatched
    requires Outcome(answer1).Ok?
    requires now2 <= received1 + settings.cacheTtlSeconds as real
    ensures var x1 := KeyedStep(settings, before, key, true, now1, answer1, received1);
      var x2 := KeyedStep(settings, x1.after, key, true, now2, answer2, received2);
      && x1.result == Ok(answer1.body.value)
      && !x2.dispatched
      && x2.result == x1.result
      && x2.after == x1.after
  {
    var x1 := KeyedStep(settings, before, key, true, now1, answer1, received1);
    var cache := Lookup(before.cache, key, now1).1;
    assert x1.after.cache == cache[key := NewCacheEntry(answer1.body.value, settings.cacheTtlSeconds, received1)];
    StoreThenLookup(cache, key, answer1.body.value, settings.cacheTtlSeconds, received1, now2);
  }

  const HistoryEndpoint: string := "/v2018/history"

  /** The query parameters of `get_history`. */
  function HistoryParams(city: string, start: string, end: string): (p: Params)
    ensures DistinctKeys(p)
  {
    [("city", city), ("start", start), ("end", end)]
  }

  /** `get_history` never reads or writes the cache: it always goes upstream
      and returns what the server answered. */
  lemma HistoryBypassesCache<D>(settings: Settings, before: ClientState<D>, city: string, start: string, end: string,
                                now: real, answer: Upstream<D>, received: real)
    ensures var x := RequestStep(settings, before, HistoryEndpoint, Some(HistoryParams(city, start, end)), false, now, answer, received);
      x.dispatched && x.after.cache == before.cache && x.result == Outcome(answer)
  {
  }

  /** `AareguruClient`: the settings it was made with, the cache and the time
      of the last dispatched request. The HTTP connection pool is not part of
      this model. */
  class AareguruClient<D> {
    const settings: Settings
    var cache: Cache<D>
    var lastRequestTime: Option<real>

    function State(): ClientState<D>
      reads this
    {
      ClientState(cache, lastRequestTime)
    }

    constructor (settings: Settings)
      ensures this.settings == settings
      ensures cache == map[] && lastRequestTime == None
    {
      this.settings := settings;
      cache := map[];
      lastRequestTime := None;
    }

    /** `_get_cached`. */
    method GetCached(key: string, now: real) returns (r: Option<D>)
      modifies this`cache
      ensures (r, cache) == Lookup(old(cache), key, now)
    {
      r := None;
      if key in cache {
        var entry := cache[key];
        if !entry.IsExpired(now) {
          return Some(entry.data);
        } else {
          cache := cache - {key};
        }
      }
    }

    /** `_set_cache`: overwrites whatever the key held, touches no other key. */
    method SetCache(key: string, data: D, now: real)
      modifies this`cache
      ensures cache == old(cache)[key := NewCacheEntry(data, settings.cacheTtlSeconds, now)]
    {
      cache := cache[key := NewCacheEntry(data, settings.cacheTtlSeconds, now)];
    }

    /** `_rate_limit`, atomic as under its lock: sleep out the rest of the
      minimum interval, then record the clock as the new dispatch time. The
      sleep is taken to last exactly `wait`. */
    method RateLimit(now: real) returns (wait: real)
      modifies this`lastRequestTime
      ensures wait == ThrottleWait(old(lastRequestTime), settings.minRequestIntervalSeconds, now)
      ensures lastRequestTime == Some(now + wait)
    {
      wait := 0.0;
      if lastRequestTime.Some? {
        var elapsed := now - lastRequestTime.value;
        var minInterval := settings.minRequestIntervalSeconds as real;
        if elapsed < minInterval {
          wait := minInterval - elapsed;
        }
      }
      lastRequestTime := Some(now + wait);
    }

    /** `_request`. `dispatched` tells whether the request went upstream. */
    method Request(endpoint: string, params: Option<Params>, useCache: bool, now: real, answer: Upstream<D>, received: real)
      returns (r: Result<D, FetchError>, dispatched: bool)
      requires params.Some? ==> DistinctKeys(params.value)
      modifies this`cache, this`lastRequestTime
      ensures Exchange(r, dispatched, State())
           == RequestStep(settings, old(State()), endpoint, params, useCache, now, answer, received)
    {
      var query: Params := if params.Some? then params.value else [];
      query := Set(query, "app", settings.appName);
      query := Set(query, "version", settings.appVersion);
      var key := CacheKey(endpoint, query);
      r, dispatched := Fetch(key, useCache, now, answer, received);
    }

    /** `_request` from the cache check on, once the key is known. */
    method Fetch(key: string, useCache: bool, now: real, answer: Upstream<D>, received: real)
      returns (r: Result<D, FetchError>, dispatched: bool)
      modifies this`cache, this`lastRequestTime
      ensures Exchange(r, dispatched, State())
           == KeyedStep(settings, old(State()), key, useCache, now, answer, received)
    {
      if useCache {
        var cached := GetCached(key, now);
        if cached.Some? {
          return Ok(cached.value), false;
        }
      }
      var wait := RateLimit(now);
      dispatched := true;
      r := Outcome(answer);
      if r.Ok? && useCache {
        SetCache(key, r.value, received);
      }
    }

    /** `get_today(city)`, before its response is decoded. */
    method GetToday(city: string, now: real, answer: Upstream<D>, received: real)
      returns (r: Result<D, FetchError>, dispatched: bool)
      modifies this`cache, this`lastRequestTime
      ensures Exchange(r, dispatched, State())
           == RequestStep(settings, old(State()), "/v2018/today", Some([("city", city)]), true, now, answer, received)
    {
      r, dispatched := Request("/v2018/today", Some([("city", city)]), true, now, answer, received);
    }

    /** `get_current(city)`, before its response is decoded. */
    method GetCurrent(city: string, now: real, answer: Upstream<D>, received: real)
      returns (r: Result<D, FetchError>, dispatched: bool)
      modifies this`cache, this`lastRequestTime
      ensures Exchange(r, dispatched, State())
           == RequestStep(settings, old(State()), "/v2018/current", Some([("city", city)]), true, now, answer, received)
    {
      r, dispatched := Request("/v2018/current", Some([("city", city)]), true, now, answer, received);
    }

    /** `get_cities()`, before its response is decoded. */
    method GetCities(now: real, answer: Upstream<D>, received: real)
      returns (r: Result<D, FetchError>, dispatched: bool)
      modifies this`cache, this`lastRequestTime
      ensures Exchange(r, dispatched, State())
           == RequestStep(settings, old(State()), "/v2018/cities", None, true, now, answer, received)
    {
      r, dispatched := Request("/v2018/cities", None, true, now, answer, received);
    }

    /** `get_widget()`. */
    method GetWidget(now: real, answer: Upstream<D>, received: real)
      returns (r: Result<D, FetchError>, dispatched: bool)
      modifies this`cache, this`lastRequestTime
      ensures Exchange(r, dispatched, State())
           == RequestStep(settings, old(State()), "/v2018/widget", None, true, now, answer, received)
    {
      r, dispatched := Request("/v2018/widget", None, true, now, answer, received);
    }

    /** `get_history(city, start, end)`: always upstream, cache untouched. */
    method GetHistory(city: string, start: string, end: string, now: real, answer: Upstream<D>, received: real)
      returns (r: Result<D, FetchError>)
      modifies this`cache, this`lastRequestTime
      ensures Exchange(r, true, State())
           == RequestStep(settings, old(State()), HistoryEndpoint, Some(HistoryParams(city, start, end)), false, now, answer, received)
      ensures cache == old(cache)
    {
      var dispatched;
      r, dispatched := Request(HistoryEndpoint, Some(HistoryParams(city, start, end)), false, now, answer, received);
    }
  }

  /** Two calls of the same cacheable request on a new client, the second one
      before the first response's entry expires: one upstream dispatch, and
      both calls return the same data. */
  method FetchTwiceWithinTtl<D>(settings: Settings, endpoint: string, params: Params,
                                now1: real, answer1: Upstream<D>, received1: real,
                                now2: real, answer2: Upstream<D>, received2: real)
    returns (r1: Result<D, FetchError>, r2: Result<D, FetchError>, dispatches: nat)
    requires DistinctKeys(params)
    requires Outcome(answer1).Ok?
    requires now2 <= received1 + settings.cacheTtlSeconds as real
    ensures dispatches == 1
    ensures r1 == r2 == Ok(answer1.body.value)
  {
    var client := new AareguruClient<D>(settings);
    var d1, d2;
    r1, d1 := client.Request(endpoint, Some(params), true, now1, answer1, received1);
    ghost var afterFirst := client.State();
    r2, d2 := client.Request(endpoint, Some(params), true, now2, answer2, received2);
    RepeatWithinTtlIsServedFromCache(settings, ClientState(map[], None), RequestKey(settings, endpoint, Some(params)),
                                     now1, answer1, received1, now2, answer2, received2);
    dispatches := (if d1 then 1 else 0) + (if d2 then 1 else 0);
  }
}
