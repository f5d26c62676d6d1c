/** The weather cache (main/network/weather_api.c). The module's static
    record becomes an explicit `WeatherData` value, the outdoor values a
    fetch stores are an input, and the wall clock is the `now` parameter. */
module WeatherApi {
  import opened Types

  /** The outdoor values one fetch stores. */
  datatype Fetched = Fetched(pm25: real, temperature: real, windSpeed: real)

  /** `weather_api_init`: the zeroed record, marked invalid. */
  function InitCache(): (c: WeatherData)
    ensures !c.valid
    ensures c.pm25 == 0.0 && c.temperature == 0.0 && c.windSpeed == 0.0 && c.timestamp == 0
  {
    WeatherData(0.0, 0.0, 0.0, 0, false)
  }

  /** `weather_api_is_cache_stale` at wall-clock second `now`. */
  predicate IsCacheStale(cache: WeatherData, now: int) {
    !cache.valid || now - cache.timestamp > WEATHER_CACHE_VALID_SEC
  }

  /** The outcome of a fetch: the new cache, the code, and what was written
      through the output pointer. */
  datatype FetchOutcome = FetchOutcome(cache: WeatherData, err: EspErr, data: Option<WeatherData>)

  /** `weather_api_fetch` at second `now`; `hasOutput` is false for a null
      output pointer. On success the caller's record and the cache are the
      same stamped, valid record. */
  function Fetch(cache: WeatherData, hasOutput: bool, fetched: Fetched, now: int): (r: FetchOutcome)
    ensures !hasOutput ==> r.err == EspErrInvalidArg && r.cache == cache && r.data.None?
    ensures hasOutput ==> r.err == EspOk && r.data == Some(r.cache)
    ensures hasOutput ==> (&& r.cache.valid
                           && r.cache.timestamp == now
                           && r.cache.pm25 == fetched.pm25
                           && r.cache.temperature == fetched.temperature
                           && r.cache.windSpeed == fetched.windSpeed)
  {
    if !hasOutput then FetchOutcome(cache, EspErrInvalidArg, None)
    else
      var data := WeatherData(fetched.pm25, fetched.temperature, fetched.windSpeed, now, true);
      FetchOutcome(data, EspOk, Some(data))
  }

  /** `weather_api_get_cached`: a copy of the cache for a non-null output,
      nothing otherwise. Being a function, it cannot modify the cache. */
  function GetCached(cache: WeatherData, hasOutput: bool): (r: Option<WeatherData>)
    ensures hasOutput ==> r == Some(cache)
    ensures !hasOutput ==> r.None?
  {
    if hasOutput then Some(cache) else None
  }

  /** A freshly initialised cache is stale at every time. */
  lemma InitCacheIsStale(now: int)
    ensures IsCacheStale(InitCache(), now)
  {
  }

  /** An invalid cache is stale whatever the time. */
  lemma InvalidCacheIsStale(cache: WeatherData, now: int)
    requires !cache.valid
    ensures IsCacheStale(cache, now)
  {
  }

  /** A valid cache is stale exactly when it is more than 1800 s old; an age
      of exactly 1800 s is still fresh. */
  lemma ValidCacheStaleIffOld(cache: WeatherData, now: int)
    requires cache.valid
    ensures IsCacheStale(cache, now) <==> now > cache.timestamp + 1800
    ensures now == cache.timestamp + 1800 ==> !IsCacheStale(cache, now)
  {
  }

  /** After a successful fetch at `t` the cache is fresh through `t + 1800`
      and stale afterwards. */
  lemma FetchFreshWindow(cache: WeatherData, fetched: Fetched, t: int, now: int)
    ensures !IsCacheStale(Fetch(cache, true, fetched, t).cache, now) <==> now <= t + 1800
  {
  }

  /** Staleness is permanent until the next fetch: time only makes it older. */
  lemma StaleStaysStale(cache: WeatherData, a: int, b: int)
    requires a <= b
    requires IsCacheStale(cache, a)
    ensures IsCacheStale(cache, b)
  {
  }

  /** A fetch into a null pointer, and any read of the cache, leave the
      staleness verdict where it was. */
  lemma ReadsKeepStaleness(cache: WeatherData, fetched: Fetched, t: int, now: int)
    ensures IsCacheStale(Fetch(cache, false, fetched, t).cache, now) == IsCacheStale(cache, now)
    ensures GetCached(cache, true).value == cache
  {
  }
}
