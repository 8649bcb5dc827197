/** The per-network USD price cache of every monitor: a `{price, timestamp}` pair
    with a five-minute time-to-live, refreshed from an external price service.
    The clock and the price service are inputs: `now` is the value `time.time()`
    returns for the freshness test, `stamp` the value it returns when a new
    entry is stored once the service has answered (read again, so a refreshed
    entry is stamped after the request's latency), and `resp` is what the
    service would answer. */
module PriceCache {

  datatype Cache = Cache(price: real, timestamp: real)

  /** Every monitor starts with `{'price': 0, 'timestamp': 0}`. */
  const Initial := Cache(0.0, 0.0)

  /** Seconds during which a cached price is served without asking the service. */
  const Ttl: real := 300.0

  /** The price service's answer: an HTTP status with the `usd` field of the
      JSON body (0 when the field is absent), or an exception (connection
      error, undecodable body). */
  datatype PriceResponse = PriceResponse(status: int, usd: real) | PriceRaised

  /** What a monitor does when the refresh does not yield a positive price. */
  datatype FailurePolicy =
    | KeepStale                     // return whatever is cached, possibly 0
    | SeedFallback(fallback: real)  // an empty (zero) cache is seeded with `fallback`

  /** The price handed to the caller, the cache afterwards, and whether the
      service was contacted. */
  datatype Lookup = Lookup(price: real, cache: Cache, fetched: bool)

  /** A response that refreshes the cache: status 200 and a positive price. */
  predicate Succeeded(resp: PriceResponse) {
    resp.PriceResponse? && resp.status == 200 && resp.usd > 0.0
  }

  /** The cached price is still served at time `now`. */
  predicate Fresh(cache: Cache, now: real) {
    now - cache.timestamp < Ttl
  }

  /** Caches only ever hold non-negative prices. */
  predicate Valid(cache: Cache) {
    cache.price >= 0.0
  }

  /** One call of `get_current_price_usd`. */
  function CurrentPrice(policy: FailurePolicy, cache: Cache, now: real, stamp: real, resp: PriceResponse): (r: Lookup)
    ensures r.fetched <==> !Fresh(cache, now)
    ensures r.price == r.cache.price
    ensures !r.fetched ==> r.cache == cache
    ensures r.fetched && Succeeded(resp) ==> r.cache == Cache(resp.usd, stamp)
    ensures r.fetched && !Succeeded(resp) && policy.KeepStale? ==> r.cache == cache
    ensures r.fetched && !Succeeded(resp) && policy.SeedFallback? ==>
              r.cache == (if cache.price == 0.0 then Cache(policy.fallback, stamp) else cache)
  {
    if Fresh(cache, now) then Lookup(cache.price, cache, false)
    else if Succeeded(resp) then Lookup(resp.usd, Cache(resp.usd, stamp), true)
    else match policy
      case KeepStale => Lookup(cache.price, cache, true)
      case SeedFallback(fallback) =>
        var seeded := if cache.price == 0.0 then Cache(fallback, stamp) else cache;
        Lookup(seeded.price, seeded, true)
  }

  /** The lookup of the TON, Everscale and Venom monitors: a failed refresh
      returns whatever is cached, possibly 0, and leaves the cache alone. */
  function StalePrice(cache: Cache, now: real, stamp: real, resp: PriceResponse): (r: Lookup)
    ensures r.fetched <==> !Fresh(cache, now)
    ensures !Succeeded(resp) || !r.fetched ==> r == Lookup(cache.price, cache, r.fetched)
    ensures r.fetched && Succeeded(resp) ==> r == Lookup(resp.usd, Cache(resp.usd, stamp), true)
  {
    CurrentPrice(KeepStale, cache, now, stamp, resp)
  }

  /** A cache that only ever received positive prices stays non-negative. */
  lemma ValidPreserved(policy: FailurePolicy, cache: Cache, now: real, stamp: real, resp: PriceResponse)
    requires Valid(cache)
    requires policy.SeedFallback? ==> policy.fallback > 0.0
    ensures Valid(CurrentPrice(policy, cache, now, stamp, resp).cache)
    ensures CurrentPrice(policy, cache, now, stamp, resp).price >= 0.0
  {
  }

  /** After a call that stored a price stamped `s1`, any call whose freshness
      test reads a time in `[s1, s1 + Ttl)` is served from the cache without
      contacting the service. */
  lemma NoRefetchWithinTtl(policy: FailurePolicy, cache: Cache, t1: real, s1: real, resp1: PriceResponse,
                           t2: real, s2: real, resp2: PriceResponse)
    requires CurrentPrice(policy, cache, t1, s1, resp1).cache.timestamp == s1
    requires s1 <= t2 < s1 + Ttl
    ensures var first := CurrentPrice(policy, cache, t1, s1, resp1);
            CurrentPrice(policy, first.cache, t2, s2, resp2) == Lookup(first.price, first.cache, false)
  {
  }

  /** A refresh that fails under the stale policy leaves the timestamp alone, so
      the next call, however soon, contacts the service again. */
  lemma StaleFailureRetries(cache: Cache, t1: real, s1: real, resp1: PriceResponse,
                            t2: real, s2: real, resp2: PriceResponse)
    requires !Fresh(cache, t1) && !Succeeded(resp1)
    requires t1 <= t2
    ensures var first := CurrentPrice(KeepStale, cache, t1, s1, resp1);
            first.cache == cache && CurrentPrice(KeepStale, first.cache, t2, s2, resp2).fetched
  {
  }

  /** With a positive fallback, every call that reaches the service returns a
      positive price, whatever the service answered. */
  lemma FallbackPricePositive(fallback: real, cache: Cache, now: real, stamp: real, resp: PriceResponse)
    requires fallback > 0.0 && Valid(cache)
    requires !Fresh(cache, now)
    ensures CurrentPrice(SeedFallback(fallback), cache, now, stamp, resp).price > 0.0
  {
  }

  /** Under the stale policy a service failure from a cold cache yields price 0,
      which makes the monitors skip the cycle. */
  lemma ColdStaleFailureIsZero(now: real, stamp: real, resp: PriceResponse)
    requires now >= Ttl && !Succeeded(resp)
    ensures CurrentPrice(KeepStale, Initial, now, stamp, resp) == Lookup(0.0, Initial, true)
  {
  }
}
