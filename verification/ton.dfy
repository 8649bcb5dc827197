/** The TON monitor. Only its price lookup, `PriceCache.StalePrice`, is real:
    both transaction queries end without collecting anything, whatever the
    network answers, so the network's answers are not inputs here. */
module Ton {
  import opened PriceCache
  import opened BaseMonitor

  const Network := "TON"

  /** `get_latest_transactions`: the price is still looked up (and cached), but
      no transaction is ever returned. */
  function LatestTransactions(cache: Cache, now: real, stamp: real, priceResp: PriceResponse): (r: Polled)
    ensures r.txs == []
    ensures r.cache == StalePrice(cache, now, stamp, priceResp).cache
    ensures Fresh(cache, now) ==> r.cache == cache
    ensures Valid(cache) ==> Valid(r.cache)
  {
    Polled([], StalePrice(cache, now, stamp, priceResp).cache)
  }

  /** `get_latest_transactions_any_amount`: empty for every `limit`. */
  function RecentAnyAmount(cache: Cache, now: real, stamp: real, priceResp: PriceResponse, limit: int): (r: Polled)
    ensures r.txs == []
    ensures r.cache == StalePrice(cache, now, stamp, priceResp).cache
    ensures Fresh(cache, now) ==> r.cache == cache
    ensures Valid(cache) ==> Valid(r.cache)
  {
    Polled([], StalePrice(cache, now, stamp, priceResp).cache)
  }
}
