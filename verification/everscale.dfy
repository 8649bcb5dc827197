/** The Everscale monitor. Its price lookup is `PriceCache.StalePrice` and its
    `get_latest_transactions` is `GraphQl.LatestTransactions` for the network
    name below; what is its own is the dashboard path, with its five-minute
    window and early stop. */
module Everscale {
  import opened Seqs
  import opened PriceCache
  import opened BaseMonitor
  import opened GraphQl

  const Network := "Everscale"

  /** How far back, in seconds, the dashboard looks. */
  const DashboardWindow := 300

  /** Python's `int()` of a float: truncation toward zero. */
  function TruncToInt(x: real): (r: int)
    ensures 0.0 <= x ==> r as real <= x < r as real + 1.0
    ensures x < 0.0 ==> r as real - 1.0 < x <= r as real
  {
    if x >= 0.0 then x.Floor else -((-x).Floor)
  }

  /** `get_latest_transactions_any_amount`: at most `limit` entries, all from the
      last five minutes, equal to the first `limit` entries of a full scan of
      the in-window records. The clock is read three times: `now` for the
      cache's freshness, `stamp` when a new price is stored, and `windowNow`
      after the lookup, for the window's start. */
  function RecentAnyAmount(cache: Cache, now: real, stamp: real, windowNow: real, priceResp: PriceResponse, gql: GqlResponse, limit: int)
    : (r: Polled)
    ensures r.cache == StalePrice(cache, now, stamp, priceResp).cache
    ensures |r.txs| <= Max(limit, 0)
    ensures forall t | t in r.txs :: t.network == Network && t.timestamp >= TruncToInt(windowNow) - DashboardWindow
    ensures var price := StalePrice(cache, now, stamp, priceResp).price;
            price == 0.0 || gql.GqlRaised? || gql.status != 200 ==> r.txs == []
    ensures var price := StalePrice(cache, now, stamp, priceResp).price;
            price != 0.0 && gql.GqlResponse? && gql.status == 200 ==>
              r.txs == PyPrefix(DashboardScan(Network, price, WindowRecords(DecodeAll(gql.records), TruncToInt(windowNow) - DashboardWindow)),
                                Max(limit, 0))
  {
    var lookup := StalePrice(cache, now, stamp, priceResp);
    var minTime := TruncToInt(windowNow) - DashboardWindow;
    if lookup.price == 0.0 || gql.GqlRaised? || gql.status != 200 then Polled([], lookup.cache)
    else
      var ds := DecodeAll(gql.records);
      var found := WindowedScan(Network, lookup.price, minTime, limit, ds);
      WindowedScanIsPrefix(Network, lookup.price, minTime, limit, ds);
      Polled(PyPrefix(found, limit), lookup.cache)
  }
}
