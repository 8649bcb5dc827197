/** The Venom monitor. Its price lookup is `PriceCache.StalePrice` (there is
    no fallback price) and its `get_latest_transactions` is
    `GraphQl.LatestTransactions` for the network name below, as for Everscale;
    its dashboard has no time window. The dashboard's
    `limit` is also sent to the server as the query's page size; the records
    are an input here, so the model relies only on the final cut. */
module Venom {
  import opened Outcomes
  import opened Seqs
  import opened PriceCache
  import opened BaseMonitor
  import opened HexAmount
  import opened GraphQl

  const Network := "Venom"

  /** `get_latest_transactions_any_amount`: the leading entries of a scan of
      every record, as many as `transactions[:limit]` keeps; a negative
      `limit` drops that many entries from the end, as Python slicing does. */
  function RecentAnyAmount(cache: Cache, now: real, stamp: real, priceResp: PriceResponse, gql: GqlResponse, limit: int)
    : (r: Polled)
    ensures r.cache == StalePrice(cache, now, stamp, priceResp).cache
    ensures var price := StalePrice(cache, now, stamp, priceResp).price;
            price == 0.0 || gql.GqlRaised? || gql.status != 200 ==> r.txs == []
    ensures var price := StalePrice(cache, now, stamp, priceResp).price;
            price != 0.0 && gql.GqlResponse? && gql.status == 200 ==>
              var all := DashboardScan(Network, price, DecodeAll(gql.records));
              && |r.txs| <= |all| && r.txs == all[..|r.txs|]
              && (limit >= 0 ==> |r.txs| == Min(limit, |all|))
              && (limit < 0 ==> |r.txs| == Max(0, |all| + limit))
    ensures limit >= 0 ==> |r.txs| <= limit
  {
    var lookup := StalePrice(cache, now, stamp, priceResp);
    if lookup.price == 0.0 || gql.GqlRaised? || gql.status != 200 then Polled([], lookup.cache)
    else
      var all := DashboardScan(Network, lookup.price, DecodeAll(gql.records));
      Polled(PyPrefix(all, limit), lookup.cache)
  }

  /** Dashboard entries without an inbound value are positive balance deltas
      from an unknown sender; every entry names a record of the answer. */
  lemma DashboardEntriesTraced(cache: Cache, now: real, stamp: real, priceResp: PriceResponse, gql: GqlResponse, limit: int)
    requires gql.GqlResponse?
    ensures forall t | t in RecentAnyAmount(cache, now, stamp, priceResp, gql, limit).txs ::
              exists j :: (&& 0 <= j < |gql.records|
                           && gql.records[j].id == Some(t.txHash)
                           && (InValue(gql.records[j]).None? ==>
                                 && t.amountNative == HexToDecimal(gql.records[j].balanceDelta.GetOr("0x0")) > 0.0
                                 && t.sender == Unknown))
  {
    var price := StalePrice(cache, now, stamp, priceResp).price;
    var r := RecentAnyAmount(cache, now, stamp, priceResp, gql, limit);
    if price != 0.0 && gql.status == 200 {
      var all := DashboardScan(Network, price, DecodeAll(gql.records));
      DashboardEntriesComeFromRecords(Network, price, gql.records);
      assert forall t | t in r.txs :: t in all;
    }
  }
}
