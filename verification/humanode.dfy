/** The Humanode monitor: a price cache that seeds a fixed fallback price, the
    Subscan transfer list (only its first 50 entries are examined, amounts in
    18-decimal base units), and a dashboard that is always empty. */
module Humanode {
  import opened Outcomes
  import opened Seqs
  import opened PriceCache
  import opened BaseMonitor

  const Network := "Humanode (HUMO)"

  /** Price assumed when the price service gives none and nothing is cached. */
  const FallbackPrice: real := 0.05

  /** How many transfers of one answer are examined. */
  const ScanLimit: nat := 50

  /** The transfer's `amount` field as `float()` sees it: absent (read as 0),
      a number or numeric string, or something `float()` rejects. */
  datatype TransferAmount = AmountMissing | AmountNumber(raw: real) | AmountUnparsable

  datatype Transfer = Transfer(
    hash: Option<string>,
    source: Option<string>,
    dest: Option<string>,
    blockTimestamp: Option<int>,
    amount: TransferAmount)

  /** The Subscan answer: HTTP status, the body's `code` and its transfer list,
      or an exception before any transfer was read. */
  datatype SubscanResponse = SubscanResponse(status: int, code: Option<int>, transfers: seq<Transfer>) | SubscanRaised

  /** `get_current_price_usd`: a failed refresh with an empty cache stores the
      fallback, stamped with the current time. */
  function CurrentPrice(cache: Cache, now: real, stamp: real, resp: PriceResponse): (r: Lookup)
    ensures r.fetched <==> !Fresh(cache, now)
    ensures !r.fetched ==> r == Lookup(cache.price, cache, false)
    ensures r.fetched && Succeeded(resp) ==> r == Lookup(resp.usd, Cache(resp.usd, stamp), true)
    ensures r.fetched && !Succeeded(resp) && cache.price == 0.0 ==> r == Lookup(FallbackPrice, Cache(FallbackPrice, stamp), true)
    ensures r.fetched && !Succeeded(resp) && cache.price != 0.0 ==> r == Lookup(cache.price, cache, true)
    ensures r.fetched && cache.price >= 0.0 ==> r.price > 0.0
  {
    PriceCache.CurrentPrice(SeedFallback(FallbackPrice), cache, now, stamp, resp)
  }

  /** `float(transfer.get('amount', 0))`, or `None` where it raises. */
  function RawAmount(a: TransferAmount): (r: Option<real>)
    ensures a.AmountMissing? ==> r == Some(0.0)
    ensures a.AmountNumber? ==> r == Some(a.raw)
    ensures r.None? <==> a.AmountUnparsable?
  {
    match a
    case AmountMissing => Some(0.0)
    case AmountNumber(x) => Some(x)
    case AmountUnparsable => None
  }

  /** One transfer: reported when its USD value reaches `minUsd`, with `''`,
      `'Unknown'` and 0 for a missing hash, party or block time. A transfer
      whose amount does not convert is skipped. */
  function TransferRecord(price: real, minUsd: real, tr: Transfer): (r: Option<Transaction>)
    ensures r.Some? ==>
      && RawAmount(tr.amount).Some?
      && r.value.amountNative == RawAmount(tr.amount).value / 1_000_000_000_000_000_000.0
      && r.value.amountUsd == r.value.amountNative * price >= minUsd
      && r.value.network == Network
      && r.value.txHash == tr.hash.GetOr("")
      && r.value.sender == tr.source.GetOr("Unknown")
      && r.value.receiver == tr.dest.GetOr("Unknown")
      && r.value.timestamp == tr.blockTimestamp.GetOr(0)
    ensures (&& RawAmount(tr.amount).Some?
             && RawAmount(tr.amount).value / 1_000_000_000_000_000_000.0 * price >= minUsd) ==> r.Some?
  {
    match RawAmount(tr.amount)
    case None => None
    case Some(raw) =>
      var amount := raw / 1_000_000_000_000_000_000.0;
      if amount * price >= minUsd then
        Some(Transaction(Network, tr.hash.GetOr(""), amount * price,
                         tr.source.GetOr("Unknown"), tr.dest.GetOr("Unknown"),
                         tr.blockTimestamp.GetOr(0), amount))
      else None
  }

  /** The loop over the examined transfers, in order. */
  function TransferScan(price: real, minUsd: real, trs: seq<Transfer>): (r: seq<Transaction>)
    ensures |r| <= |trs|
    ensures forall t | t in r :: t.network == Network && t.amountUsd == t.amountNative * price >= minUsd
    decreases |trs|
  {
    if trs == [] then []
    else match TransferRecord(price, minUsd, trs[0])
      case Some(t) => [t] + TransferScan(price, minUsd, trs[1..])
      case None => TransferScan(price, minUsd, trs[1..])
  }

  /** Scanning two runs of transfers one after the other gives the two
      outputs in order. */
  lemma {:induction false} TransferScanAppend(price: real, minUsd: real, a: seq<Transfer>, b: seq<Transfer>)
    ensures TransferScan(price, minUsd, a + b) == TransferScan(price, minUsd, a) + TransferScan(price, minUsd, b)
    decreases |a|
  {
    if a != [] {
      assert (a + b)[1..] == a[1..] + b;
      TransferScanAppend(price, minUsd, a[1..], b);
    } else {
      assert a + b == b;
    }
  }

  /** Every qualifying transfer is reported, between the reports of the
      transfers before it and those after it. */
  lemma QualifyingTransferReported(price: real, minUsd: real, trs: seq<Transfer>, i: nat)
    requires i < |trs| && TransferRecord(price, minUsd, trs[i]).Some?
    ensures TransferScan(price, minUsd, trs)
         == TransferScan(price, minUsd, trs[..i])
            + [TransferRecord(price, minUsd, trs[i]).value]
            + TransferScan(price, minUsd, trs[i + 1..])
  {
    assert trs == trs[..i] + [trs[i]] + trs[i + 1..];
    TransferScanAppend(price, minUsd, trs[..i] + [trs[i]], trs[i + 1..]);
    TransferScanAppend(price, minUsd, trs[..i], [trs[i]]);
    assert [trs[i]][1..] == [];
  }

  /** Every reported transaction is the report of one of the scanned transfers. */
  lemma {:induction false} TransferScanProvenance(price: real, minUsd: real, trs: seq<Transfer>)
    ensures forall t | t in TransferScan(price, minUsd, trs) ::
              exists j :: 0 <= j < |trs| && TransferRecord(price, minUsd, trs[j]) == Some(t)
    decreases |trs|
  {
    if trs != [] {
      TransferScanProvenance(price, minUsd, trs[1..]);
      forall t | t in TransferScan(price, minUsd, trs)
        ensures exists j :: 0 <= j < |trs| && TransferRecord(price, minUsd, trs[j]) == Some(t)
      {
        if t in TransferScan(price, minUsd, trs[1..]) {
          var j :| 0 <= j < |trs[1..]| && TransferRecord(price, minUsd, trs[1..][j]) == Some(t);
          assert trs[1..][j] == trs[j + 1];
        } else {
          assert TransferRecord(price, minUsd, trs[0]) == Some(t);
        }
      }
    }
  }

  /** The transfers an answer contributes: none unless the answer is a 200
      with code 0, and then only the first `ScanLimit`. */
  function Examined(resp: SubscanResponse): (trs: seq<Transfer>)
    ensures |trs| <= ScanLimit
    ensures trs != [] ==> resp.SubscanResponse? && resp.status == 200 && resp.code == Some(0)
    ensures resp.SubscanResponse? && resp.status == 200 && resp.code == Some(0) ==>
              trs == resp.transfers[..Min(ScanLimit, |resp.transfers|)]
  {
    if resp.SubscanRaised? || resp.status != 200 || resp.code != Some(0) then []
    else PyPrefix(resp.transfers, ScanLimit)
  }

  /** `get_latest_transactions`: no transactions without a price, otherwise
      the scan of the examined transfers. */
  function LatestTransactions(cache: Cache, now: real, stamp: real, priceResp: PriceResponse, resp: SubscanResponse, minUsd: real)
    : (r: Polled)
    ensures r.cache == CurrentPrice(cache, now, stamp, priceResp).cache
    ensures |r.txs| <= ScanLimit
    ensures var price := CurrentPrice(cache, now, stamp, priceResp).price;
            r.txs == if price == 0.0 then [] else TransferScan(price, minUsd, Examined(resp))
    ensures Examined(resp) == [] ==> r.txs == []
    ensures var price := CurrentPrice(cache, now, stamp, priceResp).price;
            forall t | t in r.txs :: t.network == Network && t.amountUsd == t.amountNative * price >= minUsd
  {
    var lookup := CurrentPrice(cache, now, stamp, priceResp);
    if lookup.price == 0.0 then Polled([], lookup.cache)
    else Polled(TransferScan(lookup.price, minUsd, Examined(resp)), lookup.cache)
  }

  /** Every reported transaction is the report of one of the examined
      transfers, at the price the lookup returned. */
  lemma ReportedTransfersTraced(cache: Cache, now: real, stamp: real, priceResp: PriceResponse, resp: SubscanResponse, minUsd: real)
    ensures var price := CurrentPrice(cache, now, stamp, priceResp).price;
            forall t | t in LatestTransactions(cache, now, stamp, priceResp, resp, minUsd).txs ::
              exists j :: 0 <= j < |Examined(resp)| && TransferRecord(price, minUsd, Examined(resp)[j]) == Some(t)
  {
    var price := CurrentPrice(cache, now, stamp, priceResp).price;
    if price != 0.0 {
      TransferScanProvenance(price, minUsd, Examined(resp));
    }
  }

  /** Transfers after the fiftieth never influence the result. */
  lemma LaterTransfersIgnored(cache: Cache, now: real, stamp: real, priceResp: PriceResponse, status: int, code: Option<int>,
                              first: seq<Transfer>, later: seq<Transfer>, minUsd: real)
    requires |first| == ScanLimit
    ensures LatestTransactions(cache, now, stamp, priceResp, SubscanResponse(status, code, first + later), minUsd)
         == LatestTransactions(cache, now, stamp, priceResp, SubscanResponse(status, code, first), minUsd)
  {
    var long := SubscanResponse(status, code, first + later);
    var short := SubscanResponse(status, code, first);
    assert (first + later)[..ScanLimit] == first;
    assert Examined(long) == Examined(short);
  }

  /** From a cold cache, the monitor works with the fallback price even when
      the price service is down, so the transfer list is scanned. */
  lemma ColdStartUsesFallback(now: real, stamp: real, priceResp: PriceResponse, resp: SubscanResponse, minUsd: real)
    requires now >= Ttl && !Succeeded(priceResp)
    ensures LatestTransactions(Initial, now, stamp, priceResp, resp, minUsd)
         == Polled(TransferScan(FallbackPrice, minUsd, Examined(resp)), Cache(FallbackPrice, stamp))
  {
    assert !Fresh(Initial, now);
    assert CurrentPrice(Initial, now, stamp, priceResp) == Lookup(FallbackPrice, Cache(FallbackPrice, stamp), true);
    assert FallbackPrice != 0.0;
    assert LatestTransactions(Initial, now, stamp, priceResp, resp, minUsd).cache == Cache(FallbackPrice, stamp);
    assert LatestTransactions(Initial, now, stamp, priceResp, resp, minUsd).txs == TransferScan(FallbackPrice, minUsd, Examined(resp));
  }

  /** `get_latest_transactions_any_amount`: the dashboard never shows Humanode. */
  function RecentAnyAmount(limit: int): (r: seq<Transaction>)
    ensures |r| == 0
  {
    []
  }
}
