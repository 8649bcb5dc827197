/** Record handling shared by the Everscale and Venom monitors, whose GraphQL
    transaction records have the same shape and are filtered by identical code.
    A record is an input value: the model sees the fields the code reads, each
    `None` when the key is absent. The hex conversion of a record's amounts is
    pure, so it is stated as a separate step (`Decode`) that the loops consume. */
module GraphQl {
  import opened Outcomes
  import opened Seqs
  import opened BaseMonitor
  import opened HexAmount
  import opened PriceCache

  datatype InMessage = InMessage(value: Option<string>, src: Option<string>, dst: Option<string>)

  datatype RawTx = RawTx(
    id: Option<string>,
    now: Option<int>,
    balanceDelta: Option<string>,
    accountAddr: Option<string>,
    inMessage: Option<InMessage>)

  /** The GraphQL endpoint's answer: a status and the `data.transactions`
      list (empty when absent), or an exception before any record was read. */
  datatype GqlResponse = GqlResponse(status: int, records: seq<RawTx>) | GqlRaised

  /** Placeholder for a party the record does not name. */
  const Unknown := "Unknown"

  /** The non-empty `in_message.value` of a record, if it has one. */
  function InValue(rec: RawTx): (r: Option<string>)
    ensures r.Some? <==> rec.inMessage.Some? && rec.inMessage.value.value.Some? && rec.inMessage.value.value.value != ""
    ensures r.Some? ==> r.value == rec.inMessage.value.value.value
  {
    match rec.inMessage
    case Some(InMessage(Some(v), _, _)) => if v != "" then Some(v) else None
    case _ => None
  }

  /** A record with its amounts converted to tokens: the inbound value when
      there is one, and the balance delta (default `"0x0"`). */
  datatype Decoded = Decoded(raw: RawTx, inAmount: Option<real>, deltaAmount: real)

  function Decode(rec: RawTx): (d: Decoded)
    ensures d.raw == rec
    ensures d.inAmount.Some? <==> InValue(rec).Some?
    ensures d.inAmount.Some? ==> d.inAmount.value == HexToDecimal(InValue(rec).value)
    ensures d.deltaAmount == HexToDecimal(rec.balanceDelta.GetOr("0x0"))
  {
    Decoded(rec,
            match InValue(rec) case Some(v) => Some(HexToDecimal(v)) case None => None,
            HexToDecimal(rec.balanceDelta.GetOr("0x0")))
  }

  function DecodeAll(records: seq<RawTx>): (ds: seq<Decoded>)
    ensures |ds| == |records|
    ensures forall i | 0 <= i < |records| :: ds[i] == Decode(records[i])
  {
    seq(|records|, i requires 0 <= i < |records| => Decode(records[i]))
  }

  /** The alert path's handling of one record: records without an inbound value,
      with a zero amount or below `minUsd` are skipped; a record missing `id` or
      `now` raises a `KeyError` that the per-record handler swallows, so it is
      skipped too. */
  function AlertRecord(network: string, price: real, minUsd: real, d: Decoded): (r: Option<Transaction>)
    ensures r.Some? ==>
      && d.inAmount.Some? && d.raw.inMessage.Some?
      && r.value.amountNative == d.inAmount.value != 0.0
      && r.value.amountUsd == r.value.amountNative * price >= minUsd
      && r.value.network == network
      && d.raw.id == Some(r.value.txHash) && d.raw.now == Some(r.value.timestamp)
      && r.value.sender == d.raw.inMessage.value.src.GetOr(Unknown)
      && r.value.receiver == d.raw.inMessage.value.dst.GetOr(Unknown)
    ensures (&& d.inAmount.Some? && d.raw.inMessage.Some? && d.raw.id.Some? && d.raw.now.Some?
             && d.inAmount.value != 0.0 && d.inAmount.value * price >= minUsd) ==> r.Some?
  {
    match d.inAmount
    case None => None
    case Some(amount) =>
      if amount == 0.0 || amount * price < minUsd || d.raw.inMessage.None? || d.raw.id.None? || d.raw.now.None? then None
      else
        var msg := d.raw.inMessage.value;
        Some(Transaction(network, d.raw.id.value, amount * price,
                         msg.src.GetOr(Unknown), msg.dst.GetOr(Unknown), d.raw.now.value, amount))
  }

  /** The alert path's loop over the records, in order. */
  function AlertScan(network: string, price: real, minUsd: real, ds: seq<Decoded>): (r: seq<Transaction>)
    ensures |r| <= |ds|
    ensures forall t | t in r ::
      && t.network == network
      && t.amountNative != 0.0
      && t.amountUsd == t.amountNative * price >= minUsd
    decreases |ds|
  {
    if ds == [] then []
    else match AlertRecord(network, price, minUsd, ds[0])
      case Some(t) => [t] + AlertScan(network, price, minUsd, ds[1..])
      case None => AlertScan(network, price, minUsd, ds[1..])
  }

  /** Scanning two batches one after the other gives the two outputs in order:
      each record is handled on its own. */
  lemma {:induction false} AlertScanAppend(network: string, price: real, minUsd: real, a: seq<Decoded>, b: seq<Decoded>)
    ensures AlertScan(network, price, minUsd, a + b)
         == AlertScan(network, price, minUsd, a) + AlertScan(network, price, minUsd, b)
    decreases |a|
  {
    if a != [] {
      assert (a + b)[1..] == a[1..] + b;
      AlertScanAppend(network, price, minUsd, a[1..], b);
    } else {
      assert a + b == b;
    }
  }

  /** A record the alert path skips (malformed or not qualifying) leaves the
      output for all other records exactly as it would be without it. */
  lemma SkippedRecordIsInvisible(network: string, price: real, minUsd: real, a: seq<Decoded>, d: Decoded, b: seq<Decoded>)
    requires AlertRecord(network, price, minUsd, d).None?
    ensures AlertScan(network, price, minUsd, a + [d] + b) == AlertScan(network, price, minUsd, a + b)
  {
    AlertScanAppend(network, price, minUsd, a + [d], b);
    AlertScanAppend(network, price, minUsd, a, [d]);
    AlertScanAppend(network, price, minUsd, a, b);
    assert AlertScan(network, price, minUsd, [d]) == [] by {
      assert [d][1..] == [];
    }
  }

  /** Every qualifying record is reported, between the reports of the records
      before it and those after it. */
  lemma QualifyingRecordReported(network: string, price: real, minUsd: real, ds: seq<Decoded>, i: nat)
    requires i < |ds| && AlertRecord(network, price, minUsd, ds[i]).Some?
    ensures AlertScan(network, price, minUsd, ds)
         == AlertScan(network, price, minUsd, ds[..i])
            + [AlertRecord(network, price, minUsd, ds[i]).value]
            + AlertScan(network, price, minUsd, ds[i + 1..])
  {
    assert ds == ds[..i] + [ds[i]] + ds[i + 1..];
    AlertScanAppend(network, price, minUsd, ds[..i] + [ds[i]], ds[i + 1..]);
    AlertScanAppend(network, price, minUsd, ds[..i], [ds[i]]);
    assert [ds[i]][1..] == [];
  }

  /** Every reported transaction is the alert of one of the scanned records. */
  lemma {:induction false} AlertScanProvenance(network: string, price: real, minUsd: real, ds: seq<Decoded>)
    ensures forall t | t in AlertScan(network, price, minUsd, ds) ::
              exists j :: 0 <= j < |ds| && AlertRecord(network, price, minUsd, ds[j]) == Some(t)
    decreases |ds|
  {
    if ds != [] {
      AlertScanProvenance(network, price, minUsd, ds[1..]);
      forall t | t in AlertScan(network, price, minUsd, ds)
        ensures exists j :: 0 <= j < |ds| && AlertRecord(network, price, minUsd, ds[j]) == Some(t)
      {
        if t in AlertScan(network, price, minUsd, ds[1..]) {
          var j :| 0 <= j < |ds[1..]| && AlertRecord(network, price, minUsd, ds[1..][j]) == Some(t);
          assert ds[1..][j] == ds[j + 1];
        } else {
          assert AlertRecord(network, price, minUsd, ds[0]) == Some(t);
        }
      }
    }
  }

  /** Traced back to the raw records: every reported transaction carries the
      `id` of a record with an inbound value, converted from that value. */
  lemma AlertsComeFromRecords(network: string, price: real, minUsd: real, records: seq<RawTx>)
    ensures forall t | t in AlertScan(network, price, minUsd, DecodeAll(records)) ::
              exists j :: (&& 0 <= j < |records|
                           && records[j].id == Some(t.txHash)
                           && InValue(records[j]).Some?
                           && t.amountNative == HexToDecimal(InValue(records[j]).value))
  {
    var ds := DecodeAll(records);
    AlertScanProvenance(network, price, minUsd, ds);
    forall t | t in AlertScan(network, price, minUsd, ds)
      ensures exists j :: (&& 0 <= j < |records|
                           && records[j].id == Some(t.txHash)
                           && InValue(records[j]).Some?
                           && t.amountNative == HexToDecimal(InValue(records[j]).value))
    {
      var j :| 0 <= j < |ds| && AlertRecord(network, price, minUsd, ds[j]) == Some(t);
      assert ds[j] == Decode(records[j]);
    }
  }

  /** `get_latest_transactions` after the price lookup: nothing without a price
      or without a 200 answer, otherwise the alert scan of the records. */
  function LatestFromResponse(network: string, price: real, minUsd: real, resp: GqlResponse): (r: seq<Transaction>)
    ensures price == 0.0 || resp.GqlRaised? || resp.status != 200 ==> r == []
    ensures price != 0.0 && resp.GqlResponse? && resp.status == 200 ==>
              r == AlertScan(network, price, minUsd, DecodeAll(resp.records))
  {
    if price == 0.0 then []
    else match resp
      case GqlRaised => []
      case GqlResponse(status, records) =>
        if status != 200 then [] else AlertScan(network, price, minUsd, DecodeAll(records))
  }

  /** `get_latest_transactions` of the Everscale and Venom monitors: the price
      lookup, then the alert scan of the answer's records; the cache after the
      call travels with the result. */
  function LatestTransactions(network: string, cache: Cache, now: real, stamp: real, priceResp: PriceResponse,
                              gql: GqlResponse, minUsd: real)
    : (r: Polled)
    ensures r.cache == StalePrice(cache, now, stamp, priceResp).cache
    ensures r.txs == LatestFromResponse(network, StalePrice(cache, now, stamp, priceResp).price, minUsd, gql)
    ensures var price := StalePrice(cache, now, stamp, priceResp).price;
            price == 0.0 || gql.GqlRaised? || gql.status != 200 ==> r.txs == []
    ensures var price := StalePrice(cache, now, stamp, priceResp).price;
            forall t | t in r.txs ::
              && t.network == network
              && t.amountNative != 0.0
              && t.amountUsd == t.amountNative * price >= minUsd
    ensures r.txs != [] ==> gql.GqlResponse?
    ensures gql.GqlResponse? ==>
              forall t | t in r.txs ::
                exists j :: (&& 0 <= j < |gql.records|
                             && gql.records[j].id == Some(t.txHash)
                             && InValue(gql.records[j]).Some?
                             && t.amountNative == HexToDecimal(InValue(gql.records[j]).value))
  {
    var lookup := StalePrice(cache, now, stamp, priceResp);
    var txs := LatestFromResponse(network, lookup.price, minUsd, gql);
    if gql.GqlRaised? then Polled(txs, lookup.cache)
    else
      AlertsComeFromRecords(network, lookup.price, minUsd, gql.records);
      Polled(txs, lookup.cache)
  }

  /** A dashboard entry for `d` worth `amount` tokens, unless the amount is
      zero or `id` or `now` is missing (a swallowed `KeyError`). */
  function DashboardEntry(network: string, price: real, d: Decoded, amount: real, sender: string, receiver: string)
    : (r: Option<Transaction>)
    ensures r.Some? <==> amount != 0.0 && d.raw.id.Some? && d.raw.now.Some?
    ensures r.Some? ==> r.value == Transaction(network, d.raw.id.value, amount * price, sender, receiver, d.raw.now.value, amount)
  {
    if amount == 0.0 || d.raw.id.None? || d.raw.now.None? then None
    else Some(Transaction(network, d.raw.id.value, amount * price, sender, receiver, d.raw.now.value, amount))
  }

  /** The dashboard path's handling of one record, window aside. A record
      without an inbound value falls back to its balance delta, which must be
      positive, with an unknown sender and the account as receiver; a record
      with an inbound value is kept unless its amount is zero. */
  function DashboardRecord(network: string, price: real, d: Decoded): (r: Option<Transaction>)
    ensures r.Some? ==>
      && r.value.network == network
      && r.value.amountNative != 0.0
      && r.value.amountUsd == r.value.amountNative * price
      && d.raw.id == Some(r.value.txHash) && d.raw.now == Some(r.value.timestamp)
    ensures r.Some? && d.inAmount.None? ==>
      && r.value.amountNative == d.deltaAmount > 0.0
      && r.value.sender == Unknown
      && r.value.receiver == d.raw.accountAddr.GetOr(Unknown)
    ensures r.Some? && d.inAmount.Some? && d.raw.inMessage.Some? ==>
      && r.value.amountNative == d.inAmount.value
      && r.value.sender == d.raw.inMessage.value.src.GetOr(Unknown)
      && r.value.receiver == d.raw.inMessage.value.dst.GetOr(Unknown)
    ensures (&& d.raw.id.Some? && d.raw.now.Some? && d.inAmount.None? && d.deltaAmount > 0.0) ==> r.Some?
    ensures (&& d.raw.id.Some? && d.raw.now.Some? && d.inAmount.Some? && d.raw.inMessage.Some?
             && d.inAmount.value != 0.0) ==> r.Some?
  {
    match d.inAmount
    case None =>
      if d.deltaAmount <= 0.0 then None
      else DashboardEntry(network, price, d, d.deltaAmount, Unknown, d.raw.accountAddr.GetOr(Unknown))
    case Some(amount) =>
      if d.raw.inMessage.None? then None
      else
        var msg := d.raw.inMessage.value;
        DashboardEntry(network, price, d, amount, msg.src.GetOr(Unknown), msg.dst.GetOr(Unknown))
  }

  /** The dashboard path's loop without a window or an early stop. */
  function DashboardScan(network: string, price: real, ds: seq<Decoded>): (r: seq<Transaction>)
    ensures |r| <= |ds|
    ensures forall t | t in r :: t.network == network && t.amountNative != 0.0 && t.amountUsd == t.amountNative * price
    decreases |ds|
  {
    if ds == [] then []
    else match DashboardRecord(network, price, ds[0])
      case Some(t) => [t] + DashboardScan(network, price, ds[1..])
      case None => DashboardScan(network, price, ds[1..])
  }

  /** Scanning two batches one after the other gives the two dashboards in
      order. */
  lemma {:induction false} DashboardScanAppend(network: string, price: real, a: seq<Decoded>, b: seq<Decoded>)
    ensures DashboardScan(network, price, a + b) == DashboardScan(network, price, a) + DashboardScan(network, price, b)
    decreases |a|
  {
    if a != [] {
      assert (a + b)[1..] == a[1..] + b;
      DashboardScanAppend(network, price, a[1..], b);
    } else {
      assert a + b == b;
    }
  }

  /** Every record that yields a dashboard entry is listed, between the
      entries of the records before it and those after it. */
  lemma EligibleRecordShown(network: string, price: real, ds: seq<Decoded>, i: nat)
    requires i < |ds| && DashboardRecord(network, price, ds[i]).Some?
    ensures DashboardScan(network, price, ds)
         == DashboardScan(network, price, ds[..i])
            + [DashboardRecord(network, price, ds[i]).value]
            + DashboardScan(network, price, ds[i + 1..])
  {
    assert ds == ds[..i] + [ds[i]] + ds[i + 1..];
    DashboardScanAppend(network, price, ds[..i] + [ds[i]], ds[i + 1..]);
    DashboardScanAppend(network, price, ds[..i], [ds[i]]);
    assert [ds[i]][1..] == [];
  }

  /** Every dashboard entry is the entry of one of the scanned records. */
  lemma {:induction false} DashboardScanProvenance(network: string, price: real, ds: seq<Decoded>)
    ensures forall t | t in DashboardScan(network, price, ds) ::
              exists j :: 0 <= j < |ds| && DashboardRecord(network, price, ds[j]) == Some(t)
    decreases |ds|
  {
    if ds != [] {
      DashboardScanProvenance(network, price, ds[1..]);
      forall t | t in DashboardScan(network, price, ds)
        ensures exists j :: 0 <= j < |ds| && DashboardRecord(network, price, ds[j]) == Some(t)
      {
        if t in DashboardScan(network, price, ds[1..]) {
          var j :| 0 <= j < |ds[1..]| && DashboardRecord(network, price, ds[1..][j]) == Some(t);
          assert ds[1..][j] == ds[j + 1];
        } else {
          assert DashboardRecord(network, price, ds[0]) == Some(t);
        }
      }
    }
  }

  /** Traced back to the raw records: an entry for a record without an inbound
      value is its positive balance delta, from an unknown sender to the
      account; any other entry is the converted inbound value between the
      message's endpoints. */
  lemma DashboardEntriesComeFromRecords(network: string, price: real, records: seq<RawTx>)
    ensures forall t | t in DashboardScan(network, price, DecodeAll(records)) ::
              exists j :: (&& 0 <= j < |records|
                           && records[j].id == Some(t.txHash)
                           && records[j].now == Some(t.timestamp)
                           && (InValue(records[j]).None? ==>
                                 && t.amountNative == HexToDecimal(records[j].balanceDelta.GetOr("0x0")) > 0.0
                                 && t.sender == Unknown
                                 && t.receiver == records[j].accountAddr.GetOr(Unknown))
                           && (InValue(records[j]).Some? ==>
                                 && t.amountNative == HexToDecimal(InValue(records[j]).value)
                                 && t.sender == records[j].inMessage.value.src.GetOr(Unknown)
                                 && t.receiver == records[j].inMessage.value.dst.GetOr(Unknown)))
  {
    var ds := DecodeAll(records);
    DashboardScanProvenance(network, price, ds);
    forall t | t in DashboardScan(network, price, ds)
      ensures exists j :: (&& 0 <= j < |records|
                           && records[j].id == Some(t.txHash)
                           && records[j].now == Some(t.timestamp)
                           && (InValue(records[j]).None? ==>
                                 && t.amountNative == HexToDecimal(records[j].balanceDelta.GetOr("0x0")) > 0.0
                                 && t.sender == Unknown
                                 && t.receiver == records[j].accountAddr.GetOr(Unknown))
                           && (InValue(records[j]).Some? ==>
                                 && t.amountNative == HexToDecimal(InValue(records[j]).value)
                                 && t.sender == records[j].inMessage.value.src.GetOr(Unknown)
                                 && t.receiver == records[j].inMessage.value.dst.GetOr(Unknown)))
    {
      var j :| 0 <= j < |ds| && DashboardRecord(network, price, ds[j]) == Some(t);
      assert ds[j] == Decode(records[j]);
    }
  }

  /** The record reports a `now` no earlier than `minTime`; a record without
      `now` raises on the comparison and is skipped. */
  predicate InWindow(d: Decoded, minTime: int) {
    d.raw.now.Some? && d.raw.now.value >= minTime
  }

  /** The records inside the window, in order. */
  function WindowRecords(ds: seq<Decoded>, minTime: int): (r: seq<Decoded>)
    ensures forall d | d in r :: InWindow(d, minTime)
    ensures |r| <= |ds|
    decreases |ds|
  {
    if ds == [] then []
    else if InWindow(ds[0], minTime) then [ds[0]] + WindowRecords(ds[1..], minTime)
    else WindowRecords(ds[1..], minTime)
  }

  /** The window keeps exactly the in-window records: in their order, each
      as often as it occurs, and no other. */
  lemma {:induction false} WindowRecordsExact(ds: seq<Decoded>, minTime: int)
    ensures IsSubsequence(WindowRecords(ds, minTime), ds)
    ensures forall d :: multiset(WindowRecords(ds, minTime))[d] == if InWindow(d, minTime) then multiset(ds)[d] else 0
    decreases |ds|
  {
    if ds != [] {
      var rest := WindowRecords(ds[1..], minTime);
      WindowRecordsExact(ds[1..], minTime);
      assert ds == [ds[0]] + ds[1..];
      if InWindow(ds[0], minTime) {
        assert ([ds[0]] + rest)[1..] == rest;
      }
    }
  }

  /** The windowed dashboard loop that stops as soon as `limit` transactions
      were collected (the check runs before each record). */
  function WindowedScan(network: string, price: real, minTime: int, limit: int, ds: seq<Decoded>): (r: seq<Transaction>)
    ensures |r| <= Max(limit, 0)
    ensures forall t | t in r :: t.timestamp >= minTime
    decreases |ds|
  {
    if ds == [] || limit <= 0 then []
    else
      var found := if InWindow(ds[0], minTime) then DashboardRecord(network, price, ds[0]) else None;
      match found
      case Some(t) => [t] + WindowedScan(network, price, minTime, limit - 1, ds[1..])
      case None => WindowedScan(network, price, minTime, limit, ds[1..])
  }

  /** Stopping early is the same as scanning every in-window record and keeping
      the first `limit` results. */
  lemma {:induction false} WindowedScanIsPrefix(network: string, price: real, minTime: int, limit: int, ds: seq<Decoded>)
    ensures WindowedScan(network, price, minTime, limit, ds)
         == PyPrefix(DashboardScan(network, price, WindowRecords(ds, minTime)), Max(limit, 0))
    decreases |ds|
  {
    if ds == [] {
      assert WindowRecords(ds, minTime) == [];
    } else if limit > 0 {
      WindowedScanIsPrefix(network, price, minTime, limit, ds[1..]);
      WindowedScanIsPrefix(network, price, minTime, limit - 1, ds[1..]);
      var rest := WindowRecords(ds[1..], minTime);
      if InWindow(ds[0], minTime) {
        assert WindowRecords(ds, minTime) == [ds[0]] + rest;
        assert ([ds[0]] + rest)[1..] == rest;
      } else {
        assert WindowRecords(ds, minTime) == rest;
      }
    }
  }
}
