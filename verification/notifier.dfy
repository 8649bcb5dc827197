/** The display side of the Telegram notifier: shortening of addresses and
    hashes, the network-to-symbol table, the alert call that never fails, and
    the per-network sections of the dashboard. Message formatting (number
    layout, dates, HTML, explorer links) is not modelled. */
module Notifier {
  import opened Seqs
  import opened BaseMonitor
  import Ton
  import Everscale
  import Venom
  import Humanode

  /** Strings up to this length are shown unchanged. */
  const ShortLength: nat := 16

  const Ellipsis := "..."

  /** The first and last `keep` characters around an ellipsis, for strings
      longer than `ShortLength`. */
  function Shorten(s: string, keep: nat): (r: string)
    requires keep <= ShortLength
    ensures |s| <= ShortLength ==> r == s
    ensures |s| > ShortLength ==>
      && |r| == 2 * keep + |Ellipsis|
      && r[..keep] == s[..keep]
      && r[keep..keep + |Ellipsis|] == Ellipsis
      && r[keep + |Ellipsis|..] == s[|s| - keep..]
  {
    if |s| > ShortLength then s[..keep] + Ellipsis + s[|s| - keep..] else s
  }

  /** `_shorten_address`: 8 characters on each side. */
  function ShortenAddress(address: string): (r: string)
    ensures |address| <= ShortLength ==> r == address
    ensures |address| > ShortLength ==> |r| == 19 && r == address[..8] + "..." + address[|address| - 8..]
  {
    Shorten(address, 8)
  }

  /** `_shorten_hash`: 12 characters on each side. */
  function ShortenHash(txHash: string): (r: string)
    ensures |txHash| <= ShortLength ==> r == txHash
    ensures |txHash| > ShortLength ==> |r| == 27 && r == txHash[..12] + "..." + txHash[|txHash| - 12..]
  {
    Shorten(txHash, 12)
  }

  /** Shortening a shortened string changes nothing, as long as the result is
      itself too long to be left alone. */
  lemma ShortenIdempotent(s: string, keep: nat)
    requires keep <= ShortLength && 2 * keep + |Ellipsis| > ShortLength
    ensures Shorten(Shorten(s, keep), keep) == Shorten(s, keep)
  {
    var r := Shorten(s, keep);
    if |s| > ShortLength {
      assert r[..keep] == s[..keep];
      assert r[|r| - keep..] == s[|s| - keep..];
    }
  }

  lemma ShortenAddressIdempotent(address: string)
    ensures ShortenAddress(ShortenAddress(address)) == ShortenAddress(address)
  {
    ShortenIdempotent(address, 8);
  }

  lemma ShortenHashIdempotent(txHash: string)
    ensures ShortenHash(ShortenHash(txHash)) == ShortenHash(txHash)
  {
    ShortenIdempotent(txHash, 12);
  }

  /** Only just over the limit, "shortening" makes a string longer: 17 and 18
      character addresses come out with 19, hashes of 17 to 26 with 27. */
  lemma ShorteningCanLengthen(address: string, txHash: string)
    requires ShortLength < |address| < 19 && ShortLength < |txHash| < 27
    ensures |ShortenAddress(address)| > |address|
    ensures |ShortenHash(txHash)| > |txHash|
  {
  }

  /** `_get_token_symbol`. */
  function TokenSymbol(network: string): (r: string)
    ensures network == "TON" ==> r == "TON"
    ensures network == "Everscale" ==> r == "EVER"
    ensures network == "Venom" ==> r == "VENOM"
    ensures network !in {"TON", "Everscale", "Venom"} ==> r == "TOKEN"
  {
    if network == "TON" then "TON"
    else if network == "Everscale" then "EVER"
    else if network == "Venom" then "VENOM"
    else "TOKEN"
  }

  /** The symbols the monitors' network names get; Humanode's name is not in
      the table, so its amounts are labelled with the generic symbol. */
  lemma MonitorSymbols()
    ensures TokenSymbol(Ton.Network) == "TON"
    ensures TokenSymbol(Everscale.Network) == "EVER"
    ensures TokenSymbol(Venom.Network) == "VENOM"
    ensures TokenSymbol(Humanode.Network) == "TOKEN"
  {
    assert Humanode.Network != "TON" && Humanode.Network != "Everscale" && Humanode.Network != "Venom" by {
      assert Humanode.Network[0] == 'H';
    }
  }

  /** The outcome of `send_transaction_alert`: sent or logged as failed;
      either way the call returns normally. */
  datatype Delivery = Delivered(tx: Transaction) | DeliveryFailed(tx: Transaction)

  /** `send_transaction_alert` against a chat that accepts or rejects the
      message (`accepts` stands for the Telegram call succeeding). */
  function SendAlert(tx: Transaction, accepts: Transaction -> bool): (d: Delivery)
    ensures d.tx == tx
    ensures d.Delivered? <==> accepts(tx)
  {
    if accepts(tx) then Delivered(tx) else DeliveryFailed(tx)
  }

  /** Transactions listed per network on the dashboard. */
  const DashboardCap: nat := 5

  /** One dashboard line: the transaction's hash (for its link), its native
      amount and the network's symbol. */
  datatype DashboardLine = DashboardLine(txHash: string, amountNative: real, symbol: string)

  datatype DashboardSection =
    | NoRecent(network: string)
    | Recent(network: string, lines: seq<DashboardLine>)

  /** One network's part of `send_dashboard`. */
  function Section(network: string, txs: seq<Transaction>): (s: DashboardSection)
    ensures s.network == network
    ensures s.NoRecent? <==> txs == []
    ensures s.Recent? ==>
      && |s.lines| == Min(DashboardCap, |txs|)
      && forall i | 0 <= i < |s.lines| ::
           s.lines[i] == DashboardLine(txs[i].txHash, txs[i].amountNative, TokenSymbol(network))
  {
    if txs == [] then NoRecent(network)
    else
      var shown := PyPrefix(txs, DashboardCap);
      Recent(network, seq(|shown|, i requires 0 <= i < |shown| =>
                            DashboardLine(shown[i].txHash, shown[i].amountNative, TokenSymbol(network))))
  }

  /** Transactions after the fifth are never shown. */
  lemma SectionIgnoresTail(network: string, txs: seq<Transaction>, more: seq<Transaction>)
    requires |txs| >= DashboardCap
    ensures Section(network, txs + more) == Section(network, txs)
  {
    var a := Section(network, txs + more);
    var b := Section(network, txs);
    assert |a.lines| == |b.lines|;
    forall i | 0 <= i < |a.lines|
      ensures a.lines[i] == b.lines[i]
    {
      assert (txs + more)[i] == txs[i];
    }
  }

  /** `send_dashboard`'s message body: one section per network, in the order
      given. */
  function RenderDashboard(networks: seq<(string, seq<Transaction>)>): (r: seq<DashboardSection>)
    ensures |r| == |networks|
    ensures forall i | 0 <= i < |r| ::
      && r[i].network == networks[i].0
      && (r[i].NoRecent? <==> networks[i].1 == [])
      && (r[i].Recent? ==> 0 < |r[i].lines| <= DashboardCap)
    ensures forall i | 0 <= i < |r| :: r[i] == Section(networks[i].0, networks[i].1)
  {
    seq(|networks|, i requires 0 <= i < |networks| => Section(networks[i].0, networks[i].1))
  }
}
