/** The orchestrator: construction of the bot from its configuration and one
    iteration of the polling loop. The loop's collaborators are inputs:
    whether monitoring is enabled, each monitor's current threshold, the
    batch its `get_latest_transactions` produced (or an exception), the
    dedup filter the loop calls, and whether the chat accepts each alert. */
module MonitorBot {
  import opened Outcomes
  import opened Seqs
  import opened BaseMonitor
  import opened Notifier
  import Ton
  import Everscale
  import Venom

  /** The two settings the bot cannot start without; `None` when unset. */
  datatype Config = Config(botToken: Option<string>, chatId: Option<string>)

  /** Why construction fails: the credentials check, or a constructor call
      that Python rejects (`TypeError` for an unexpected keyword argument). */
  datatype ConfigError = MissingCredentials | UnexpectedKeyword(name: string)

  /** A constructed bot: the notifier's credentials and the monitored networks,
      in polling order. */
  datatype Bot = Bot(botToken: string, chatId: string, monitors: seq<string>)

  /** A setting counts as set when present and non-empty. */
  predicate IsSet(value: Option<string>) {
    value.Some? && value.value != ""
  }

  /** `TransactionMonitorBot.__init__` with the monitors created as intended,
      with a zero USD threshold: the polling loop applies the real thresholds. */
  function NewBot(config: Config): (r: Result<Bot, ConfigError>)
    ensures r.Success? <==> IsSet(config.botToken) && IsSet(config.chatId)
    ensures r.Failure? ==> r.error == MissingCredentials
    ensures r.Success? ==>
      && r.value.botToken == config.botToken.value
      && r.value.chatId == config.chatId.value
      && r.value.monitors == [Ton.Network, Everscale.Network, Venom.Network]
  {
    if !IsSet(config.botToken) || !IsSet(config.chatId) then Failure(MissingCredentials)
    else Success(Bot(config.botToken.value, config.chatId.value, [Ton.Network, Everscale.Network, Venom.Network]))
  }

  /** `__init__` as written: after the credentials check it creates the
      monitors with the keyword `min_tokens`, but their constructors take
      `min_usd`, so the call raises before a bot exists. */
  function NewBotAsWritten(config: Config): (r: Result<Bot, ConfigError>)
    ensures r.Failure?
    ensures r.error == MissingCredentials <==> !(IsSet(config.botToken) && IsSet(config.chatId))
  {
    if !IsSet(config.botToken) || !IsSet(config.chatId) then Failure(MissingCredentials)
    else Failure(UnexpectedKeyword("min_tokens"))
  }

  /** With complete credentials the written constructor still fails, where the
      intended one (`NewBot`, monitors created with `min_usd=0`) succeeds. */
  lemma AsWrittenNeverStarts(config: Config)
    requires IsSet(config.botToken) && IsSet(config.chatId)
    ensures NewBotAsWritten(config) == Failure(UnexpectedKeyword("min_tokens"))
    ensures NewBot(config).Success?
  {
  }

  /** The transactions whose native amount reaches `threshold`, in order. */
  function ThresholdFilter(txs: seq<Transaction>, threshold: real): (r: seq<Transaction>)
    ensures IsSubsequence(r, txs)
    ensures forall t :: t in r <==> t in txs && t.amountNative >= threshold
    ensures forall t :: multiset(r)[t] == if t.amountNative >= threshold then multiset(txs)[t] else 0
    decreases |txs|
  {
    if txs == [] then []
    else
      var rest := ThresholdFilter(txs[1..], threshold);
      assert txs == [txs[0]] + txs[1..];
      if txs[0].amountNative >= threshold then [txs[0]] + rest else rest
  }

  /** What the loop knows about one monitor in this iteration. */
  datatype MonitorInput = MonitorInput(network: string, threshold: real, fetched: Fetch<seq<Transaction>>)

  /** One monitor's share of the iteration: the batch handed to the dedup
      filter and the alerts sent, or an exception caught and logged. */
  datatype MonitorOutcome =
    | Reported(network: string, passed: seq<Transaction>, deliveries: seq<Delivery>)
    | Errored(network: string)

  /** Sending one alert per new transaction, one after the other. */
  function DispatchAlerts(txs: seq<Transaction>, accepts: Transaction -> bool): (r: seq<Delivery>)
    ensures |r| == |txs|
    ensures forall i | 0 <= i < |txs| :: r[i].tx == txs[i] && (r[i].Delivered? <==> accepts(txs[i]))
  {
    seq(|txs|, i requires 0 <= i < |txs| => SendAlert(txs[i], accepts))
  }

  /** The `try` body for one monitor. */
  function PollMonitor(m: MonitorInput, filterNew: (string, seq<Transaction>) -> Fetch<seq<Transaction>>,
                       accepts: Transaction -> bool): (o: MonitorOutcome)
    ensures o.network == m.network
    ensures m.fetched.Raised? ==> o.Errored?
    ensures o.Reported? ==>
      && m.fetched.Fetched?
      && o.passed == ThresholdFilter(m.fetched.value, m.threshold)
      && filterNew(m.network, o.passed).Fetched?
      && |o.deliveries| == |filterNew(m.network, o.passed).value|
      && forall i | 0 <= i < |o.deliveries| :: o.deliveries[i].tx == filterNew(m.network, o.passed).value[i]
    ensures m.fetched.Fetched? && filterNew(m.network, ThresholdFilter(m.fetched.value, m.threshold)).Fetched?
            ==> o.Reported?
  {
    match m.fetched
    case Raised => Errored(m.network)
    case Fetched(txs) =>
      var passed := ThresholdFilter(txs, m.threshold);
      match filterNew(m.network, passed)
      case Raised => Errored(m.network)
      case Fetched(newTxs) => Reported(m.network, passed, DispatchAlerts(newTxs, accepts))
  }

  /** One iteration of `monitor_loop`: nothing at all when monitoring is
      disabled, otherwise every monitor in order, each on its own. */
  function RunCycle(enabled: bool, monitors: seq<MonitorInput>,
                    filterNew: (string, seq<Transaction>) -> Fetch<seq<Transaction>>,
                    accepts: Transaction -> bool): (r: seq<MonitorOutcome>)
    ensures !enabled ==> r == []
    ensures enabled ==> |r| == |monitors|
    ensures enabled ==> forall i | 0 <= i < |r| :: r[i].network == monitors[i].network
    ensures enabled ==> forall i | 0 <= i < |r| :: r[i] == PollMonitor(monitors[i], filterNew, accepts)
  {
    if !enabled then []
    else seq(|monitors|, i requires 0 <= i < |monitors| => PollMonitor(monitors[i], filterNew, accepts))
  }

  /** An exception in one monitor changes nothing for the others: replacing
      the `i`-th input by one that raises leaves every other outcome as it was. */
  lemma FailureIsIsolated(monitors: seq<MonitorInput>, i: nat,
                          filterNew: (string, seq<Transaction>) -> Fetch<seq<Transaction>>,
                          accepts: Transaction -> bool)
    requires i < |monitors|
    ensures var failing := monitors[i := monitors[i].(fetched := Raised)];
            var before := RunCycle(true, monitors, filterNew, accepts);
            var after := RunCycle(true, failing, filterNew, accepts);
            && after[i] == Errored(monitors[i].network)
            && forall k | 0 <= k < |monitors| && k != i :: after[k] == before[k]
  {
    var failing := monitors[i := monitors[i].(fetched := Raised)];
    var after := RunCycle(true, failing, filterNew, accepts);
    assert after[i] == PollMonitor(failing[i], filterNew, accepts);
  }

  /** With a dedup filter that only drops transactions (as
      `BaseMonitor.DedupFilter` does), every alert sent is for a transaction
      whose native amount reaches its monitor's threshold. */
  lemma AlertsClearThreshold(enabled: bool, monitors: seq<MonitorInput>,
                             filterNew: (string, seq<Transaction>) -> Fetch<seq<Transaction>>,
                             accepts: Transaction -> bool)
    requires forall n, s :: filterNew(n, s).Fetched? ==> IsSubsequence(filterNew(n, s).value, s)
    ensures var r := RunCycle(enabled, monitors, filterNew, accepts);
            forall k, d | 0 <= k < |r| && r[k].Reported? && d in r[k].deliveries ::
              d.tx in monitors[k].fetched.value && d.tx.amountNative >= monitors[k].threshold
  {
    var r := RunCycle(enabled, monitors, filterNew, accepts);
    forall k, d | 0 <= k < |r| && r[k].Reported? && d in r[k].deliveries
      ensures d.tx in monitors[k].fetched.value && d.tx.amountNative >= monitors[k].threshold
    {
      var o := r[k];
      assert o == PollMonitor(monitors[k], filterNew, accepts);
      var newTxs := filterNew(monitors[k].network, o.passed).value;
      SubsequenceMembers(newTxs, o.passed);
      var i :| 0 <= i < |o.deliveries| && o.deliveries[i] == d;
      assert d.tx == newTxs[i];
    }
  }

  /** Every alert of the iteration, in the order they are sent: the first
      monitor's alerts, then the next monitor's, and so on. */
  function CycleDeliveries(outcomes: seq<MonitorOutcome>): (r: seq<Delivery>)
    ensures forall d | d in r :: exists k :: 0 <= k < |outcomes| && outcomes[k].Reported? && d in outcomes[k].deliveries
    ensures forall k | 0 <= k < |outcomes| && outcomes[k].Reported? :: forall d | d in outcomes[k].deliveries :: d in r
    decreases |outcomes|
  {
    if outcomes == [] then []
    else
      var own := if outcomes[0].Reported? then outcomes[0].deliveries else [];
      var rest := CycleDeliveries(outcomes[1..]);
      assert forall k | 1 <= k < |outcomes| :: outcomes[k] == outcomes[1..][k - 1];
      own + rest
  }

  /** The alerts of two stretches of monitors are those of the first stretch
      followed by those of the second. */
  lemma {:induction false} CycleDeliveriesAppend(a: seq<MonitorOutcome>, b: seq<MonitorOutcome>)
    ensures CycleDeliveries(a + b) == CycleDeliveries(a) + CycleDeliveries(b)
    decreases |a|
  {
    if a == [] {
      assert a + b == b;
    } else {
      assert (a + b)[1..] == a[1..] + b;
      CycleDeliveriesAppend(a[1..], b);
    }
  }
}
