# Multi-network transaction monitor — a Dafny model of its decision logic

The bot polls three blockchains: TON, Everscale and Venom (main.py:45-49). A
Humanode monitor exists as well and is modelled, but main.py never creates
one. Each monitor converts each network's raw transaction records into normalised
`Transaction`s worth at least a USD threshold. It drops hashes it has already
reported and sends one Telegram alert per new transaction. A dashboard shows
the latest few transactions per network.

This project models the sequential logic of that system as pure Dafny
functions over input values. Each HTTP answer becomes an input datatype:
- the price service's answer;
- the GraphQL record list;
- the Subscan transfer list;
- whether Telegram accepted a message.

The clock is an input: `now` is the reading for the cache's freshness test,
and `stamp` is the later reading taken when a price is stored after the
request. Each monitor's price cache is state passed in and returned.

Modules, one per source file plus shared helpers:

| module | file | models |
|---|---|---|
| `Outcomes` | outcomes.dfy | `Option`, `Result`, `Fetch` (a value or a raised exception) |
| `Seqs` | seqs.dfy | subsequence, Python's `s[:k]` |
| `PriceCache` | price_cache.dfy | the `{price, timestamp}` cache with a 300 s TTL and its two failure policies |
| `BaseMonitor` | base_monitor.dfy | `Transaction`, `is_duplicate` with its 1000-hash store, `fetch_and_filter` |
| `HexAmount` | hex_amount.dfy | `_hex_to_decimal`: hex nano-units to tokens |
| `GraphQl` | graphql.dfy | the record handling that the Everscale and Venom monitors share |
| `Everscale`, `Venom`, `Humanode`, `Ton` | everscale.dfy, venom.dfy, humanode.dfy, ton.dfy | what is specific to each monitor; Everscale and Venom share `PriceCache.StalePrice` and `GraphQl.LatestTransactions` with the network name as a parameter |
| `Notifier` | notifier.dfy | shortening, token symbols, alert delivery, dashboard sections |
| `MonitorBot` | monitor_bot.dfy | construction and one iteration of `monitor_loop` |

How each mechanism is modelled:
- **Truncation of the seen-hash store.** The code keeps `set(list(s)[-1000:])`, and a Python set has no specified order. So the truncation is nondeterministic:
  - `BaseMonitor.DedupStep` describes every admissible outcome;
  - `BaseMonitor.IsDuplicate` is a method that evicts arbitrary hashes.
- **Per-record hex conversion.** It is a separate pure step, `GraphQl.Decode`, and the record loops consume its result. The code converts inside the loop, but the conversion has no effect that the model keeps (its `logger.debug` on failure is left out with the rest of logging), so the order does not matter. `Decode` also converts `balance_delta` for records with an inbound value, which the code never does; nothing reads that value for such records.

## Model

| member | source | states |
|---|---|---|
| `PriceCache.CurrentPrice` | monitors/everscale_monitor.py:17-39 | The service is contacted exactly when the cached entry is 300 s old or older at the freshness test's clock reading `now`; otherwise the cached price is returned and nothing changes. A 200 answer with a positive price stores `(price, stamp)`, where `stamp` is the clock read again after the request. A failure keeps the cache under the stale policy, or seeds `(fallback, stamp)` into an empty cache under the fallback policy. The returned price is always the cache's price afterwards |
| `PriceCache.StalePrice` | monitors/ton_monitor.py:17-39 | The TON, Everscale and Venom lookup. A fetch happens exactly when the cache has expired at `now`. A failure of any kind returns the cached price, possibly 0, and keeps the cache. A success returns the price and stores `(price, stamp)`, stamped with the clock read after the request |
| `PriceCache.ValidPreserved` | monitors/everscale_monitor.py:28-39 | A cache holding a non-negative price keeps one, and the returned price is non-negative, under either policy with a positive fallback |
| `PriceCache.NoRefetchWithinTtl` | monitors/ton_monitor.py:19-20 | After a call that stored a price stamped `s1`, every call whose freshness test reads a time before `s1 + 300` is a cache hit with the same price and no fetch |
| `PriceCache.StaleFailureRetries` | monitors/venom_monitor.py:35-39 | A failed refresh under the stale policy leaves the cache as it was, so the next call fetches again |
| `PriceCache.FallbackPricePositive` | monitors/humanode_monitor.py:38-51 | With a positive fallback, every call that reaches the service returns a positive price, whatever the service answers |
| `PriceCache.ColdStaleFailureIsZero` | monitors/everscale_monitor.py:15-39 | A failed refresh of the initial `{0, 0}` cache returns price 0 and leaves the cache at `{0, 0}` |
| `BaseMonitor.DedupStep` | monitors/base_monitor.py:43-53 | Every admissible outcome of one `is_duplicate` call: the answer is membership; a duplicate leaves the set alone; a new hash is added, and when that exceeds 1000 hashes any 1000-element subset of the grown set may remain, since `set(list(s)[-1000:])` depends on unspecified set order |
| `BaseMonitor.IsDuplicate` | monitors/base_monitor.py:43-53 | The answer is true exactly when the hash was already seen, and then the set is unchanged. Otherwise the hash is added. If that exceeds 1000 hashes, the result is some 1000-element subset of the old set plus the hash |
| `BaseMonitor.DedupBounded` | monitors/base_monitor.py:47-51 | A step only keeps hashes it held or was given, and a store of at most 1000 hashes stays at most 1000 |
| `BaseMonitor.DedupGrowsByOne` | monitors/base_monitor.py:47-53 | Below 1000 hashes, a new hash becomes a member and the size grows by exactly one |
| `BaseMonitor.SameHashTwice` | tests/test_monitors.py:35-46 | The same hash twice gives "new" then "duplicate", and a different unseen hash gives "new" |
| `BaseMonitor.FullStoreMayForgetNewHash` | monitors/base_monitor.py:49-51 | With exactly 1000 hashes stored, one admissible truncation drops the hash just added. The store is then unchanged and that hash is new again next time |
| `BaseMonitor.FirstSightingsAreNew` | monitors/base_monitor.py:58-60 | The eviction-free reference filter never reports a hash already seen, and never reports the same hash twice |
| `BaseMonitor.DedupFilter` | monitors/base_monitor.py:58-60 | The filtered batch is exactly the transactions whose `is_duplicate` answered false, in batch order. It is a subsequence of the batch and the store stays bounded. When everything fits in 1000 hashes, the result equals the eviction-free reference and the store gains exactly the batch's hashes |
| `BaseMonitor.FetchAndFilter` | monitors/base_monitor.py:55-66 | A fetch that raised yields `[]` and leaves the store untouched. Otherwise the result is the order-preserving duplicate filter of the batch |
| `BaseMonitor.DefaultRecentAnyAmount` | monitors/base_monitor.py:68-74 | The default dashboard query returns no transactions for any limit |
| `HexAmount.ParseHex` | monitors/everscale_monitor.py:46 | The grammar taken for `int(s, 16)`: optional sign, optional `0x`/`0X`, then one or more hex digits; the empty string raises. Its properties are in `HexAmount.ParseHexForms`, `HexAmount.HexToDecimalScale` and `HexAmount.ParseToHexRoundTrip` |
| `HexAmount.ParseHexForms` | monitors/everscale_monitor.py:46 | Bare digits and `0x`-prefixed digits parse to their value; without a leading `-` the value is never negative; a string that does not end in a hex digit raises |
| `HexAmount.HexToDecimal` | monitors/everscale_monitor.py:41-50 | The empty string, `"0x0"` and any string `int(s, 16)` rejects convert to 0 |
| `HexAmount.ZeroLiteralParses` | monitors/everscale_monitor.py:43-44 | The short-cut for `"0x0"` agrees with parsing it, which gives 0 |
| `HexAmount.HexToDecimalScale` | monitors/everscale_monitor.py:45-47 | For every parsable string the result times 10^9 is exactly the parsed integer |
| `HexAmount.HexToDecimalZeroIff` | monitors/venom_monitor.py:41-50 | The result is 0 exactly when the string does not parse or denotes 0. It is positive exactly when the parsed count is positive |
| `HexAmount.DigitsValueToHex` | monitors/everscale_monitor.py:46 | Reading back the lower-case hex digits of `n` gives `n` |
| `HexAmount.ParseToHexRoundTrip` | monitors/everscale_monitor.py:45-47 | `"0x"` followed by the hex digits of `n` parses to `n` and converts to `n / 10^9` |
| `GraphQl.InValue` | monitors/everscale_monitor.py:95-97 | A record has an inbound value exactly when `in_message` is present and its `value` is a non-empty string |
| `GraphQl.Decode` | monitors/everscale_monitor.py:180-191 | A record's inbound amount exists exactly when it has an inbound value, and is that value converted. Its balance-delta amount is `balance_delta` converted, with `"0x0"` when absent |
| `GraphQl.AlertRecord` | monitors/everscale_monitor.py:95-119 | A record is reported only if its inbound amount is non-zero and its USD value `amount * price` reaches `min_usd` (inclusive). The report carries the record's `id` and `now`, and `src`/`dst` with 'Unknown' defaults. Conversely, every such record with `id` and `now` is reported |
| `GraphQl.AlertScan` | monitors/everscale_monitor.py:93-119 | The alert loop reports at most one transaction per record. Each one has a non-zero native amount and `amount_usd = amount_native * price >= min_usd` |
| `GraphQl.AlertScanAppend` | monitors/everscale_monitor.py:93-119 | Scanning a concatenation gives the two scans concatenated, so the output keeps the records' order |
| `GraphQl.SkippedRecordIsInvisible` | monitors/everscale_monitor.py:117-119 | A record that is skipped or raises leaves the output for all other records exactly as it would be without it |
| `GraphQl.QualifyingRecordReported` | monitors/everscale_monitor.py:104-115 | A qualifying record's report appears between the reports for the records before it and those after it |
| `GraphQl.AlertScanProvenance` | monitors/venom_monitor.py:93-119 | Every reported transaction is the report of one of the scanned records |
| `GraphQl.AlertsComeFromRecords` | monitors/everscale_monitor.py:95-115 | Every report carries the `id` of a raw record that has an inbound value. Its native amount is that value converted by `_hex_to_decimal` |
| `GraphQl.LatestFromResponse` | monitors/venom_monitor.py:56-91 | Price 0, a raised request or a status other than 200 gives `[]`. Otherwise the result is the alert scan of the returned records |
| `GraphQl.DashboardEntry` | monitors/everscale_monitor.py:193-206 | A dashboard entry exists exactly when the amount is non-zero and the record has `id` and `now`. It values the amount at `amount * price` |
| `GraphQl.DashboardRecord` | monitors/everscale_monitor.py:180-206 | Without an inbound value, the entry is the balance delta, which must be positive, from 'Unknown' to `account_addr`. With one, the entry is the converted value between `src` and `dst`. Conversely, every such record with `id` and `now` gives an entry |
| `GraphQl.DashboardScan` | monitors/venom_monitor.py:166-197 | The dashboard loop gives at most one entry per record, each non-zero and valued at `amount_native * price`. Completeness is `GraphQl.EligibleRecordShown` |
| `GraphQl.DashboardScanAppend` | monitors/venom_monitor.py:166-197 | Scanning a concatenation gives the two dashboards concatenated, so entries keep the records' order |
| `GraphQl.EligibleRecordShown` | monitors/venom_monitor.py:168-197 | Every record that yields a dashboard entry is listed, between the entries of the records before it and those after it |
| `GraphQl.DashboardScanProvenance` | monitors/venom_monitor.py:166-197 | Every dashboard entry is the entry of one of the scanned records |
| `GraphQl.DashboardEntriesComeFromRecords` | monitors/venom_monitor.py:168-194 | Each entry traces to a raw record with the same `id` and `now`. It is either that record's positive balance delta from 'Unknown', or its converted inbound value between the message's endpoints |
| `GraphQl.WindowRecords` | monitors/everscale_monitor.py:176-178 | Only records whose `now` is present and at least `min_time` pass the window, and no more records come out than went in. Exactness is `GraphQl.WindowRecordsExact` |
| `GraphQl.WindowRecordsExact` | monitors/everscale_monitor.py:170-178 | The window keeps the records in order, and each in-window record exactly as often as it occurs in the answer, and no record outside the window |
| `GraphQl.WindowedScan` | monitors/everscale_monitor.py:170-209 | The early-stopping windowed loop returns at most `limit` entries (none for `limit <= 0`), all with `timestamp >= min_time` |
| `GraphQl.WindowedScanIsPrefix` | monitors/everscale_monitor.py:172-174 | Stopping once `limit` entries are collected equals scanning every in-window record and keeping the first `limit` entries |
| `GraphQl.LatestTransactions` | monitors/everscale_monitor.py:52-125 | The Everscale and Venom alert path. The transactions are the response dispatch `LatestFromResponse` at the looked-up price: price 0, a raised request or a status other than 200 gives none, otherwise the alert scan of the records. Each transaction carries the monitor's network name, is non-zero, and has `amount_usd = amount_native * price >= min_usd`. Each comes from a record with that `id` and a non-empty inbound value, converted. The price cache after the call is the lookup's |
| `Everscale.TruncToInt` | monitors/everscale_monitor.py:135 | `int(time.time())` truncates toward zero |
| `Everscale.RecentAnyAmount` | monitors/everscale_monitor.py:127-214 | There are at most `max(limit, 0)` entries, all 'Everscale' with `timestamp >= int(t) - 300` for the clock reading `t` taken after the price lookup, and none when price is 0 or the request fails. Otherwise the result is the first `limit` entries of the full scan of the in-window records. The cache is the lookup's |
| `Venom.RecentAnyAmount` | monitors/venom_monitor.py:127-202 | There is no window. The result is a prefix of the scan of all records, of length `min(limit, n)` for `limit >= 0` and `max(0, n + limit)` for a negative limit. It is empty when price is 0 or the request fails |
| `Venom.DashboardEntriesTraced` | monitors/venom_monitor.py:168-182 | Each dashboard entry names a record of the answer. Entries without an inbound value are positive balance deltas from 'Unknown' |
| `Humanode.CurrentPrice` | monitors/humanode_monitor.py:17-51 | A fetch happens exactly when the cache has expired at `now`. A success stores `(price, stamp)`. A failure with an empty cache stores `(0.05, stamp)`, and with a non-empty cache keeps it; `stamp` is the clock read after the request. Every fetch from a non-negative cache returns a positive price |
| `Humanode.RawAmount` | monitors/humanode_monitor.py:76 | `float(transfer.get('amount', 0))` reads a missing amount as 0 and a numeric amount as itself, and raises exactly for an unparsable one |
| `Humanode.TransferRecord` | monitors/humanode_monitor.py:75-99 | A transfer is reported iff its amount converts and `raw / 10^18 * price >= min_usd` (inclusive). The report has `amount_native = raw / 10^18` and defaults '' / 'Unknown' / 'Unknown' / 0 for hash, from, to and block time |
| `Humanode.TransferScan` | monitors/humanode_monitor.py:74-99 | At most one report per transfer, each 'Humanode (HUMO)' with `amount_usd = amount_native * price >= min_usd`. Completeness is `Humanode.QualifyingTransferReported` |
| `Humanode.TransferScanAppend` | monitors/humanode_monitor.py:74-99 | Scanning a concatenation gives the two scans concatenated, so reports keep the transfers' order |
| `Humanode.QualifyingTransferReported` | monitors/humanode_monitor.py:75-95 | Every qualifying transfer is reported, between the reports of the transfers before it and those after it |
| `Humanode.TransferScanProvenance` | monitors/humanode_monitor.py:74-95 | Every report is the report of one of the scanned transfers |
| `Humanode.Examined` | monitors/humanode_monitor.py:69-74 | Transfers are examined only for a 200 answer with `code == 0`, and then exactly the first 50 |
| `Humanode.LatestTransactions` | monitors/humanode_monitor.py:53-108 | At most 50 transactions. None when price is 0; otherwise exactly the scan of the examined transfers, so none when the status is not 200, the code is not 0 or the request raised. Each transaction reaches `min_usd`. The cache is the lookup's |
| `Humanode.ReportedTransfersTraced` | monitors/humanode_monitor.py:74-95 | Every transaction returned is the report of one of the examined transfers at the looked-up price |
| `Humanode.LaterTransfersIgnored` | monitors/humanode_monitor.py:74 | Transfers after the fiftieth never change the result |
| `Humanode.ColdStartUsesFallback` | monitors/humanode_monitor.py:41-60 | From the initial cache with the price service down, transfers are scanned at the 0.05 fallback price, which is now cached |
| `Humanode.RecentAnyAmount` | monitors/humanode_monitor.py:110-113 | The dashboard query is always empty |
| `Ton.LatestTransactions` | monitors/ton_monitor.py:41-74 | No transactions on any path, but the price is still looked up: the cache afterwards is the lookup's, so an expired cache takes a price the service answers with, a fresh cache is untouched and a valid cache stays valid |
| `Ton.RecentAnyAmount` | monitors/ton_monitor.py:76-91 | No transactions for any limit, after a price lookup whose cache is kept: an expired cache takes a price the service answers with, a fresh cache is untouched and a valid cache stays valid |
| `Seqs.PyPrefix` | monitors/venom_monitor.py:202 | `s[:k]` keeps `min(k, len)` leading elements for `k >= 0` and drops `-k` trailing ones for `k < 0`. It is always a prefix |
| `Notifier.Shorten` | telegram_bot.py:51-61 | Strings of at most 16 characters are unchanged. Longer ones become the first `keep` characters, `"..."` and the last `keep` characters |
| `Notifier.ShortenAddress` | telegram_bot.py:51-55 | An address of at most 16 characters is unchanged. A longer one becomes `a[:8] + "..." + a[-8:]`, 19 characters |
| `Notifier.ShortenHash` | telegram_bot.py:57-61 | A hash of at most 16 characters is unchanged. A longer one becomes `h[:12] + "..." + h[-12:]`, 27 characters |
| `Notifier.ShortenIdempotent` | telegram_bot.py:51-61 | Shortening twice equals shortening once whenever the shortened form is itself over 16 characters |
| `Notifier.ShortenAddressIdempotent` | telegram_bot.py:51-55 | A shortened address is left as it is by a second shortening |
| `Notifier.ShortenHashIdempotent` | telegram_bot.py:57-61 | A shortened hash is left as it is by a second shortening |
| `Notifier.ShorteningCanLengthen` | telegram_bot.py:53-60 | 17- and 18-character addresses come out longer (19). So do hashes of 17 to 26 characters (27) |
| `Notifier.TokenSymbol` | telegram_bot.py:63-70 | TON maps to TON, Everscale to EVER, Venom to VENOM, and every other name to TOKEN |
| `Notifier.MonitorSymbols` | telegram_bot.py:65-70 | The monitors' network names get TON, EVER and VENOM, and 'Humanode (HUMO)' gets TOKEN |
| `Notifier.SendAlert` | telegram_bot.py:72-86 | Sending an alert always completes, and it is delivered exactly when the chat accepts it |
| `Notifier.Section` | telegram_bot.py:126-140 | An empty list gives a "No recent transactions" section. Otherwise the section has `min(5, n)` lines, line `i` showing transaction `i`'s hash, native amount and the network's symbol |
| `Notifier.SectionIgnoresTail` | telegram_bot.py:134 | Transactions after the fifth never change a section |
| `Notifier.RenderDashboard` | telegram_bot.py:121-153 | One section per network in the given order, each that network's `Section` of its list: empty exactly for an empty list, otherwise with 1 to 5 lines |
| `MonitorBot.NewBot` | main.py:35-49 | Construction succeeds exactly when the bot token and the chat id are both set and non-empty. The bot polls TON, Everscale and Venom in that order |
| `MonitorBot.NewBotAsWritten` | main.py:35-49 | Construction as written always fails. The failure is the credentials error exactly when a credential is missing, and otherwise the constructor's `TypeError` |
| `MonitorBot.AsWrittenNeverStarts` | main.py:45-49 | With complete credentials the written constructor raises on `min_tokens`, while the intended one succeeds |
| `MonitorBot.ThresholdFilter` | main.py:90-91 | The filtered batch is an order-preserving subsequence that holds every transaction with `amount_native >= threshold` as often as the batch does, and no other |
| `MonitorBot.DispatchAlerts` | main.py:96-100 | One alert per new transaction, in order, each delivered exactly when the chat accepts it, none stopping the rest |
| `MonitorBot.PollMonitor` | main.py:86-105 | A raising fetch or dedup makes the monitor's outcome an error. Otherwise the dedup filter receives exactly the threshold-filtered batch, and the alerts are that filter's output in order |
| `MonitorBot.RunCycle` | main.py:77-105 | A disabled iteration touches no monitor. An enabled one gives, for each monitor in list order, that monitor's own `PollMonitor` outcome |
| `MonitorBot.FailureIsIsolated` | main.py:85-105 | Making one monitor raise turns its outcome into an error and leaves every other monitor's outcome unchanged |
| `MonitorBot.AlertsClearThreshold` | main.py:87-99 | If the dedup filter only drops transactions, every alert is for a fetched transaction whose native amount reaches its monitor's threshold |
| `MonitorBot.CycleDeliveries` | main.py:84-100 | The iteration's alerts are exactly the alerts of the monitors that reported, and every such alert is sent |
| `MonitorBot.CycleDeliveriesAppend` | main.py:85-100 | The alerts of consecutive monitors are sent monitor after monitor, each monitor's alerts together |

## Left out

- **Networking and runtime.** aiohttp sessions, HTTP requests, JSON decoding, GraphQL query text and URLs are not modelled. Their results are input datatypes:
  - `PriceResponse`, `GqlResponse`, `SubscanResponse` and `Fetch`;
  - the chat's acceptance as a function `accepts`.
- **Time and concurrency.** asyncio scheduling, `asyncio.sleep` pacing, the Telegram `Application`, `start`, `stop` and the endless `while` loop are not modelled. One iteration is `MonitorBot.RunCycle`.
- **Floating point.** Amounts and prices are exact reals. `/ 1e9`, `/ 1e18`, `float()` of infinities or NaN, and the `:,.2f` / `:,.4f` formatting are not reproduced.
- **Message formatting.** `format_transaction_message`, `send_startup_message`, `send_error_message`, explorer links from `config.EXPLORERS`, `datetime` rendering and the HTML markup are not modelled. The dashboard is modelled as its sections and lines.
- **The outer handler in `monitor_loop`** (main.py:107-109) is not modelled. Its only trigger is a failure of the enabled check, which is an input here.
- **Collaborators that are never defined.** main.py:14 imports `setup_handlers`, `get_threshold` and `is_monitoring_enabled` from telegram_bot.py, which defines none of them. `BaseMonitor` (monitors/base_monitor.py) has no `filter_new_transactions`, which main.py:94 calls. So as written, `import main` fails with an `ImportError` before `__init__` is ever reached. Threshold and enabled flag are inputs here, and the dedup step is an abstract function `filterNew`.
  - It receives a batch that was already fetched (main.py:94), so its concrete counterpart is `BaseMonitor.DedupFilter`.
  - `MonitorBot.AlertsClearThreshold` assumes only that it drops transactions, which `BaseMonitor.DedupFilter` guarantees.
  - Because of that abstraction, the seen-hash store is not threaded across iterations.
- MonitorBot.PollMonitor: the dedup filter is only the abstract function `filterNew` (see the previous item).
- **config.py** (environment loading), the logging setup and the monitors/__init__.py re-exports are not modelled. Credentials are an input `Config`.
- HexAmount.ParseHex: accepts an optional sign, an optional `0x`/`0X` and hex digits. It rejects surrounding whitespace and `_` digit separators, both of which Python's `int(s, 16)` accepts.
- **JSON `null` and absent keys are not distinguished.** Both are `None`. For `src`/`dst`, a `null` value would give Python `None` rather than 'Unknown'. A `null` `id` or `now` gives Python a transaction carrying `None` (everscale_monitor.py:109,113), except for a `null` `now` on Everscale's dashboard path, where the window comparison raises. The model skips such a record as it skips a missing key.
- Venom.RecentAnyAmount: does not model that `limit` is also sent to the server as the page size. The records are an input, and the model relies only on the final `[:limit]`.
- **Response shapes.** A `transactions` or `transfers` field that is present but not a list is not modelled; in the code it ends in the outer handler with `[]`. Humanode's `data.get('code') == 0` is modelled on integers only; Python also accepts `False` and `0.0`.
- **Unused fields.** `explorer_url`, `api_url`, `rpc_url`, `last_block` and `last_checked_block` play no part in any decision.
- **Where the code and its tests disagree, the code is followed:**
  - Venom has no 0.05 fallback price, though tests/test_monitors.py:198-209 expects one. See `PriceCache.StalePrice`.
  - 'Humanode (HUMO)' maps to TOKEN, though tests/test_telegram_bot.py:49 expects HUMO. See `Notifier.MonitorSymbols`.
  - The bot polls three monitors; tests/test_integration.py:36 expects Humanode too.
- **The seen-hash truncation** keeps an arbitrary 1000 hashes, not the oldest: `set(list(s)[-1000:])` works over an unordered set. See `BaseMonitor.FullStoreMayForgetNewHash`.

## Findings

| source | as written | input that shows it | evidently intended | confidence | as-written member | corrected member |
|---|---|---|---|---|---|---|
| main.py:45-49 | The monitors are created as `TONMonitor(min_tokens=0)` etc., but their constructors take `min_usd`, so `__init__` raises `TypeError` after the credentials check | any configuration with a non-empty bot token and chat id | the monitors are created with a zero USD threshold, since the loop applies the per-network thresholds | not executed; high, from the signatures at monitors/ton_monitor.py:11, monitors/everscale_monitor.py:11 and monitors/venom_monitor.py:11 | `MonitorBot.NewBotAsWritten` (with `MonitorBot.AsWrittenNeverStarts`) | `MonitorBot.NewBot` |
