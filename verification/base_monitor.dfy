/** The common part of every network monitor: the normalised transaction
    record, the bounded store of already-seen hashes and the duplicate filter
    applied to a freshly fetched batch. */
module BaseMonitor {
  import opened Outcomes
  import opened Seqs
  import PriceCache

  /** A normalised transaction. Amounts are exact reals: the model does not
      reproduce floating-point rounding. */
  datatype Transaction = Transaction(
    network: string,
    txHash: string,
    amountUsd: real,
    sender: string,
    receiver: string,
    timestamp: int,
    amountNative: real)

  /** What one monitor call yields: the transactions and the price cache afterwards. */
  datatype Polled = Polled(txs: seq<Transaction>, cache: PriceCache.Cache)

  /** The number of hashes the seen-set keeps after truncation. */
  const Capacity: nat := 1000

  /** The admissible outcomes of one `is_duplicate(h)` call on the seen-set `seen`.
      A known hash is reported as a duplicate and changes nothing. A new hash is
      added; if that pushes the set past `Capacity`, the set is cut back to
      `Capacity` hashes. The cut is `set(list(s)[-1000:])`, whose survivors
      depend on the unspecified iteration order of a Python set, so ANY subset
      of the right size drawn from the grown set is admissible, including one
      that drops `h` itself. */
  ghost predicate DedupStep(seen: set<string>, h: string, dup: bool, seen': set<string>) {
    && (dup <==> h in seen)
    && (dup ==> seen' == seen)
    && (!dup && |seen + {h}| <= Capacity ==> seen' == seen + {h})
    && (!dup && |seen + {h}| > Capacity ==> seen' <= seen + {h} && |seen'| == Capacity)
  }

  /** `is_duplicate`: answers whether `h` was seen and records it. The survivors
      of a truncation are picked arbitrarily, one eviction at a time. */
  method IsDuplicate(seen: set<string>, h: string) returns (dup: bool, seen': set<string>)
    ensures DedupStep(seen, h, dup, seen')
  {
    if h in seen {
      return true, seen;
    }
    var grown := seen + {h};
    var kept := grown;
    while |kept| > Capacity
      invariant kept <= grown
      invariant |grown| > Capacity ==> |kept| >= Capacity
      invariant |grown| <= Capacity ==> kept == grown
      decreases |kept|
    {
      var evicted :| evicted in kept;
      kept := kept - {evicted};
    }
    return false, kept;
  }

  /** Every admissible step keeps a set of at most `Capacity` hashes that size,
      and only ever holds hashes it held before or was just given. */
  lemma DedupBounded(seen: set<string>, h: string, dup: bool, seen': set<string>)
    requires DedupStep(seen, h, dup, seen')
    ensures seen' <= seen + {h}
    ensures |seen| <= Capacity ==> |seen'| <= Capacity
  {
  }

  /** Below capacity a new hash is recorded and the set grows by exactly one. */
  lemma DedupGrowsByOne(seen: set<string>, h: string, seen': set<string>)
    requires DedupStep(seen, h, false, seen')
    requires |seen| < Capacity
    ensures h in seen' && |seen'| == |seen| + 1
  {
  }

  /** The same hash twice below capacity: new, then duplicate; a hash that was
      never given is new afterwards too. */
  lemma SameHashTwice(seen: set<string>, h: string, other: string,
                      d1: bool, s1: set<string>, d2: bool, s2: set<string>, d3: bool, s3: set<string>)
    requires h !in seen && |seen| < Capacity
    requires DedupStep(seen, h, d1, s1) && DedupStep(s1, h, d2, s2)
    requires other != h && other !in seen && DedupStep(s2, other, d3, s3)
    ensures !d1 && d2 && !d3
  {
  }

  /** With a full set, one admissible truncation evicts the hash just added and
      leaves the set as it was, so the very same hash is reported as new on the
      next call as well, and forever after. */
  lemma FullStoreMayForgetNewHash(seen: set<string>, h: string)
    requires |seen| == Capacity && h !in seen
    ensures DedupStep(seen, h, false, seen)
  {
    assert |seen + {h}| == Capacity + 1;
  }

  /** The admissible runs of `is_duplicate` over a batch, first to last, with
      `dups[i]` the answer for `txs[i]`. */
  ghost predicate DedupRun(seen: set<string>, txs: seq<Transaction>, dups: seq<bool>, final: set<string>)
    decreases |txs|
  {
    && |dups| == |txs|
    && if txs == [] then final == seen
       else exists mid :: DedupStep(seen, txs[0].txHash, dups[0], mid)
                          && DedupRun(mid, txs[1..], dups[1..], final)
  }

  /** The transactions whose duplicate check answered false, in batch order. */
  function Survivors(txs: seq<Transaction>, dups: seq<bool>): seq<Transaction>
    requires |dups| == |txs|
  {
    if txs == [] then []
    else (if dups[0] then [] else [txs[0]]) + Survivors(txs[1..], dups[1..])
  }

  /** Reference filter without eviction: the first occurrence of every hash that
      is not already in `seen`. */
  function FirstSightings(seen: set<string>, txs: seq<Transaction>): seq<Transaction>
    decreases |txs|
  {
    if txs == [] then []
    else if txs[0].txHash in seen then FirstSightings(seen, txs[1..])
    else [txs[0]] + FirstSightings(seen + {txs[0].txHash}, txs[1..])
  }

  /** The hashes of a batch. */
  function HashSet(txs: seq<Transaction>): set<string>
  {
    if txs == [] then {} else {txs[0].txHash} + HashSet(txs[1..])
  }

  /** No two transactions of `s` share a hash. */
  ghost predicate DistinctHashes(s: seq<Transaction>) {
    forall i, j | 0 <= i < j < |s| :: s[i].txHash != s[j].txHash
  }

  /** A reference run never reports a hash already seen, nor the same hash twice. */
  lemma {:induction false} FirstSightingsAreNew(seen: set<string>, txs: seq<Transaction>)
    ensures forall t | t in FirstSightings(seen, txs) :: t.txHash !in seen
    ensures DistinctHashes(FirstSightings(seen, txs))
    decreases |txs|
  {
    if txs != [] {
      var h := txs[0].txHash;
      if h in seen {
        FirstSightingsAreNew(seen, txs[1..]);
        assert FirstSightings(seen, txs) == FirstSightings(seen, txs[1..]);
      } else {
        FirstSightingsAreNew(seen + {h}, txs[1..]);
        var rest := FirstSightings(seen + {h}, txs[1..]);
        var fs := [txs[0]] + rest;
        assert FirstSightings(seen, txs) == fs;
        forall i, j | 0 <= i < j < |fs| ensures fs[i].txHash != fs[j].txHash {
          if i == 0 {
            var t := rest[j - 1];
            assert t in rest;
            assert t.txHash !in seen + {h};
          } else {
            assert fs[i] == rest[i - 1] && fs[j] == rest[j - 1];
            assert rest[i - 1].txHash != rest[j - 1].txHash;
          }
        }
        forall t | t in fs ensures t.txHash !in seen {
          if t != txs[0] {
            assert t in rest;
          }
        }
      }
    }
  }

  /** The duplicate filter applied to a batch: one `is_duplicate` call per
      transaction, in order, keeping those it reports as new. */
  method DedupFilter(seen: set<string>, txs: seq<Transaction>)
    returns (newTxs: seq<Transaction>, seen': set<string>, ghost dups: seq<bool>)
    ensures |dups| == |txs| && DedupRun(seen, txs, dups, seen')
    ensures newTxs == Survivors(txs, dups)
    ensures IsSubsequence(newTxs, txs)
    ensures |seen| <= Capacity ==> |seen'| <= Capacity
    ensures |seen| + |txs| <= Capacity ==> newTxs == FirstSightings(seen, txs) && seen' == seen + HashSet(txs)
    decreases |txs|
  {
    if txs == [] {
      return [], seen, [];
    }
    var dup, mid := IsDuplicate(seen, txs[0].txHash);
    DedupBounded(seen, txs[0].txHash, dup, mid);
    assert |mid| <= |seen| + 1 by {
      assert |seen + {txs[0].txHash}| <= |seen| + 1;
    }
    var rest, final, restDups := DedupFilter(mid, txs[1..]);
    newTxs := (if dup then [] else [txs[0]]) + rest;
    if dup {
      assert newTxs == rest;
    } else {
      assert newTxs[0] == txs[0] && newTxs[1..] == rest;
    }
    seen' := final;
    dups := [dup] + restDups;
    assert dups[1..] == restDups;
    assert DedupStep(seen, txs[0].txHash, dups[0], mid) && DedupRun(mid, txs[1..], dups[1..], final);
  }

  /** `fetch_and_filter`: a batch whose fetch raised yields nothing and leaves the
      seen-set alone; otherwise the batch goes through the duplicate filter. */
  method FetchAndFilter(seen: set<string>, fetched: Fetch<seq<Transaction>>)
    returns (newTxs: seq<Transaction>, seen': set<string>, ghost dups: seq<bool>)
    ensures fetched.Raised? ==> newTxs == [] && seen' == seen
    ensures fetched.Fetched? ==> DedupRun(seen, fetched.value, dups, seen')
                                 && newTxs == Survivors(fetched.value, dups)
                                 && IsSubsequence(newTxs, fetched.value)
    ensures fetched.Fetched? && |seen| + |fetched.value| <= Capacity ==>
              newTxs == FirstSightings(seen, fetched.value)
    ensures |seen| <= Capacity ==> |seen'| <= Capacity
  {
    match fetched
    case Raised =>
      return [], seen, [];
    case Fetched(txs) =>
      newTxs, seen', dups := DedupFilter(seen, txs);
  }

  /** The default `get_latest_transactions_any_amount`: no transactions, whatever the limit. */
  function DefaultRecentAnyAmount(limit: int): (r: seq<Transaction>)
    ensures r == []
  {
    []
  }
}
