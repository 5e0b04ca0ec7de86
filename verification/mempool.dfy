/** The cache of the outpoints that transactions in the mempool spend, kept up to date pass by pass. */
module MempoolCache {
  import opened Types

  /** One pass: the snapshot of txids, or None when fetching it failed, and what fetching each
      transaction yields. */
  datatype Pass = Pass(snapshot: Option<seq<Txid>>, fetch: Txid -> Option<seq<OutPoint>>)

  datatype Cache = Cache(transactions: map<Txid, seq<OutPoint>>, utxoSet: set<OutPoint>)

  function Outpoints(transactions: map<Txid, seq<OutPoint>>): set<OutPoint> {
    set t, o | t in transactions && o in transactions[t] :: o
  }

  /** The transactions known after a pass with this snapshot. */
  function Refreshed(transactions: map<Txid, seq<OutPoint>>, snapshot: seq<Txid>, fetch: Txid -> Option<seq<OutPoint>>)
    : map<Txid, seq<OutPoint>>
  {
    map t | t in snapshot && (t in transactions || fetch(t).Some?) ::
      if t in transactions then transactions[t] else fetch(t).value
  }

  function AfterPass(cache: Cache, pass: Pass): Cache {
    if pass.snapshot.None? then cache
    else
      var transactions := Refreshed(cache.transactions, pass.snapshot.value, pass.fetch);
      Cache(transactions, Outpoints(transactions))
  }

  class Mempool {
    var transactions: map<Txid, seq<OutPoint>>
    var utxoSet: set<OutPoint>

    function Contents(): Cache
      reads this
    {
      Cache(transactions, utxoSet)
    }

    constructor ()
      ensures Contents() == Cache(map[], {})
    {
      transactions, utxoSet := map[], {};
    }

    /** One turn of the monitoring loop. */
    method RunPass(pass: Pass)
      modifies this
      ensures Contents() == AfterPass(old(Contents()), pass)
    {
      if pass.snapshot.None? {
        return;
      }
      var txids := pass.snapshot.value;
      FetchMissing(txids, pass.fetch);
      transactions := map t | t in transactions && t in txids :: transactions[t];
      assert transactions == Refreshed(old(transactions), txids, pass.fetch);
      Refill();
    }

    /** Fetches what is not cached yet; a transaction that cannot be fetched is skipped. */
    method FetchMissing(txids: seq<Txid>, fetch: Txid -> Option<seq<OutPoint>>)
      modifies this`transactions
      ensures forall t :: t in transactions <==> t in old(transactions) || (t in txids && fetch(t).Some?)
      ensures forall t :: t in transactions ==>
        transactions[t] == if t in old(transactions) then old(transactions)[t] else fetch(t).value
    {
      for n := 0 to |txids|
        invariant forall t :: t in transactions <==> t in old(transactions) || (t in txids[..n] && fetch(t).Some?)
        invariant forall t :: t in transactions ==>
          transactions[t] == if t in old(transactions) then old(transactions)[t] else fetch(t).value
      {
        assert txids[..n + 1] == txids[..n] + [txids[n]];
        if txids[n] !in transactions {
          var inputs := fetch(txids[n]);
          if inputs.Some? {
            transactions := transactions[txids[n] := inputs.value];
          }
        }
      }
      assert txids[..|txids|] == txids;
    }

    /** Clears the outpoint set and fills it again from the cached transactions. */
    method Refill()
      modifies this`utxoSet
      ensures utxoSet == Outpoints(transactions)
    {
      utxoSet := {};
      var rest := transactions.Keys;
      while rest != {}
        invariant rest <= transactions.Keys
        invariant forall o :: o in utxoSet <==> exists t :: t in transactions && t !in rest && o in transactions[t]
        decreases rest
      {
        var t :| t in rest;
        ghost var before := utxoSet;
        var inputs := transactions[t];
        for i := 0 to |inputs|
          invariant utxoSet == before + set o | o in inputs[..i]
        {
          assert inputs[..i + 1] == inputs[..i] + [inputs[i]];
          utxoSet := utxoSet + {inputs[i]};
        }
        assert inputs[..|inputs|] == inputs;
        rest := rest - {t};
      }
    }
  }

  // ---- the cache against a full rescan ----

  /** A txid determines its transaction: a fetch yields the true inputs or fails. */
  ghost predicate Truthful(pass: Pass, ledger: Txid -> seq<OutPoint>) {
    forall t :: pass.fetch(t).Some? ==> pass.fetch(t).value == ledger(t)
  }

  function AfterPasses(passes: seq<Pass>): Cache {
    if passes == [] then Cache(map[], {}) else AfterPass(AfterPasses(passes[..|passes| - 1]), passes[|passes| - 1])
  }

  function Txids(snapshot: seq<Txid>): set<Txid> {
    set t | t in snapshot
  }

  /** What a rescan without a cache would find. */
  function Rescan(txids: set<Txid>, ledger: Txid -> seq<OutPoint>): set<OutPoint> {
    set t, o | t in txids && o in ledger(t) :: o
  }

  /** Reference definition, without a cache: a transaction is known after the passes when some pass
      fetched it and every completed pass from then on saw it in the mempool. */
  ghost predicate Known(passes: seq<Pass>, t: Txid) {
    exists k :: 0 <= k < |passes| && FetchedAt(passes, t, k) && SeenSince(passes, t, k)
  }

  ghost predicate FetchedAt(passes: seq<Pass>, t: Txid, k: int)
    requires 0 <= k < |passes|
  {
    passes[k].snapshot.Some? && t in passes[k].snapshot.value && passes[k].fetch(t).Some?
  }

  ghost predicate SeenSince(passes: seq<Pass>, t: Txid, k: int) {
    forall i :: 0 <= k <= i < |passes| && passes[i].snapshot.Some? ==> t in passes[i].snapshot.value
  }

  lemma KnownBefore(passes: seq<Pass>, t: Txid)
    requires passes != []
    ensures var before, last := passes[..|passes| - 1], passes[|passes| - 1];
      Known(passes, t) <==>
        if last.snapshot.None? then Known(before, t)
        else t in last.snapshot.value && (Known(before, t) || last.fetch(t).Some?)
  {
    var n := |passes| - 1;
    var before, last := passes[..n], passes[n];
    if Known(before, t) && (last.snapshot.None? || t in last.snapshot.value) {
      var k :| 0 <= k < |before| && FetchedAt(before, t, k) && SeenSince(before, t, k);
      assert FetchedAt(passes, t, k) && SeenSince(passes, t, k) by {
        forall i | 0 <= k <= i < |passes| && passes[i].snapshot.Some? ensures t in passes[i].snapshot.value {
          if i < n {
            assert passes[i] == before[i];
          }
        }
      }
    }
    if last.snapshot.Some? && t in last.snapshot.value && last.fetch(t).Some? {
      assert FetchedAt(passes, t, n) && SeenSince(passes, t, n);
    }
    if Known(passes, t) {
      var k :| 0 <= k < |passes| && FetchedAt(passes, t, k) && SeenSince(passes, t, k);
      assert last.snapshot.Some? ==> t in last.snapshot.value;
      if k < n {
        assert FetchedAt(before, t, k) && SeenSince(before, t, k) by {
          forall i | 0 <= k <= i < |before| && before[i].snapshot.Some? ensures t in before[i].snapshot.value {
            assert before[i] == passes[i];
          }
        }
      }
    }
  }

  /** Over every sequence of passes the cache holds exactly the known transactions, each with its
      true inputs. */
  lemma {:induction false} CacheIsExact(passes: seq<Pass>, ledger: Txid -> seq<OutPoint>)
    requires forall p :: p in passes ==> Truthful(p, ledger)
    ensures var cache := AfterPasses(passes);
      && (forall t :: t in cache.transactions <==> Known(passes, t))
      && (forall t :: t in cache.transactions ==> cache.transactions[t] == ledger(t))
  {
    if passes != [] {
      var before, last := passes[..|passes| - 1], passes[|passes| - 1];
      assert forall p :: p in before ==> p in passes;
      CacheIsExact(before, ledger);
      assert last in passes;
      forall t ensures t in AfterPasses(passes).transactions <==> Known(passes, t) {
        KnownBefore(passes, t);
      }
    }
  }

  /** After a completed pass the outpoint set is the union of the true inputs of the snapshot's
      known transactions: never more than a full rescan, and exactly the rescan when each
      transaction of the snapshot was known before or could be fetched. */
  lemma CacheRefinesRescan(passes: seq<Pass>, ledger: Txid -> seq<OutPoint>)
    requires passes != [] && passes[|passes| - 1].snapshot.Some?
    requires forall p :: p in passes ==> Truthful(p, ledger)
    ensures var utxoSet, snapshot := AfterPasses(passes).utxoSet, Txids(passes[|passes| - 1].snapshot.value);
      && utxoSet == Rescan((set t | t in snapshot && Known(passes, t)), ledger)
      && utxoSet <= Rescan(snapshot, ledger)
      && ((forall t :: t in snapshot ==>
             passes[|passes| - 1].fetch(t).Some? || Known(passes[..|passes| - 1], t)) ==>
           utxoSet == Rescan(snapshot, ledger))
  {
    CacheIsExact(passes, ledger);
    var cache, last := AfterPasses(passes), passes[|passes| - 1];
    forall t ensures t in cache.transactions <==> t in last.snapshot.value && Known(passes, t) {
      KnownBefore(passes, t);
    }
    forall t | t in last.snapshot.value && (last.fetch(t).Some? || Known(passes[..|passes| - 1], t)) ensures Known(passes, t) {
      KnownBefore(passes, t);
    }
  }

  /** The passes whose snapshot could be fetched. */
  function Completed(passes: seq<Pass>): seq<Pass> {
    if passes == [] then []
    else
      var last := passes[|passes| - 1];
      Completed(passes[..|passes| - 1]) + if last.snapshot.Some? then [last] else []
  }

  /** Failed snapshots change nothing: the cache is that of the completed passes alone. */
  lemma {:induction false} FailedSnapshotsChangeNothing(passes: seq<Pass>)
    ensures AfterPasses(passes) == AfterPasses(Completed(passes))
  {
    if passes != [] {
      var before, last := passes[..|passes| - 1], passes[|passes| - 1];
      FailedSnapshotsChangeNothing(before);
      if last.snapshot.Some? {
        assert (Completed(before) + [last])[..|Completed(before)|] == Completed(before);
      } else {
        assert Completed(before) + [] == Completed(before);
      }
    }
  }
}
