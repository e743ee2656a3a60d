/** The durable record of a run: archive, index and Proof-of-History log as functions of the accepted
transactions, and the invariant of every reachable ledger. */
module Archive {
  import opened Arith
  import opened Types
  import opened Encoding
  import opened Economy
  import opened Poh
  import opened Storage
  import opened Ledger
  import opened History

  // ---------- The record as a function of the transactions ----------

  function TxMap(log: seq<Transaction>): map<Digest, Transaction>
  {
    if log == [] then map[] else TxMap(log[..|log| - 1])[log[|log| - 1].TxId() := log[|log| - 1]]
  }

  function IndexLog(log: seq<Transaction>): map<seq<Symbol>, Digest>
  {
    if log == [] then map[]
    else
      var tx := log[|log| - 1];
      IndexAll(IndexLog(log[..|log| - 1]), tx.WalletIds(), |log|, tx.TxId())
  }

  function PohLog(leader: seq<Symbol>, log: seq<Transaction>): (r: seq<PohEntry>)
    ensures |r| == |log|
  {
    if log == [] then []
    else
      var before := PohLog(leader, log[..|log| - 1]);
      before + [BuildEntry(|log|, LastHash(before), [log[|log| - 1].TxId()], leader)]
  }

  function ByTick(entries: seq<PohEntry>): map<nat, PohEntry>
  {
    if entries == [] then map[] else ByTick(entries[..|entries| - 1])[|entries| := entries[|entries| - 1]]
  }

  lemma {:induction false} ByTickAt(entries: seq<PohEntry>, t: nat)
    ensures t in ByTick(entries) <==> 1 <= t <= |entries|
    ensures t in ByTick(entries) ==> ByTick(entries)[t] == entries[t - 1]
  {
    if entries != [] {
      ByTickAt(entries[..|entries| - 1], t);
    }
  }

  ghost predicate Archived(env: Env, l: Ledger, log: seq<Transaction>)
  {
    && l.sys.tick == |log| <= U64_MAX
    && l.disk.txs == TxMap(log)
    && l.disk.index == IndexLog(log)
    && l.disk.poh == ByTick(PohLog(env.leader, log))
    && l.sys.lastPohHash == LastHash(PohLog(env.leader, log))
  }

  lemma AppendArchives(env: Env, l: Ledger, tx: Transaction, log: seq<Transaction>)
    requires Archived(env, l, log) && l.sys.tick < U64_MAX
    ensures Archived(env, AppendTx(env, l, tx), log + [tx])
  {
    hide BuildEntry, IndexAll, LastHash;
    var more := log + [tx];
    assert more[..|log|] == log;
    var (a, b) := (PohLog(env.leader, log), PohLog(env.leader, more));
    var entry := BuildEntry(|more|, LastHash(a), [tx.TxId()], env.leader);
    assert b == a + [entry];
    assert ByTick(b) == ByTick(a)[|more| := entry];
    LastHashSnoc(a, entry);
    assert entry.hash == LastHash(b);
  }

  lemma LastHashSnoc(a: seq<PohEntry>, e: PohEntry)
    ensures LastHash(a + [e]) == e.hash
  {
  }

  lemma ApplyArchives(env: Env, l: Ledger, op: Op, log: seq<Transaction>)
    requires Enabled(l, op) && Archived(env, l, log) && l.sys.tick < U64_MAX
    ensures Archived(env, Apply(env, l, op), log + [TxOf(env, l, op)])
  {
    hide Archived;
    var tx := TxOf(env, l, op);
    var stored := if op.Iterate? then l.sys.(iterationLock := true) else l.disk.stored;
    var mid := Ledger(l.disk.(wallets := WalletsAfter(env, l, op), stored := stored), CountersAfter(env, l, op));
    assert Archived(env, mid, log) by { SameRecord(env, l, mid, log, op); }
    AppendArchives(env, mid, tx, log);
    IterationsIrrelevant(env, AppendTx(env, mid, tx), Apply(env, l, op), log + [tx], op, l);
  }

  lemma SameRecord(env: Env, l: Ledger, mid: Ledger, log: seq<Transaction>, op: Op)
    requires Enabled(l, op) && Archived(env, l, log)
    requires mid.disk == l.disk.(wallets := mid.disk.wallets, stored := mid.disk.stored)
    requires mid.sys == CountersAfter(env, l, op)
    ensures Archived(env, mid, log) && mid.sys.tick == l.sys.tick
  {
    hide ExecuteIteration, PohLog, TxMap, IndexLog, LastHash;
  }

  lemma IterationsIrrelevant(env: Env, a: Ledger, b: Ledger, log: seq<Transaction>, op: Op, l: Ledger)
    requires Archived(env, a, log) && b.sys == a.sys && b.disk == a.disk.(iterations := b.disk.iterations)
    ensures Archived(env, b, log)
  {
  }

  // ---------- What the record determines ----------

  ghost predicate HasId(log: seq<Transaction>, i: int, id: Digest)
  {
    0 <= i < |log| && log[i].TxId() == id
  }

  lemma {:induction false} TxMapMember(log: seq<Transaction>, i: nat)
    requires IdsDistinct(log) && i < |log|
    ensures log[i].TxId() in TxMap(log) && TxMap(log)[log[i].TxId()] == log[i]
  {
    hide Transaction.TxId;
    var n := |log| - 1;
    if i < n {
      assert log[..n][i] == log[i];
      TxMapMember(log[..n], i);
    }
  }

  lemma {:induction false} TxMapOnly(log: seq<Transaction>, id: Digest)
    ensures id in TxMap(log) ==> exists i :: HasId(log, i, id)
  {
    hide Transaction.TxId;
    if log != [] {
      var n := |log| - 1;
      TxMapOnly(log[..n], id);
      if i :| HasId(log[..n], i, id) {
        assert HasId(log, i, id);
      }
      if log[n].TxId() == id {
        assert HasId(log, n, id);
      }
    }
  }

  /** The archive holds exactly one record per tick. */
  lemma {:induction false} TxMapSize(log: seq<Transaction>)
    requires IdsDistinct(log)
    ensures |TxMap(log)| == |log|
  {
    hide Transaction.TxId;
    if log != [] {
      var n := |log| - 1;
      TxMapSize(log[..n]);
      TxMapOnly(log[..n], log[n].TxId());
    }
  }

  lemma {:induction false} PohLogAt(leader: seq<Symbol>, log: seq<Transaction>, i: nat)
    requires i < |log|
    ensures PohLog(leader, log)[i] ==
      BuildEntry(i + 1, HashBefore(PohLog(leader, log), i), [log[i].TxId()], leader)
  {
    hide BuildEntry;
    var n := |log| - 1;
    var (a, b) := (PohLog(leader, log[..n]), PohLog(leader, log));
    assert b[..n] == a;
    if i < n {
      PohLogAt(leader, log[..n], i);
      assert HashBefore(a, i) == HashBefore(b, i);
    }
  }

  /** The log of every run is a chain over ticks 1..n that `verify_chain` accepts link by link. */
  lemma PohLogIsChain(leader: seq<Symbol>, log: seq<Transaction>)
    ensures Chain(PohLog(leader, log))
    ensures forall i :: 0 <= i < |log| ==>
      PohLog(leader, log)[i].txIds == [log[i].TxId()] && PohLog(leader, log)[i].leader == leader
  {
    var a := PohLog(leader, log);
    forall i | 0 <= i < |log|
      ensures a[i].tick == i + 1 && VerifyChain(HashBefore(a, i), a[i])
      ensures a[i].txIds == [log[i].TxId()] && a[i].leader == leader
    {
      PohLogAt(leader, log, i);
      BuiltEntryVerifies(i + 1, HashBefore(a, i), [log[i].TxId()], leader, HashBefore(a, i));
    }
  }

  /** The transaction behind the log entry of a tick, read from the store alone. */
  function TxAt(d: Disk, tick: nat): Option<Transaction>
  {
    if tick in d.poh && |d.poh[tick].txIds| == 1 && d.poh[tick].txIds[0] in d.txs
    then Some(d.txs[d.poh[tick].txIds[0]])
    else None
  }

  /** The transactions of ticks 1..n in order, or `None` if the store cannot produce one of them. */
  function ReadBack(d: Disk, n: nat): Option<seq<Transaction>>
  {
    if n == 0 then Some([])
    else
      var (before, tx) := (ReadBack(d, n - 1), TxAt(d, n));
      if before.Some? && tx.Some? then Some(before.value + [tx.value]) else None
  }

  lemma TxAtTick(env: Env, l: Ledger, log: seq<Transaction>, i: nat)
    requires Archived(env, l, log) && IdsDistinct(log) && i < |log|
    ensures TxAt(l.disk, i + 1) == Some(log[i])
  {
    hide TxMap, PohLog, BuildEntry, IndexLog, IdsDistinct, LastHash, ByTick;
    TxMapMember(log, i);
    PohLogAt(env.leader, log, i);
    ByTickAt(PohLog(env.leader, log), i + 1);
    EntryIds(i + 1, HashBefore(PohLog(env.leader, log), i), [log[i].TxId()], env.leader);
  }

  lemma EntryIds(tick: nat, prev: Digest, ids: seq<Digest>, leader: seq<Symbol>)
    ensures BuildEntry(tick, prev, ids, leader).txIds == ids
  {
  }

  lemma {:induction false} ReadBackPrefix(env: Env, l: Ledger, log: seq<Transaction>, n: nat)
    requires Archived(env, l, log) && IdsDistinct(log) && n <= |log|
    ensures ReadBack(l.disk, n) == Some(log[..n])
  {
    hide Archived, IdsDistinct, TxAt;
    if n != 0 {
      ReadBackPrefix(env, l, log, n - 1);
      TxAtTick(env, l, log, n - 1);
      assert log[..n] == log[..n - 1] + [log[n - 1]];
    }
  }

  /** The store alone yields the accepted transactions in tick order. */
  lemma ReadBackIsLog(env: Env, l: Ledger, log: seq<Transaction>)
    requires Archived(env, l, log) && IdsDistinct(log)
    ensures ReadBack(l.disk, l.sys.tick) == Some(log)
  {
    ReadBackPrefix(env, l, log, |log|);
    assert log[..|log|] == log;
  }

  // ---------- The secondary index ----------

  lemma {:induction false} IndexAllFacts(index: map<seq<Symbol>, Digest>, ids: seq<WalletId>, tick: nat, id: Digest)
    ensures forall k :: k in IndexAll(index, ids, tick, id) <==>
      k in index || exists w :: w in ids && k == IndexKey(w, tick, id)
    ensures forall k :: k in IndexAll(index, ids, tick, id) ==>
      IndexAll(index, ids, tick, id)[k] ==
        if exists w :: w in ids && k == IndexKey(w, tick, id) then id else index[k]
  {
    if ids != [] {
      hide IndexKey;
      var n := |ids| - 1;
      IndexAllFacts(index, ids[..n], tick, id);
      assert ids == ids[..n] + [ids[n]];
    }
  }

  /** An entry of the index that comes from the transaction at tick `i + 1`. */
  ghost predicate IndexedAt(log: seq<Transaction>, i: int, w: WalletId, k: seq<Symbol>)
  {
    0 <= i < |log| && w in log[i].WalletIds() && k == IndexKey(w, i + 1, log[i].TxId())
  }

  lemma {:induction false} IndexLogSound(log: seq<Transaction>, k: seq<Symbol>)
    requires k in IndexLog(log)
    ensures exists i, w :: IndexedAt(log, i, w, k) && IndexLog(log)[k] == log[i].TxId()
    decreases |log|
  {
    hide IndexKey, IndexAll;
    var n := |log| - 1;
    var (before, tx) := (log[..n], log[n]);
    IndexAllFacts(IndexLog(before), tx.WalletIds(), |log|, tx.TxId());
    if w :| w in tx.WalletIds() && k == IndexKey(w, |log|, tx.TxId()) {
      assert IndexedAt(log, n, w, k);
    } else {
      IndexLogSound(before, k);
      var i, w :| IndexedAt(before, i, w, k) && IndexLog(before)[k] == before[i].TxId();
      assert IndexedAt(log, i, w, k);
    }
  }

  lemma {:induction false} IndexLogComplete(log: seq<Transaction>, i: int, w: WalletId, k: seq<Symbol>)
    requires IndexedAt(log, i, w, k)
    ensures k in IndexLog(log)
    decreases |log|
  {
    hide IndexKey, IndexAll;
    var n := |log| - 1;
    IndexAllFacts(IndexLog(log[..n]), log[n].WalletIds(), |log|, log[n].TxId());
    if i < n {
      assert IndexedAt(log[..n], i, w, k);
      IndexLogComplete(log[..n], i, w, k);
    }
  }

  /** The transaction at tick `i + 1` names the wallet and has the id. */
  ghost predicate NamedAt(log: seq<Transaction>, i: int, wallet: WalletId, id: Digest)
  {
    0 <= i < |log| && wallet in log[i].WalletIds() && log[i].TxId() == id
  }

  lemma ScannedIsNamed(log: seq<Transaction>, wallet: WalletId, k: seq<Symbol>)
    requires k in IndexLog(log) && IndexPrefix(wallet) <= k
    ensures exists i :: NamedAt(log, i, wallet, IndexLog(log)[k]) && k == IndexKey(wallet, i + 1, log[i].TxId())
  {
    IndexLogSound(log, k);
    hide IndexLog;
    var i, w :| IndexedAt(log, i, w, k) && IndexLog(log)[k] == log[i].TxId();
    IndexKeyParts(w, i + 1, log[i].TxId());
    assert NamedAt(log, i, wallet, IndexLog(log)[k]);
  }

  /** A prefix scan finds exactly the transactions that name the wallet. */
  lemma ScanFindsNamed(log: seq<Transaction>, wallet: WalletId, id: Digest)
    requires IdsDistinct(log)
    ensures id in ScannedIds(IndexLog(log), wallet) <==> exists i :: NamedAt(log, i, wallet, id)
  {
    hide IndexLog;
    if id in ScannedIds(IndexLog(log), wallet) {
      var k :| k in IndexLog(log) && IndexPrefix(wallet) <= k && IndexLog(log)[k] == id;
      ScannedIsNamed(log, wallet, k);
    }
    if i :| NamedAt(log, i, wallet, id) {
      EntryFound(log, wallet, i);
    }
  }

  /** Each of them is found through one index entry only. */
  lemma ScanFindsOnce(log: seq<Transaction>, wallet: WalletId)
    requires IdsDistinct(log)
    ensures OneEntryPerTransaction(IndexLog(log), wallet)
  {
    hide IndexLog, IndexPrefix, IdsDistinct;
    var index := IndexLog(log);
    forall k, j | k in index && j in index && IndexPrefix(wallet) <= k && IndexPrefix(wallet) <= j
        && index[k] == index[j]
      ensures k == j
    {
      SameEntry(log, wallet, k, j);
    }
  }

  lemma SameEntry(log: seq<Transaction>, wallet: WalletId, k: seq<Symbol>, j: seq<Symbol>)
    requires IdsDistinct(log) && k in IndexLog(log) && j in IndexLog(log)
    requires IndexPrefix(wallet) <= k && IndexPrefix(wallet) <= j && IndexLog(log)[k] == IndexLog(log)[j]
    ensures k == j
  {
    hide IndexLog, IndexKey;
    var id := IndexLog(log)[k];
    ScannedIsNamed(log, wallet, k);
    ScannedIsNamed(log, wallet, j);
    var a :| NamedAt(log, a, wallet, id) && k == IndexKey(wallet, a + 1, log[a].TxId());
    var b :| NamedAt(log, b, wallet, id) && j == IndexKey(wallet, b + 1, log[b].TxId());
    assert a == b;
  }

  lemma EntryFound(log: seq<Transaction>, wallet: WalletId, i: nat)
    requires IdsDistinct(log) && i < |log| && wallet in log[i].WalletIds()
    ensures log[i].TxId() in ScannedIds(IndexLog(log), wallet)
  {
    hide IndexLog;
    var (id, index) := (log[i].TxId(), IndexLog(log));
    var k := IndexKey(wallet, i + 1, id);
    IndexKeyParts(wallet, i + 1, id);
    IndexLogComplete(log, i, wallet, k);
    IndexLogSound(log, k);
    var j, w :| IndexedAt(log, j, w, k) && index[k] == log[j].TxId();
    IndexKeyParts(w, j + 1, log[j].TxId());
    assert k[23] == Hex(id) && k[23] == Hex(log[j].TxId());
  }

  /** Keys of one wallet sort in tick order: the padded ticks compare as the ticks do. */
  lemma PaddedOrder(m: nat, n: nat)
    requires m <= U64_MAX && n <= U64_MAX
    ensures LexLess(Digits(10, 20, m), Digits(10, 20, n)) <==> m < n
    ensures LexLess(Digits(256, 8, m), Digits(256, 8, n)) <==> m < n
  {
    Widths();
    DigitsOrder(10, 20, m, n);
    DigitsOrder(256, 8, m, n);
  }
}
