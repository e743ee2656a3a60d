/** The embedded store: named trees as maps, every write recorded in order. */
module Storage {
  import opened Arith
  import opened Sorting
  import opened Types
  import opened Encoding
  import opened Economy
  import opened WalletMaps

  datatype Disk = Disk(
    wallets: WalletMap,
    txs: map<Digest, Transaction>,
    index: map<seq<Symbol>, Digest>,
    poh: map<nat, PohEntry>,
    iterations: map<nat, IterationCommit>,
    stored: SystemState)

  const COLON: Symbol := Byte(58)

  /** `{:020}`: twenty decimal digits. */
  function Padded(tick: nat): (r: seq<Symbol>)
    ensures |r| == 20
  {
    seq(20, i requires 0 <= i < 20 => Byte(48 + Digits(10, 20, tick)[i]))
  }

  function IndexPrefix(wallet: WalletId): seq<Symbol> { [Hex(wallet), COLON] }

  /** Key of the secondary index: wallet, padded tick and transaction id, separated by colons. */
  function IndexKey(wallet: WalletId, tick: nat, id: Digest): seq<Symbol>
  {
    IndexPrefix(wallet) + Padded(tick) + [COLON, Hex(id)]
  }

  /** All three parts can be read back from a key, and a prefix scan selects one wallet. */
  lemma IndexKeyParts(wallet: WalletId, tick: nat, id: Digest)
    ensures |IndexKey(wallet, tick, id)| == 24
    ensures forall w :: IndexPrefix(w) <= IndexKey(wallet, tick, id) <==> w == wallet
    ensures IndexKey(wallet, tick, id)[2..22] == Padded(tick)
    ensures IndexKey(wallet, tick, id)[23] == Hex(id)
  {
    var key := IndexKey(wallet, tick, id);
    forall w ensures IndexPrefix(w) <= key <==> w == wallet {
      assert IndexPrefix(w)[0] == Hex(w) && key[0] == Hex(wallet) && key[1] == COLON;
      if w == wallet {
        assert IndexPrefix(w) == key[..2];
      }
    }
  }

  /** Different wallets, ticks or transactions have different keys. */
  lemma IndexKeyInjective(w: WalletId, m: nat, id: Digest, w': WalletId, n: nat, id': Digest)
    requires m <= U64_MAX && n <= U64_MAX && IndexKey(w, m, id) == IndexKey(w', n, id')
    ensures w == w' && m == n && id == id'
  {
    IndexKeyParts(w, m, id);
    IndexKeyParts(w', n, id');
    assert IndexPrefix(w') <= IndexKey(w', n, id');
    PaddedInjective(m, n);
  }

  lemma PaddedInjective(m: nat, n: nat)
    requires m <= U64_MAX && n <= U64_MAX && Padded(m) == Padded(n)
    ensures m == n
  {
    var (a, b) := (Digits(10, 20, m), Digits(10, 20, n));
    forall i | 0 <= i < 20 ensures a[i] == b[i] {
      assert Padded(m)[i] == Byte(48 + a[i]) && Padded(n)[i] == Byte(48 + b[i]);
    }
    assert a == b;
    Widths();
    DigitsInjective(10, 20, m, n);
  }

  function IndexAll(index: map<seq<Symbol>, Digest>, ids: seq<WalletId>, tick: nat, id: Digest)
    : map<seq<Symbol>, Digest>
  {
    if ids == [] then index
    else IndexAll(index, ids[..|ids| - 1], tick, id)[IndexKey(ids[|ids| - 1], tick, id) := id]
  }

  // ---------- Ordered writes ----------

  datatype Write =
    | PutWallet(wallet: Wallet)
    | PutTx(tx: Transaction)
    | PutIndex(key: seq<Symbol>, id: Digest)
    | PutPoh(entry: PohEntry)
    | PutIteration(commit: IterationCommit)
    | PutState(state: SystemState)

  function ApplyWrite(d: Disk, w: Write): Disk
  {
    match w
    case PutWallet(v) => d.(wallets := d.wallets[v.id := v])
    case PutTx(tx) => d.(txs := d.txs[tx.TxId() := tx])
    case PutIndex(key, id) => d.(index := d.index[key := id])
    case PutPoh(e) => d.(poh := d.poh[e.tick := e])
    case PutIteration(c) => d.(iterations := d.iterations[c.iterationId := c])
    case PutState(s) => d.(stored := s)
  }

  function ApplyWrites(d: Disk, ws: seq<Write>): Disk
  {
    if ws == [] then d else ApplyWrite(ApplyWrites(d, ws[..|ws| - 1]), ws[|ws| - 1])
  }

  lemma {:induction false} ApplyConcat(d: Disk, v: seq<Write>, w: seq<Write>)
    ensures ApplyWrites(d, v + w) == ApplyWrites(ApplyWrites(d, v), w)
  {
    if w == [] {
      assert v + w == v;
    } else {
      assert (v + w)[..|v + w| - 1] == v + w[..|w| - 1];
      ApplyConcat(d, v, w[..|w| - 1]);
    }
  }

  lemma ApplySnoc(d: Disk, v: seq<Write>, w: Write)
    ensures ApplyWrites(d, v + [w]) == ApplyWrite(ApplyWrites(d, v), w)
  {
    assert (v + [w])[..|v|] == v;
  }

  function WalletWrites(ws: seq<Wallet>): seq<Write>
  {
    seq(|ws|, i requires 0 <= i < |ws| => PutWallet(ws[i]))
  }

  function IndexWrites(ids: seq<WalletId>, tick: nat, id: Digest): seq<Write>
  {
    seq(|ids|, i requires 0 <= i < |ids| => PutIndex(IndexKey(ids[i], tick, id), id))
  }

  /** `put_transaction`: the record, then one index entry per named wallet. */
  function TransactionWrites(tx: Transaction, tick: nat): seq<Write>
  {
    [PutTx(tx)] + IndexWrites(tx.WalletIds(), tick, tx.TxId())
  }

  lemma {:induction false} WalletWritesApply(d: Disk, ws: seq<Wallet>)
    ensures ApplyWrites(d, WalletWrites(ws)) == d.(wallets := PutAll(d.wallets, ws))
  {
    if ws != [] {
      var n := |ws| - 1;
      assert WalletWrites(ws)[..n] == WalletWrites(ws[..n]);
      WalletWritesApply(d, ws[..n]);
    }
  }

  lemma {:induction false} IndexWritesApply(d: Disk, ids: seq<WalletId>, tick: nat, id: Digest)
    ensures ApplyWrites(d, IndexWrites(ids, tick, id)) == d.(index := IndexAll(d.index, ids, tick, id))
  {
    if ids != [] {
      var n := |ids| - 1;
      assert IndexWrites(ids, tick, id)[..n] == IndexWrites(ids[..n], tick, id);
      IndexWritesApply(d, ids[..n], tick, id);
    }
  }

  lemma TransactionWritesApply(d: Disk, tx: Transaction, tick: nat)
    ensures ApplyWrites(d, TransactionWrites(tx, tick)) ==
      d.(txs := d.txs[tx.TxId() := tx], index := IndexAll(d.index, tx.WalletIds(), tick, tx.TxId()))
  {
    ApplyConcat(d, [PutTx(tx)], IndexWrites(tx.WalletIds(), tick, tx.TxId()));
    assert ApplyWrites(d, [PutTx(tx)]) == ApplyWrite(ApplyWrites(d, []), PutTx(tx));
    IndexWritesApply(ApplyWrites(d, [PutTx(tx)]), tx.WalletIds(), tick, tx.TxId());
  }

  // ---------- The store ----------

  class CoinStorage {
    var wallets: WalletMap
    var txs: map<Digest, Transaction>
    var index: map<seq<Symbol>, Digest>
    var poh: map<nat, PohEntry>
    var iterations: map<nat, IterationCommit>
    var stored: SystemState
    /** Every write since the store was opened, in order. */
    ghost var trace: seq<Write>

    ghost function View(): Disk
      reads this
    {
      Disk(wallets, txs, index, poh, iterations, stored)
    }

    constructor ()
      ensures View() == Disk(map[], map[], map[], map[], map[], GENESIS)
      ensures trace == []
    {
      wallets, txs, index, poh, iterations := map[], map[], map[], map[], map[];
      stored := GENESIS;
      trace := [];
    }

    method PutWallet(w: Wallet)
      modifies this
      ensures trace == old(trace) + [Write.PutWallet(w)]
      ensures View() == ApplyWrite(old(View()), Write.PutWallet(w))
    {
      wallets := wallets[w.id := w];
      trace := trace + [Write.PutWallet(w)];
    }

    method PutTransaction(tx: Transaction, tick: nat)
      modifies this
      ensures trace == old(trace) + TransactionWrites(tx, tick)
      ensures View() == ApplyWrites(old(View()), TransactionWrites(tx, tick))
    {
      var id := tx.TxId();
      txs := txs[id := tx];
      var ids := tx.WalletIds();
      ghost var writes := [PutTx(tx)];
      for i := 0 to |ids|
        invariant writes == [PutTx(tx)] + IndexWrites(ids[..i], tick, id)
        invariant wallets == old(wallets) && poh == old(poh) && iterations == old(iterations)
        invariant stored == old(stored) && trace == old(trace) && txs == old(txs)[id := tx]
        invariant index == IndexAll(old(index), ids[..i], tick, id)
      {
        assert ids[..i + 1][..i] == ids[..i];
        index := index[IndexKey(ids[i], tick, id) := id];
        writes := writes + [PutIndex(IndexKey(ids[i], tick, id), id)];
        assert IndexWrites(ids[..i + 1], tick, id) ==
               IndexWrites(ids[..i], tick, id) + [PutIndex(IndexKey(ids[i], tick, id), id)];
      }
      assert ids[..|ids|] == ids;
      trace := trace + writes;
      TransactionWritesApply(old(View()), tx, tick);
    }

    method PutPohEntry(e: PohEntry)
      modifies this
      ensures trace == old(trace) + [PutPoh(e)]
      ensures View() == ApplyWrite(old(View()), PutPoh(e))
    {
      poh := poh[e.tick := e];
      trace := trace + [PutPoh(e)];
    }

    method PutIteration(c: IterationCommit)
      modifies this
      ensures trace == old(trace) + [Write.PutIteration(c)]
      ensures View() == ApplyWrite(old(View()), Write.PutIteration(c))
    {
      iterations := iterations[c.iterationId := c];
      trace := trace + [Write.PutIteration(c)];
    }

    method StoreState(s: SystemState)
      modifies this
      ensures trace == old(trace) + [PutState(s)]
      ensures View() == ApplyWrite(old(View()), PutState(s))
    {
      stored := s;
      trace := trace + [PutState(s)];
    }

    /** A scan of the wallet tree, in an unspecified order. */
    method ListWallets() returns (ws: seq<Wallet>)
      requires forall id :: id in wallets ==> wallets[id].id == id
      ensures IsListing(ws, wallets)
    {
      ws := [];
      var left := wallets.Keys;
      while left != {}
        invariant left <= wallets.Keys
        invariant Distinct(Ids(ws)) && forall i :: 0 <= i < |ws| ==> ws[i].id !in left
        invariant PutAll(map[], ws) == wallets - left
        decreases |left|
      {
        var id :| id in left;
        var next := ws + [wallets[id]];
        assert next[..|ws|] == ws && Ids(next) == Ids(ws) + [id];
        left := left - {id};
        ws := next;
      }
      assert wallets - {} == wallets;
    }

    /** The prefix scan: the ids under one wallet, in an unspecified order, with repetitions only where
    two entries of the wallet name the same transaction. */
    method ScanIndex(wallet: WalletId) returns (ids: seq<Digest>)
      ensures forall id :: id in ids <==> id in ScannedIds(index, wallet)
      ensures OneEntryPerTransaction(index, wallet) ==> Distinct(ids)
    {
      var left := index.Keys;
      ids := [];
      while left != {}
        invariant left <= index.Keys
        invariant forall id :: id in ids <==> id in ScannedIds(index - left, wallet)
        invariant OneEntryPerTransaction(index, wallet) ==> Distinct(ids)
        decreases |left|
      {
        var k :| k in left;
        ScanStep(index, left, k, wallet);
        hide ScannedIds, OneEntryPerTransaction, Distinct;
        left := left - {k};
        if IndexPrefix(wallet) <= k {
          DistinctSnoc(ids, index[k]);
          ids := ids + [index[k]];
        }
      }
      assert index - {} == index;
    }

    /** `list_transactions_for_wallet`: the scanned ids sorted by their text, reversed and cut off at the
    limit, and the archived transactions behind them. `le` is the order of the texts. */
    method ListTransactionsForWallet(wallet: WalletId, limit: nat, le: (Digest, Digest) -> bool)
      returns (found: seq<Transaction>)
      requires TotalOrder(le)
      ensures exists ids ::
        && AreLast(le, ScannedIds(index, wallet), ids, limit) && found == Looked(txs, ids)
        && (OneEntryPerTransaction(index, wallet) ==> Distinct(ids))
    {
      hide ScannedIds, OneEntryPerTransaction, TotalOrder, Descending, AreLast, Distinct, Looked, Sort;
      var ids := ScanIndex(wallet);
      var sorted := Sort(Flip(le), ids);
      SortedBackwards(le, ids);
      SameElements(ids, sorted);
      var kept := if |sorted| > limit then sorted[..limit] else sorted;
      KeptAreLast(le, ScannedIds(index, wallet), sorted, limit);
      DistinctPrefix(sorted, |kept|);
      assert sorted[..|sorted|] == sorted;
      found := Fetch(kept);
    }

    method Fetch(ids: seq<Digest>) returns (found: seq<Transaction>)
      ensures found == Looked(txs, ids)
    {
      found := [];
      for i := 0 to |ids|
        invariant found == Looked(txs, ids[..i])
      {
        assert ids[..i + 1][..i] == ids[..i];
        if ids[i] in txs {
          found := found + [txs[ids[i]]];
        }
      }
      assert ids[..|ids|] == ids;
    }

    /** `latest_poh_entries`: the log tree read backwards, in the byte order of its big-endian keys. Ticks
    are 64-bit numbers, so the entries come with the largest ticks, in decreasing order. */
    method LatestPohEntries(limit: nat) returns (entries: seq<PohEntry>)
      requires forall t :: t in poh ==> t <= U64_MAX
      ensures |entries| == Min(limit, |poh|)
      ensures exists ticks :: AreLatest(poh, ticks, entries)
    {
      entries := [];
      ghost var ticks: seq<nat> := [];
      var left := poh.Keys;
      assert |left| == |poh|;
      while |entries| < limit && left != {}
        invariant |entries| <= limit && |entries| + |left| == |poh| && left <= poh.Keys
        invariant forall t :: t in poh <==> t in left || t in ticks
        invariant forall i, t :: 0 <= i < |ticks| && t in left ==> t < ticks[i]
        invariant AreLatest(poh, ticks, entries)
        decreases |left|
      {
        var top := LastKey(left);
        entries, ticks := entries + [poh[top]], ticks + [top];
        left := left - {top};
      }
    }

    /** The last key in byte order is the largest tick. */
    static method LastKey(ticks: set<nat>) returns (top: nat)
      requires ticks != {} && forall t :: t in ticks ==> t <= U64_MAX
      ensures top in ticks && forall t :: t in ticks ==> t <= top
    {
      top :| top in ticks;
      var left := ticks - {top};
      while left != {}
        invariant top in ticks && left <= ticks && forall t :: t in ticks && t !in left ==> t <= top
        decreases |left|
      {
        var t :| t in left;
        left := left - {t};
        Widths();
        DigitsOrder(256, 8, top, t);
        if LexLess(BigEndian(top), BigEndian(t)) {
          top := t;
        }
      }
    }
  }

  /** `to_be_bytes`. */
  function BigEndian(n: nat): seq<nat> { Digits(256, 8, n) }

  // ---------- Listing by id ----------

  ghost predicate Descending<T>(le: (T, T) -> bool, s: seq<T>)
  {
    forall i, j :: 0 <= i < j < |s| ==> le(s[j], s[i])
  }

  lemma SortedBackwards<T(!new)>(le: (T, T) -> bool, s: seq<T>)
    requires TotalOrder(le)
    ensures Descending(le, Sort(Flip(le), s)) && multiset(Sort(Flip(le), s)) == multiset(s)
  {
    FlipIsTotal(le);
    SortCorrect(Flip(le), s);
  }

  lemma DistinctPrefix<T>(s: seq<T>, n: nat)
    requires n <= |s|
    ensures Distinct(s) ==> Distinct(s[..n])
  {
  }

  lemma SameElements<T>(a: seq<T>, b: seq<T>)
    requires multiset(a) == multiset(b)
    ensures forall x :: x in a <==> x in b
    ensures Distinct(a) ==> Distinct(b)
  {
    forall x ensures x in a <==> x in b {
      assert x in multiset(a) <==> x in multiset(b);
    }
    forall i, j | Distinct(a) && 0 <= i < j < |b| ensures b[i] != b[j] {
      if b[i] == b[j] {
        assert b == b[..i] + [b[i]] + b[i + 1..j] + [b[j]] + b[j + 1..];
        assert multiset(a)[b[i]] >= 2;
        OnceOnly(a, b[i]);
      }
    }
  }

  lemma {:induction false} OnceOnly<T>(s: seq<T>, x: T)
    requires Distinct(s)
    ensures multiset(s)[x] <= 1
  {
    if s != [] {
      var n := |s| - 1;
      OnceOnly(s[..n], x);
      assert s == s[..n] + [s[n]];
    }
  }

  /** `ids` are the last `limit` of the given ids in the order, last first. */
  ghost predicate AreLast(le: (Digest, Digest) -> bool, of: set<Digest>, ids: seq<Digest>, limit: nat)
  {
    && |ids| <= limit
    && Descending(le, ids)
    && (forall id :: id in ids ==> id in of)
    && (forall id :: id in of && id !in ids ==> |ids| == limit && forall k :: 0 <= k < |ids| ==> le(id, ids[k]))
  }

  lemma KeptAreLast(le: (Digest, Digest) -> bool, of: set<Digest>, sorted: seq<Digest>, limit: nat)
    requires Descending(le, sorted) && forall id :: id in sorted <==> id in of
    ensures AreLast(le, of, if |sorted| > limit then sorted[..limit] else sorted, limit)
  {
    if |sorted| > limit {
      var kept := sorted[..limit];
      forall id, k | id in of && id !in kept && 0 <= k < limit ensures le(id, kept[k]) {
        var i :| 0 <= i < |sorted| && sorted[i] == id;
        assert i >= limit;
      }
    }
  }

  /** The archived transactions behind the ids, in the same order. */
  function Looked(txs: map<Digest, Transaction>, ids: seq<Digest>): seq<Transaction>
  {
    if ids == [] then []
    else
      var id := ids[|ids| - 1];
      Looked(txs, ids[..|ids| - 1]) + (if id in txs then [txs[id]] else [])
  }

  /** The entries of the given ticks, largest tick first, with no larger tick left out. */
  ghost predicate AreLatest(poh: map<nat, PohEntry>, ticks: seq<nat>, entries: seq<PohEntry>)
  {
    && |ticks| == |entries|
    && (forall i :: 0 <= i < |ticks| ==> ticks[i] in poh && entries[i] == poh[ticks[i]])
    && (forall i, j :: 0 <= i < j < |ticks| ==> ticks[j] < ticks[i])
    && (forall i, t :: 0 <= i < |ticks| && t in poh && t !in ticks ==> t < ticks[i])
  }

  lemma ScanStep(index: map<seq<Symbol>, Digest>, left: set<seq<Symbol>>, k: seq<Symbol>, wallet: WalletId)
    requires k in left && left <= index.Keys
    ensures forall id :: id in ScannedIds(index - (left - {k}), wallet) <==>
      (id in ScannedIds(index - left, wallet) || (IndexPrefix(wallet) <= k && id == index[k]))
    ensures OneEntryPerTransaction(index, wallet) && IndexPrefix(wallet) <= k ==>
      index[k] !in ScannedIds(index - left, wallet)
  {
    var (a, b) := (index - left, index - (left - {k}));
    assert b == a[k := index[k]];
    forall id
      ensures id in ScannedIds(b, wallet) <==>
        (id in ScannedIds(a, wallet) || (IndexPrefix(wallet) <= k && id == index[k]))
    {
      if id in ScannedIds(b, wallet) {
        var j :| j in b && IndexPrefix(wallet) <= j && b[j] == id;
        assert j == k || (j in a && a[j] == id);
      }
      if id in ScannedIds(a, wallet) {
        var j :| j in a && IndexPrefix(wallet) <= j && a[j] == id;
        assert j in b && b[j] == id;
      }
      if IndexPrefix(wallet) <= k && id == index[k] {
        assert k in b && b[k] == id;
      }
    }
  }

  lemma DistinctSnoc<T>(s: seq<T>, x: T)
    ensures Distinct(s) && x !in s ==> Distinct(s + [x])
  {
  }

  /** The ids that a prefix scan yields for one wallet. */
  ghost function ScannedIds(index: map<seq<Symbol>, Digest>, wallet: WalletId): set<Digest>
  {
    set k | k in index && IndexPrefix(wallet) <= k :: index[k]
  }

  /** No two index entries of a wallet name the same transaction. */
  ghost predicate OneEntryPerTransaction(index: map<seq<Symbol>, Digest>, wallet: WalletId)
  {
    forall k, j ::
      (k in index && j in index && IndexPrefix(wallet) <= k && IndexPrefix(wallet) <= j && index[k] == index[j])
      ==> k == j
  }
}
