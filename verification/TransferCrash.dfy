/** Crashes in the middle of a transfer: unlike an iteration, a transfer is not protected by a lock. */
module TransferCrash {
  import opened Arith
  import opened Types
  import opened Economy
  import opened WalletMaps
  import opened Poh
  import opened Storage
  import opened Ledger
  import opened Counters
  import opened Replay
  import opened History
  import opened Archive
  import opened Invariant
  import opened Node
  import opened Crash

  /** The writes of a transfer, in the order the source makes them. */
  ghost function TransferWrites(env: Env, l: Ledger, op: Op): seq<Write>
    requires op.MoveFunds? && Enabled(l, op)
  {
    var (payer, payee) := MovedWallets(l, op);
    var (tick, tx) := (SatAdd(l.sys.tick, 1), TxOf(env, l, op));
    [PutWallet(payer), PutWallet(payee)]
    + TransactionWrites(tx, tick)
    + [PutPoh(BuildEntry(tick, l.sys.lastPohHash, [tx.TxId()], env.leader)), PutState(Apply(env, l, op).sys)]
  }

  ghost function MovedWallets(l: Ledger, op: Op): (Wallet, Wallet)
    requires op.MoveFunds? && Enabled(l, op)
  {
    var (m, it) := (l.disk.wallets, l.sys.iteration);
    (Spent(m[op.from], op.moved, it).(counterparties := m[op.from].counterparties + {op.moveTo}),
     Received(m[op.moveTo], op.moved, op.from, it))
  }

  lemma {:induction false} OtherWritesKeepWallets(d: Disk, ws: seq<Write>)
    requires forall i :: 0 <= i < |ws| ==> !ws[i].PutWallet?
    ensures ApplyWrites(d, ws).wallets == d.wallets
  {
    if ws != [] {
      OtherWritesKeepWallets(d, ws[..|ws| - 1]);
    }
  }

  /** The wallet tree after a prefix of a transfer's writes. */
  lemma WalletsAfterPrefix(env: Env, l: Ledger, op: Op, k: nat)
    requires op.MoveFunds? && Enabled(l, op) && k <= |TransferWrites(env, l, op)|
    ensures var (payer, payee) := MovedWallets(l, op); var m := l.disk.wallets;
      ApplyWrites(l.disk, TransferWrites(env, l, op)[..k]).wallets ==
        if k == 0 then m else if k == 1 then m[payer.id := payer] else m[payer.id := payer][payee.id := payee]
  {
    hide MovedWallets, Apply, TxOf, BuildEntry, Enabled, ApplyWrites;
    var (payer, payee) := MovedWallets(l, op);
    var ws := TransferWrites(env, l, op);
    SingleWrite(l.disk, PutWallet(payer));
    if k == 0 {
      assert ws[..0] == [];
      NoWrites(l.disk);
    } else if k == 1 {
      assert ws[..1] == [PutWallet(payer)];
    } else {
      assert ws[..k] == [PutWallet(payer)] + [PutWallet(payee)] + ws[2..k];
      ApplySnoc(l.disk, [PutWallet(payer)], PutWallet(payee));
      ApplyConcat(l.disk, [PutWallet(payer)] + [PutWallet(payee)], ws[2..k]);
      OtherWritesKeepWallets(ApplyWrites(l.disk, [PutWallet(payer)] + [PutWallet(payee)]), ws[2..k]);
    }
  }

  lemma NoWrites(d: Disk)
    ensures ApplyWrites(d, []) == d
  {
  }

  /** All of the writes together take the store from before the transfer to after it. */
  lemma WritesAreTheTransfer(env: Env, l: Ledger, op: Op)
    requires op.MoveFunds? && Enabled(l, op)
    ensures ApplyWrites(l.disk, TransferWrites(env, l, op)) == Store(Apply(env, l, op)).disk
  {
    hide BuildEntry, IndexAll, ApplyWrites, TransactionWrites;
    var (payer, payee) := MovedWallets(l, op);
    var (tick, tx) := (SatAdd(l.sys.tick, 1), TxOf(env, l, op));
    var e := BuildEntry(tick, l.sys.lastPohHash, [tx.TxId()], env.leader);
    EntryTick(tick, l.sys.lastPohHash, [tx.TxId()], env.leader);
    var (a, b) := ([PutWallet(payer), PutWallet(payee)], TransactionWrites(tx, tick));
    var c := [PutPoh(e), PutState(Apply(env, l, op).sys)];
    ApplyConcat(l.disk, a + b, c);
    ApplyConcat(l.disk, a, b);
    TwoWrites(l.disk, PutWallet(payer), PutWallet(payee));
    var d1 := ApplyWrites(l.disk, a);
    TransactionWritesApply(d1, tx, tick);
    TwoWrites(ApplyWrites(d1, b), PutPoh(e), PutState(Apply(env, l, op).sys));
  }

  lemma TwoWrites(d: Disk, u: Write, v: Write)
    ensures ApplyWrites(d, [u, v]) == ApplyWrite(ApplyWrite(d, u), v)
  {
    SingleWrite(d, u);
    ApplySnoc(d, [u], v);
    assert [u] + [v] == [u, v];
  }

  /** Before its last write a transfer has not touched the persisted state. */
  lemma TransferState(env: Env, l: Ledger, op: Op, k: nat)
    requires op.MoveFunds? && Enabled(l, op) && k < |TransferWrites(env, l, op)|
    ensures ApplyWrites(l.disk, TransferWrites(env, l, op)[..k]).stored == l.disk.stored
  {
    hide MovedWallets, Apply, TxOf, BuildEntry, Enabled, ApplyWrites;
    OtherWritesKeepState(l.disk, TransferWrites(env, l, op)[..k]);
  }

  ghost function AfterCrash(env: Env, l: Ledger, op: Op, k: nat): Ledger
    requires op.MoveFunds? && Enabled(l, op) && k <= |TransferWrites(env, l, op)|
  {
    Reopen(ApplyWrites(l.disk, TransferWrites(env, l, op)[..k]))
  }

  /** Both parties had already taken part in a transaction of this iteration. */
  ghost predicate BothActive(l: Ledger, op: Op)
    requires op.MoveFunds? && Enabled(l, op)
  {
    l.disk.wallets[op.from].lastActive == l.sys.iteration == l.disk.wallets[op.moveTo].lastActive
  }

  lemma TransferEnds(env: Env, l: Ledger, op: Op, k: nat)
    requires op.MoveFunds? && Enabled(l, op) && (k == 0 || k == |TransferWrites(env, l, op)|)
    ensures AfterCrash(env, l, op, k) == if k == 0 then Reopen(l.disk) else Store(Apply(env, l, op))
  {
    var ws := TransferWrites(env, l, op);
    if k == 0 {
      assert ws[..0] == [];
    } else {
      assert ws[..k] == ws;
      WritesAreTheTransfer(env, l, op);
      hide Apply, TransferWrites, ApplyWrites;
    }
  }

  /** A crash in the middle of a transfer is not locked out. From a persisted ledger, the supply counter of
  the reopened ledger agrees with the stored balances exactly when the crash did not fall between the two
  wallet writes; all three counters agree exactly when, in addition, the transfer was complete, had not
  begun, or had no newly active party to count. From a lagging one only the complete transfer helps. */
  lemma TransferCrashExact(env: Env, l: Ledger, op: Op, k: nat)
    requires op.MoveFunds? && Enabled(l, op) && k <= |TransferWrites(env, l, op)| && Sound(l)
    requires Persisted(l) || Fewer(l)
    ensures var (after, n) := (AfterCrash(env, l, op, k), |TransferWrites(env, l, op)|);
      && !after.sys.iterationLock
      && (Persisted(l) ==> (after.sys.totalSupply == TotalBalance(after.disk.wallets) <==> k != 1))
      && (Sound(after) <==> k == n || (Persisted(l) && (k == 0 || (k != 1 && BothActive(l, op)))))
  {
    if k == |TransferWrites(env, l, op)| {
      TransferEnds(env, l, op, k);
      MoveKeeps(env, l, op);
      ApplyParts(env, l, op);
      ApplyUnlocked(env, l, op);
      MoveTotals(l.disk.wallets, op.from, op.moveTo, op.moved, l.sys.iteration);
      hide TotalBalance, ActiveIn, TransferWrites, AfterCrash, Apply;
    } else {
      WalletsAfterPrefix(env, l, op, k);
      TransferState(env, l, op, k);
      HalfMoved(l, op);
      hide TotalBalance, ActiveIn, ApplyWrites, TransferWrites, MovedWallets;
    }
  }

  /** The tree between the writes of a transfer, against the counters from before it. */
  lemma HalfMoved(l: Ledger, op: Op)
    requires op.MoveFunds? && Enabled(l, op) && Sound(l)
    ensures var (payer, payee) := MovedWallets(l, op); var (m, s) := (l.disk.wallets, l.sys);
      var (m1, m2) := (m[payer.id := payer], m[payer.id := payer][payee.id := payee]);
      && s.totalSupply != TotalBalance(m1) && s.totalSupply == TotalBalance(m2) && |m1| == |m2| == |m|
      && (WalletsKeyed(m2, s.iteration) && CountersAgree(m2, s) <==> BothActive(l, op))
  {
    hide TotalBalance, ActiveIn;
    var m := l.disk.wallets;
    var payer := MovedWallets(l, op).0;
    PutBalance(m, payer);
    assert m[payer.id := payer].Keys == m.Keys;
    MoveTotals(m, op.from, op.moveTo, op.moved, l.sys.iteration);
  }

  // ---------- A crashed transfer and the log ----------

  /** A write that touches neither the log up to tick `n` nor a record archived in `txs`. */
  predicate Beyond(w: Write, n: nat, txs: map<Digest, Transaction>)
  {
    (w.PutPoh? ==> w.entry.tick > n) && (w.PutTx? ==> w.tx.TxId() !in txs)
  }

  /** The log up to tick `n` and every archived record are in `d'` as they are in `d`. */
  ghost predicate KeepsRecord(d: Disk, d': Disk, n: nat)
  {
    && (forall t: nat :: t <= n && t in d.poh ==> t in d'.poh && d'.poh[t] == d.poh[t])
    && (forall id :: id in d.txs ==> id in d'.txs && d'.txs[id] == d.txs[id])
  }

  lemma BeyondStep(d: Disk, e: Disk, w: Write, n: nat)
    requires KeepsRecord(d, e, n) && Beyond(w, n, d.txs)
    ensures KeepsRecord(d, ApplyWrite(e, w), n)
  {
    hide Transaction.TxId;
  }

  lemma {:induction false} BeyondKeepsRecord(d: Disk, ws: seq<Write>, n: nat)
    requires forall i :: 0 <= i < |ws| ==> Beyond(ws[i], n, d.txs)
    ensures KeepsRecord(d, ApplyWrites(d, ws), n)
  {
    if ws != [] {
      hide KeepsRecord, Beyond, ApplyWrite;
      BeyondKeepsRecord(d, ws[..|ws| - 1], n);
      BeyondStep(d, ApplyWrites(d, ws[..|ws| - 1]), ws[|ws| - 1], n);
    }
  }

  lemma {:induction false} SameReadBack(d: Disk, d': Disk, n: nat, t: nat)
    requires KeepsRecord(d, d', n) && t <= n && ReadBack(d, t).Some?
    ensures ReadBack(d', t) == ReadBack(d, t)
  {
    if t != 0 {
      SameReadBack(d, d', n, t - 1);
    }
  }

  lemma NewIdNotArchived(env: Env, l: Ledger, op: Op, log: seq<Transaction>)
    requires Admissible(env, l, op) && Inv(env, l, log) && PowfNonNegative(env.libm)
    ensures TxOf(env, l, op).TxId() !in l.disk.txs
  {
    var tx := TxOf(env, l, op);
    IdsStep(env, l, op, log);
    InvRecord(env, l, log);
    TxMapOnly(log, tx.TxId());
    hide Inv, TxOf, TxMap, IndexLog, PohLog, Transaction.TxId;
    forall i ensures !HasId(log, i, tx.TxId()) {
      if 0 <= i < |log| {
        assert (log + [tx])[i] == log[i] && (log + [tx])[|log|] == tx;
      }
    }
  }

  lemma TransferIsBeyond(env: Env, l: Ledger, op: Op, log: seq<Transaction>)
    requires op.MoveFunds? && Admissible(env, l, op) && Inv(env, l, log) && PowfNonNegative(env.libm)
    ensures forall i :: 0 <= i < |TransferWrites(env, l, op)| ==>
      Beyond(TransferWrites(env, l, op)[i], l.sys.tick, l.disk.txs)
  {
    hide Inv, TxOf, Apply, MovedWallets, Enabled, Transaction.TxId, BuildEntry;
    NewIdNotArchived(env, l, op, log);
    EntryTick(SatAdd(l.sys.tick, 1), l.sys.lastPohHash, [TxOf(env, l, op).TxId()], env.leader);
  }

  /** The log of the reopened ledger rebuilds its balances and nonces exactly when the transfer was
  complete, or had not begun and the ledger was persisted: in between, the payer's nonce is ahead of the
  log, and a lagging log knows too few wallets. */
  lemma TransferCrashReplay(env: Env, l: Ledger, op: Op, k: nat, log: seq<Transaction>)
    requires op.MoveFunds? && Admissible(env, l, op) && k <= |TransferWrites(env, l, op)|
    requires Inv(env, l, log) && PowfNonNegative(env.libm) && (Persisted(l) || Lagging(l, log))
    ensures var (after, n) := (AfterCrash(env, l, op, k), |TransferWrites(env, l, op)|);
      var read := ReadBack(after.disk, after.sys.tick);
      && read.Some?
      && (ReplayLog(read.value) == BookOf(after.disk.wallets) <==> k == n || (k == 0 && Persisted(l)))
  {
    assert |TransferWrites(env, l, op)| > 0;
    hide Inv, ReplayLog, ReadBack, BookOf, TransferWrites;
    if k == |TransferWrites(env, l, op)| {
      TransferEnds(env, l, op, k);
      hide Apply, AfterCrash, Enabled;
      InvStep(env, l, op, log);
      InvStore(env, Apply(env, l, op), log + [TxOf(env, l, op)]);
      ReadBackOfReachable(env, AfterCrash(env, l, op, k), log + [TxOf(env, l, op)]);
      InvSound(env, AfterCrash(env, l, op, k), log + [TxOf(env, l, op)]);
    } else {
      InvSound(env, l, log);
      BeginningReplay(env, l, op, k, log);
      hide ApplyWrites, MovedWallets;
    }
  }

  lemma BeginningReplay(env: Env, l: Ledger, op: Op, k: nat, log: seq<Transaction>)
    requires op.MoveFunds? && Admissible(env, l, op) && k < |TransferWrites(env, l, op)|
    requires Inv(env, l, log) && PowfNonNegative(env.libm) && (Persisted(l) || Lagging(l, log))
    ensures var d := ApplyWrites(l.disk, TransferWrites(env, l, op)[..k]);
      && d.stored == l.disk.stored
      && ReadBack(d, d.stored.tick) == Some(log[..d.stored.tick])
      && (ReplayLog(log[..d.stored.tick]) == BookOf(d.wallets) <==> k == 0 && Persisted(l))
  {
    hide Inv, ReplayLog, ReadBack, BookOf, TransferWrites;
    var d := ApplyWrites(l.disk, TransferWrites(env, l, op)[..k]);
    TransferState(env, l, op, k);
    WalletsAfterPrefix(env, l, op, k);
    TransferIsBeyond(env, l, op, log);
    BeyondKeepsRecord(l.disk, TransferWrites(env, l, op)[..k], l.sys.tick);
    InvSound(env, l, log);
    var t := l.disk.stored.tick;
    ReadBackTo(env, l, log, t);
    SameReadBack(l.disk, d, l.sys.tick, t);
    hide ApplyWrites, KeepsRecord, Beyond;
    HalfMoved(l, op);
    BookSize(d.wallets);
    if Persisted(l) {
      assert log[..|log|] == log;
      if k > 0 {
        BookNonces(l.disk.wallets);
        BookNonces(d.wallets);
        assert d.wallets[op.from].nonce == l.disk.wallets[op.from].nonce + 1;
      }
    }
  }
}
