/** What the log of a run looks like: nonces, ids, hash chain, index and commits. */
module History {
  import opened Sums
  import opened Types
  import opened Economy
  import opened EconomyLaws
  import opened WalletMaps
  import opened Ledger
  import opened Counters
  import opened Replay

  // ---------- Nonces ----------

  function Sender(tx: Transaction): Option<WalletId>
  {
    match tx
    case Transfer(_, from, _, _, _, _, _, _) => Some(from)
    case Burn(_, from, _, _, _, _, _) => Some(from)
    case _ => None
  }

  function SenderNonce(tx: Transaction): nat
  {
    match tx
    case Transfer(_, _, _, _, nonce, _, _, _) => nonce
    case Burn(_, _, _, nonce, _, _, _) => nonce
    case _ => 0
  }

  /** Nonces of a wallet's accepted transfers and burns, in tick order. */
  function Outgoing(log: seq<Transaction>, wallet: WalletId): seq<nat>
  {
    if log == [] then []
    else
      var tx := log[|log| - 1];
      Outgoing(log[..|log| - 1], wallet) + (if Sender(tx) == Some(wallet) then [SenderNonce(tx)] else [])
  }

  function UpTo(n: nat): seq<nat> { seq(n, i => i) }

  function NonceIn(b: Book, wallet: WalletId): nat { Lookup(b, wallet).nonce }

  /** Every wallet's outgoing nonces are 0, 1, ..., one less than its stored nonce, each once, in order. */
  ghost predicate NoncesInOrder(b: Book, log: seq<Transaction>)
  {
    forall w :: Outgoing(log, w) == UpTo(NonceIn(b, w))
  }

  /** A transaction spends exactly the nonce its sender is at. */
  lemma TxNonce(env: Env, l: Ledger, op: Op)
    requires Enabled(l, op)
    ensures var tx := TxOf(env, l, op); var b := BookOf(l.disk.wallets);
      match Sender(tx)
      case Some(w) => w in b && SenderNonce(tx) == NonceIn(b, w)
      case None => true
  {
    hide ExecuteIteration, BookOf;
    assert forall id :: id in l.disk.wallets ==>
      id in BookOf(l.disk.wallets) && BookOf(l.disk.wallets)[id].nonce == l.disk.wallets[id].nonce by {
      BookNonces(l.disk.wallets);
    }
  }

  lemma BookNonces(m: WalletMap)
    ensures forall id :: id in m <==> id in BookOf(m)
    ensures forall id :: id in m ==> BookOf(m)[id] == Account(m[id].balance, m[id].nonce)
  {
  }

  /** Replaying a transaction advances the sender's nonce and no other, if new wallets are new. */
  lemma ReplayNonce(b: Book, tx: Transaction, w: WalletId)
    requires tx.Transfer? ==> tx.from != tx.to
    requires tx.Commit? ==> forall id :: id in tx.commit.newWallets ==> id !in b
    ensures NonceIn(ReplayTx(b, tx), w) == NonceIn(b, w) + (if Sender(tx) == Some(w) then 1 else 0)
  {
    hide Recorded, Endowment;
  }

  lemma OutgoingSnoc(log: seq<Transaction>, tx: Transaction, w: WalletId)
    ensures Outgoing(log + [tx], w) ==
      Outgoing(log, w) + (if Sender(tx) == Some(w) then [SenderNonce(tx)] else [])
  {
    assert (log + [tx])[..|log|] == log;
  }

  lemma NoncesStep(b: Book, log: seq<Transaction>, tx: Transaction)
    requires NoncesInOrder(b, log)
    requires tx.Transfer? ==> tx.from != tx.to
    requires tx.Commit? ==> forall id :: id in tx.commit.newWallets ==> id !in b
    requires Sender(tx).Some? ==> SenderNonce(tx) == NonceIn(b, Sender(tx).value)
    ensures NoncesInOrder(ReplayTx(b, tx), log + [tx])
  {
    hide ReplayTx, NonceIn, Sender, SenderNonce;
    forall w ensures Outgoing(log + [tx], w) == UpTo(NonceIn(ReplayTx(b, tx), w)) {
      OutgoingSnoc(log, tx, w);
      ReplayNonce(b, tx, w);
      assert UpTo(NonceIn(b, w) + 1) == UpTo(NonceIn(b, w)) + [NonceIn(b, w)];
    }
  }

  /** An earlier spend of a wallet has a smaller nonce than the wallet is at. */
  lemma {:induction false} EarlierNonce(log: seq<Transaction>, i: nat, w: WalletId)
    requires i < |log| && Sender(log[i]) == Some(w)
    ensures SenderNonce(log[i]) in Outgoing(log, w)
  {
    if i < |log| - 1 {
      EarlierNonce(log[..|log| - 1], i, w);
    }
  }

  // ---------- Transaction ids ----------

  /** The id at tick `i + 1` is the digest of a payload that carries what makes it unique. */
  ghost predicate IdTied(tx: Transaction, tick: nat)
  {
    && tx.TxId().PayloadHash?
    && var p := tx.TxId().payload;
       match tx
       case Mint(_, _, _, _, _, _, _, _, _) => p.MintPayload? && p.nonce == tick
       case Transfer(_, from, _, _, nonce, _, _, _) => p.TransferPayload? && p.tFrom == from && p.tNonce == nonce
       case Burn(_, from, _, nonce, _, _, _) => p.BurnPayload? && p.bFrom == from && p.bNonce == nonce
       case Commit(c) => p.CommitPayload? && p.iterationId == c.iterationId
  }

  ghost predicate IdsTied(log: seq<Transaction>)
  {
    forall i :: 0 <= i < |log| ==> IdTied(log[i], i + 1)
  }

  ghost predicate IdsDistinct(log: seq<Transaction>)
  {
    forall i, j :: 0 <= i < j < |log| ==> log[i].TxId() != log[j].TxId()
  }

  lemma TxIdTied(env: Env, l: Ledger, op: Op)
    requires Enabled(l, op)
    ensures IdTied(TxOf(env, l, op), l.sys.tick + 1)
  {
    hide Redistribute, FaucetWallets;
  }

  /** A new id differs from every earlier one. */
  lemma NewIdIsNew(b: Book, log: seq<Transaction>, tx: Transaction, i: nat)
    requires i < |log| && IdsTied(log) && IdTied(tx, |log| + 1) && NoncesInOrder(b, log)
    requires Sender(tx).Some? ==> SenderNonce(tx) == NonceIn(b, Sender(tx).value)
    requires log[i].Commit? && tx.Commit? ==> log[i].commit.iterationId < tx.commit.iterationId
    ensures log[i].TxId() != tx.TxId()
  {
    assert IdTied(log[i], i + 1);
    if Sender(tx).Some? && Sender(log[i]) == Sender(tx) {
      EarlierNonce(log, i, Sender(tx).value);
      assert SenderNonce(log[i]) in UpTo(NonceIn(b, Sender(tx).value));
    }
  }

  // ---------- Commits ----------

  function CommitCount(log: seq<Transaction>): nat
  {
    if log == [] then 0 else CommitCount(log[..|log| - 1]) + (if log[|log| - 1].Commit? then 1 else 0)
  }

  function LastCommit(log: seq<Transaction>): Option<IterationCommit>
  {
    if log == [] then None
    else match log[|log| - 1]
      case Commit(c) => Some(c)
      case _ => LastCommit(log[..|log| - 1])
  }

  /** Supply change of a commit relative to where it started. */
  function InflationOf(previous: Option<IterationCommit>): real
  {
    match previous
    case None => 0.0
    case Some(c) =>
      if c.snapshotSupply > 0 then (c.faucetFromMint as real - c.burned as real) / c.snapshotSupply as real else 0.0
  }

  ghost function BookTotal(b: Book): nat
  {
    MapSum(map id | id in b :: if b[id].balance >= 0 then b[id].balance as nat else 0)
  }

  lemma BookTotalIsTotal(m: WalletMap)
    ensures BookTotal(BookOf(m)) == TotalBalance(m)
  {
    var b := BookOf(m);
    assert (map id | id in b :: if b[id].balance >= 0 then b[id].balance as nat else 0) == BalanceOf(m);
  }

  /** A commit at position `i`: numbered in order, starting from the supply the earlier log leaves,
  balanced, and steering by the supply change of the commit before it. */
  ghost predicate CommitFollows(before: seq<Transaction>, c: IterationCommit)
  {
    && c.iterationId == CommitCount(before) + 1
    && c.snapshotSupply == BookTotal(ReplayLog(before))
    && c.burned <= c.snapshotSupply
    && c.postSupply == c.snapshotSupply - c.burned + c.faucetFromMint
    && c.burned + c.faucetFromPenalty + Sum(Amounts(c.rewards)) == Sum(Amounts(c.penalties))
    && c.inflation == InflationOf(LastCommit(before))
  }

  ghost predicate CommitsFollow(log: seq<Transaction>)
  {
    forall i :: 0 <= i < |log| && log[i].Commit? ==> CommitFollows(log[..i], log[i].commit)
  }

  /** The in-memory state remembers the last commit. */
  ghost predicate RemembersLastCommit(s: SystemState, log: seq<Transaction>)
  {
    && s.iteration == CommitCount(log)
    && match LastCommit(log)
       case None => s.previousStartSupply == 0
       case Some(c) =>
         && s.previousStartSupply == c.snapshotSupply && s.previousSupply == c.postSupply
         && s.lastInflation == c.inflation
         && c.burned <= c.snapshotSupply
         && c.postSupply == c.snapshotSupply - c.burned + c.faucetFromMint
  }

  lemma InflationIsRemembered(s: SystemState, log: seq<Transaction>)
    requires RemembersLastCommit(s, log)
    ensures Inflation(s) == InflationOf(LastCommit(log))
  {
    match LastCommit(log)
    case None =>
    case Some(c) =>
      assert s.previousSupply as real - s.previousStartSupply as real == c.faucetFromMint as real - c.burned as real;
  }

  lemma {:induction false} CommitIdBound(log: seq<Transaction>, i: nat)
    requires CommitsFollow(log) && i < |log| && log[i].Commit?
    ensures log[i].commit.iterationId <= CommitCount(log)
  {
    assert CommitFollows(log[..i], log[i].commit);
    CommitCountMonotone(log, i + 1);
    assert log[..i + 1][..i] == log[..i];
  }

  lemma {:induction false} CommitCountMonotone(log: seq<Transaction>, i: nat)
    requires i <= |log|
    ensures CommitCount(log[..i]) <= CommitCount(log)
  {
    if i == |log| {
      assert log[..i] == log;
    } else {
      CommitCountMonotone(log[..|log| - 1], i);
      assert log[..|log| - 1][..i] == log[..i];
    }
  }

  /** The transaction of an operation, as a commit or not, follows the log. */
  lemma CommitFollowsStep(env: Env, l: Ledger, op: Op, log: seq<Transaction>)
    requires op.Iterate? && Enabled(l, op) && PowfNonNegative(env.libm) && Sound(l) && Fits(env, l, op)
    requires BookOf(l.disk.wallets) == ReplayLog(log) && RemembersLastCommit(l.sys, log)
    ensures CommitFollows(log, Result(env, l, op).commit)
  {
    hide ExecuteIteration, BookTotal, TotalBalance, ReplayLog, BookOf, InflationOf, Inflation, PlannedWallets,
      MicroSeed, IsListing, ActiveIn, WalletsKeyed;
    var sys := l.sys.(iterationLock := true);
    ListingTotals(op.listing, l.disk.wallets);
    IterationConserves(env.libm, op.listing, op.parameters, sys, env.operator);
    BookTotalIsTotal(l.disk.wallets);
    InflationIsRemembered(l.sys, log);
    ResultHeader(env, l, op);
  }

  lemma ResultHeader(env: Env, l: Ledger, op: Op)
    requires op.Iterate? && Enabled(l, op)
    ensures var c := Result(env, l, op).commit;
      c.iterationId == l.sys.iteration + 1 && c.inflation == Inflation(l.sys)
  {
    hide Redistribute, FaucetWallets, Inflation;
    var sys := l.sys.(iterationLock := true);
    assert Inflation(sys) == Inflation(l.sys) by { InflationUnlocked(l.sys); }
  }

  lemma InflationUnlocked(s: SystemState)
    ensures Inflation(s.(iterationLock := true)) == Inflation(s)
  {
  }
}
