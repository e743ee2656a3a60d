/** The invariant of every reachable ledger and the step that keeps it. */
module Invariant {
  import opened Arith
  import opened Types
  import opened Economy
  import opened WalletMaps
  import opened Poh
  import opened Ledger
  import opened Counters
  import opened Replay
  import opened History
  import opened Archive

  /** `log` is the list of accepted transactions so far. */
  ghost predicate Inv(env: Env, l: Ledger, log: seq<Transaction>)
  {
    && Sound(l)
    && FaucetIdsPast(l.disk.wallets, l.sys.iteration)
    && BookOf(l.disk.wallets) == ReplayLog(log)
    && NoncesInOrder(ReplayLog(log), log)
    && IdsTied(log) && IdsDistinct(log)
    && CommitsFollow(log)
    && RemembersLastCommit(l.sys, log)
    && Archived(env, l, log)
  }

  lemma InvInit(env: Env)
    ensures Inv(env, EMPTY, [])
  {
    assert BalanceOf(map[]) == map[];
    assert ActiveIn(map[], 0) == {};
  }

  lemma InvStore(env: Env, l: Ledger, log: seq<Transaction>)
    requires Inv(env, l, log)
    ensures Inv(env, Store(l), log)
  {
    hide BookOf, ReplayLog, NoncesInOrder, IdsTied, IdsDistinct, CommitsFollow, TotalBalance, ActiveIn,
      RemembersLastCommit, FaucetIdsPast, TxMap, IndexLog, PohLog, LastHash;
  }

  lemma TxShape(env: Env, l: Ledger, op: Op, log: seq<Transaction>)
    requires Admissible(env, l, op) && Inv(env, l, log) && PowfNonNegative(env.libm)
    ensures var tx := TxOf(env, l, op);
      && (tx.Transfer? ==> tx.from != tx.to)
      && (tx.Commit? <==> op.Iterate?)
      && (op.Iterate? ==> tx == Commit(Result(env, l, op).commit))
      && (tx.Commit? ==> forall id :: id in tx.commit.newWallets ==> id !in BookOf(l.disk.wallets))
  {
    hide ExecuteIteration;
    if op.Iterate? {
      FreshInRun(l, op);
      hide Inv, Result, Created, BookOf;
      assert Sound(l) by { InvSound(env, l, log); }
      ResultParts(env, l, op);
      CreatedFacts(env, l, op);
      assert |Created(env, l, op)| == PlannedWallets(op.parameters, |op.listing|) by { IterationCounters(env, l, op); }
      BookNonces(l.disk.wallets);
    }
  }

  lemma InvSound(env: Env, l: Ledger, log: seq<Transaction>)
    requires Inv(env, l, log)
    ensures Sound(l) && BookOf(l.disk.wallets) == ReplayLog(log) && RemembersLastCommit(l.sys, log)
    ensures l.sys.tick == |log|
  {
  }

  lemma CommitsSnoc(log: seq<Transaction>, tx: Transaction)
    requires CommitsFollow(log) && (tx.Commit? ==> CommitFollows(log, tx.commit))
    ensures CommitsFollow(log + [tx])
  {
    hide CommitFollows;
    var more := log + [tx];
    assert more[..|log|] == log;
    forall i | 0 <= i < |more| && more[i].Commit? ensures CommitFollows(more[..i], more[i].commit) {
      assert more[..i] == log[..i];
    }
  }

  lemma RemembersStep(env: Env, l: Ledger, op: Op, log: seq<Transaction>)
    requires Enabled(l, op) && RemembersLastCommit(l.sys, log)
    requires op.Iterate? ==> CommitFollows(log, Result(env, l, op).commit)
    ensures RemembersLastCommit(CountersAfter(env, l, op), log + [TxOf(env, l, op)])
  {
    hide ExecuteIteration, BookTotal, InflationOf, ReplayLog;
    assert (log + [TxOf(env, l, op)])[..|log|] == log;
  }

  lemma CommitsStep(env: Env, l: Ledger, op: Op, log: seq<Transaction>)
    requires Admissible(env, l, op) && Inv(env, l, log) && PowfNonNegative(env.libm)
    ensures CommitsFollow(log + [TxOf(env, l, op)])
    ensures RemembersLastCommit(CountersAfter(env, l, op), log + [TxOf(env, l, op)])
  {
    hide ExecuteIteration, CommitFollows, BookOf, ReplayLog, NoncesInOrder, IdsTied, IdsDistinct, Archived, Sound,
      TxOf, CountersAfter, CommitsFollow, RemembersLastCommit;
    TxShape(env, l, op, log);
    if op.Iterate? {
      CommitFollowsStep(env, l, op, log);
    }
    CommitsSnoc(log, TxOf(env, l, op));
    RemembersStep(env, l, op, log);
  }

  lemma IdsSnoc(b: Book, log: seq<Transaction>, tx: Transaction)
    requires IdsTied(log) && IdsDistinct(log) && IdTied(tx, |log| + 1) && NoncesInOrder(b, log)
    requires Sender(tx).Some? ==> SenderNonce(tx) == NonceIn(b, Sender(tx).value)
    requires CommitsFollow(log) && (tx.Commit? ==> tx.commit.iterationId == CommitCount(log) + 1)
    ensures IdsTied(log + [tx]) && IdsDistinct(log + [tx])
  {
    hide NoncesInOrder, IdTied, CommitsFollow, Sender, SenderNonce;
    forall i | 0 <= i < |log| ensures log[i].TxId() != tx.TxId() {
      if log[i].Commit? && tx.Commit? {
        CommitIdBound(log, i);
      }
      NewIdIsNew(b, log, tx, i);
    }
  }

  lemma IdsStep(env: Env, l: Ledger, op: Op, log: seq<Transaction>)
    requires Admissible(env, l, op) && Inv(env, l, log) && PowfNonNegative(env.libm)
    ensures var more := log + [TxOf(env, l, op)]; IdsTied(more) && IdsDistinct(more)
  {
    hide TxOf, ReplayLog, BookOf, NoncesInOrder, Archived, Sound, Result, CommitFollows, IdTied, IdsTied,
      IdsDistinct, CommitsFollow, Sender, SenderNonce;
    InvSound(env, l, log);
    TxIdTied(env, l, op);
    TxNonce(env, l, op);
    TxShape(env, l, op, log);
    if op.Iterate? {
      CommitFollowsStep(env, l, op, log);
      CommitNumber(log, Result(env, l, op).commit);
    }
    IdsSnoc(ReplayLog(log), log, TxOf(env, l, op));
  }

  lemma CommitNumber(log: seq<Transaction>, c: IterationCommit)
    requires CommitFollows(log, c)
    ensures c.iterationId == CommitCount(log) + 1
  {
  }

  /** Every admissible operation keeps the invariant, with its transaction appended to the history. */
  lemma InvStep(env: Env, l: Ledger, op: Op, log: seq<Transaction>)
    requires Admissible(env, l, op) && Inv(env, l, log) && PowfNonNegative(env.libm)
    ensures Inv(env, Apply(env, l, op), log + [TxOf(env, l, op)])
  {
    var tx := TxOf(env, l, op);
    SoundStep(env, l, op);
    ReplayStep(env, l, op);
    ReplaySnoc(log, tx);
    InvSound(env, l, log);
    TxNonce(env, l, op);
    TxShape(env, l, op, log);
    ApplyParts(env, l, op);
    hide Sound, SoundAfter, FaucetIdsPast, BookOf, ReplayLog, ReplayTx, NoncesInOrder, IdsTied, IdsDistinct,
      CommitsFollow, Archived, TxOf, Apply, WalletsAfter, CountersAfter, Admissible, Enabled, Fits;
    NoncesStep(ReplayLog(log), log, tx);
    IdsStep(env, l, op, log);
    CommitsStep(env, l, op, log);
    assert l.sys.tick < U64_MAX by { AdmissibleTick(env, l, op); }
    ApplyArchives(env, l, op, log);
    RemembersAfterAppend(CountersAfter(env, l, op), Apply(env, l, op).sys, log + [tx]);
  }

  lemma AdmissibleTick(env: Env, l: Ledger, op: Op)
    requires Admissible(env, l, op)
    ensures Enabled(l, op) && l.sys.tick < U64_MAX
  {
  }

  lemma RemembersAfterAppend(s: SystemState, t: SystemState, log: seq<Transaction>)
    requires RemembersLastCommit(s, log) && t == s.(tick := t.tick, lastPohHash := t.lastPohHash)
    ensures RemembersLastCommit(t, log)
  {
  }
}
