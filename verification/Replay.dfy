/** The archived transactions, folded in tick order, rebuild every balance and nonce. */
module Replay {
  import opened Arith
  import opened Types
  import opened Economy
  import opened EconomyLaws
  import opened WalletMaps
  import opened Ledger
  import opened Counters

  datatype Account = Account(balance: int, nonce: nat)

  type Book = map<WalletId, Account>

  // ---------- The fold: it sees transactions only ----------

  function Lookup(b: Book, id: WalletId): Account { if id in b then b[id] else Account(0, 0) }

  function Credit(b: Book, id: WalletId, amount: int): Book
  {
    var a := Lookup(b, id);
    b[id := a.(balance := a.balance + amount)]
  }

  function Debit(b: Book, id: WalletId, amount: int): Book
  {
    var a := Lookup(b, id);
    b[id := Account(a.balance - amount, a.nonce + 1)]
  }

  /** Amount recorded for a wallet in a penalty or reward list. */
  function Recorded(s: seq<(WalletId, nat)>, id: WalletId): nat
  {
    if s == [] then 0
    else Recorded(s[..|s| - 1], id) + (if s[|s| - 1].0 == id then s[|s| - 1].1 else 0)
  }

  /** Endowment of each new wallet, read off the commit's faucet totals. */
  function Endowment(c: IterationCommit): nat
  {
    if c.newWallets == [] then 0 else (c.faucetFromPenalty + c.faucetFromMint) / |c.newWallets|
  }

  function ReplayCommit(b: Book, c: IterationCommit): Book
  {
    map id | id in b.Keys + (set w | w in c.newWallets) ::
      if id in c.newWallets then Account(Endowment(c), 0)
      else Account(b[id].balance - Recorded(c.penalties, id) + Recorded(c.rewards, id), b[id].nonce)
  }

  function ReplayTx(b: Book, tx: Transaction): Book
  {
    match tx
    case Mint(_, to, amount, _, _, _, _, _, _) => Credit(b, to, amount)
    case Transfer(_, from, to, amount, _, _, _, _) => Credit(Debit(b, from, amount), to, amount)
    case Burn(_, from, amount, _, _, _, _) => Debit(b, from, amount)
    case Commit(c) => ReplayCommit(b, c)
  }

  function ReplayLog(log: seq<Transaction>): Book
  {
    if log == [] then map[] else ReplayTx(ReplayLog(log[..|log| - 1]), log[|log| - 1])
  }

  // ---------- The fold agrees with the ledger ----------

  function BookOf(m: WalletMap): Book { map id | id in m :: Account(m[id].balance, m[id].nonce) }

  lemma BookPut(m: WalletMap, w: Wallet)
    ensures BookOf(m[w.id := w]) == BookOf(m)[w.id := Account(w.balance, w.nonce)]
  {
  }

  lemma {:induction false} RecordedAbsent(s: seq<(WalletId, nat)>, id: WalletId)
    requires id !in Firsts(s)
    ensures Recorded(s, id) == 0
  {
    if s != [] {
      var n := |s| - 1;
      assert Firsts(s) == Firsts(s[..n]) + [s[n].0];
      RecordedAbsent(s[..n], id);
    }
  }

  lemma {:induction false} RecordedAt(s: seq<(WalletId, nat)>, i: nat)
    requires i < |s| && Distinct(Firsts(s))
    ensures Recorded(s, s[i].0) == s[i].1
  {
    var n := |s| - 1;
    assert Firsts(s[..n]) == Firsts(s)[..n];
    assert Firsts(s)[n] == s[n].0 && Firsts(s)[i] == s[i].0;
    if i < n {
      RecordedAt(s[..n], i);
    } else {
      RecordedAbsent(s[..n], s[n].0);
    }
  }

  lemma SeedReplays(env: Env, l: Ledger, op: Op)
    requires op.SeedWallet? && Enabled(l, op)
    ensures BookOf(WalletsAfter(env, l, op)) == ReplayTx(BookOf(l.disk.wallets), TxOf(env, l, op))
  {
    BookPut(l.disk.wallets, NewWallet(l, op.key, op.seedAmount, op.seedOperator));
  }

  lemma ChargeReplays(env: Env, l: Ledger, op: Op)
    requires op.ChargeWallet? && Enabled(l, op) && Fits(env, l, op) && Sound(l)
    ensures BookOf(WalletsAfter(env, l, op)) == ReplayTx(BookOf(l.disk.wallets), TxOf(env, l, op))
  {
    hide TotalBalance, ActiveIn;
    var m := l.disk.wallets;
    BalanceWithinTotal(m, op.to);
    BookPut(m, m[op.to].(balance := SatAdd(m[op.to].balance, op.amount)));
  }

  lemma MoveReplays(env: Env, l: Ledger, op: Op)
    requires op.MoveFunds? && Enabled(l, op) && Sound(l)
    ensures BookOf(WalletsAfter(env, l, op)) == ReplayTx(BookOf(l.disk.wallets), TxOf(env, l, op))
  {
    hide TotalBalance, ActiveIn;
    var (m, it) := (l.disk.wallets, l.sys.iteration);
    TwoBalancesWithinTotal(m, op.from, op.moveTo);
    var payer := Spent(m[op.from], op.moved, it).(counterparties := m[op.from].counterparties + {op.moveTo});
    var payee := Received(m[op.moveTo], op.moved, op.from, it);
    BookPut(m, payer);
    BookPut(m[payer.id := payer], payee);
  }

  lemma BurnReplays(env: Env, l: Ledger, op: Op)
    requires op.BurnFunds? && Enabled(l, op) && Sound(l)
    ensures BookOf(WalletsAfter(env, l, op)) == ReplayTx(BookOf(l.disk.wallets), TxOf(env, l, op))
  {
    hide TotalBalance, ActiveIn;
    BookPut(l.disk.wallets, Spent(l.disk.wallets[op.burnFrom], op.burned, l.sys.iteration));
  }

  /** An existing wallet of an iteration: its recorded penalty and reward are the ones applied. */
  lemma ExistingReplays(env: Env, l: Ledger, op: Op, i: nat)
    requires op.Iterate? && Enabled(l, op) && PowfNonNegative(env.libm) && Sound(l) && Fits(env, l, op)
    requires i < |op.listing|
    ensures var c := Result(env, l, op).commit; var id := op.listing[i].id;
      && |Settled(env, l, op)| == |op.listing|
      && Settled(env, l, op)[i].balance == op.listing[i].balance - Recorded(c.penalties, id) + Recorded(c.rewards, id)
  {
    hide Redistribute, FaucetWallets, ExecuteIteration, TotalBalance, ActiveIn, BurnRate, PlannedWallets, MicroSeed,
      Recorded;
    var sys := l.sys.(iterationLock := true);
    ListingTotals(op.listing, l.disk.wallets);
    CommitFields(env.libm, op.listing, op.parameters, sys, env.operator);
    assert Inflation(sys) == Inflation(l.sys);
    var beta := BurnRate(op.parameters, Inflation(sys));
    WalletUpdate(env.libm, op.parameters, op.listing, beta, i);
    var c := Result(env, l, op).commit;
    var r := Redistribute(env.libm, op.parameters, op.listing, beta);
    assert Firsts(c.penalties)[i] == Ids(op.listing)[i] == Firsts(c.rewards)[i];
    assert Amounts(c.penalties)[i] == r.penalties[i] && Amounts(c.rewards)[i] == r.settled.rewards[i];
    RecordedAt(c.penalties, i);
    RecordedAt(c.rewards, i);
  }

  lemma DivExact(n: nat, seed: nat)
    requires n > 0
    ensures (n * seed) / n == seed
  {
    var q := (n * seed) / n;
    ZeroFactor(n, seed - q, (n * seed) % n);
  }

  lemma ZeroFactor(n: nat, d: int, r: nat)
    requires n * d == r < n
    ensures d == 0
  {
  }

  /** The endowment read off the commit is the balance every created wallet starts with. */
  lemma EndowmentIsSeed(env: Env, l: Ledger, op: Op)
    requires op.Iterate? && Enabled(l, op) && PowfNonNegative(env.libm) && Sound(l) && Fits(env, l, op)
    ensures var c := Result(env, l, op).commit;
      forall i :: 0 <= i < |Created(env, l, op)| ==>
        Created(env, l, op)[i].balance == Endowment(c) && Created(env, l, op)[i].nonce == 0
  {
    hide Redistribute, ExecuteIteration, TotalBalance, ActiveIn, BurnRate, PlannedWallets, MicroSeed, Endowment;
    var sys := l.sys.(iterationLock := true);
    ListingTotals(op.listing, l.disk.wallets);
    CommitFields(env.libm, op.listing, op.parameters, sys, env.operator);
    IterationConserves(env.libm, op.listing, op.parameters, sys, env.operator);
    EndowmentValue(Result(env, l, op).commit, MicroSeed(op.parameters));
  }

  lemma EndowmentValue(c: IterationCommit, seed: nat)
    requires c.faucetFromPenalty + c.faucetFromMint == |c.newWallets| * seed
    ensures c.newWallets != [] ==> Endowment(c) == seed
  {
    if c.newWallets != [] {
      DivExact(|c.newWallets|, seed);
    }
  }

  lemma CommitReplays(m: WalletMap, t: WalletMap, created: seq<Wallet>, c: IterationCommit)
    requires t.Keys == m.Keys && Distinct(Ids(created)) && Ids(created) == c.newWallets
    requires forall id :: id in m ==>
      && t[id].balance == m[id].balance - Recorded(c.penalties, id) + Recorded(c.rewards, id)
      && t[id].nonce == m[id].nonce
    requires forall i :: 0 <= i < |created| ==> created[i].balance == Endowment(c) && created[i].nonce == 0
    ensures BookOf(PutAll(t, created)) == ReplayCommit(BookOf(m), c)
  {
    hide Recorded, Endowment;
    PutAllKeys(t, created);
    var (a, b) := (BookOf(PutAll(t, created)), ReplayCommit(BookOf(m), c));
    assert a.Keys == b.Keys;
    forall id | id in a ensures a[id] == b[id] {
      if id in Ids(created) {
        var i :| 0 <= i < |created| && Ids(created)[i] == id;
        PutAllAt(t, created, i);
      }
    }
  }

  lemma IterateReplays(env: Env, l: Ledger, op: Op)
    requires op.Iterate? && Enabled(l, op) && PowfNonNegative(env.libm) && Sound(l) && Fits(env, l, op)
    ensures BookOf(WalletsAfter(env, l, op)) == ReplayTx(BookOf(l.disk.wallets), TxOf(env, l, op))
  {
    var m := l.disk.wallets;
    var (settled, created) := (Settled(env, l, op), Created(env, l, op));
    var c := Result(env, l, op).commit;
    assert TxOf(env, l, op) == Commit(c);
    hide Settled, Created, WalletsAfter, TxOf, Result, Fits, Enabled, TotalBalance, ActiveIn, Recorded, Endowment,
      PlannedWallets, MicroSeed, Sound, BookOf, ReplayCommit, PutAll, IsListing;
    CreatedFacts(env, l, op);
    ResultParts(env, l, op);
    SettledTree(env, l, op);
    EndowmentIsSeed(env, l, op);
    var t := PutAll(m, settled);
    forall id | id in m
      ensures t[id].balance == m[id].balance - Recorded(c.penalties, id) + Recorded(c.rewards, id)
    {
      SettledReplays(env, l, op, id);
    }
    CommitReplays(m, t, created, c);
  }

  lemma SettledReplays(env: Env, l: Ledger, op: Op, id: WalletId)
    requires op.Iterate? && Enabled(l, op) && PowfNonNegative(env.libm) && Sound(l) && Fits(env, l, op)
    requires id in l.disk.wallets
    ensures var t := PutAll(l.disk.wallets, Settled(env, l, op)); var c := Result(env, l, op).commit;
      && id in t
      && t[id].balance == l.disk.wallets[id].balance - Recorded(c.penalties, id) + Recorded(c.rewards, id)
  {
    hide Settled, Created, WalletsAfter, TxOf, Result, Fits, TotalBalance, ActiveIn, Recorded, Sound;
    var settled := Settled(env, l, op);
    ResultParts(env, l, op);
    SettledTree(env, l, op);
    ListingTotals(op.listing, l.disk.wallets);
    ListingTotals(settled, PutAll(l.disk.wallets, settled));
    var i :| 0 <= i < |op.listing| && Ids(op.listing)[i] == id;
    assert Ids(settled)[i] == id;
    ExistingReplays(env, l, op, i);
  }

  /** One step of the fold follows every admissible operation. */
  lemma ReplayStep(env: Env, l: Ledger, op: Op)
    requires Admissible(env, l, op) && Sound(l) && PowfNonNegative(env.libm)
    ensures BookOf(Apply(env, l, op).disk.wallets) == ReplayTx(BookOf(l.disk.wallets), TxOf(env, l, op))
  {
    hide Apply, WalletsAfter, TxOf, ReplayTx, BookOf, CountersAfter, Sound, SoundAfter;
    ApplyParts(env, l, op);
    match op
    case SeedWallet(_, _, _, _, _, _, _) => SeedReplays(env, l, op);
    case ChargeWallet(_, _, _, _, _, _) => ChargeReplays(env, l, op);
    case MoveFunds(_, _, _, _, _, _, _) => MoveReplays(env, l, op);
    case BurnFunds(_, _, _, _, _, _) => BurnReplays(env, l, op);
    case Iterate(_, _) =>
      IterateReplays(env, l, op);
  }

  lemma ReplaySnoc(log: seq<Transaction>, tx: Transaction)
    ensures ReplayLog(log + [tx]) == ReplayTx(ReplayLog(log), tx)
  {
    assert (log + [tx])[..|log|] == log;
  }
}
