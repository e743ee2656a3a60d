/** The incremental counters of `SystemState` against a full scan of the wallet tree. */
module Counters {
  import opened Arith
  import opened Types
  import opened Economy
  import opened EconomyLaws
  import opened WalletMaps
  import opened Storage
  import opened Ledger
  import Poh

  /** Every wallet is stored under its own id and was last active no later than now. */
  ghost predicate WalletsKeyed(m: WalletMap, iteration: nat)
  {
    forall id :: id in m ==> m[id].id == id && m[id].lastActive <= iteration
  }

  /** A stored faucet-derived id belongs to an iteration that has already run. */
  ghost predicate FaucetIdsPast(m: WalletMap, iteration: nat)
  {
    forall id :: id in m && id.KeyHash? && id.key.Faucet? ==> id.key.iteration <= iteration
  }

  /** The three counters say what a scan would say, and the scan fits in 64 bits. */
  ghost predicate CountersAgree(m: WalletMap, s: SystemState)
  {
    && s.totalSupply == TotalBalance(m) <= U64_MAX
    && s.nWallets == |m| <= U64_MAX
    && s.nActive == |ActiveIn(m, s.iteration)|
  }

  ghost predicate Sound(l: Ledger)
  {
    && WalletsKeyed(l.disk.wallets, l.sys.iteration)
    && CountersAgree(l.disk.wallets, l.sys)
  }

  ghost predicate SoundAfter(env: Env, l: Ledger, op: Op)
    requires Enabled(l, op)
  {
    var (m, s) := (WalletsAfter(env, l, op), CountersAfter(env, l, op));
    WalletsKeyed(m, s.iteration) && CountersAgree(m, s)
  }

  /** Appending the transaction touches neither wallets nor counters. */
  lemma ApplyParts(env: Env, l: Ledger, op: Op)
    requires Enabled(l, op)
    ensures var l' := Apply(env, l, op); var s := CountersAfter(env, l, op);
      && l'.disk.wallets == WalletsAfter(env, l, op)
      && l'.sys == s.(tick := SatAdd(s.tick, 1), lastPohHash := l'.sys.lastPohHash)
      && (Sound(l') <==> SoundAfter(env, l, op))
  {
    hide WalletsAfter, CountersAfter, TxOf, Poh.BuildEntry, IndexAll, Enabled, TotalBalance, ActiveIn;
  }

  lemma ActiveWithinWallets(m: WalletMap, iteration: nat)
    ensures |ActiveIn(m, iteration)| <= |m|
  {
    SubsetSize(ActiveIn(m, iteration), m.Keys);
  }

  lemma {:induction false} SubsetSize<T>(a: set<T>, b: set<T>)
    requires a <= b
    ensures |a| <= |b|
    decreases |a|
  {
    if x :| x in a {
      SubsetSize(a - {x}, b - {x});
    }
  }

  /** Replacing a stored wallet moves the active set by at most that wallet. */
  lemma ActivePut(m: WalletMap, w: Wallet, iteration: nat)
    requires w.lastActive == iteration
    ensures |ActiveIn(m[w.id := w], iteration)| ==
      |ActiveIn(m, iteration)| + (if w.id in m && m[w.id].lastActive == iteration then 0 else 1)
  {
    assert ActiveIn(m[w.id := w], iteration) == ActiveIn(m, iteration) + {w.id};
    if w.id in m && m[w.id].lastActive == iteration {
      assert w.id in ActiveIn(m, iteration);
      assert ActiveIn(m, iteration) + {w.id} == ActiveIn(m, iteration);
    } else {
      assert w.id !in ActiveIn(m, iteration);
    }
  }

  lemma ActivePutSame(m: WalletMap, w: Wallet, iteration: nat)
    requires w.id in m && w.lastActive == m[w.id].lastActive
    ensures ActiveIn(m[w.id := w], iteration) == ActiveIn(m, iteration)
  {
  }

  // ---------- One lemma per operation ----------

  /** The counters after a new wallet agree with the scan exactly when supply and wallet count still fit
  in 64 bits. */
  lemma SeedExact(env: Env, l: Ledger, op: Op)
    requires op.SeedWallet? && Enabled(l, op) && Sound(l)
    ensures SoundAfter(env, l, op) <==>
      l.sys.totalSupply + op.seedAmount <= U64_MAX && l.sys.nWallets < U64_MAX
  {
    hide TotalBalance, ActiveIn;
    var m := l.disk.wallets;
    var w := NewWallet(l, op.key, op.seedAmount, op.seedOperator);
    PutBalance(m, w);
    ActivePut(m, w, l.sys.iteration);
    ActiveWithinWallets(m, l.sys.iteration);
  }

  /** The counters after a charge agree with the scan exactly when the new supply fits in 64 bits, or
  when no other wallet holds anything, so that supply and balance saturate together. */
  lemma ChargeExact(env: Env, l: Ledger, op: Op)
    requires op.ChargeWallet? && Enabled(l, op) && Sound(l)
    ensures SoundAfter(env, l, op) <==>
      (l.sys.totalSupply + op.amount <= U64_MAX || l.disk.wallets[op.to].balance == l.sys.totalSupply)
  {
    hide TotalBalance, ActiveIn;
    var m := l.disk.wallets;
    var w := m[op.to].(balance := SatAdd(m[op.to].balance, op.amount));
    PutBalance(m, w);
    ActivePutSame(m, w, l.sys.iteration);
    BalanceWithinTotal(m, op.to);
    assert WalletsAfter(env, l, op) == m[op.to := w];
    assert m[op.to := w].Keys == m.Keys;
  }

  lemma MoveTotals(m: WalletMap, from: WalletId, to: WalletId, amount: nat, it: nat)
    requires from in m && to in m && from != to && m[from].id == from && m[to].id == to
    requires amount <= m[from].balance && TotalBalance(m) <= U64_MAX
    ensures var payer := Spent(m[from], amount, it).(counterparties := m[from].counterparties + {to});
      var payee := Received(m[to], amount, from, it); var m' := m[from := payer][to := payee];
      && TotalBalance(m') == TotalBalance(m)
      && |ActiveIn(m', it)| == |ActiveIn(m, it)| + NewlyActive(m[from], it) + NewlyActive(m[to], it)
      && |ActiveIn(m', it)| <= |m'| == |m|
  {
    hide TotalBalance, ActiveIn;
    var payer := Spent(m[from], amount, it).(counterparties := m[from].counterparties + {to});
    var payee := Received(m[to], amount, from, it);
    TwoBalancesWithinTotal(m, from, to);
    PutBalance(m, payer);
    PutBalance(m[from := payer], payee);
    ActivePut(m, payer, it);
    ActivePut(m[from := payer], payee, it);
    ActiveWithinWallets(m[from := payer][to := payee], it);
    assert m[from := payer][to := payee].Keys == m.Keys;
  }

  lemma MoveKeeps(env: Env, l: Ledger, op: Op)
    requires op.MoveFunds? && Enabled(l, op) && Sound(l)
    ensures SoundAfter(env, l, op)
  {
    hide TotalBalance, ActiveIn;
    MoveTotals(l.disk.wallets, op.from, op.moveTo, op.moved, l.sys.iteration);
  }

  lemma BurnTotals(m: WalletMap, from: WalletId, amount: nat, it: nat)
    requires from in m && m[from].id == from && amount <= m[from].balance
    ensures var m' := m[from := Spent(m[from], amount, it)];
      && amount <= TotalBalance(m) && TotalBalance(m') == TotalBalance(m) - amount
      && |ActiveIn(m', it)| == |ActiveIn(m, it)| + NewlyActive(m[from], it)
      && |ActiveIn(m', it)| <= |m'| == |m|
  {
    hide TotalBalance, ActiveIn;
    var w := Spent(m[from], amount, it);
    BalanceWithinTotal(m, from);
    PutBalance(m, w);
    ActivePut(m, w, it);
    ActiveWithinWallets(m[from := w], it);
    assert m[from := w].Keys == m.Keys;
  }

  lemma BurnKeeps(env: Env, l: Ledger, op: Op)
    requires op.BurnFunds? && Enabled(l, op) && Sound(l)
    ensures SoundAfter(env, l, op)
  {
    hide TotalBalance, ActiveIn;
    BurnTotals(l.disk.wallets, op.burnFrom, op.burned, l.sys.iteration);
  }

  // ---------- The iteration ----------

  /** The parts of an iteration: the settled wallets in listing order, then the created ones. */
  ghost function Result(env: Env, l: Ledger, op: Op): IterationResult
    requires op.Iterate? && Enabled(l, op)
  {
    ExecuteIteration(env.libm, op.listing, op.parameters, l.sys.(iterationLock := true), env.operator)
  }

  ghost function Settled(env: Env, l: Ledger, op: Op): seq<Wallet>
    requires op.Iterate? && Enabled(l, op)
  {
    var beta := BurnRate(op.parameters, Inflation(l.sys));
    Redistribute(env.libm, op.parameters, op.listing, beta).settled.wallets
  }

  ghost function Created(env: Env, l: Ledger, op: Op): seq<Wallet>
    requires op.Iterate? && Enabled(l, op)
  {
    FaucetWallets(l.sys.iteration + 1, PlannedWallets(op.parameters, |op.listing|), MicroSeed(op.parameters),
                  l.sys.tick, env.operator)
  }

  lemma ResultParts(env: Env, l: Ledger, op: Op)
    requires op.Iterate? && Enabled(l, op) && PowfNonNegative(env.libm) && Sound(l)
    ensures Result(env, l, op).wallets == Settled(env, l, op) + Created(env, l, op)
    ensures |Settled(env, l, op)| == |op.listing|
    ensures Ids(Settled(env, l, op)) == Ids(op.listing)
    ensures Result(env, l, op).commit.newWallets == Ids(Created(env, l, op))
    ensures Supply(op.listing) == l.sys.totalSupply
    ensures forall i :: 0 <= i < |op.listing| ==>
      && Settled(env, l, op)[i].nonce == op.listing[i].nonce
      && Settled(env, l, op)[i].lastActive == op.listing[i].lastActive
  {
    hide Redistribute, FaucetWallets, ExecuteIteration, TotalBalance, ActiveIn, IsListing, BurnRate, PlannedWallets,
      MicroSeed;
    var sys := l.sys.(iterationLock := true);
    var p := op.parameters;
    ListingTotals(op.listing, l.disk.wallets);
    CommitFields(env.libm, op.listing, p, sys, env.operator);
    assert Inflation(sys) == Inflation(l.sys);
    var beta := BurnRate(p, Inflation(sys));
    forall i | 0 <= i < |op.listing|
      ensures Ids(Settled(env, l, op))[i] == Ids(op.listing)[i]
      ensures Settled(env, l, op)[i].nonce == op.listing[i].nonce
      ensures Settled(env, l, op)[i].lastActive == op.listing[i].lastActive
    {
      WalletUpdate(env.libm, p, op.listing, beta, i);
    }
  }

  lemma CreatedFacts(env: Env, l: Ledger, op: Op)
    requires op.Iterate? && Enabled(l, op)
    ensures Distinct(Ids(Created(env, l, op)))
    ensures forall i :: 0 <= i < |Created(env, l, op)| ==>
      && Created(env, l, op)[i].id == FaucetId(l.sys.iteration + 1, i)
      && Created(env, l, op)[i].lastActive == l.sys.iteration + 1
      && Created(env, l, op)[i].nonce == 0
  {
  }

  /** The tree after writing the settled wallets over the old ones. */
  lemma SettledTree(env: Env, l: Ledger, op: Op)
    requires op.Iterate? && Enabled(l, op) && PowfNonNegative(env.libm) && Sound(l)
    ensures var t := PutAll(l.disk.wallets, Settled(env, l, op));
      && IsListing(Settled(env, l, op), t)
      && t.Keys == l.disk.wallets.Keys
      && TotalBalance(t) == Supply(Settled(env, l, op))
      && |t| == |l.disk.wallets| == |op.listing|
      && (forall id :: id in t ==> t[id].id == id && t[id].lastActive == l.disk.wallets[id].lastActive
                                   && t[id].nonce == l.disk.wallets[id].nonce)
      && WalletsAfter(env, l, op) == PutAll(t, Created(env, l, op))
  {
    hide Settled, Created, CountersAgree, ExecuteIteration, TotalBalance;
    var m := l.disk.wallets;
    var settled := Settled(env, l, op);
    var t := PutAll(m, settled);
    ResultParts(env, l, op);
    ListingTotals(op.listing, m);
    PutAllCovers(m, settled);
    ListingTotals(settled, t);
    PutAllConcat(m, settled, Created(env, l, op));
    forall id | id in t
      ensures t[id].id == id && t[id].lastActive == m[id].lastActive && t[id].nonce == m[id].nonce
    {
      var i :| 0 <= i < |settled| && Ids(settled)[i] == id;
      assert Ids(op.listing)[i] == id;
    }
  }

  /** The counters after an iteration, against the tree before the created wallets are added. */
  lemma IterationCounters(env: Env, l: Ledger, op: Op)
    requires op.Iterate? && Enabled(l, op) && PowfNonNegative(env.libm) && Sound(l)
    requires IterationFits(env, l, op.parameters, op.listing)
    ensures var s := CountersAfter(env, l, op); var t := PutAll(l.disk.wallets, Settled(env, l, op));
      && s.totalSupply == TotalBalance(t) + Supply(Created(env, l, op)) <= U64_MAX
      && s.nWallets == |t| + |Created(env, l, op)| <= U64_MAX
      && s.nActive == |Created(env, l, op)|
      && s.iteration == l.sys.iteration + 1
      && |Created(env, l, op)| == PlannedWallets(op.parameters, |op.listing|)
  {
    var sys := l.sys.(iterationLock := true);
    ResultParts(env, l, op);
    SettledTree(env, l, op);
    ListingTotals(op.listing, l.disk.wallets);
    IterationConserves(env.libm, op.listing, op.parameters, sys, env.operator);
    SupplyConcat(Settled(env, l, op), Created(env, l, op));
    FaucetCount(l.sys.iteration + 1, PlannedWallets(op.parameters, |op.listing|), MicroSeed(op.parameters),
                l.sys.tick, env.operator);
  }

  lemma ActiveAfterIteration(t: WalletMap, created: seq<Wallet>, iteration: nat)
    requires forall id :: id in t ==> t[id].lastActive < iteration
    requires forall i :: 0 <= i < |created| ==> created[i].lastActive == iteration && created[i].id !in t
    requires Distinct(Ids(created))
    ensures |ActiveIn(PutAll(t, created), iteration)| == |created|
  {
    PutAllKeys(t, created);
    forall i | 0 <= i < |created|
      ensures created[i].id in PutAll(t, created) && PutAll(t, created)[created[i].id] == created[i]
    {
      PutAllAt(t, created, i);
    }
    assert ActiveIn(PutAll(t, created), iteration) == set id | id in Ids(created);
    DistinctCount(Ids(created));
  }

  /** None of the ids the iteration will derive is taken. */
  ghost predicate FreshIds(l: Ledger, op: Op)
    requires op.Iterate?
  {
    forall i: nat {:trigger FaucetId(l.sys.iteration + 1, i)} ::
      i < PlannedWallets(op.parameters, |op.listing|) ==> FaucetId(l.sys.iteration + 1, i) !in l.disk.wallets
  }

  lemma KeyedAfterIteration(t: WalletMap, created: seq<Wallet>, it: nat)
    requires Distinct(Ids(created)) && (forall id :: id in t ==> t[id].id == id && t[id].lastActive <= it)
    requires forall i :: 0 <= i < |created| ==> created[i].lastActive == it
    ensures WalletsKeyed(PutAll(t, created), it)
  {
    PutAllKeys(t, created);
    forall id | id in PutAll(t, created)
      ensures PutAll(t, created)[id].id == id && PutAll(t, created)[id].lastActive <= it
    {
      if id in Ids(created) {
        var i :| 0 <= i < |created| && Ids(created)[i] == id;
        PutAllAt(t, created, i);
      }
    }
  }

  lemma IterateKeepsWhenFresh(env: Env, l: Ledger, op: Op)
    requires op.Iterate? && Enabled(l, op) && PowfNonNegative(env.libm) && Sound(l)
    requires IterationFits(env, l, op.parameters, op.listing)
    requires FreshIds(l, op)
    ensures SoundAfter(env, l, op)
  {
    hide Settled, Created, CountersAfter, WalletsAfter, TotalBalance, ActiveIn, IterationFits, Enabled, PlannedWallets,
      MicroSeed;
    var (created, it) := (Created(env, l, op), l.sys.iteration + 1);
    CreatedFacts(env, l, op);
    SettledTree(env, l, op);
    IterationCounters(env, l, op);
    var t := PutAll(l.disk.wallets, Settled(env, l, op));
    forall i | 0 <= i < |created| ensures created[i].id !in t {
      assert created[i].id == FaucetId(it, i);
    }
    PutAllNew(t, created);
    ActiveAfterIteration(t, created, it);
    KeyedAfterIteration(t, created, it);
  }

  /** One colliding id makes the stored count fall short. */
  lemma {:induction false} PutAllCount(m: WalletMap, ws: seq<Wallet>)
    requires Distinct(Ids(ws))
    ensures |PutAll(m, ws)| <= |m| + |ws|
    ensures (exists i :: 0 <= i < |ws| && ws[i].id in m) ==> |PutAll(m, ws)| < |m| + |ws|
  {
    if ws != [] {
      var n := |ws| - 1;
      PrefixDistinct(ws);
      PutAllCount(m, ws[..n]);
      PutAllKeys(m, ws[..n]);
      if i :| 0 <= i < |ws| && ws[i].id in m {
        if i < n {
          assert ws[..n][i].id in m;
        }
      }
    }
  }

  /** The counters after an iteration agree with the scan exactly when its supply and its wallet count fit in
  64 bits and no derived faucet id is already taken: the source does not check, and a taken id is
  overwritten while both copies are counted. */
  lemma IterateExact(env: Env, l: Ledger, op: Op)
    requires op.Iterate? && Enabled(l, op) && PowfNonNegative(env.libm) && Sound(l)
    ensures SoundAfter(env, l, op) <==> IterationFits(env, l, op.parameters, op.listing) && FreshIds(l, op)
  {
    if !IterationFits(env, l, op.parameters, op.listing) {
      PastTheLimit(env, l, op);
    } else if FreshIds(l, op) {
      IterateKeepsWhenFresh(env, l, op);
    } else {
      hide Settled, Created, CountersAfter, WalletsAfter, TotalBalance, ActiveIn, IterationFits, Enabled,
        PlannedWallets, MicroSeed;
      CreatedFacts(env, l, op);
      SettledTree(env, l, op);
      IterationCounters(env, l, op);
      var created := Created(env, l, op);
      var i: nat :| i < |created| && FaucetId(l.sys.iteration + 1, i) in l.disk.wallets;
      var t := PutAll(l.disk.wallets, Settled(env, l, op));
      assert created[i].id in t;
      PutAllCount(t, created);
    }
  }

  /** An iteration fits whenever the old supply and the whole endowment of its new wallets do. */
  lemma EndowmentFits(env: Env, l: Ledger, p: Parameters, listing: seq<Wallet>)
    requires Enabled(l, Iterate(p, listing)) && PowfNonNegative(env.libm) && Sound(l)
    requires l.sys.totalSupply + PlannedWallets(p, |listing|) * MicroSeed(p) <= U64_MAX
    requires l.sys.nWallets + PlannedWallets(p, |listing|) <= U64_MAX
    ensures IterationFits(env, l, p, listing)
  {
    hide ExecuteIteration, TotalBalance, ActiveIn, PlannedWallets, MicroSeed, IsListing, Supply;
    ListingTotals(listing, l.disk.wallets);
    IterationConserves(env.libm, listing, p, l.sys.(iterationLock := true), env.operator);
  }

  /** The counters of an iteration that does not fit are past the limit themselves. */
  lemma PastTheLimit(env: Env, l: Ledger, op: Op)
    requires op.Iterate? && Enabled(l, op) && PowfNonNegative(env.libm) && Sound(l)
    requires !IterationFits(env, l, op.parameters, op.listing)
    ensures !SoundAfter(env, l, op)
  {
    hide ExecuteIteration, TotalBalance, ActiveIn, PlannedWallets, MicroSeed, PutAll, IsListing;
    ResultParts(env, l, op);
    SettledTree(env, l, op);
    FaucetCount(l.sys.iteration + 1, PlannedWallets(op.parameters, |op.listing|), MicroSeed(op.parameters),
                l.sys.tick, env.operator);
  }

  /** Faucet ids of past iterations never collide with the next ones, so in a run in which nobody
  registers a future faucet key the hypothesis of the iteration always holds. */
  lemma FreshInRun(l: Ledger, op: Op)
    requires op.Iterate? && Enabled(l, op) && FaucetIdsPast(l.disk.wallets, l.sys.iteration)
    ensures FreshIds(l, op)
  {
  }

  lemma FaucetIdsPastIterate(env: Env, l: Ledger, op: Op)
    requires op.Iterate? && Enabled(l, op) && Sound(l) && PowfNonNegative(env.libm)
    requires IterationFits(env, l, op.parameters, op.listing)
    requires FaucetIdsPast(l.disk.wallets, l.sys.iteration)
    ensures FaucetIdsPast(WalletsAfter(env, l, op), CountersAfter(env, l, op).iteration)
  {
    hide Settled, Created, CountersAfter, WalletsAfter, TotalBalance, ActiveIn, IterationFits, Enabled, PlannedWallets,
      MicroSeed, Sound, PutAll, IsListing, Supply;
    CreatedFacts(env, l, op);
    SettledTree(env, l, op);
    IterationCounters(env, l, op);
    var (t, created) := (PutAll(l.disk.wallets, Settled(env, l, op)), Created(env, l, op));
    PutAllKeys(t, created);
    forall id | id in PutAll(t, created) && id.KeyHash? && id.key.Faucet?
      ensures id.key.iteration <= l.sys.iteration + 1
    {
      if id !in t {
        var i :| 0 <= i < |created| && Ids(created)[i] == id;
      }
    }
  }

  lemma FaucetIdsPastStep(env: Env, l: Ledger, op: Op)
    requires Admissible(env, l, op) && Sound(l) && FaucetIdsPast(l.disk.wallets, l.sys.iteration)
    requires PowfNonNegative(env.libm)
    ensures FaucetIdsPast(WalletsAfter(env, l, op), CountersAfter(env, l, op).iteration)
  {
    if op.Iterate? {
      FaucetIdsPastIterate(env, l, op);
    } else {
      hide TotalBalance, ActiveIn, ExecuteIteration, IsListing;
    }
  }

  /** Every admissible operation keeps the counters in agreement with the scan. */
  lemma SoundStep(env: Env, l: Ledger, op: Op)
    requires Admissible(env, l, op) && Sound(l) && FaucetIdsPast(l.disk.wallets, l.sys.iteration)
    requires PowfNonNegative(env.libm)
    ensures var l' := Apply(env, l, op); Sound(l') && FaucetIdsPast(l'.disk.wallets, l'.sys.iteration)
  {
    hide SoundAfter, Sound, Apply, WalletsAfter, CountersAfter, FaucetIdsPast;
    ApplyParts(env, l, op);
    FaucetIdsPastStep(env, l, op);
    match op
    case SeedWallet(_, _, _, _, _, _, _) => SeedExact(env, l, op);
    case ChargeWallet(_, _, _, _, _, _) => ChargeExact(env, l, op);
    case MoveFunds(_, _, _, _, _, _, _) => MoveKeeps(env, l, op);
    case BurnFunds(_, _, _, _, _, _) => BurnKeeps(env, l, op);
    case Iterate(_, _) =>
      FreshInRun(l, op);
      IterateKeepsWhenFresh(env, l, op);
  }
}
