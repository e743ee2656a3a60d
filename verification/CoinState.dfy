/** The state machine as the source writes it: methods that check, mutate wallets and counters, append
to the log and store the state. Each is proved to serve its request as specified in `Requests`. */
module CoinState {
  import opened Arith
  import opened Types
  import opened Economy
  import opened WalletMaps
  import opened Poh
  import opened Storage
  import opened Ledger
  import opened Requests
  import opened Guards
  import Counters
  import Crash
  import TransferCrash
  import Engine
  import Gini

  class CoinState {
    const env: Env
    const storage: CoinStorage
    const replay: ReplayGuard
    var parameters: Parameters
    var system: SystemState

    ghost function View(): Ledger
      reads this, storage
    {
      Ledger(storage.View(), system)
    }

    /** Wallets are stored under their own ids. */
    ghost predicate Valid()
      reads this, storage
    {
      forall id :: id in storage.wallets ==> storage.wallets[id].id == id
    }

    /** A node on an empty store. */
    constructor (env: Env, parameters: Parameters)
      ensures Valid() && View() == EMPTY && this.env == env && this.parameters == parameters
      ensures fresh(storage) && fresh(replay) && replay.Valid() && replay.calls == []
    {
      this.env := env;
      this.parameters := parameters;
      storage := new CoinStorage();
      replay := new ReplayGuard();
      system := GENESIS;
    }

    method UpdateParameters(p: Parameters)
      modifies this`parameters
      ensures parameters == p
    {
      parameters := p;
    }

    method AppendTxLocked(tx: Transaction)
      modifies this`system, storage
      ensures View() == AppendTx(env, old(View()), tx)
      ensures storage.trace == old(storage.trace) + TransactionWrites(tx, system.tick)
        + [PutPoh(BuildEntry(system.tick, old(system.lastPohHash), [tx.TxId()], env.leader))]
    {
      hide BuildEntry, IndexAll, TransactionWrites;
      var tick := SatAdd(system.tick, 1);
      var entry := BuildEntry(tick, system.lastPohHash, [tx.TxId()], env.leader);
      assert entry.tick == tick by { EntryTick(tick, system.lastPohHash, [tx.TxId()], env.leader); }
      system := system.(tick := tick, lastPohHash := entry.hash);
      TransactionWritesApply(storage.View(), tx, tick);
      storage.PutTransaction(tx, tick);
      storage.PutPohEntry(entry);
    }

    /** Mint into a new wallet: the part shared by wallet creation and seed installation. */
    method InstallWallet(key: PublicKey, amount: nat, operator: OperatorId, idTime: int, recordTime: int, sig: string,
                         category: Category)
      requires Valid() && !system.iterationLock && KeyHash(key) !in storage.wallets
      modifies this`system, storage
      ensures Valid()
      ensures View() == Apply(env, old(View()), SeedWallet(key, amount, operator, idTime, recordTime, sig, category))
    {
      hide AppendTx;
      var tick := system.tick + 1;
      var wallet := Wallet(KeyHash(key), key, amount, 0, tick, system.iteration, operator, 0, {}, system.iteration,
          1.0);
      var id := MintId(wallet.id, amount, 0, operator, tick, idTime, category);
      var tx := Mint(id, wallet.id, amount, 0, operator, tick, recordTime, sig, category);
      storage.PutWallet(wallet);
      system := system.(totalSupply := SatAdd(system.totalSupply, amount), nWallets := SatAdd(system.nWallets, 1),
                        nActive := SatAdd(system.nActive, 1));
      AppendKeepsWallets(env, View(), tx);
      AppendTxLocked(tx);
    }

    method CreateWallet(publicKey: Option<PublicKey>, captcha: string, time: int, operator: OperatorId, sig: string)
      returns (error: Option<StateError>)
      requires Valid()
      modifies this`system, storage
      ensures Valid()
      ensures Served(env, parameters, true, Request.CreateWallet(publicKey, captcha, time, operator, sig), [],
                     old(View()), View(), error)
    {
      hide Apply;
      if parameters.requireCaptcha && Blank(captcha) {
        return Some(BadRequest);
      }
      if publicKey.None? {
        return Some(BadRequest);
      }
      if system.iterationLock {
        return Some(IterationInProgress);
      }
      if KeyHash(publicKey.value) in storage.wallets {
        return Some(WalletAlreadyExists);
      }
      InstallWallet(publicKey.value, MicroSeed(parameters), operator, time, time, sig, WalletSeed);
      storage.StoreState(system);
      return None;
    }

    method Charge(to: WalletId, amount: nat, eur: nat, time: int, operator: OperatorId, sig: string, now: int)
      returns (error: Option<StateError>, ghost unseen: bool)
      requires Valid() && replay.Valid()
      modifies this`system, storage, replay
      ensures Valid() && replay.Valid()
      ensures replay.calls == if amount == 0 then old(replay.calls)
        else var drift := parameters.timestampDrift;
             old(replay.calls) + [Call(sig, time, now, if drift > 0 then drift else 0, unseen)]
      ensures Served(env, parameters, unseen, ChargeRequest(to, amount, eur, time, operator, sig), [],
                     old(View()), View(), error)
    {
      hide Locked, AnsweredExactly, HoldsRemembered;
      unseen := true;
      if amount == 0 {
        return Some(BadRequest), unseen;
      }
      var ok := replay.Admit(sig, time, now, parameters.timestampDrift);
      unseen := ok;
      if !ok {
        return Some(InvalidSignature), unseen;
      }
      error := ChargeLocked(to, amount, eur, time, operator, sig);
    }

    method ChargeLocked(to: WalletId, amount: nat, eur: nat, time: int, operator: OperatorId, sig: string)
      returns (error: Option<StateError>)
      requires Valid() && amount > 0
      modifies this`system, storage
      ensures Valid()
      ensures Outcome(View(), error) ==
        Locked(env, old(View()), SingleJob(ChargeWallet(to, amount, eur, operator, time, sig)), [])
    {
      hide Apply;
      if system.iterationLock {
        return Some(IterationInProgress);
      }
      if to !in storage.wallets {
        return Some(WalletNotFound);
      }
      TopUp(to, amount, eur, time, operator, sig);
      return None;
    }

    method TopUp(to: WalletId, amount: nat, eur: nat, time: int, operator: OperatorId, sig: string)
      requires Valid() && Enabled(View(), ChargeWallet(to, amount, eur, operator, time, sig))
      modifies this`system, storage
      ensures Valid()
      ensures View() == Store(Apply(env, old(View()), ChargeWallet(to, amount, eur, operator, time, sig)))
    {
      hide AppendTx;
      var wallet := storage.wallets[to];
      var tick := system.tick + 1;
      wallet := wallet.(balance := SatAdd(wallet.balance, amount));
      var id := MintId(to, amount, eur, operator, tick, time, Category.Charge);
      var tx := Mint(id, to, amount, eur, operator, tick, time, sig, Category.Charge);
      storage.PutWallet(wallet);
      system := system.(totalSupply := SatAdd(system.totalSupply, amount));
      AppendKeepsWallets(env, View(), tx);
      AppendTxLocked(tx);
      storage.StoreState(system);
    }

    method Transfer(from: WalletId, to: WalletId, amount: nat, nonce: nat, time: int, sender: Option<PublicKey>,
                    sig: string)
      returns (error: Option<StateError>)
      requires Valid()
      modifies this`system, storage
      ensures Valid()
      ensures Served(env, parameters, true, TransferRequest(from, to, amount, nonce, time, sender, sig), [],
                     old(View()), View(), error)
    {
      hide Locked, SignatureAccepted;
      if from == to || amount == 0 {
        return Some(BadRequest);
      }
      if sender.None? || KeyHash(sender.value) != from {
        return Some(InvalidSignature);
      }
      var id := TransferId(from, to, amount, nonce, time, sender.value);
      if !SignatureAccepted(env, parameters, sender.value, id, sig) {
        return Some(InvalidSignature);
      }
      error := TransferLocked(from, to, amount, nonce, time, sender.value, sig);
    }

    method TransferLocked(from: WalletId, to: WalletId, amount: nat, nonce: nat, time: int, sender: PublicKey,
                          sig: string)
      returns (error: Option<StateError>)
      requires Valid() && from != to && amount > 0 && KeyHash(sender) == from
      modifies this`system, storage
      ensures Valid()
      ensures Outcome(View(), error) ==
        Locked(env, old(View()), SingleJob(MoveFunds(from, to, amount, nonce, time, sender, sig)), [])
    {
      hide Apply;
      if system.iterationLock {
        return Some(IterationInProgress);
      }
      if from !in storage.wallets || to !in storage.wallets {
        return Some(WalletNotFound);
      }
      var payer := storage.wallets[from];
      if payer.nonce != nonce {
        return Some(InvalidNonce);
      }
      if payer.balance < amount {
        return Some(InsufficientBalance);
      }
      Move(from, to, amount, nonce, time, sender, sig);
      return None;
    }

    method Move(from: WalletId, to: WalletId, amount: nat, nonce: nat, time: int, sender: PublicKey, sig: string)
      requires Valid() && Enabled(View(), MoveFunds(from, to, amount, nonce, time, sender, sig))
      modifies this`system, storage
      ensures Valid()
      ensures View() == Store(Apply(env, old(View()), MoveFunds(from, to, amount, nonce, time, sender, sig)))
      ensures storage.trace == old(storage.trace)
        + TransferCrash.TransferWrites(env, old(View()), MoveFunds(from, to, amount, nonce, time, sender, sig))
    {
      hide AppendTx, TransactionWrites, BuildEntry;
      var payer, payee := storage.wallets[from], storage.wallets[to];
      var iteration := system.iteration;
      var newlyActive := NewlyActive(payer, iteration) + NewlyActive(payee, iteration);
      payer := Spent(payer, amount, iteration).(counterparties := payer.counterparties + {to});
      payee := Received(payee, amount, from, iteration);
      var id := TransferId(from, to, amount, nonce, time, sender);
      var tx := Transaction.Transfer(id, from, to, amount, nonce, time, sender, sig);
      storage.PutWallet(payer);
      storage.PutWallet(payee);
      AppendKeepsWallets(env, View(), tx);
      AppendActive(env, View(), tx, newlyActive);
      AppendTxLocked(tx);
      system := system.(nActive := SatAdd(system.nActive, newlyActive));
      storage.StoreState(system);
      Regroup(old(storage.trace), PutWallet(payer), PutWallet(payee), TransactionWrites(tx, system.tick),
              PutPoh(BuildEntry(system.tick, old(system.lastPohHash), [tx.TxId()], env.leader)), PutState(system));
    }

    method Burn(from: WalletId, amount: nat, nonce: nat, time: int, sender: Option<PublicKey>, sig: string)
      returns (error: Option<StateError>)
      requires Valid()
      modifies this`system, storage
      ensures Valid()
      ensures Served(env, parameters, true, BurnRequest(from, amount, nonce, time, sender, sig), [],
                     old(View()), View(), error)
    {
      hide Locked, SignatureAccepted;
      if amount == 0 {
        return Some(BadRequest);
      }
      if sender.None? || KeyHash(sender.value) != from {
        return Some(InvalidSignature);
      }
      var id := BurnId(from, amount, nonce, time, sender.value);
      if !SignatureAccepted(env, parameters, sender.value, id, sig) {
        return Some(InvalidSignature);
      }
      error := BurnLocked(from, amount, nonce, time, sender.value, sig);
    }

    method BurnLocked(from: WalletId, amount: nat, nonce: nat, time: int, sender: PublicKey, sig: string)
      returns (error: Option<StateError>)
      requires Valid() && amount > 0 && KeyHash(sender) == from
      modifies this`system, storage
      ensures Valid()
      ensures Outcome(View(), error) ==
        Locked(env, old(View()), SingleJob(BurnFunds(from, amount, nonce, time, sender, sig)), [])
    {
      hide Apply;
      if system.iterationLock {
        return Some(IterationInProgress);
      }
      if from !in storage.wallets {
        return Some(WalletNotFound);
      }
      var wallet := storage.wallets[from];
      if wallet.nonce != nonce {
        return Some(InvalidNonce);
      }
      if wallet.balance < amount {
        return Some(InsufficientBalance);
      }
      Destroy(from, amount, nonce, time, sender, sig);
      return None;
    }

    method Destroy(from: WalletId, amount: nat, nonce: nat, time: int, sender: PublicKey, sig: string)
      requires Valid() && Enabled(View(), BurnFunds(from, amount, nonce, time, sender, sig))
      modifies this`system, storage
      ensures Valid()
      ensures View() == Store(Apply(env, old(View()), BurnFunds(from, amount, nonce, time, sender, sig)))
    {
      hide AppendTx;
      var wallet := storage.wallets[from];
      var newlyActive := NewlyActive(wallet, system.iteration);
      wallet := Spent(wallet, amount, system.iteration);
      var id := BurnId(from, amount, nonce, time, sender);
      var tx := Transaction.Burn(id, from, amount, nonce, time, sender, sig);
      storage.PutWallet(wallet);
      system := system.(totalSupply := SatSub(system.totalSupply, amount));
      AppendKeepsWallets(env, View(), tx);
      AppendActive(env, View(), tx, newlyActive);
      AppendTxLocked(tx);
      system := system.(nActive := SatAdd(system.nActive, newlyActive));
      storage.StoreState(system);
    }

    /** The loop over the seed file. A failing entry returns at once and leaves the earlier ones in. */
    method InstallSeed(entries: seq<SeedEntry>) returns (error: Option<StateError>, installed: nat)
      requires Valid()
      modifies this`system, storage
      ensures Valid()
      ensures Served(env, parameters, true, Request.InstallSeed(entries), [], old(View()), View(), error)
      ensures |storage.wallets| == |old(storage.wallets)| + installed
    {
      hide Apply, SeedLoop, MicroSeed, Served;
      SeedServed(env, parameters, entries, View());
      var defaultSeed := MicroSeed(parameters);
      installed := 0;
      if system.iterationLock {
        return Some(IterationInProgress), 0;
      }
      ghost var whole := SeedLoop(env, View(), entries, defaultSeed);
      assert entries[0..] == entries;
      for i := 0 to |entries|
        invariant Valid() && !system.iterationLock
        invariant |storage.wallets| == |old(storage.wallets)| + installed
        invariant SeedLoop(env, View(), entries[i..], defaultSeed) == whole
      {
        SeedLoopStep(env, View(), entries[i..], defaultSeed);
        assert entries[i..][0] == entries[i] && entries[i..][1..] == entries[i + 1..];
        var entry := entries[i];
        if entry.publicKey.None? {
          return Some(BadRequest), installed;
        }
        var key := entry.publicKey.value;
        if KeyHash(key) !in storage.wallets {
          var amount := if entry.initialBalance.Some? then entry.initialBalance.value else defaultSeed;
          SeedKeepsLock(env, View(), SeedOp(env, key, entry, defaultSeed));
          SeedPuts(env, View(), SeedOp(env, key, entry, defaultSeed));
          ghost var before := storage.wallets;
          InstallWallet(key, amount, env.operator, entry.idTime, entry.recordTime, "", SeedBootstrap);
          KeysGrow(before, storage.wallets, KeyHash(key));
          installed := installed + 1;
        }
      }
      SeedLoopStep(env, View(), entries[|entries|..], defaultSeed);
      storage.StoreState(system);
      return None, installed;
    }

    /** The economic iteration under the lock. The writes reach the store in the order that the crash
    analysis assumes. */
    method ExecuteIterationNow() returns (error: Option<StateError>, ghost listing: seq<Wallet>)
      requires Valid() && parameters.burnMin <= parameters.burnMax
      modifies this`system, storage
      ensures Valid()
      ensures Served(env, parameters, true, RunIteration, listing, old(View()), View(), error)
      ensures error.None? ==>
        && Enabled(old(View()), Iterate(parameters, listing))
        && storage.trace == old(storage.trace) + Crash.IterationWrites(env, old(View()), Iterate(parameters, listing))
    {
      hide Served, Apply, Crash.IterationWrites, Enabled, Store;
      listing := [];
      if system.iterationLock {
        IterationServed(env, parameters, listing, View());
        return Some(IterationInProgress), listing;
      }
      listing := IterateLocked();
      IterationServed(env, parameters, listing, old(View()));
      return None, listing;
    }

    method IterateLocked() returns (ghost listing: seq<Wallet>)
      requires Valid() && parameters.burnMin <= parameters.burnMax && !system.iterationLock
      modifies this`system, storage
      ensures Valid()
      ensures Enabled(old(View()), Iterate(parameters, listing))
      ensures View() == Store(Apply(env, old(View()), Iterate(parameters, listing)))
      ensures storage.trace == old(storage.trace)
          + Crash.IterationWrites(env, old(View()), Iterate(parameters, listing))
    {
      hide ExecuteIteration, Apply, FinishIteration, Crash.IterationWrites, PutAll, WalletWrites, FinishWrites,
        IsListing, Store;
      ghost var before := View();
      system := system.(iterationLock := true);
      storage.StoreState(system);
      var wallets := storage.ListWallets();
      listing := wallets;
      ghost var op := Iterate(parameters, listing);
      var result := Engine.ExecuteIteration(env.libm, wallets, parameters, system, env.operator);
      WriteWallets(result.wallets);
      ghost var mid := View();
      FinishIsApply(env, before, op, mid);
      RecordIteration(result);
    }

    /** Counters, log entry, commit record and the unlocked state. */
    method RecordIteration(result: IterationResult)
      requires Valid()
      modifies this`system, storage
      ensures Valid()
      ensures View() == FinishIteration(env, old(View()), result)
      ensures storage.trace == old(storage.trace) + FinishWrites(env, old(system), result)
    {
      hide BuildEntry, IndexAll, TransactionWrites, Gini.Pairwise;
      var tx := Commit(result.commit);
      var gini := Gini.ComputeGiniFromBalances(Balances(result.wallets));
      system := system.(totalSupply := result.commit.postSupply,
                        nWallets := |result.wallets|,
                        nActive := |result.commit.newWallets|,
                        iteration := result.commit.iterationId,
                        iterationStartedAt := system.tick,
                        previousStartSupply := result.commit.snapshotSupply,
                        previousSupply := result.commit.postSupply,
                        lastInflation := result.commit.inflation,
                        lastGini := gini,
                        iterationLock := false);
      AppendTxLocked(tx);
      storage.PutIteration(result.commit);
      storage.StoreState(system);
    }

    method WriteWallets(ws: seq<Wallet>)
      requires Valid()
      modifies storage
      ensures Valid()
      ensures storage.View() == old(storage.View()).(wallets := PutAll(old(storage.wallets), ws))
      ensures storage.trace == old(storage.trace) + WalletWrites(ws)
    {
      for i := 0 to |ws|
        invariant Valid()
        invariant storage.View() == old(storage.View()).(wallets := PutAll(old(storage.wallets), ws[..i]))
        invariant storage.trace == old(storage.trace) + WalletWrites(ws[..i])
      {
        storage.PutWallet(ws[i]);
        assert ws[..i + 1][..i] == ws[..i];
        assert WalletWrites(ws[..i + 1]) == WalletWrites(ws[..i]) + [PutWallet(ws[i])];
      }
      assert ws[..|ws|] == ws;
    }
  }

  /** The end of an iteration, once the wallets are written. */
  ghost function FinishIteration(env: Env, l: Ledger, r: IterationResult): Ledger
  {
    var a := AppendTx(env, l.(sys := AfterIteration(l.sys, r)), Commit(r.commit));
    Store(a.(disk := a.disk.(iterations := a.disk.iterations[r.commit.iterationId := r.commit])))
  }

  ghost function FinishWrites(env: Env, s: SystemState, r: IterationResult): seq<Write>
  {
    var tick := SatAdd(s.tick, 1);
    var entry := BuildEntry(tick, s.lastPohHash, [r.commit.txId], env.leader);
    TransactionWrites(Commit(r.commit), tick)
    + [PutPoh(entry), PutIteration(r.commit), PutState(AfterIteration(s, r).(tick := tick, lastPohHash := entry.hash))]
  }

  lemma FinishIsApply(env: Env, l: Ledger, op: Op, mid: Ledger)
    requires op.Iterate? && Enabled(l, op)
    requires var r := Counters.Result(env, l, op); var s := l.sys.(iterationLock := true);
      mid == Ledger(l.disk.(stored := s, wallets := PutAll(l.disk.wallets, r.wallets)), s)
    ensures var r := Counters.Result(env, l, op);
      && FinishIteration(env, mid, r) == Store(Apply(env, l, op))
      && Crash.IterationWrites(env, l, op) ==
           [PutState(l.sys.(iterationLock := true))] + WalletWrites(r.wallets) + FinishWrites(env, mid.sys, r)
  {
    hide ExecuteIteration, BuildEntry, IndexAll, TransactionWrites, WalletWrites, PutAll, Gini.Pairwise;
  }

  lemma AppendKeepsWallets(env: Env, l: Ledger, tx: Transaction)
    ensures AppendTx(env, l, tx).disk.wallets == l.disk.wallets
    ensures AppendTx(env, l, tx).sys.tick == SatAdd(l.sys.tick, 1)
  {
  }

  /** Counting active wallets before or after the append makes no difference. */
  lemma AppendActive(env: Env, l: Ledger, tx: Transaction, newlyActive: nat)
    ensures var a := AppendTx(env, l, tx);
      && a.(sys := a.sys.(nActive := SatAdd(a.sys.nActive, newlyActive)))
         == AppendTx(env, l.(sys := l.sys.(nActive := SatAdd(l.sys.nActive, newlyActive))), tx)
  {
  }

  lemma Regroup(trace: seq<Write>, a: Write, b: Write, c: seq<Write>, d: Write, e: Write)
    ensures trace + [a] + [b] + (c + [d]) + [e] == trace + ([a, b] + c + [d, e])
    ensures trace + [a] + [b] + c + [d] + [e] == trace + ([a, b] + c + [d, e])
  {
  }

  /** One turn of the seed loop. */
  lemma SeedLoopStep(env: Env, l: Ledger, entries: seq<SeedEntry>, defaultSeed: nat)
    requires !l.sys.iterationLock
    ensures entries == [] ==> SeedLoop(env, l, entries, defaultSeed) == Outcome(l, None)
    ensures entries != [] && entries[0].publicKey.None? ==>
      SeedLoop(env, l, entries, defaultSeed) == Outcome(l, Some(BadRequest))
    ensures entries != [] && entries[0].publicKey.Some? && KeyHash(entries[0].publicKey.value) in l.disk.wallets ==>
      SeedLoop(env, l, entries, defaultSeed) == SeedLoop(env, l, entries[1..], defaultSeed)
    ensures entries != [] && entries[0].publicKey.Some? && KeyHash(entries[0].publicKey.value) !in l.disk.wallets ==>
      var op := SeedOp(env, entries[0].publicKey.value, entries[0], defaultSeed);
      && Enabled(l, op) && !Apply(env, l, op).sys.iterationLock
      && SeedLoop(env, l, entries, defaultSeed) == SeedLoop(env, Apply(env, l, op), entries[1..], defaultSeed)
  {
    if entries != [] && entries[0].publicKey.Some? && KeyHash(entries[0].publicKey.value) !in l.disk.wallets {
      SeedKeepsLock(env, l, SeedOp(env, entries[0].publicKey.value, entries[0], defaultSeed));
    }
    hide Apply;
  }

  lemma KeysGrow(m: WalletMap, m': WalletMap, id: WalletId)
    requires id !in m && m'.Keys == m.Keys + {id}
    ensures |m'| == |m| + 1
  {
    assert |m'.Keys| == |m.Keys| + 1;
  }
}
