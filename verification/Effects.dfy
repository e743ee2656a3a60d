/** What a served request amounts to, from the request to the answer and the ledger, without the operations
and phases in between. */
module Effects {
  import opened Arith
  import opened Types
  import opened Economy
  import opened WalletMaps
  import opened Poh
  import opened Storage
  import opened Ledger
  import opened Requests
  import Gini

  // ---------- Words for effects ----------

  /** The transaction, and nothing else, was archived at the next tick, indexed under the given wallets,
  chained to the last hash and persisted with the new state. */
  ghost predicate Appended(env: Env, l: Ledger, after: Ledger, tx: Transaction, id: Digest, parties: seq<WalletId>)
  {
    var tick := Min(l.sys.tick + 1, U64_MAX);
    && tx.TxId() == id
    && after.disk.txs == l.disk.txs[id := tx]
    && after.disk.index == IndexAll(l.disk.index, parties, tick, id)
    && tick in after.disk.poh && after.disk.poh == l.disk.poh[tick := after.disk.poh[tick]]
    && var e := after.disk.poh[tick];
       && e.tick == tick && e.txIds == [id] && e.leader == env.leader && VerifyChain(l.sys.lastPohHash, e)
       && after.sys.tick == tick && after.sys.lastPohHash == e.hash
       && after.disk.stored == after.sys
  }

  /** The state but for tick and last hash, which `Appended` speaks of. */
  ghost predicate StateIs(after: Ledger, s: SystemState)
  {
    after.sys == s.(tick := after.sys.tick, lastPohHash := after.sys.lastPohHash)
  }

  ghost predicate Keyed(m: WalletMap) { forall id :: id in m ==> m[id].id == id }

  /** One for a wallet that was not active in the iteration yet. */
  function Joining(w: Wallet, iteration: nat): nat { if w.lastActive == iteration then 0 else 1 }

  lemma AppendAppends(env: Env, l: Ledger, mid: Ledger, tx: Transaction)
    requires mid.disk.txs == l.disk.txs && mid.disk.index == l.disk.index && mid.disk.poh == l.disk.poh
    requires mid.sys.tick == l.sys.tick && mid.sys.lastPohHash == l.sys.lastPohHash
    ensures Appended(env, l, Store(AppendTx(env, mid, tx)), tx, tx.TxId(), tx.WalletIds())
    ensures StateIs(AppendTx(env, mid, tx), mid.sys)
    ensures AppendTx(env, mid, tx).disk.wallets == mid.disk.wallets
    ensures AppendTx(env, mid, tx).disk.iterations == mid.disk.iterations
  {
    hide IndexAll, Transaction.TxId, Transaction.WalletIds;
    BuiltEntryVerifies(SatAdd(l.sys.tick, 1), l.sys.lastPohHash, [tx.TxId()], env.leader, l.sys.lastPohHash);
  }

  lemma ApplyAppends(env: Env, l: Ledger, op: Op)
    requires Enabled(l, op)
    ensures var after := Store(Apply(env, l, op)); var tx := TxOf(env, l, op);
      && Appended(env, l, after, tx, tx.TxId(), tx.WalletIds())
      && StateIs(after, CountersAfter(env, l, op))
      && after.disk.wallets == WalletsAfter(env, l, op)
      && after.disk.iterations ==
           if op.Iterate? then l.disk.iterations[tx.commit.iterationId := tx.commit] else l.disk.iterations
  {
    var tx := TxOf(env, l, op);
    var stored := if op.Iterate? then l.sys.(iterationLock := true) else l.disk.stored;
    var mid := Ledger(l.disk.(wallets := WalletsAfter(env, l, op), stored := stored), CountersAfter(env, l, op));
    CountersKeepLog(env, l, op);
    assert op.Iterate? <==> tx.Commit?;
    hide WalletsAfter, CountersAfter, TxOf, AppendTx, Appended, Transaction.TxId, Transaction.WalletIds;
    AppendAppends(env, l, mid, tx);
    IterationsAside(env, l, AppendTx(env, mid, tx), Apply(env, l, op), tx);
  }

  lemma CountersKeepLog(env: Env, l: Ledger, op: Op)
    requires Enabled(l, op)
    ensures CountersAfter(env, l, op).tick == l.sys.tick && CountersAfter(env, l, op).lastPohHash == l.sys.lastPohHash
  {
    hide ExecuteIteration;
  }

  lemma IterationsAside(env: Env, l: Ledger, a: Ledger, b: Ledger, tx: Transaction)
    requires Appended(env, l, Store(a), tx, tx.TxId(), tx.WalletIds())
    requires b.sys == a.sys && b.disk == a.disk.(iterations := b.disk.iterations)
    ensures Appended(env, l, Store(b), tx, tx.TxId(), tx.WalletIds())
  {
    hide Transaction.TxId, Transaction.WalletIds, IndexAll, VerifyChain;
  }

  function Trimmed(s: string): string
  {
    if s != [] && s[0] in {' ', '\t', '\n', '\r'} then Trimmed(s[1..]) else s
  }

  /** A text is blank exactly when trimming leaves nothing of it. */
  lemma {:induction false} BlankIsTrimmedAway(s: string)
    ensures Blank(s) <==> Trimmed(s) == []
  {
    if s != [] && s[0] in {' ', '\t', '\n', '\r'} {
      BlankIsTrimmedAway(s[1..]);
      assert s == [s[0]] + s[1..];
    }
  }

  // ---------- Creation ----------

  function CreationAnswer(p: Parameters, l: Ledger, key: Option<PublicKey>, captcha: string): Option<StateError>
  {
    if p.requireCaptcha && Blank(captcha) then Some(BadRequest)
    else if key.None? then Some(BadRequest)
    else if l.sys.iterationLock then Some(IterationInProgress)
    else if KeyHash(key.value) in l.disk.wallets then Some(WalletAlreadyExists)
    else None
  }

  /** A creation is answered as its captcha, its key and the ledger say. If accepted, the new wallet starts
  with the seed of the parameters, the supply grows by it, one mint records it, and nothing else changes. */
  lemma CreationEffect(env: Env, p: Parameters, unseen: bool, key: Option<PublicKey>, captcha: string, time: int,
                       operator: OperatorId, sig: string, listing: seq<Wallet>, l: Ledger, after: Ledger,
                       error: Option<StateError>)
    requires Served(env, p, unseen, CreateWallet(key, captcha, time, operator, sig), listing, l, after, error)
    ensures error == CreationAnswer(p, l, key, captcha)
    ensures error.Some? ==> after == l
    ensures error.None? ==>
      var (id, amount) := (KeyHash(key.value), Min(p.initialSeedAgc * 1_000_000, U64_MAX));
      var (s, mint) := (l.sys, MintPayload(id, amount, 0, operator, l.sys.tick + 1, time, WalletSeed));
      && id !in l.disk.wallets
      && after.disk.wallets == l.disk.wallets[id :=
           Wallet(id, key.value, amount, 0, s.tick + 1, s.iteration, operator, 0, {}, s.iteration, 1.0)]
      && StateIs(after, s.(totalSupply := Min(s.totalSupply + amount, U64_MAX),
                           nWallets := Min(s.nWallets + 1, U64_MAX), nActive := Min(s.nActive + 1, U64_MAX)))
      && Appended(env, l, after, Mint(PayloadHash(mint), id, amount, 0, operator, s.tick + 1, time, sig, WalletSeed),
                  PayloadHash(mint), [id])
      && after.disk.iterations == l.disk.iterations
  {
    hide Apply, Appended, Store;
    if error.None? {
      var op := SeedWallet(key.value, MicroSeed(p), operator, time, time, sig, WalletSeed);
      assert Enabled(l, op) && after == Store(Apply(env, l, op));
      ApplyAppends(env, l, op);
    }
  }

  // ---------- Charge ----------

  function ChargeAnswer(l: Ledger, unseen: bool, to: WalletId, amount: nat): Option<StateError>
  {
    if amount == 0 then Some(BadRequest)
    else if !unseen then Some(InvalidSignature)
    else if l.sys.iterationLock then Some(IterationInProgress)
    else if to !in l.disk.wallets then Some(WalletNotFound)
    else None
  }

  /** An accepted charge adds the requested amount, not the euro figure, to the named wallet and to the supply,
  records both figures in one mint, and changes nothing else. */
  lemma ChargeEffect(env: Env, p: Parameters, unseen: bool, to: WalletId, amount: nat, eur: nat, time: int,
                     operator: OperatorId, sig: string, listing: seq<Wallet>, l: Ledger, after: Ledger,
                       error: Option<StateError>)
    requires Served(env, p, unseen, ChargeRequest(to, amount, eur, time, operator, sig), listing, l, after, error)
    requires Keyed(l.disk.wallets)
    ensures error == ChargeAnswer(l, unseen, to, amount)
    ensures error.Some? ==> after == l
    ensures error.None? ==>
      var (w, s) := (l.disk.wallets[to], l.sys);
      var mint := MintPayload(to, amount, eur, operator, s.tick + 1, time, Charge);
      && after.disk.wallets == l.disk.wallets[to := w.(balance := Min(w.balance + amount, U64_MAX))]
      && StateIs(after, s.(totalSupply := Min(s.totalSupply + amount, U64_MAX)))
      && Appended(env, l, after, Mint(PayloadHash(mint), to, amount, eur, operator, s.tick + 1, time, sig, Charge),
                  PayloadHash(mint), [to])
      && after.disk.iterations == l.disk.iterations
  {
    hide Apply, Appended, Store;
    if error.None? {
      var op := ChargeWallet(to, amount, eur, operator, time, sig);
      assert Enabled(l, op) && after == Store(Apply(env, l, op));
      ApplyAppends(env, l, op);
    }
  }

  // ---------- Transfer ----------

  /** The signature verifies under the key, or it is blank and the development switch excuses it. */
  predicate Excused(env: Env, p: Parameters, key: PublicKey, id: Digest, sig: string)
  {
    if env.verify(key, id, sig) then true else p.devAuthBypass && Blank(sig)
  }

  function SpendAnswer(l: Ledger, from: WalletId, to: WalletId, amount: nat, nonce: nat): Option<StateError>
  {
    if l.sys.iterationLock then Some(IterationInProgress)
    else if from !in l.disk.wallets || to !in l.disk.wallets then Some(WalletNotFound)
    else if l.disk.wallets[from].nonce != nonce then Some(InvalidNonce)
    else if l.disk.wallets[from].balance < amount then Some(InsufficientBalance)
    else None
  }

  function TransferAnswer(env: Env, p: Parameters, l: Ledger, from: WalletId, to: WalletId, amount: nat, nonce: nat,
                          time: int, sender: Option<PublicKey>, sig: string): Option<StateError>
  {
    if from == to || amount == 0 then Some(BadRequest)
    else if sender.None? || KeyHash(sender.value) != from then Some(InvalidSignature)
    else if !Excused(env, p, sender.value, PayloadHash(TransferPayload(from, to, amount, nonce, time, sender.value)),
                     sig)
    then Some(InvalidSignature)
    else SpendAnswer(l, from, to, amount, nonce)
  }

  /** An accepted transfer moves the requested amount from the signer's wallet to the named one, advances the
  signer's nonce, notes the activity of both, records itself as requested, and changes nothing else. */
  lemma TransferEffect(env: Env, p: Parameters, unseen: bool, from: WalletId, to: WalletId, amount: nat, nonce: nat,
                       time: int, sender: Option<PublicKey>, sig: string, listing: seq<Wallet>, l: Ledger,
                       after: Ledger, error: Option<StateError>)
    requires Served(env, p, unseen, TransferRequest(from, to, amount, nonce, time, sender, sig), listing, l, after,
                    error)
    requires Keyed(l.disk.wallets)
    ensures error == TransferAnswer(env, p, l, from, to, amount, nonce, time, sender, sig)
    ensures error.Some? ==> after == l
    ensures error.None? ==>
      var (m, s, id) := (l.disk.wallets, l.sys,
                         PayloadHash(TransferPayload(from, to, amount, nonce, time, sender.value)));
      && after.disk.wallets == m[
           from := m[from].(balance := m[from].balance - amount, nonce := nonce + 1, txCount := m[from].txCount + 1,
                            counterparties := m[from].counterparties + {to}, lastActive := s.iteration)][
           to := m[to].(balance := Min(m[to].balance + amount, U64_MAX), txCount := m[to].txCount + 1,
                        counterparties := m[to].counterparties + {from}, lastActive := s.iteration)]
      && StateIs(after, s.(nActive :=
           Min(s.nActive + Joining(m[from], s.iteration) + Joining(m[to], s.iteration), U64_MAX)))
      && Appended(env, l, after, Transfer(id, from, to, amount, nonce, time, sender.value, sig), id, [from, to])
      && after.disk.iterations == l.disk.iterations
  {
    hide Apply, Appended, Store;
    if error.None? {
      var op := MoveFunds(from, to, amount, nonce, time, sender.value, sig);
      assert Enabled(l, op) && after == Store(Apply(env, l, op));
      ApplyAppends(env, l, op);
    }
  }

  // ---------- Burn ----------

  function BurnAnswer(env: Env, p: Parameters, l: Ledger, from: WalletId, amount: nat, nonce: nat, time: int,
                      sender: Option<PublicKey>, sig: string): Option<StateError>
  {
    if amount == 0 then Some(BadRequest)
    else if sender.None? || KeyHash(sender.value) != from then Some(InvalidSignature)
    else if !Excused(env, p, sender.value, PayloadHash(BurnPayload(from, amount, nonce, time, sender.value)), sig)
    then Some(InvalidSignature)
    else SpendAnswer(l, from, from, amount, nonce)
  }

  /** An accepted burn takes the requested amount from the signer's wallet and from the supply. */
  lemma BurnEffect(env: Env, p: Parameters, unseen: bool, from: WalletId, amount: nat, nonce: nat, time: int,
                   sender: Option<PublicKey>, sig: string, listing: seq<Wallet>, l: Ledger, after: Ledger,
                   error: Option<StateError>)
    requires Served(env, p, unseen, BurnRequest(from, amount, nonce, time, sender, sig), listing, l, after, error)
    requires Keyed(l.disk.wallets)
    ensures error == BurnAnswer(env, p, l, from, amount, nonce, time, sender, sig)
    ensures error.Some? ==> after == l
    ensures error.None? ==>
      var (m, s, id) := (l.disk.wallets, l.sys, PayloadHash(BurnPayload(from, amount, nonce, time, sender.value)));
      && after.disk.wallets == m[
           from := m[from].(balance := m[from].balance - amount, nonce := nonce + 1, txCount := m[from].txCount + 1,
                            lastActive := s.iteration)]
      && StateIs(after, s.(totalSupply := if amount <= s.totalSupply then s.totalSupply - amount else 0,
                           nActive := Min(s.nActive + Joining(m[from], s.iteration), U64_MAX)))
      && Appended(env, l, after, Burn(id, from, amount, nonce, time, sender.value, sig), id, [from])
      && after.disk.iterations == l.disk.iterations
  {
    hide Apply, Appended, Store;
    if error.None? {
      var op := BurnFunds(from, amount, nonce, time, sender.value, sig);
      assert Enabled(l, op) && after == Store(Apply(env, l, op));
      ApplyAppends(env, l, op);
    }
  }

  // ---------- Iteration ----------

  /** An accepted iteration writes the wallets of its result, counts them, remembers both ends of the cycle,
  and archives the commit twice: as a transaction and under its number. */
  lemma IterationEffect(env: Env, p: Parameters, unseen: bool, listing: seq<Wallet>, l: Ledger, after: Ledger,
                        error: Option<StateError>)
    requires Served(env, p, unseen, RunIteration, listing, l, after, error)
    ensures error == if l.sys.iterationLock then Some(IterationInProgress) else None
    ensures error.Some? ==> after == l
    ensures error.None? ==>
      && p.burnMin <= p.burnMax && IsListing(listing, l.disk.wallets)
      && var r := ExecuteIteration(env.libm, listing, p, l.sys.(iterationLock := true), env.operator);
         var (c, s) := (r.commit, l.sys);
         && after.disk.wallets == PutAll(l.disk.wallets, r.wallets)
         && StateIs(after, SystemState(s.tick, s.iteration + 1, s.tick, c.postSupply, |r.wallets|, |c.newWallets|,
                                       s.lastPohHash, c.postSupply, c.snapshotSupply, c.inflation,
                                       Gini.Pairwise(Balances(r.wallets)), false))
         && Appended(env, l, after, Commit(c), c.txId, Firsts(c.penalties) + Firsts(c.rewards) + c.newWallets)
         && after.disk.iterations == l.disk.iterations[s.iteration + 1 := c]
  {
    hide Served, Apply, Appended, Store, ExecuteIteration, IsListing, PutAll, Gini.Pairwise, CountersAfter,
      WalletsAfter, TxOf;
    IterationAnswered(env, p, unseen, listing, l, after, error);
    if error.None? {
      ApplyAppends(env, l, Iterate(p, listing));
      IterationParts(env, p, listing, l);
    }
  }

  lemma IterationAnswered(env: Env, p: Parameters, unseen: bool, listing: seq<Wallet>, l: Ledger, after: Ledger,
                          error: Option<StateError>)
    requires Served(env, p, unseen, RunIteration, listing, l, after, error)
    ensures error == if l.sys.iterationLock then Some(IterationInProgress) else None
    ensures error.Some? ==> after == l
    ensures error.None? ==> Enabled(l, Iterate(p, listing)) && after == Store(Apply(env, l, Iterate(p, listing)))
  {
    hide Apply, Store, IsListing;
  }

  lemma IterationParts(env: Env, p: Parameters, listing: seq<Wallet>, l: Ledger)
    requires Enabled(l, Iterate(p, listing))
    ensures var (op, s) := (Iterate(p, listing), l.sys);
      var r := ExecuteIteration(env.libm, listing, p, s.(iterationLock := true), env.operator); var c := r.commit;
      && TxOf(env, l, op) == Commit(c) && c.iterationId == s.iteration + 1
      && WalletsAfter(env, l, op) == PutAll(l.disk.wallets, r.wallets)
      && CountersAfter(env, l, op) ==
           SystemState(s.tick, s.iteration + 1, s.tick, c.postSupply, |r.wallets|, |c.newWallets|, s.lastPohHash,
                       c.postSupply, c.snapshotSupply, c.inflation, Gini.Pairwise(Balances(r.wallets)), false)
  {
    CommitNumbered(env, p, listing, l);
    hide ExecuteIteration, PutAll, IsListing, Gini.Pairwise;
  }

  lemma CommitNumbered(env: Env, p: Parameters, listing: seq<Wallet>, l: Ledger)
    requires p.burnMin <= p.burnMax
    ensures ExecuteIteration(env.libm, listing, p, l.sys.(iterationLock := true), env.operator).commit.iterationId
      == l.sys.iteration + 1
  {
    hide Redistribute, FaucetWallets;
  }

  // ---------- Seed files ----------

  /** The first entry before the stop that names the wallet. */
  ghost predicate FirstNaming(entries: seq<SeedEntry>, i: int, id: WalletId)
  {
    ReadableAt(entries, i, id) && forall j :: 0 <= j < i ==> !ReadableAt(entries, j, id)
  }

  function SeedBalance(e: SeedEntry, defaultSeed: nat): nat
  {
    match e.initialBalance
    case Some(amount) => amount
    case None => defaultSeed
  }

  /** The wallet and the mint that an entry leaves behind. */
  ghost predicate InstalledBy(env: Env, l: Ledger, after: Ledger, e: SeedEntry, id: WalletId, defaultSeed: nat)
  {
    && e.publicKey.Some? && id in after.disk.wallets
    && var (w, amount) := (after.disk.wallets[id], SeedBalance(e, defaultSeed));
       var mint := PayloadHash(MintPayload(id, amount, 0, env.operator, w.createdAtTick, e.idTime, SeedBootstrap));
       && w == Wallet(id, e.publicKey.value, amount, 0, w.createdAtTick, l.sys.iteration, env.operator, 0, {},
                      l.sys.iteration, 1.0)
       && l.sys.tick < w.createdAtTick
       && mint in after.disk.txs
       && after.disk.txs[mint] ==
            Mint(mint, id, amount, 0, env.operator, w.createdAtTick, e.recordTime, "", SeedBootstrap)
  }

  /** The id of a mint to the wallet. */
  ghost predicate MintsTo(k: Digest, id: WalletId)
  {
    k.PayloadHash? && k.payload.MintPayload? && k.payload.to == id
  }

  /** Nothing that was stored is touched: neither the wallets nor their mints. */
  ghost predicate OnlyAdds(l: Ledger, after: Ledger)
  {
    && (forall id :: id in l.disk.wallets ==> id in after.disk.wallets && after.disk.wallets[id] == l.disk.wallets[id])
    && (forall id, k :: id in l.disk.wallets && k in l.disk.txs && MintsTo(k, id) ==>
          k in after.disk.txs && after.disk.txs[k] == l.disk.txs[k])
    && l.sys.tick <= after.sys.tick <= U64_MAX && l.sys.iteration == after.sys.iteration
    && !after.sys.iterationLock
  }

  lemma InstallOne(env: Env, l: Ledger, e: SeedEntry, defaultSeed: nat)
    requires !l.sys.iterationLock && l.sys.tick <= U64_MAX
    requires e.publicKey.Some? && KeyHash(e.publicKey.value) !in l.disk.wallets
    ensures var op := SeedOp(env, e.publicKey.value, e, defaultSeed);
      && Enabled(l, op)
      && InstalledBy(env, l, Apply(env, l, op), e, KeyHash(e.publicKey.value), defaultSeed)
      && OnlyAdds(l, Apply(env, l, op))
      && forall id :: id in Apply(env, l, op).disk.wallets ==> id in l.disk.wallets || id == KeyHash(e.publicKey.value)
  {
    hide BuildEntry, IndexAll;
  }

  /** What one step installed is still there after the rest. */
  lemma StillInstalled(env: Env, l: Ledger, mid: Ledger, after: Ledger, e: SeedEntry, id: WalletId, defaultSeed: nat)
    requires InstalledBy(env, l, mid, e, id, defaultSeed) && OnlyAdds(mid, after)
    ensures InstalledBy(env, l, after, e, id, defaultSeed)
  {
  }

  lemma InstalledEarlier(env: Env, l: Ledger, mid: Ledger, after: Ledger, e: SeedEntry, id: WalletId, defaultSeed: nat)
    requires InstalledBy(env, mid, after, e, id, defaultSeed)
    requires l.sys.tick <= mid.sys.tick && l.sys.iteration == mid.sys.iteration
    ensures InstalledBy(env, l, after, e, id, defaultSeed)
  {
  }

  lemma OnlyAddsTransitive(l: Ledger, mid: Ledger, after: Ledger)
    requires OnlyAdds(l, mid) && OnlyAdds(mid, after)
    ensures OnlyAdds(l, after)
  {
  }

  lemma FirstNamingNext(entries: seq<SeedEntry>, i: int, id: WalletId)
    requires entries != [] && entries[0].publicKey.Some? && FirstNaming(entries, i, id)
    ensures if i == 0 then id == KeyHash(entries[0].publicKey.value)
      else id != KeyHash(entries[0].publicKey.value) && FirstNaming(entries[1..], i - 1, id)
           && 1 <= i < |entries| && entries[1..][i - 1] == entries[i]
  {
    ReadableNext(entries, i, id);
    ReadableNext(entries, 0, id);
    if i != 0 {
      assert !ReadableAt(entries, 0, id);
      forall j | 0 <= j < i - 1 ensures !ReadableAt(entries[1..], j, id) {
        ReadableNext(entries, j + 1, id);
      }
    }
  }

  lemma {:induction false} SeedLoopInstalls(env: Env, l: Ledger, entries: seq<SeedEntry>, defaultSeed: nat)
    requires !l.sys.iterationLock && l.sys.tick <= U64_MAX
    ensures var after := SeedLoop(env, l, entries, defaultSeed).ledger;
      && OnlyAdds(l, after)
      && forall i, id :: FirstNaming(entries, i, id) && id !in l.disk.wallets ==>
           0 <= i < |entries| && InstalledBy(env, l, after, entries[i], id, defaultSeed)
    decreases |entries|
  {
    hide Apply, Enabled, InstalledBy, FirstNaming;
    if entries == [] || entries[0].publicKey.None? {
      forall i, id ensures !FirstNaming(entries, i, id) {
        NothingNamed(entries, i, id);
      }
    } else {
      var (e, first) := (entries[0], KeyHash(entries[0].publicKey.value));
      var mid := l;
      if first !in l.disk.wallets {
        var op := SeedOp(env, e.publicKey.value, e, defaultSeed);
        InstallOne(env, l, e, defaultSeed);
        mid := Apply(env, l, op);
      }
      SeedLoopInstalls(env, mid, entries[1..], defaultSeed);
      var after := SeedLoop(env, l, entries, defaultSeed).ledger;
      assert after == SeedLoop(env, mid, entries[1..], defaultSeed).ledger;
      OnlyAddsTransitive(l, mid, after);
      forall i, id | FirstNaming(entries, i, id) && id !in l.disk.wallets
        ensures 0 <= i < |entries| && InstalledBy(env, l, after, entries[i], id, defaultSeed)
      {
        FirstNamingNext(entries, i, id);
        if i == 0 {
          StillInstalled(env, l, mid, after, e, id, defaultSeed);
        } else {
          InstalledEarlier(env, l, mid, after, entries[i], id, defaultSeed);
        }
      }
    }
  }

  lemma NothingNamed(entries: seq<SeedEntry>, i: int, id: WalletId)
    requires entries == [] || entries[0].publicKey.None?
    ensures !FirstNaming(entries, i, id)
  {
  }

  /** A seed file is refused exactly under a lock or for an undecodable key. Every wallet that was not there
  is installed by the first entry before that key that names it, with the balance of that entry or else the
  seed of the parameters, and one mint records it; what was there stays. */
  lemma SeedEffect(env: Env, p: Parameters, unseen: bool, entries: seq<SeedEntry>, listing: seq<Wallet>, l: Ledger,
                   after: Ledger, error: Option<StateError>)
    requires Served(env, p, unseen, InstallSeed(entries), listing, l, after, error) && l.sys.tick <= U64_MAX
    ensures error == if l.sys.iterationLock then Some(IterationInProgress)
      else if exists i :: 0 <= i < |entries| && entries[i].publicKey.None? then Some(BadRequest) else None
    ensures l.sys.iterationLock ==> after == l
    ensures !l.sys.iterationLock ==>
      && OnlyAdds(l, after)
      && (forall id :: id in after.disk.wallets ==> id in l.disk.wallets || exists i :: ReadableAt(entries, i, id))
      && (error.None? ==> after.disk.stored == after.sys)
      && forall i, id :: FirstNaming(entries, i, id) && id !in l.disk.wallets ==>
           && 0 <= i < |entries|
           && InstalledBy(env, l, after, entries[i], id, Min(p.initialSeedAgc * 1_000_000, U64_MAX))
  {
    hide SeedLoop, FirstNaming, InstalledBy, ReadableAt;
    assert MicroSeed(p) == Min(p.initialSeedAgc * 1_000_000, U64_MAX);
    hide MicroSeed;
    if !l.sys.iterationLock {
      SeedLoopExact(env, l, entries, MicroSeed(p));
      SeedLoopInstalls(env, l, entries, MicroSeed(p));
      StopsExactly(entries);
      SameAfterStore(env, l, SeedLoop(env, l, entries, MicroSeed(p)).ledger, entries, MicroSeed(p));
    }
  }

  lemma StopsExactly(entries: seq<SeedEntry>)
    ensures Stops(entries) <==> exists i :: 0 <= i < |entries| && entries[i].publicKey.None?
  {
    if Stops(entries) {
      assert entries[StopsAt(entries)].publicKey.None?;
    }
  }

  /** Persisting the state touches nothing else. */
  lemma SameAfterStore(env: Env, l: Ledger, o: Ledger, entries: seq<SeedEntry>, defaultSeed: nat)
    requires OnlyAdds(l, o)
    ensures OnlyAdds(l, Store(o))
    ensures forall i, id :: 0 <= i < |entries| && InstalledBy(env, l, o, entries[i], id, defaultSeed) ==>
      InstalledBy(env, l, Store(o), entries[i], id, defaultSeed)
  {
  }
}
