/** The ledger: what each accepted transaction does to the store and to the in-memory state.

A `Ledger` is the store together with the `SystemState` that the write lock protects. An `Op` is one
unit of work under that lock that ends in one appended transaction. */
module Ledger {
  import opened Arith
  import opened Types
  import opened Economy
  import opened WalletMaps
  import opened Poh
  import opened Storage
  import Gini

  /** What the node is started with. */
  datatype Env = Env(
    libm: Libm,
    operator: OperatorId,
    leader: seq<Symbol>,
    verify: (PublicKey, Digest, string) -> bool)

  datatype Ledger = Ledger(disk: Disk, sys: SystemState)

  const EMPTY: Ledger := Ledger(Disk(map[], map[], map[], map[], map[], GENESIS), GENESIS)

  datatype Op =
    /** Mint into a new wallet: wallet creation and seed installation. The seed path reads the clock
    once for the id and once for the record. */
    | SeedWallet(key: PublicKey, seedAmount: nat, seedOperator: OperatorId, idTime: int, recordTime: int,
                 seedSig: string, category: Category)
    | ChargeWallet(to: WalletId, amount: nat, eurAmount: nat, operator: OperatorId, time: int, sig: string)
    | MoveFunds(from: WalletId, moveTo: WalletId, moved: nat, nonce: nat, moveTime: int,
                sender: PublicKey, userSig: string)
    | BurnFunds(burnFrom: WalletId, burned: nat, burnNonce: nat, burnTime: int,
                burner: PublicKey, burnSig: string)
    | Iterate(parameters: Parameters, listing: seq<Wallet>)

  // ---------- Transaction ids ----------

  function MintId(to: WalletId, amount: nat, eur: nat, operator: OperatorId, nonce: nat, time: int,
                  category: Category): Digest
  {
    PayloadHash(MintPayload(to, amount, eur, operator, nonce, time, category))
  }

  function TransferId(from: WalletId, to: WalletId, amount: nat, nonce: nat, time: int, sender: PublicKey): Digest
  {
    PayloadHash(TransferPayload(from, to, amount, nonce, time, sender))
  }

  function BurnId(from: WalletId, amount: nat, nonce: nat, time: int, sender: PublicKey): Digest
  {
    PayloadHash(BurnPayload(from, amount, nonce, time, sender))
  }

  // ---------- Appending to the log ----------

  /** `append_tx_locked`. */
  function AppendTx(env: Env, l: Ledger, tx: Transaction): Ledger
  {
    var tick := SatAdd(l.sys.tick, 1);
    var entry := BuildEntry(tick, l.sys.lastPohHash, [tx.TxId()], env.leader);
    Ledger(l.disk.(txs := l.disk.txs[tx.TxId() := tx],
                   index := IndexAll(l.disk.index, tx.WalletIds(), tick, tx.TxId()),
                   poh := l.disk.poh[tick := entry]),
           l.sys.(tick := tick, lastPohHash := entry.hash))
  }

  /** `store_state`. */
  function Store(l: Ledger): Ledger { l.(disk := l.disk.(stored := l.sys)) }

  // ---------- Guards ----------

  /** What the source checks before it touches anything. */
  ghost predicate Enabled(l: Ledger, op: Op)
  {
    && !l.sys.iterationLock
    && match op
       case SeedWallet(key, _, _, _, _, _, _) => KeyHash(key) !in l.disk.wallets
       case ChargeWallet(to, amount, _, _, _, _) => amount > 0 && to in l.disk.wallets
       case MoveFunds(from, to, amount, nonce, _, sender, _) =>
         && from != to && amount > 0 && KeyHash(sender) == from
         && from in l.disk.wallets && to in l.disk.wallets
         && l.disk.wallets[from].nonce == nonce && amount <= l.disk.wallets[from].balance
       case BurnFunds(from, amount, nonce, _, sender, _) =>
         && amount > 0 && KeyHash(sender) == from && from in l.disk.wallets
         && l.disk.wallets[from].nonce == nonce && amount <= l.disk.wallets[from].balance
       case Iterate(p, listing) => p.burnMin <= p.burnMax && IsListing(listing, l.disk.wallets)
  }

  // ---------- Effects ----------

  function NewWallet(l: Ledger, key: PublicKey, amount: nat, operator: OperatorId): Wallet
  {
    Wallet(KeyHash(key), key, amount, 0, l.sys.tick + 1, l.sys.iteration, operator, 0, {}, l.sys.iteration, 1.0)
  }

  function Spent(w: Wallet, amount: nat, iteration: nat): Wallet
    requires amount <= w.balance
  {
    w.(balance := w.balance - amount, nonce := w.nonce + 1, txCount := w.txCount + 1, lastActive := iteration)
  }

  function Received(w: Wallet, amount: nat, from: WalletId, iteration: nat): Wallet
  {
    w.(balance := SatAdd(w.balance, amount), txCount := w.txCount + 1,
       counterparties := w.counterparties + {from}, lastActive := iteration)
  }

  function NewlyActive(w: Wallet, iteration: nat): nat { if w.lastActive != iteration then 1 else 0 }

  /** The transaction an operation appends. */
  ghost function TxOf(env: Env, l: Ledger, op: Op): Transaction
    requires Enabled(l, op)
  {
    match op
    case SeedWallet(key, amount, operator, idTime, recordTime, sig, category) =>
      var tick := l.sys.tick + 1;
      Mint(MintId(KeyHash(key), amount, 0, operator, tick, idTime, category), KeyHash(key), amount, 0,
           operator, tick, recordTime, sig, category)
    case ChargeWallet(to, amount, eur, operator, time, sig) =>
      var tick := l.sys.tick + 1;
      Mint(MintId(to, amount, eur, operator, tick, time, Charge), to, amount, eur, operator, tick, time, sig, Charge)
    case MoveFunds(from, to, amount, nonce, time, sender, sig) =>
      Transfer(TransferId(from, to, amount, nonce, time, sender), from, to, amount, nonce, time, sender, sig)
    case BurnFunds(from, amount, nonce, time, sender, sig) =>
      Burn(BurnId(from, amount, nonce, time, sender), from, amount, nonce, time, sender, sig)
    case Iterate(p, listing) =>
      Commit(ExecuteIteration(env.libm, listing, p, l.sys.(iterationLock := true), env.operator).commit)
  }

  /** The wallet tree after an operation. */
  ghost function WalletsAfter(env: Env, l: Ledger, op: Op): WalletMap
    requires Enabled(l, op)
  {
    var m := l.disk.wallets;
    match op
    case SeedWallet(key, amount, operator, _, _, _, _) =>
      m[KeyHash(key) := NewWallet(l, key, amount, operator)]
    case ChargeWallet(to, amount, _, _, _, _) =>
      var w := m[to].(balance := SatAdd(m[to].balance, amount));
      m[w.id := w]
    case MoveFunds(from, to, amount, _, _, _, _) =>
      var payer := Spent(m[from], amount, l.sys.iteration).(counterparties := m[from].counterparties + {to});
      var payee := Received(m[to], amount, from, l.sys.iteration);
      m[payer.id := payer][payee.id := payee]
    case BurnFunds(from, amount, _, _, _, _) =>
      var w := Spent(m[from], amount, l.sys.iteration);
      m[w.id := w]
    case Iterate(p, listing) =>
      PutAll(m, ExecuteIteration(env.libm, listing, p, l.sys.(iterationLock := true), env.operator).wallets)
  }

  /** The counters after an operation, before its transaction is appended. */
  ghost function CountersAfter(env: Env, l: Ledger, op: Op): SystemState
    requires Enabled(l, op)
  {
    var s := l.sys;
    match op
    case SeedWallet(_, amount, _, _, _, _, _) =>
      s.(totalSupply := SatAdd(s.totalSupply, amount), nWallets := SatAdd(s.nWallets, 1),
         nActive := SatAdd(s.nActive, 1))
    case ChargeWallet(_, amount, _, _, _, _) => s.(totalSupply := SatAdd(s.totalSupply, amount))
    case MoveFunds(from, to, _, _, _, _, _) =>
      s.(nActive := SatAdd(s.nActive, NewlyActive(l.disk.wallets[from], s.iteration)
                                      + NewlyActive(l.disk.wallets[to], s.iteration)))
    case BurnFunds(from, amount, _, _, _, _) =>
      s.(totalSupply := SatSub(s.totalSupply, amount),
         nActive := SatAdd(s.nActive, NewlyActive(l.disk.wallets[from], s.iteration)))
    case Iterate(p, listing) =>
      AfterIteration(s, ExecuteIteration(env.libm, listing, p, s.(iterationLock := true), env.operator))
  }

  function AfterIteration(s: SystemState, r: IterationResult): SystemState
  {
    s.(totalSupply := r.commit.postSupply,
       nWallets := |r.wallets|,
       nActive := |r.commit.newWallets|,
       iteration := r.commit.iterationId,
       iterationStartedAt := s.tick,
       previousStartSupply := r.commit.snapshotSupply,
       previousSupply := r.commit.postSupply,
       lastInflation := r.commit.inflation,
       lastGini := Gini.Pairwise(Balances(r.wallets)),
       iterationLock := false)
  }

  /** Everything an operation does under the lock up to, but not including, the closing `store_state`. */
  ghost function Apply(env: Env, l: Ledger, op: Op): Ledger
    requires Enabled(l, op)
  {
    var tx := TxOf(env, l, op);
    var stored := if op.Iterate? then l.sys.(iterationLock := true) else l.disk.stored;
    var l' := AppendTx(env, Ledger(l.disk.(wallets := WalletsAfter(env, l, op), stored := stored),
                                   CountersAfter(env, l, op)), tx);
    match tx
    case Commit(c) => l'.(disk := l'.disk.(iterations := l'.disk.iterations[c.iterationId := c]))
    case _ => l'
  }

  // ---------- Hypotheses on runs ----------

  /** Supply, wallet count and tick still fit in 64 bits after the operation. */
  ghost predicate Fits(env: Env, l: Ledger, op: Op)
  {
    && l.sys.tick < U64_MAX
    && match op
       case SeedWallet(_, amount, _, _, _, _, _) => l.sys.totalSupply + amount <= U64_MAX && l.sys.nWallets < U64_MAX
       case ChargeWallet(_, amount, _, _, _, _) => l.sys.totalSupply + amount <= U64_MAX
       case MoveFunds(_, _, _, _, _, _, _) => true
       case BurnFunds(_, _, _, _, _, _) => true
       case Iterate(p, listing) => IterationFits(env, l, p, listing)
  }

  /** The supply the iteration ends with and the wallets it leaves fit in 64 bits. */
  ghost predicate IterationFits(env: Env, l: Ledger, p: Parameters, listing: seq<Wallet>)
  {
    && (p.burnMin <= p.burnMax ==>
          ExecuteIteration(env.libm, listing, p, l.sys.(iterationLock := true), env.operator).commit.postSupply
            <= U64_MAX)
    && l.sys.nWallets + PlannedWallets(p, |listing|) <= U64_MAX
  }

  /** Nobody registers a key that a later iteration will derive for its own new wallets. */
  ghost predicate NoFutureFaucetKey(l: Ledger, op: Op)
  {
    op.SeedWallet? && op.key.Faucet? ==> op.key.iteration <= l.sys.iteration
  }

  ghost predicate Admissible(env: Env, l: Ledger, op: Op)
  {
    Enabled(l, op) && Fits(env, l, op) && NoFutureFaucetKey(l, op)
  }
}
