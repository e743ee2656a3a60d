/** Requests in two phases: what happens before the write lock, and what happens under it. */
module Requests {
  import opened Types
  import opened Economy
  import opened WalletMaps
  import opened Ledger

  datatype StateError =
    | InvalidSignature
    | InvalidNonce
    | InsufficientBalance
    | WalletNotFound
    | WalletAlreadyExists
    | IterationInProgress
    | BadRequest

  /** A seed-file entry with the two clock readings its installation makes. */
  datatype SeedEntry = SeedEntry(publicKey: Option<PublicKey>, initialBalance: Option<nat>,
                                 idTime: int, recordTime: int)

  /** Public keys arrive as text; `None` is text that does not decode to 32 bytes. */
  datatype Request =
    | CreateWallet(publicKey: Option<PublicKey>, captcha: string, createTime: int,
                   createOperator: OperatorId, createSig: string)
    | ChargeRequest(to: WalletId, amount: nat, eurAmount: nat, time: int, operator: OperatorId, sig: string)
    | TransferRequest(from: WalletId, payee: WalletId, sum: nat, nonce: nat, transferTime: int,
                      sender: Option<PublicKey>, userSig: string)
    | BurnRequest(burnFrom: WalletId, burnSum: nat, burnNonce: nat, burnTime: int,
                  burnSender: Option<PublicKey>, burnSig: string)
    | InstallSeed(entries: seq<SeedEntry>)
    | RunIteration

  /** A request that passed the first phase, with what that phase captured. */
  datatype Job =
    | SingleJob(op: Op)
    | SeedJob(entries: seq<SeedEntry>, defaultSeed: nat)
    | IterationJob(parameters: Parameters)

  datatype Verdict = Valid(job: Job) | Invalid(error: StateError)

  predicate Blank(s: string)
  {
    forall i :: 0 <= i < |s| ==> s[i] == ' ' || s[i] == '\t' || s[i] == '\n' || s[i] == '\r'
  }

  // ---------- First phase ----------

  predicate SignatureAccepted(env: Env, p: Parameters, key: PublicKey, id: Digest, sig: string)
  {
    (p.devAuthBypass && Blank(sig)) || env.verify(key, id, sig)
  }

  /** Everything before the lock. `unseen` is the answer of the operator replay guard, consulted by
  charges only. */
  function Validate(env: Env, p: Parameters, unseen: bool, r: Request): Verdict
  {
    match r
    case CreateWallet(key, captcha, time, operator, sig) =>
      if p.requireCaptcha && Blank(captcha) then Invalid(BadRequest)
      else if key.None? then Invalid(BadRequest)
      else Valid(SingleJob(SeedWallet(key.value, MicroSeed(p), operator, time, time, sig, WalletSeed)))
    case ChargeRequest(to, amount, eur, time, operator, sig) =>
      if amount == 0 then Invalid(BadRequest)
      else if !unseen then Invalid(InvalidSignature)
      else Valid(SingleJob(ChargeWallet(to, amount, eur, operator, time, sig)))
    case TransferRequest(from, to, amount, nonce, time, sender, sig) =>
      if from == to || amount == 0 then Invalid(BadRequest)
      else if sender.None? || KeyHash(sender.value) != from then Invalid(InvalidSignature)
      else if !SignatureAccepted(env, p, sender.value, TransferId(from, to, amount, nonce, time, sender.value), sig)
      then Invalid(InvalidSignature)
      else Valid(SingleJob(MoveFunds(from, to, amount, nonce, time, sender.value, sig)))
    case BurnRequest(from, amount, nonce, time, sender, sig) =>
      if amount == 0 then Invalid(BadRequest)
      else if sender.None? || KeyHash(sender.value) != from then Invalid(InvalidSignature)
      else if !SignatureAccepted(env, p, sender.value, BurnId(from, amount, nonce, time, sender.value), sig)
      then Invalid(InvalidSignature)
      else Valid(SingleJob(BurnFunds(from, amount, nonce, time, sender.value, sig)))
    case InstallSeed(entries) => Valid(SeedJob(entries, MicroSeed(p)))
    case RunIteration => Valid(IterationJob(p))
  }

  /** What the first phase guarantees of a job. */
  ghost predicate WellFormed(job: Job)
  {
    match job
    case SingleJob(op) =>
      (match op
       case SeedWallet(_, _, _, _, _, _, _) => true
       case ChargeWallet(_, amount, _, _, _, _) => amount > 0
       case MoveFunds(from, to, amount, _, _, sender, _) => from != to && amount > 0 && KeyHash(sender) == from
       case BurnFunds(from, amount, _, _, sender, _) => amount > 0 && KeyHash(sender) == from
       case Iterate(_, _) => false)
    case SeedJob(_, _) => true
    case IterationJob(_) => true
  }

  lemma ValidIsWellFormed(env: Env, p: Parameters, unseen: bool, r: Request)
    ensures Validate(env, p, unseen, r).Valid? ==> WellFormed(Validate(env, p, unseen, r).job)
  {
  }

  // ---------- Second phase ----------

  datatype Outcome = Outcome(ledger: Ledger, error: Option<StateError>)

  /** The first check that fails under the lock, in the order the source makes them. */
  function Refusal(l: Ledger, op: Op): Option<StateError>
  {
    var m := l.disk.wallets;
    if l.sys.iterationLock then Some(IterationInProgress)
    else match op
      case SeedWallet(key, _, _, _, _, _, _) =>
        if KeyHash(key) in m then Some(WalletAlreadyExists) else None
      case ChargeWallet(to, _, _, _, _, _) =>
        if to !in m then Some(WalletNotFound) else None
      case MoveFunds(from, to, amount, nonce, _, _, _) =>
        if from !in m || to !in m then Some(WalletNotFound)
        else if m[from].nonce != nonce then Some(InvalidNonce)
        else if m[from].balance < amount then Some(InsufficientBalance)
        else None
      case BurnFunds(from, amount, nonce, _, _, _) =>
        if from !in m then Some(WalletNotFound)
        else if m[from].nonce != nonce then Some(InvalidNonce)
        else if m[from].balance < amount then Some(InsufficientBalance)
        else None
      case Iterate(_, _) => None
  }

  /** A well-formed job is refused exactly when the operation is not enabled. */
  lemma RefusedIffDisabled(l: Ledger, op: Op)
    requires WellFormed(SingleJob(op))
    ensures Refusal(l, op).None? <==> Enabled(l, op)
  {
  }

  function SeedOp(env: Env, key: PublicKey, e: SeedEntry, defaultSeed: nat): Op
  {
    SeedWallet(key, if e.initialBalance.Some? then e.initialBalance.value else defaultSeed, env.operator,
               e.idTime, e.recordTime, "", SeedBootstrap)
  }

  /** The loop of `install_seed`: known wallets are skipped; an undecodable key stops the loop with an
  error and keeps what was installed before it. */
  ghost function SeedLoop(env: Env, l: Ledger, entries: seq<SeedEntry>, defaultSeed: nat): Outcome
    requires !l.sys.iterationLock
    decreases |entries|
  {
    if entries == [] then Outcome(l, None)
    else match entries[0].publicKey
      case None => Outcome(l, Some(BadRequest))
      case Some(key) =>
        if KeyHash(key) in l.disk.wallets then SeedLoop(env, l, entries[1..], defaultSeed)
        else
          var op := SeedOp(env, key, entries[0], defaultSeed);
          SeedKeepsLock(env, l, op);
          SeedLoop(env, Apply(env, l, op), entries[1..], defaultSeed)
  }

  lemma SeedKeepsLock(env: Env, l: Ledger, op: Op)
    requires op.SeedWallet? && Enabled(l, op)
    ensures !Apply(env, l, op).sys.iterationLock
  {
  }

  /** What the iteration needs to run: parameters `clamp` accepts, and the scan it is handed. */
  ghost predicate Runnable(l: Ledger, job: Job, listing: seq<Wallet>)
  {
    job.IterationJob? && !l.sys.iterationLock ==> Enabled(l, Iterate(job.parameters, listing))
  }

  /** Everything under the lock. */
  ghost function Locked(env: Env, l: Ledger, job: Job, listing: seq<Wallet>): Outcome
    requires WellFormed(job) && Runnable(l, job, listing)
  {
    if l.sys.iterationLock then Outcome(l, Some(IterationInProgress))
    else match job
      case SingleJob(op) =>
        var refusal := Refusal(l, op);
        RefusedIffDisabled(l, op);
        if refusal.Some? then Outcome(l, refusal) else Outcome(Store(Apply(env, l, op)), None)
      case SeedJob(entries, defaultSeed) =>
        var o := SeedLoop(env, l, entries, defaultSeed);
        if o.error.Some? then o else Outcome(Store(o.ledger), None)
      case IterationJob(p) => Outcome(Store(Apply(env, l, Iterate(p, listing))), None)
  }

  // ---------- What can be told of a seed file before it is sent ----------

  /** Position of the first key that does not decode; the length of the file if all of them do. */
  function StopsAt(entries: seq<SeedEntry>): (k: nat)
    ensures k <= |entries|
    ensures forall i :: 0 <= i < k ==> entries[i].publicKey.Some?
    ensures k < |entries| ==> entries[k].publicKey.None?
  {
    if entries == [] || entries[0].publicKey.None? then 0 else 1 + StopsAt(entries[1..])
  }

  predicate Stops(entries: seq<SeedEntry>) { StopsAt(entries) < |entries| }

  /** An entry before the stop names the wallet. */
  ghost predicate ReadableAt(entries: seq<SeedEntry>, i: int, id: WalletId)
  {
    0 <= i < StopsAt(entries) && KeyHash(entries[i].publicKey.value) == id
  }

  /** Every entry before the stop names a stored wallet. */
  ghost predicate AllKnown(m: WalletMap, entries: seq<SeedEntry>)
  {
    forall i, id :: ReadableAt(entries, i, id) ==> id in m
  }

  lemma ReadableNext(entries: seq<SeedEntry>, i: int, id: WalletId)
    requires entries != [] && entries[0].publicKey.Some?
    ensures ReadableAt(entries, i, id) <==>
      (i == 0 && id == KeyHash(entries[0].publicKey.value)) || ReadableAt(entries[1..], i - 1, id)
  {
  }

  lemma SeedPuts(env: Env, l: Ledger, op: Op)
    requires op.SeedWallet? && Enabled(l, op)
    ensures Apply(env, l, op).disk.wallets.Keys == l.disk.wallets.Keys + {KeyHash(op.key)}
  {
  }

  /** A seed file fails exactly when a key does not decode, and whether or not it fails, it stores the
  wallets of the entries before the stop and no others. */
  lemma {:induction false} SeedLoopExact(env: Env, l: Ledger, entries: seq<SeedEntry>, defaultSeed: nat)
    requires !l.sys.iterationLock
    ensures var o := SeedLoop(env, l, entries, defaultSeed);
      && o.error == (if Stops(entries) then Some(BadRequest) else None)
      && forall id :: id in o.ledger.disk.wallets <==> id in l.disk.wallets || exists i :: ReadableAt(entries, i, id)
    decreases |entries|
  {
    hide Apply, Enabled, ReadableAt;
    if entries != [] && entries[0].publicKey.Some? {
      var key := entries[0].publicKey.value;
      var next := l;
      if KeyHash(key) !in l.disk.wallets {
        var op := SeedOp(env, key, entries[0], defaultSeed);
        assert Enabled(l, op) by { SeedEnabled(l, op); }
        SeedKeepsLock(env, l, op);
        SeedPuts(env, l, op);
        next := Apply(env, l, op);
      }
      SeedLoopExact(env, next, entries[1..], defaultSeed);
      var o := SeedLoop(env, l, entries, defaultSeed);
      forall id
        ensures id in o.ledger.disk.wallets <==> id in l.disk.wallets || exists i :: ReadableAt(entries, i, id)
      {
        ReadableNext(entries, 0, id);
        if i :| ReadableAt(entries, i, id) {
          ReadableNext(entries, i, id);
        }
        if i :| ReadableAt(entries[1..], i, id) {
          ReadableNext(entries, i + 1, id);
        }
      }
    } else {
      forall i, id ensures !ReadableAt(entries, i, id) {
        NothingReadable(entries, i, id);
      }
    }
  }

  lemma SeedEnabled(l: Ledger, op: Op)
    requires !l.sys.iterationLock && op.SeedWallet? && KeyHash(op.key) !in l.disk.wallets
    ensures Enabled(l, op)
  {
  }

  lemma NothingReadable(entries: seq<SeedEntry>, i: int, id: WalletId)
    requires entries == [] || entries[0].publicKey.None?
    ensures !ReadableAt(entries, i, id)
  {
  }

  lemma {:induction false} KnownChangesNothing(env: Env, l: Ledger, entries: seq<SeedEntry>, defaultSeed: nat)
    requires !l.sys.iterationLock && AllKnown(l.disk.wallets, entries)
    ensures SeedLoop(env, l, entries, defaultSeed).ledger == l
    decreases |entries|
  {
    hide ReadableAt, Apply;
    if entries != [] && entries[0].publicKey.Some? {
      ReadableNext(entries, 0, KeyHash(entries[0].publicKey.value));
      forall i, id | ReadableAt(entries[1..], i, id) ensures id in l.disk.wallets {
        ReadableNext(entries, i + 1, id);
      }
      KnownChangesNothing(env, l, entries[1..], defaultSeed);
    }
  }

  /** The seed file is refused although it changes the ledger. */
  ghost predicate StopsAfterInstalling(l: Ledger, job: Job)
  {
    job.SeedJob? && !l.sys.iterationLock && Stops(job.entries) && !AllKnown(l.disk.wallets, job.entries)
  }

  /** A refused job leaves the ledger as it was, except exactly a seed file that stops at an undecodable
  key behind a wallet it could install. */
  lemma RefusedExact(env: Env, l: Ledger, job: Job, listing: seq<Wallet>)
    requires WellFormed(job) && Runnable(l, job, listing)
    ensures var o := Locked(env, l, job, listing);
      o.error.Some? ==> (o.ledger == l <==> !StopsAfterInstalling(l, job))
  {
    hide Apply, Refusal, Store, Enabled, SeedLoop, AllKnown;
    if !l.sys.iterationLock && job.SeedJob? {
      SeedLoopExact(env, l, job.entries, job.defaultSeed);
      if AllKnown(l.disk.wallets, job.entries) {
        KnownChangesNothing(env, l, job.entries, job.defaultSeed);
      } else {
        UnknownEntry(l.disk.wallets, job.entries);
      }
    }
  }

  lemma UnknownEntry(m: WalletMap, entries: seq<SeedEntry>)
    requires !AllKnown(m, entries)
    ensures exists i, id :: ReadableAt(entries, i, id) && id !in m
  {
  }

  /** A request served in one go took the ledger from `l` to `after` and was answered with `error`. */
  ghost predicate Served(env: Env, p: Parameters, unseen: bool, r: Request, listing: seq<Wallet>,
                         l: Ledger, after: Ledger, error: Option<StateError>)
  {
    match Validate(env, p, unseen, r)
    case Invalid(e) => after == l && error == Some(e)
    case Valid(job) =>
      ValidIsWellFormed(env, p, unseen, r);
      Runnable(l, job, listing) && Outcome(after, error) == Locked(env, l, job, listing)
  }

  /** How a seed file is served: refused under a lock, else as far as the loop gets. */
  lemma SeedServed(env: Env, p: Parameters, entries: seq<SeedEntry>, l: Ledger)
    ensures l.sys.iterationLock ==>
      Served(env, p, true, InstallSeed(entries), [], l, l, Some(IterationInProgress))
    ensures !l.sys.iterationLock ==>
      var o := SeedLoop(env, l, entries, MicroSeed(p));
      Served(env, p, true, InstallSeed(entries), [], l, if o.error.None? then Store(o.ledger) else o.ledger, o.error)
  {
    hide SeedLoop, Store, MicroSeed;
  }

  /** How an iteration request is served: refused under a lock, else run on the scan it is handed. */
  lemma IterationServed(env: Env, p: Parameters, listing: seq<Wallet>, l: Ledger)
    ensures l.sys.iterationLock ==> Served(env, p, true, RunIteration, listing, l, l, Some(IterationInProgress))
    ensures Enabled(l, Iterate(p, listing)) ==>
      Served(env, p, true, RunIteration, listing, l, Store(Apply(env, l, Iterate(p, listing))), None)
  {
    hide Apply, Store;
  }
}
