/** Signatures over whole runs: nothing is spent without the owner's signature. */
module Signatures {
  import opened Types
  import opened Ledger
  import opened Requests
  import opened Node
  import opened Effects

  /** Signed with the key, or blank where the development switch was on. */
  predicate Signed(env: Env, key: PublicKey, id: Digest, sig: string, bypass: bool)
  {
    env.verify(key, id, sig) || (bypass && Blank(sig))
  }

  /** The owner of the spending wallet signed for exactly this transaction. */
  ghost predicate Authentic(env: Env, tx: Transaction, bypass: bool)
  {
    match tx
    case Transfer(id, from, to, amount, nonce, time, key, sig) =>
      && KeyHash(key) == from && id == PayloadHash(TransferPayload(from, to, amount, nonce, time, key))
      && Signed(env, key, id, sig, bypass)
    case Burn(id, from, amount, nonce, time, key, sig) =>
      && KeyHash(key) == from && id == PayloadHash(BurnPayload(from, amount, nonce, time, key))
      && Signed(env, key, id, sig, bypass)
    case _ => true
  }

  ghost predicate AllAuthentic(env: Env, txs: map<Digest, Transaction>, bypass: bool)
  {
    forall id :: id in txs ==> Authentic(env, txs[id], bypass)
  }

  /** The development switch is off, or `bypass` is set. */
  ghost predicate Switched(p: Parameters, bypass: bool) { p.devAuthBypass ==> bypass }

  ghost predicate NodeSwitched(n: Node, bypass: bool)
  {
    Switched(n.parameters, bypass) && forall id :: id in n.waiting ==> Switched(n.waiting[id].parameters, bypass)
  }

  lemma SingleAuthentic(env: Env, t: Ticket, l: Ledger, bypass: bool)
    requires Switched(t.parameters, bypass) && Judge(env, t).Valid? && Judge(env, t).job.SingleJob?
    requires Enabled(l, Judge(env, t).job.op)
    ensures Authentic(env, TxOf(env, l, Judge(env, t).job.op), bypass)
  {
  }

  lemma {:induction false} SeedAuthentic(env: Env, l: Ledger, entries: seq<SeedEntry>, defaultSeed: nat, bypass: bool)
    requires !l.sys.iterationLock && AllAuthentic(env, l.disk.txs, bypass)
    ensures AllAuthentic(env, SeedLoop(env, l, entries, defaultSeed).ledger.disk.txs, bypass)
    decreases |entries|
  {
    hide Apply, TxOf;
    if entries != [] && entries[0].publicKey.Some? {
      var key := entries[0].publicKey.value;
      if KeyHash(key) in l.disk.wallets {
        SeedAuthentic(env, l, entries[1..], defaultSeed, bypass);
      } else {
        var op := SeedOp(env, key, entries[0], defaultSeed);
        SeedKeepsLock(env, l, op);
        AppliedAuthentic(env, l, op, bypass);
        SeedAuthentic(env, Apply(env, l, op), entries[1..], defaultSeed, bypass);
      }
    }
  }

  lemma AppliedAuthentic(env: Env, l: Ledger, op: Op, bypass: bool)
    requires Enabled(l, op) && AllAuthentic(env, l.disk.txs, bypass)
    requires op.MoveFunds? || op.BurnFunds? ==> Authentic(env, TxOf(env, l, op), bypass)
    ensures AllAuthentic(env, Apply(env, l, op).disk.txs, bypass)
  {
    ApplyAppends(env, l, op);
    assert Authentic(env, TxOf(env, l, op), bypass);
    hide Apply, TxOf, Authentic, StateIs;
  }

  lemma EntryAuthentic(env: Env, t: Ticket, l: Ledger, listing: seq<Wallet>, bypass: bool)
    requires Switched(t.parameters, bypass) && Judge(env, t).Valid? && Runnable(l, Judge(env, t).job, listing)
    requires AllAuthentic(env, l.disk.txs, bypass)
    ensures AllAuthentic(env, Locked(env, l, Judge(env, t).job, listing).ledger.disk.txs, bypass)
  {
    var job := Judge(env, t).job;
    if !l.sys.iterationLock {
      match job
      case SingleJob(op) =>
        RefusedIffDisabled(l, op);
        if Refusal(l, op).None? {
          SingleAuthentic(env, t, l, bypass);
          hide Apply, TxOf, Validate, Enabled, Refusal;
          AppliedAuthentic(env, l, op, bypass);
        }
      case SeedJob(entries, defaultSeed) =>
        hide SeedLoop, Validate;
        SeedAuthentic(env, l, entries, defaultSeed, bypass);
      case IterationJob(p) =>
        hide Apply, Validate, Enabled;
        AppliedAuthentic(env, l, Iterate(p, listing), bypass);
    }
  }

  /** In every run, under any interleaving, every archived transfer and burn carries its owner's signature over
  its own id. Where the development switch was on at some point, a blank one may stand in for it; where it
  never was (`bypass` is false), none may. */
  lemma {:induction false} NothingSpentUnsigned(env: Env, nodes: seq<Node>, events: seq<Event>, i: nat, bypass: bool)
    requires IsRun(env, nodes, events) && i <= |events|
    requires nodes[0].ledger == EMPTY && NodeSwitched(nodes[0], bypass)
    requires forall j :: 0 <= j < |events| && events[j].SetParameters? ==> Switched(events[j].parameters, bypass)
    ensures NodeSwitched(nodes[i], bypass)
    ensures AllAuthentic(env, nodes[i].ledger.disk.txs, bypass)
    decreases i
  {
    hide Validate, Locked, Runnable, WellFormed, AllAuthentic, Authentic;
    if i == 0 {
      assert AllAuthentic(env, map[], bypass) by { NoneYet(env, bypass); }
    } else {
      NothingSpentUnsigned(env, nodes, events, i - 1, bypass);
      var (n, e) := (nodes[i - 1], events[i - 1]);
      assert Allowed(env, n, e) && nodes[i] == Step(env, n, e);
      match e
      case Enter(id, listing) => EntryAuthentic(env, n.waiting[id], n.ledger, listing, bypass);
      case _ =>
    }
  }

  lemma NoneYet(env: Env, bypass: bool)
    ensures AllAuthentic(env, map[], bypass)
  {
  }

  // ---------- Refusal ----------

  /** A spend whose key is not the wallet's, or whose signature neither verifies nor is excused. */
  ghost predicate Forged(env: Env, p: Parameters, r: Request)
  {
    match r
    case TransferRequest(from, to, amount, nonce, time, sender, sig) =>
      || sender.None? || KeyHash(sender.value) != from
      || !Signed(env, sender.value, PayloadHash(TransferPayload(from, to, amount, nonce, time, sender.value)), sig,
                 p.devAuthBypass)
    case BurnRequest(from, amount, nonce, time, sender, sig) =>
      || sender.None? || KeyHash(sender.value) != from
      || !Signed(env, sender.value, PayloadHash(BurnPayload(from, amount, nonce, time, sender.value)), sig,
                 p.devAuthBypass)
    case _ => false
  }

  /** A forged request never changes anything: served alone it is refused, on arrival it is forgotten, and none
  ever gets the lock. */
  lemma ForgedChangesNothing(env: Env, n: Node, id: nat, unseen: bool, r: Request)
    requires Forged(env, n.parameters, r)
    ensures forall listing, after, error :: Served(env, n.parameters, unseen, r, listing, n.ledger, after, error) ==>
      after == n.ledger && (error == Some(InvalidSignature) || error == Some(BadRequest))
    ensures id !in n.waiting ==> Step(env, n, Arrive(id, r, unseen)) == n
  {
    hide Locked, Runnable, WellFormed;
  }

  lemma ForgedNeverEnters(env: Env, n: Node, id: nat, listing: seq<Wallet>)
    requires Allowed(env, n, Enter(id, listing))
    ensures !Forged(env, n.waiting[id].parameters, n.waiting[id].request)
  {
    hide Runnable, WellFormed;
  }
}
