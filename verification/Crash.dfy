/** Crashes in the middle of an iteration and between requests: writes are ordered, and a crash keeps a
prefix of them. */
module Crash {
  import opened Arith
  import opened Types
  import opened Economy
  import opened WalletMaps
  import opened Poh
  import opened Storage
  import opened Ledger
  import opened Counters
  import opened Replay
  import opened Archive
  import opened Invariant
  import opened Requests
  import opened Node

  ghost function IterationEntry(env: Env, l: Ledger, op: Op): PohEntry
    requires op.Iterate? && Enabled(l, op)
  {
    BuildEntry(SatAdd(l.sys.tick, 1), l.sys.lastPohHash, [Result(env, l, op).commit.txId], env.leader)
  }

  /** The writes of `execute_iteration_now`, in the order the source makes them. */
  ghost function IterationWrites(env: Env, l: Ledger, op: Op): seq<Write>
    requires op.Iterate? && Enabled(l, op)
  {
    var r := Result(env, l, op);
    [PutState(l.sys.(iterationLock := true))]
    + WalletWrites(r.wallets)
    + TransactionWrites(Commit(r.commit), SatAdd(l.sys.tick, 1))
    + [PutPoh(IterationEntry(env, l, op)), PutIteration(r.commit), PutState(Apply(env, l, op).sys)]
  }

  /** All of the writes together take the store from before the iteration to after it. */
  lemma WritesAreTheIteration(env: Env, l: Ledger, op: Op)
    requires op.Iterate? && Enabled(l, op)
    ensures ApplyWrites(l.disk, IterationWrites(env, l, op)) == Store(Apply(env, l, op)).disk
  {
    hide ExecuteIteration, BuildEntry, PutAll, IndexAll, ApplyWrites, WalletWrites, TransactionWrites;
    var r := Result(env, l, op);
    var tx := Commit(r.commit);
    var tick := SatAdd(l.sys.tick, 1);
    var (s, e) := (l.sys.(iterationLock := true), IterationEntry(env, l, op));
    EntryTick(tick, l.sys.lastPohHash, [r.commit.txId], env.leader);
    var a := [PutState(s)];
    var b := WalletWrites(r.wallets);
    var c := TransactionWrites(tx, tick);
    var d := [PutPoh(e), PutIteration(r.commit), PutState(Apply(env, l, op).sys)];
    ApplyConcat(l.disk, a + b + c, d);
    ApplyConcat(l.disk, a + b, c);
    ApplyConcat(l.disk, a, b);
    SingleWrite(l.disk, PutState(s));
    var d1 := ApplyWrites(l.disk, a);
    WalletWritesApply(d1, r.wallets);
    var d2 := ApplyWrites(d1, b);
    TransactionWritesApply(d2, tx, tick);
    var d3 := ApplyWrites(d2, c);
    ThreeWrites(d3, PutPoh(e), PutIteration(r.commit), PutState(Apply(env, l, op).sys));
  }

  lemma SingleWrite(d: Disk, w: Write)
    ensures ApplyWrites(d, [w]) == ApplyWrite(d, w)
  {
    assert [w][..0] == [];
  }

  lemma ThreeWrites(d: Disk, u: Write, v: Write, w: Write)
    ensures ApplyWrites(d, [u, v, w]) == ApplyWrite(ApplyWrite(ApplyWrite(d, u), v), w)
  {
    SingleWrite(d, u);
    ApplySnoc(d, [u], v);
    assert [u] + [v] == [u, v];
    ApplySnoc(d, [u, v], w);
    assert [u, v] + [w] == [u, v, w];
  }

  /** `open`: the in-memory state is whatever was persisted. */
  function Reopen(d: Disk): Ledger { Ledger(d, d.stored) }

  lemma {:induction false} OtherWritesKeepState(d: Disk, ws: seq<Write>)
    requires forall i :: 0 <= i < |ws| ==> !ws[i].PutState?
    ensures ApplyWrites(d, ws).stored == d.stored
  {
    if ws != [] {
      OtherWritesKeepState(d, ws[..|ws| - 1]);
    }
  }

  ghost predicate Persisted(l: Ledger) { l.disk.stored == l.sys }

  /** After a crash in the middle, the persisted state carries the iteration lock. */
  lemma MiddleIsLocked(env: Env, l: Ledger, op: Op, k: nat)
    requires op.Iterate? && Enabled(l, op) && 0 < k < |IterationWrites(env, l, op)|
    ensures Reopen(ApplyWrites(l.disk, IterationWrites(env, l, op)[..k])).sys.iterationLock
  {
    hide Result, Apply, IterationEntry, ApplyWrites;
    var ws := IterationWrites(env, l, op);
    var middle := ws[1..k];
    assert ws[..k] == [ws[0]] + middle;
    SingleWrite(l.disk, ws[0]);
    ApplyConcat(l.disk, [ws[0]], middle);
    OtherWritesKeepState(ApplyWrites(l.disk, [ws[0]]), middle);
  }

  /** A crash after any prefix of an iteration's writes leaves what was persisted before, the complete
  iteration, or a lock. What was persisted before is the ledger itself exactly when the ledger was
  persisted; `PersistedInRun` says when it is. */
  lemma CrashTrichotomy(env: Env, l: Ledger, op: Op, k: nat)
    requires op.Iterate? && Enabled(l, op) && k <= |IterationWrites(env, l, op)|
    ensures var after := Reopen(ApplyWrites(l.disk, IterationWrites(env, l, op)[..k]));
      if k == 0 then after == Reopen(l.disk) && (after == l <==> Persisted(l))
      else if k == |IterationWrites(env, l, op)| then after == Store(Apply(env, l, op))
      else after.sys.iterationLock
  {
    var ws := IterationWrites(env, l, op);
    if k == 0 {
      assert ws[..0] == [];
    } else if k == |ws| {
      assert ws[..k] == ws;
      WritesAreTheIteration(env, l, op);
      hide Apply, IterationWrites, ApplyWrites;
    } else {
      MiddleIsLocked(env, l, op, k);
    }
  }

  /** Under a persisted lock every mutating method is refused and changes nothing. */
  lemma LockRefusesAll(env: Env, l: Ledger, job: Job, listing: seq<Wallet>)
    requires l.sys.iterationLock && WellFormed(job)
    ensures Runnable(l, job, listing)
    ensures Locked(env, l, job, listing) == Outcome(l, Some(IterationInProgress))
  {
  }

  /** So no transaction is ever applied on top of a half-written iteration: in any run from a locked
  ledger, under any interleaving, the ledger stays as it is. */
  lemma {:induction false} LockedForever(env: Env, nodes: seq<Node>, events: seq<Event>, i: nat)
    requires IsRun(env, nodes, events) && nodes[0].ledger.sys.iterationLock && i <= |events|
    ensures nodes[i].ledger == nodes[0].ledger
    decreases i
  {
    hide Validate, Locked;
    if i != 0 {
      LockedForever(env, nodes, events, i - 1);
      var (n, e) := (nodes[i - 1], events[i - 1]);
      assert Allowed(env, n, e) && nodes[i] == Step(env, n, e);
      match e
      case Enter(id, listing) =>
        LockRefusesAll(env, n.ledger, Judge(env, n.waiting[id]).job, listing);
      case _ =>
    }
  }

  // ---------- What is persisted in a run ----------

  /** How many hashes a last hash was built over. */
  ghost function Depth(d: Digest): nat
  {
    if d.ByteHash? && |d.preimage| > 0 && d.preimage[0].Hex? then 1 + Depth(d.preimage[0].hex) else 0
  }

  /** The persisted state is an earlier one: its last hash lies deeper in the chain. */
  ghost predicate Behind(l: Ledger) { Depth(l.disk.stored.lastPohHash) < Depth(l.sys.lastPohHash) }

  lemma SeedDeepens(env: Env, l: Ledger, op: Op)
    requires op.SeedWallet? && Enabled(l, op)
    ensures Depth(Apply(env, l, op).sys.lastPohHash) == Depth(l.sys.lastPohHash) + 1
    ensures Apply(env, l, op).disk.stored == l.disk.stored
  {
    var (tick, id) := (SatAdd(l.sys.tick, 1), TxOf(env, l, op).TxId());
    assert Preimage(l.sys.lastPohHash, tick, TxRoot([id]), env.leader)[0] == Hex(l.sys.lastPohHash);
  }

  lemma {:induction false} SeedLoopDepth(env: Env, l: Ledger, entries: seq<SeedEntry>, defaultSeed: nat)
    requires !l.sys.iterationLock
    ensures var o := SeedLoop(env, l, entries, defaultSeed);
      && o.ledger.disk.stored == l.disk.stored
      && Depth(l.sys.lastPohHash) <= Depth(o.ledger.sys.lastPohHash)
      && (o.ledger != l ==> Depth(l.sys.lastPohHash) < Depth(o.ledger.sys.lastPohHash))
      && !o.ledger.sys.iterationLock
    decreases |entries|
  {
    hide Apply, Depth;
    if entries != [] && entries[0].publicKey.Some? {
      var key := entries[0].publicKey.value;
      if KeyHash(key) in l.disk.wallets {
        SeedLoopDepth(env, l, entries[1..], defaultSeed);
      } else {
        var op := SeedOp(env, key, entries[0], defaultSeed);
        SeedKeepsLock(env, l, op);
        SeedDeepens(env, l, op);
        SeedLoopDepth(env, Apply(env, l, op), entries[1..], defaultSeed);
      }
    }
  }

  /** What one lock entry does to the persisted state: an accepted job persists its final state, a refused
  one changes nothing, except that a seed file that stops after installing something returns before the
  closing `store_state`. */
  lemma EntryPersists(env: Env, l: Ledger, job: Job, listing: seq<Wallet>)
    requires WellFormed(job) && Runnable(l, job, listing)
    ensures var o := Locked(env, l, job, listing);
      if o.error.None? then Persisted(o.ledger) && !StopsAfterInstalling(l, job)
      else if StopsAfterInstalling(l, job) then
        o.ledger.disk.stored == l.disk.stored && Depth(l.sys.lastPohHash) < Depth(o.ledger.sys.lastPohHash)
      else o.ledger == l
  {
    hide Apply, Refusal, SeedLoop, Depth, AllKnown, Enabled;
    RefusedExact(env, l, job, listing);
    if !l.sys.iterationLock && job.SeedJob? {
      SeedLoopExact(env, l, job.entries, job.defaultSeed);
      SeedLoopDepth(env, l, job.entries, job.defaultSeed);
    }
  }

  /** A seed file with an undecodable key leaves the ledger persisted exactly when every entry before that
  key names a stored wallet. */
  lemma SeedFailureExact(env: Env, l: Ledger, entries: seq<SeedEntry>, defaultSeed: nat)
    requires !l.sys.iterationLock && Persisted(l) && Stops(entries)
    ensures var o := Locked(env, l, SeedJob(entries, defaultSeed), []);
      o.error == Some(BadRequest) && (Persisted(o.ledger) <==> AllKnown(l.disk.wallets, entries))
  {
    hide SeedLoop, AllKnown, Depth;
    SeedLoopExact(env, l, entries, defaultSeed);
    EntryPersists(env, l, SeedJob(entries, defaultSeed), []);
  }

  /** At event `j` a seed file was refused after it installed something, and no request was accepted
  between that and node `i`. */
  ghost predicate UnsavedSince(env: Env, nodes: seq<Node>, events: seq<Event>, j: nat, i: nat)
    requires i <= |events| < |nodes|
  {
    && j < i && HalfSeedAt(env, nodes[j], events[j])
    && forall k: nat :: j < k < i ==> !AcceptedAt(env, nodes[k], events[k])
  }

  ghost predicate Unsaved(env: Env, nodes: seq<Node>, events: seq<Event>, i: nat)
    requires i <= |events| < |nodes|
  {
    exists j: nat :: UnsavedSince(env, nodes, events, j, i)
  }

  /** In every run from a persisted ledger, a node is persisted exactly when no refused seed file has left
  wallets behind since the last accepted request. */
  lemma {:induction false} PersistedInRun(env: Env, nodes: seq<Node>, events: seq<Event>, i: nat)
    requires IsRun(env, nodes, events) && Persisted(nodes[0].ledger) && i <= |events|
    ensures Persisted(nodes[i].ledger) || Behind(nodes[i].ledger)
    ensures Persisted(nodes[i].ledger) <==> !Unsaved(env, nodes, events, i)
    decreases i
  {
    hide Locked, Validate, WellFormed, Runnable, StopsAfterInstalling, Depth;
    if i != 0 {
      PersistedInRun(env, nodes, events, i - 1);
      var (n, e) := (nodes[i - 1], events[i - 1]);
      assert Allowed(env, n, e) && nodes[i] == Step(env, n, e);
      if e.Enter? {
        EntryPersists(env, n.ledger, Judge(env, n.waiting[e.id]).job, e.listing);
      }
      UnsavedStep(env, nodes, events, i - 1, i);
      hide Unsaved;
    }
  }

  lemma UnsavedStep(env: Env, nodes: seq<Node>, events: seq<Event>, i: nat, next: nat)
    requires next == i + 1 <= |events| < |nodes|
    ensures Unsaved(env, nodes, events, next) <==>
      || HalfSeedAt(env, nodes[i], events[i])
      || (!AcceptedAt(env, nodes[i], events[i]) && Unsaved(env, nodes, events, i))
  {
    hide HalfSeedAt, AcceptedAt;
    if HalfSeedAt(env, nodes[i], events[i]) {
      assert UnsavedSince(env, nodes, events, i, next);
    }
    if j: nat :| UnsavedSince(env, nodes, events, j, next) {
      assert j == i || UnsavedSince(env, nodes, events, j, i);
    }
    if !AcceptedAt(env, nodes[i], events[i]) {
      if j: nat :| UnsavedSince(env, nodes, events, j, i) {
        assert UnsavedSince(env, nodes, events, j, next);
      }
    }
  }

  // ---------- Reopening between requests ----------

  /** The persisted state counts fewer wallets than are stored. */
  ghost predicate Fewer(l: Ledger)
  {
    !l.disk.stored.iterationLock && l.disk.stored.nWallets < |l.disk.wallets|
  }

  /** So does the log up to the persisted tick. */
  ghost predicate Lagging(l: Ledger, log: seq<Transaction>)
  {
    Fewer(l) && l.disk.stored.tick <= |log| && |ReplayLog(log[..l.disk.stored.tick])| < |l.disk.wallets|
  }

  lemma BookSize(m: WalletMap)
    ensures |BookOf(m)| == |m|
  {
    assert BookOf(m).Keys == m.Keys;
  }

  lemma ApplyUnlocked(env: Env, l: Ledger, op: Op)
    requires Enabled(l, op)
    ensures !Apply(env, l, op).sys.iterationLock
  {
    ApplyParts(env, l, op);
    hide Apply, ExecuteIteration, SoundAfter, Sound, WalletsAfter, IsListing;
  }

  lemma LockedUnlocked(env: Env, l: Ledger, job: Job, listing: seq<Wallet>)
    requires WellFormed(job) && Runnable(l, job, listing) && !l.sys.iterationLock
    ensures !Locked(env, l, job, listing).ledger.sys.iterationLock
  {
    hide Apply, Enabled, SeedLoop, Refusal, Depth;
    match job
    case SingleJob(op) =>
      RefusedIffDisabled(l, op);
      if Refusal(l, op).None? {
        ApplyUnlocked(env, l, op);
      }
    case SeedJob(entries, defaultSeed) => SeedLoopDepth(env, l, entries, defaultSeed);
    case IterationJob(p) => ApplyUnlocked(env, l, Iterate(p, listing));
  }

  /** A half-installed seed file adds wallets and leaves the persisted state. */
  lemma HalfSeedGrows(env: Env, l: Ledger, job: Job, listing: seq<Wallet>)
    requires StopsAfterInstalling(l, job)
    ensures var l' := Locked(env, l, job, listing).ledger;
      l'.disk.stored == l.disk.stored && |l.disk.wallets| < |l'.disk.wallets|
  {
    hide SeedLoop, AllKnown, Depth;
    SeedLoopExact(env, l, job.entries, job.defaultSeed);
    SeedLoopDepth(env, l, job.entries, job.defaultSeed);
    UnknownEntry(l.disk.wallets, job.entries);
    var i, id :| ReadableAt(job.entries, i, id) && id !in l.disk.wallets;
    var (m, m') := (l.disk.wallets, Locked(env, l, job, listing).ledger.disk.wallets);
    SubsetSize(m.Keys + {id}, m'.Keys);
  }

  lemma LaggingEntry(env: Env, l: Ledger, job: Job, listing: seq<Wallet>, log: seq<Transaction>)
    requires WellFormed(job) && Runnable(l, job, listing) && Inv(env, l, log) && !l.sys.iterationLock
    requires Persisted(l) || Lagging(l, log)
    ensures var l' := Locked(env, l, job, listing).ledger;
      Persisted(l') || Lagging(l', log + JobLog(env, l, job, listing))
  {
    hide Locked, JobLog, Inv, ReplayLog, BookOf, Runnable, WellFormed, StopsAfterInstalling, Depth;
    EntryPersists(env, l, job, listing);
    InvSound(env, l, log);
    var l' := Locked(env, l, job, listing).ledger;
    var more := log + JobLog(env, l, job, listing);
    if StopsAfterInstalling(l, job) {
      HalfSeedGrows(env, l, job, listing);
      BookSize(l.disk.wallets);
      assert log[..|log|] == log;
      hide Sound;
      assert more[..l.disk.stored.tick] == log[..l.disk.stored.tick];
    } else if l' == l && !Persisted(l) {
      assert more[..l.disk.stored.tick] == log[..l.disk.stored.tick];
    }
  }

  /** In a clean run the persisted state is the current one or counts fewer wallets than are stored. */
  lemma {:induction false} PersistedOrLagging(env: Env, nodes: seq<Node>, events: seq<Event>, i: nat)
    requires IsRun(env, nodes, events) && CleanRun(env, nodes, events) && PowfNonNegative(env.libm)
    requires nodes[0].ledger == EMPTY && i <= |events|
    ensures !nodes[i].ledger.sys.iterationLock
    ensures Persisted(nodes[i].ledger) || Lagging(nodes[i].ledger, LogUpTo(env, nodes, events, i))
    decreases i
  {
    hide Locked, JobLog, Validate, WellFormed, Runnable, Inv, Lagging, CleanRun;
    if i != 0 {
      PersistedOrLagging(env, nodes, events, i - 1);
      var (n, e, log) := (nodes[i - 1], events[i - 1], LogUpTo(env, nodes, events, i - 1));
      assert Allowed(env, n, e) && nodes[i] == Step(env, n, e);
      Reachable(env, nodes, events, i - 1);
      match e
      case Enter(id, listing) =>
        var job := Judge(env, n.waiting[id]).job;
        LaggingEntry(env, n.ledger, job, listing, log);
        LockedUnlocked(env, n.ledger, job, listing);
      case _ => assert log + [] == log;
    }
  }

  /** Reopening the store of any node of a clean run, between two requests: the counters agree with the
  wallets, and the log rebuilds them, exactly when no refused seed file has left wallets behind since the
  last accepted request. */
  lemma ReopenExact(env: Env, nodes: seq<Node>, events: seq<Event>, i: nat)
    requires IsRun(env, nodes, events) && CleanRun(env, nodes, events) && PowfNonNegative(env.libm)
    requires nodes[0].ledger == EMPTY && i <= |events|
    ensures var l := Reopen(nodes[i].ledger.disk); var read := ReadBack(l.disk, l.sys.tick);
      && (Sound(l) <==> !Unsaved(env, nodes, events, i))
      && read.Some?
      && (ReplayLog(read.value) == BookOf(l.disk.wallets) <==> !Unsaved(env, nodes, events, i))
  {
    var (l, log) := (nodes[i].ledger, LogUpTo(env, nodes, events, i));
    hide IsRun, CleanRun, LogUpTo, Inv, Unsaved, ReplayLog, BookOf, ReadBack, Depth;
    PersistedInRun(env, nodes, events, i);
    PersistedOrLagging(env, nodes, events, i);
    Reachable(env, nodes, events, i);
    InvSound(env, l, log);
    BookSize(l.disk.wallets);
    if Persisted(l) {
      ReadBackOfReachable(env, l, log);
    } else {
      ReadBackTo(env, l, log, l.disk.stored.tick);
    }
  }

  lemma ReadBackTo(env: Env, l: Ledger, log: seq<Transaction>, n: nat)
    requires Inv(env, l, log) && n <= |log|
    ensures ReadBack(l.disk, n) == Some(log[..n])
  {
    ReadBackPrefix(env, l, log, n);
  }
}
