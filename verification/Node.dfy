/** Concurrent requests: each is split at the write lock, and the two halves of different requests
interleave freely. */
module Node {
  import opened Arith
  import opened Types
  import opened Economy
  import opened WalletMaps
  import opened Poh
  import opened Storage
  import opened Ledger
  import opened Replay
  import opened History
  import opened Archive
  import opened Invariant
  import opened Requests

  /** A request between its two phases, with the parameters it captured on arrival. */
  datatype Ticket = Ticket(parameters: Parameters, unseen: bool, request: Request)

  datatype Node = Node(ledger: Ledger, parameters: Parameters, waiting: map<nat, Ticket>)

  datatype Event =
    /** `update_parameters`. */
    | SetParameters(parameters: Parameters)
    /** First phase; an invalid request is answered and forgotten. */
    | Arrive(id: nat, request: Request, unseen: bool)
    /** The waiting request gets the lock; `listing` is the scan an iteration makes. */
    | Enter(id: nat, listing: seq<Wallet>)

  ghost predicate Allowed(env: Env, n: Node, e: Event)
  {
    match e
    case SetParameters(_) => true
    case Arrive(id, _, _) => id !in n.waiting
    case Enter(id, listing) =>
      && id in n.waiting
      && var v := Judge(env, n.waiting[id]);
         v.Valid? && Runnable(n.ledger, v.job, listing)
  }

  /** The first phase, on what the request captured. What it lets through is well formed. */
  function Judge(env: Env, t: Ticket): (v: Verdict)
    ensures v.Valid? ==> WellFormed(v.job)
  {
    ValidIsWellFormed(env, t.parameters, t.unseen, t.request);
    Validate(env, t.parameters, t.unseen, t.request)
  }

  ghost function Step(env: Env, n: Node, e: Event): Node
    requires Allowed(env, n, e)
  {
    match e
    case SetParameters(p) => n.(parameters := p)
    case Arrive(id, request, unseen) =>
      var t := Ticket(n.parameters, unseen, request);
      if Judge(env, t).Valid? then n.(waiting := n.waiting[id := t]) else n
    case Enter(id, listing) =>
      n.(ledger := Locked(env, n.ledger, Judge(env, n.waiting[id]).job, listing).ledger,
         waiting := n.waiting - {id})
  }

  /** A run: node `i + 1` follows from node `i` by event `i`. */
  ghost predicate IsRun(env: Env, nodes: seq<Node>, events: seq<Event>)
  {
    && |nodes| == |events| + 1
    && forall i :: 0 <= i < |events| ==>
         Allowed(env, nodes[i], events[i]) && nodes[i + 1] == Step(env, nodes[i], events[i])
  }

  // ---------- Serial reference ----------

  /** A request as it gets the lock, with the scan it makes there. */
  datatype Turn = Turn(ticket: Ticket, listing: seq<Wallet>)

  /** One request at a time: its parameters are set, it arrives and it enters at once. */
  function SerialEvents(turns: seq<Turn>): (r: seq<Event>)
    ensures |r| == 3 * |turns|
  {
    if turns == [] then []
    else SerialEvents(turns[..|turns| - 1]) + WholeTurn(turns[|turns| - 1])
  }

  function WholeTurn(t: Turn): seq<Event>
  {
    [SetParameters(t.ticket.parameters), Arrive(0, t.ticket.request, t.ticket.unseen), Enter(0, t.listing)]
  }

  /** The lock entries among the first `i` events that are kept, in order. */
  ghost function Positions(events: seq<Event>, keep: set<nat>, i: nat): (r: seq<nat>)
    requires i <= |events|
    ensures forall k :: 0 <= k < |r| ==> r[k] < i && r[k] in keep && events[r[k]].Enter?
  {
    if i == 0 then []
    else Positions(events, keep, i - 1) + (if events[i - 1].Enter? && i - 1 in keep then [i - 1] else [])
  }

  ghost function TurnAt(nodes: seq<Node>, events: seq<Event>, j: nat): Turn
    requires j < |events| < |nodes| && events[j].Enter? && events[j].id in nodes[j].waiting
  {
    Turn(nodes[j].waiting[events[j].id], events[j].listing)
  }

  ghost function Turns(env: Env, nodes: seq<Node>, events: seq<Event>, keep: set<nat>, i: nat): (r: seq<Turn>)
    requires IsRun(env, nodes, events) && i <= |events|
    ensures |r| == |Positions(events, keep, i)|
  {
    var at := Positions(events, keep, i);
    seq(|at|, k requires 0 <= k < |at| =>
      assert Allowed(env, nodes[at[k]], events[at[k]]); TurnAt(nodes, events, at[k]))
  }

  /** A serial run of the given turns. Turn `k` arrives, enters and leaves before turn `k + 1` arrives. */
  ghost predicate IsSerial(env: Env, serial: seq<Node>, turns: seq<Turn>)
  {
    IsRun(env, serial, SerialEvents(turns))
  }

  /** One more turn, on a node with nobody waiting. */
  lemma ExtendSerial(env: Env, serial: seq<Node>, turns: seq<Turn>, t: Turn) returns (longer: seq<Node>)
    requires IsSerial(env, serial, turns) && serial[3 * |turns|].waiting == map[]
    requires var v := Judge(env, t.ticket);
      v.Valid? && Runnable(serial[3 * |turns|].ledger, v.job, t.listing)
    ensures IsSerial(env, longer, turns + [t]) && serial <= longer
    ensures var l := serial[3 * |turns|].ledger; var n := 3 * |turns| + 3;
      && longer[n].waiting == map[] && longer[n - 1].ledger == l && longer[n - 1].waiting == map[0 := t.ticket]
      && longer[n].ledger == Locked(env, l, Judge(env, t.ticket).job, t.listing).ledger
  {
    hide Validate, Locked, Runnable, WellFormed;
    var (es, more) := (SerialEvents(turns), WholeTurn(t));
    assert (turns + [t])[..|turns|] == turns;
    assert SerialEvents(turns + [t]) == es + more;
    var a := Step(env, serial[|es|], more[0]);
    var b := Step(env, a, more[1]);
    var c := Step(env, b, more[2]);
    assert b.waiting[0] == t.ticket;
    longer := serial + [a, b, c];
    forall i | 0 <= i < |es + more|
      ensures Allowed(env, longer[i], (es + more)[i]) && longer[i + 1] == Step(env, longer[i], (es + more)[i])
    {
      if i < |es| {
        assert Allowed(env, serial[i], es[i]) && serial[i + 1] == Step(env, serial[i], es[i]);
      }
    }
  }

  lemma PrefixAt(a: seq<Node>, b: seq<Node>)
    requires a <= b
    ensures forall k :: 0 <= k < |a| ==> b[k] == a[k]
  {
  }

  /** A serial run of the kept lock entries, from the same ledger to the same ledger; every kept request
  meets the same ledger when it gets the lock, so it gets the same answer. */
  ghost predicate Mirrors(env: Env, nodes: seq<Node>, events: seq<Event>, keep: set<nat>, i: nat, serial: seq<Node>)
    requires IsRun(env, nodes, events) && i <= |events|
  {
    var (at, turns) := (Positions(events, keep, i), Turns(env, nodes, events, keep, i));
    && IsSerial(env, serial, turns)
    && serial[0] == Node(nodes[0].ledger, nodes[0].parameters, map[])
    && serial[3 * |turns|].ledger == nodes[i].ledger
    && serial[3 * |turns|].waiting == map[]
    && forall k :: 0 <= k < |at| ==> serial[3 * k + 2].ledger == nodes[at[k]].ledger
  }

  lemma MirrorKept(env: Env, nodes: seq<Node>, events: seq<Event>, keep: set<nat>, i: nat, before: seq<Node>)
    returns (serial: seq<Node>)
    requires IsRun(env, nodes, events) && i < |events| && events[i].Enter? && i in keep
    requires Mirrors(env, nodes, events, keep, i, before)
    ensures Mirrors(env, nodes, events, keep, i + 1, serial)
  {
    hide Validate, Locked, Runnable, WellFormed;
    assert Allowed(env, nodes[i], events[i]) && nodes[i + 1] == Step(env, nodes[i], events[i]);
    var (a, b) := (Turns(env, nodes, events, keep, i), Turns(env, nodes, events, keep, i + 1));
    var t := TurnAt(nodes, events, i);
    assert b == a + [t];
    serial := ExtendSerial(env, before, a, t);
    assert |before| == 3 * |a| + 1;
    hide Step, Allowed, IsRun;
    PrefixAt(before, serial);
  }

  lemma MirrorSkipped(env: Env, nodes: seq<Node>, events: seq<Event>, keep: set<nat>, i: nat, serial: seq<Node>)
    requires IsRun(env, nodes, events) && i < |events| && (events[i].Enter? ==> i !in keep)
    requires nodes[i + 1].ledger == nodes[i].ledger
    requires Mirrors(env, nodes, events, keep, i, serial)
    ensures Mirrors(env, nodes, events, keep, i + 1, serial)
  {
    hide Step, Allowed;
    assert Turns(env, nodes, events, keep, i + 1) == Turns(env, nodes, events, keep, i);
  }

  /** Leaving out lock entries that change nothing. */
  lemma {:induction false} SerialOfKept(env: Env, nodes: seq<Node>, events: seq<Event>, keep: set<nat>, i: nat)
    returns (serial: seq<Node>)
    requires IsRun(env, nodes, events) && i <= |events|
    requires forall j: nat :: j < i && events[j].Enter? && j !in keep ==> nodes[j + 1].ledger == nodes[j].ledger
    ensures Mirrors(env, nodes, events, keep, i, serial)
    decreases i
  {
    hide Validate, Locked;
    if i == 0 {
      serial := [Node(nodes[0].ledger, nodes[0].parameters, map[])];
    } else {
      serial := SerialOfKept(env, nodes, events, keep, i - 1);
      hide Mirrors;
      if events[i - 1].Enter? && i - 1 in keep {
        serial := MirrorKept(env, nodes, events, keep, i - 1, serial);
      } else {
        assert nodes[i] == Step(env, nodes[i - 1], events[i - 1]);
        MirrorSkipped(env, nodes, events, keep, i - 1, serial);
      }
    }
  }

  ghost function AllEntries(events: seq<Event>): set<nat>
  {
    set j: nat | j < |events| && events[j].Enter?
  }

  /** Any interleaving has the effect of a run that serves the requests one after the other, each whole,
  in the order in which they got the lock. */
  lemma Serializable(env: Env, nodes: seq<Node>, events: seq<Event>, i: nat) returns (serial: seq<Node>)
    requires IsRun(env, nodes, events) && i <= |events|
    ensures Mirrors(env, nodes, events, AllEntries(events), i, serial)
  {
    serial := SerialOfKept(env, nodes, events, AllEntries(events), i);
  }

  // ---------- Accepted requests ----------

  /** The answer a lock entry gives. */
  ghost function Answer(env: Env, n: Node, e: Event): Option<StateError>
    requires e.Enter? && Allowed(env, n, e)
  {
    Locked(env, n.ledger, Judge(env, n.waiting[e.id]).job, e.listing).error
  }

  /** Every lock entry of every run serves its request, with the parameters and the guard's answer it captured
  on arrival. */
  lemma EntryIsServed(env: Env, n: Node, e: Event)
    requires e.Enter? && Allowed(env, n, e)
    ensures var t := n.waiting[e.id];
      Served(env, t.parameters, t.unseen, t.request, e.listing, n.ledger, Step(env, n, e).ledger, Answer(env, n, e))
  {
    hide Validate, Locked, Runnable, WellFormed;
  }

  ghost predicate AcceptedAt(env: Env, n: Node, e: Event)
  {
    e.Enter? && Allowed(env, n, e) && Answer(env, n, e).None?
  }

  /** A seed file that is refused at this lock entry after it installed something. */
  ghost predicate HalfSeedAt(env: Env, n: Node, e: Event)
  {
    e.Enter? && Allowed(env, n, e) && StopsAfterInstalling(n.ledger, Judge(env, n.waiting[e.id]).job)
  }

  ghost function AcceptedEntries(env: Env, nodes: seq<Node>, events: seq<Event>): set<nat>
    requires |nodes| == |events| + 1
  {
    set j: nat | j < |events| && AcceptedAt(env, nodes[j], events[j])
  }

  /** What a refused entry leaves behind. */
  lemma RefusedEntry(env: Env, n: Node, e: Event)
    requires e.Enter? && Allowed(env, n, e) && !AcceptedAt(env, n, e)
    ensures Step(env, n, e).ledger == n.ledger <==> !HalfSeedAt(env, n, e)
  {
    hide Validate, Locked, Runnable, WellFormed, StopsAfterInstalling;
    RefusedExact(env, n.ledger, Judge(env, n.waiting[e.id]).job, e.listing);
  }

  /** The accepted requests alone give the same ledger: serving them one after the other, in the order in
  which they got the lock, ends where the run with all its refused requests ends, provided no seed file
  was refused after it installed something. */
  lemma AcceptedAlone(env: Env, nodes: seq<Node>, events: seq<Event>, i: nat) returns (serial: seq<Node>)
    requires IsRun(env, nodes, events) && i <= |events|
    requires forall j: nat :: j < i ==> !HalfSeedAt(env, nodes[j], events[j])
    ensures Mirrors(env, nodes, events, AcceptedEntries(env, nodes, events), i, serial)
  {
    hide Mirrors, HalfSeedAt, AcceptedAt, Allowed, Step;
    var keep := AcceptedEntries(env, nodes, events);
    forall j: nat | j < i && events[j].Enter? && j !in keep ensures nodes[j + 1].ledger == nodes[j].ledger {
      assert Allowed(env, nodes[j], events[j]) && nodes[j + 1] == Step(env, nodes[j], events[j]);
      RefusedEntry(env, nodes[j], events[j]);
    }
    serial := SerialOfKept(env, nodes, events, keep, i);
  }

  // ---------- Histories of runs ----------

  ghost function SeedLog(env: Env, l: Ledger, entries: seq<SeedEntry>, defaultSeed: nat): seq<Transaction>
    requires !l.sys.iterationLock
    decreases |entries|
  {
    if entries == [] || entries[0].publicKey.None? then []
    else
      var key := entries[0].publicKey.value;
      if KeyHash(key) in l.disk.wallets then SeedLog(env, l, entries[1..], defaultSeed)
      else
        var op := SeedOp(env, key, entries[0], defaultSeed);
        SeedKeepsLock(env, l, op);
        [TxOf(env, l, op)] + SeedLog(env, Apply(env, l, op), entries[1..], defaultSeed)
  }

  /** The transactions a job appends. */
  ghost function JobLog(env: Env, l: Ledger, job: Job, listing: seq<Wallet>): seq<Transaction>
    requires WellFormed(job) && Runnable(l, job, listing)
  {
    if l.sys.iterationLock then []
    else match job
      case SingleJob(op) =>
        RefusedIffDisabled(l, op);
        if Refusal(l, op).Some? then [] else [TxOf(env, l, op)]
      case SeedJob(entries, defaultSeed) => SeedLog(env, l, entries, defaultSeed)
      case IterationJob(p) => [TxOf(env, l, Iterate(p, listing))]
  }

  ghost predicate Clean(env: Env, l: Ledger, op: Op) { Fits(env, l, op) && NoFutureFaucetKey(l, op) }

  ghost predicate SeedClean(env: Env, l: Ledger, entries: seq<SeedEntry>, defaultSeed: nat)
    requires !l.sys.iterationLock
    decreases |entries|
  {
    entries == [] || entries[0].publicKey.None? ||
    var key := entries[0].publicKey.value;
    if KeyHash(key) in l.disk.wallets then SeedClean(env, l, entries[1..], defaultSeed)
    else
      var op := SeedOp(env, key, entries[0], defaultSeed);
      SeedKeepsLock(env, l, op);
      Clean(env, l, op) && SeedClean(env, Apply(env, l, op), entries[1..], defaultSeed)
  }

  /** The hypotheses of the model on what an accepted job mints: it fits in 64 bits and registers no key
  of a future iteration. */
  ghost predicate JobClean(env: Env, l: Ledger, job: Job, listing: seq<Wallet>)
  {
    l.sys.iterationLock ||
    match job
    case SingleJob(op) => Refusal(l, op).Some? || Clean(env, l, op)
    case SeedJob(entries, defaultSeed) => SeedClean(env, l, entries, defaultSeed)
    case IterationJob(p) => Clean(env, l, Iterate(p, listing))
  }

  lemma {:induction false} SeedLoopKeeps(env: Env, l: Ledger, entries: seq<SeedEntry>, defaultSeed: nat,
                                         log: seq<Transaction>)
    requires !l.sys.iterationLock && Inv(env, l, log) && PowfNonNegative(env.libm)
    requires SeedClean(env, l, entries, defaultSeed)
    ensures Inv(env, SeedLoop(env, l, entries, defaultSeed).ledger, log + SeedLog(env, l, entries, defaultSeed))
    decreases |entries|
  {
    hide Inv, Apply, TxOf, Fits, NoFutureFaucetKey;
    if entries == [] || entries[0].publicKey.None? {
      assert log + [] == log;
    } else {
      var key := entries[0].publicKey.value;
      if KeyHash(key) in l.disk.wallets {
        SeedLoopKeeps(env, l, entries[1..], defaultSeed, log);
      } else {
        var op := SeedOp(env, key, entries[0], defaultSeed);
        SeedKeepsLock(env, l, op);
        InvStep(env, l, op, log);
        var tx := TxOf(env, l, op);
        SeedLoopKeeps(env, Apply(env, l, op), entries[1..], defaultSeed, log + [tx]);
        var rest := SeedLog(env, Apply(env, l, op), entries[1..], defaultSeed);
        assert log + ([tx] + rest) == log + [tx] + rest;
      }
    }
  }

  lemma LockedKeeps(env: Env, l: Ledger, job: Job, listing: seq<Wallet>, log: seq<Transaction>)
    requires WellFormed(job) && Runnable(l, job, listing) && JobClean(env, l, job, listing)
    requires Inv(env, l, log) && PowfNonNegative(env.libm)
    ensures Inv(env, Locked(env, l, job, listing).ledger, log + JobLog(env, l, job, listing))
  {
    hide Inv, Apply, TxOf, Store, Refusal, Enabled, SeedLoop, SeedLog, SeedClean, Fits, NoFutureFaucetKey;
    assert log + [] == log;
    if !l.sys.iterationLock {
      match job
      case SingleJob(op) =>
        RefusedIffDisabled(l, op);
        if Refusal(l, op).None? {
          InvStep(env, l, op, log);
          InvStore(env, Apply(env, l, op), log + [TxOf(env, l, op)]);
        }
      case SeedJob(entries, defaultSeed) =>
        SeedLoopKeeps(env, l, entries, defaultSeed, log);
        InvStore(env, SeedLoop(env, l, entries, defaultSeed).ledger, log + SeedLog(env, l, entries, defaultSeed));
      case IterationJob(p) =>
        var op := Iterate(p, listing);
        InvStep(env, l, op, log);
        InvStore(env, Apply(env, l, op), log + [TxOf(env, l, op)]);
    }
  }

  /** Every lock entry of the run meets the hypotheses. */
  ghost predicate CleanRun(env: Env, nodes: seq<Node>, events: seq<Event>)
    requires IsRun(env, nodes, events)
  {
    forall i :: 0 <= i < |events| && events[i].Enter? ==>
      EventClean(env, nodes[i], events[i])
  }

  ghost predicate EventClean(env: Env, n: Node, e: Event)
  {
    e.Enter? && e.id in n.waiting && Judge(env, n.waiting[e.id]).Valid?
    && JobClean(env, n.ledger, Judge(env, n.waiting[e.id]).job, e.listing)
  }

  ghost function EventLog(env: Env, n: Node, e: Event): seq<Transaction>
    requires Allowed(env, n, e)
  {
    match e
    case Enter(id, listing) => JobLog(env, n.ledger, Judge(env, n.waiting[id]).job, listing)
    case _ => []
  }

  /** The accepted transactions of the first `i` events. */
  ghost function LogUpTo(env: Env, nodes: seq<Node>, events: seq<Event>, i: nat): seq<Transaction>
    requires IsRun(env, nodes, events) && i <= |events|
  {
    if i == 0 then [] else LogUpTo(env, nodes, events, i - 1) + EventLog(env, nodes[i - 1], events[i - 1])
  }

  /** The invariant holds at every node of every run, under any interleaving. */
  lemma {:induction false} Reachable(env: Env, nodes: seq<Node>, events: seq<Event>, i: nat)
    requires IsRun(env, nodes, events) && CleanRun(env, nodes, events) && PowfNonNegative(env.libm)
    requires nodes[0].ledger == EMPTY && i <= |events|
    ensures Inv(env, nodes[i].ledger, LogUpTo(env, nodes, events, i))
    decreases i
  {
    hide Inv, Locked, JobLog, Validate, JobClean;
    if i == 0 {
      InvInit(env);
    } else {
      Reachable(env, nodes, events, i - 1);
      var (n, e, log) := (nodes[i - 1], events[i - 1], LogUpTo(env, nodes, events, i - 1));
      assert Allowed(env, n, e) && nodes[i] == Step(env, n, e);
      match e
      case Enter(id, listing) =>
        assert EventClean(env, n, e);
        LockedKeeps(env, n.ledger, Judge(env, n.waiting[id]).job, listing, log);
      case _ => assert log + [] == log;
    }
  }

  // ---------- What the invariant says, in the terms of the ledger ----------

  /** The log alone rebuilds the ledger: reading the store's transactions in tick order and folding
  them from nothing gives every wallet's balance and nonce. */
  lemma LogRebuildsLedger(env: Env, nodes: seq<Node>, events: seq<Event>, i: nat)
    requires IsRun(env, nodes, events) && CleanRun(env, nodes, events) && PowfNonNegative(env.libm)
    requires nodes[0].ledger == EMPTY && i <= |events|
    ensures var l := nodes[i].ledger; var read := ReadBack(l.disk, l.sys.tick);
      read.Some? && ReplayLog(read.value) == BookOf(l.disk.wallets)
  {
    Reachable(env, nodes, events, i);
    var (l, log) := (nodes[i].ledger, LogUpTo(env, nodes, events, i));
    ReadBackIsLog(env, l, log);
  }

  /** The counters equal a full scan in every reachable state. */
  lemma CountersEqualScan(env: Env, nodes: seq<Node>, events: seq<Event>, i: nat)
    requires IsRun(env, nodes, events) && CleanRun(env, nodes, events) && PowfNonNegative(env.libm)
    requires nodes[0].ledger == EMPTY && i <= |events|
    ensures var l := nodes[i].ledger; var m := l.disk.wallets;
      && l.sys.totalSupply == TotalBalance(m) <= U64_MAX
      && l.sys.nWallets == |m|
      && l.sys.nActive == |set id | id in m && m[id].lastActive == l.sys.iteration|
  {
    Reachable(env, nodes, events, i);
  }

  /** Per wallet, the accepted transfers and burns carry the nonces 0, 1, 2, ... in tick order, each
  once, and the stored nonce is their number. */
  lemma NoncesUsedOnce(env: Env, nodes: seq<Node>, events: seq<Event>, i: nat, w: WalletId)
    requires IsRun(env, nodes, events) && CleanRun(env, nodes, events) && PowfNonNegative(env.libm)
    requires nodes[0].ledger == EMPTY && i <= |events|
    ensures var l := nodes[i].ledger; var read := ReadBack(l.disk, l.sys.tick);
      && read.Some?
      && Outgoing(read.value, w) == UpTo(if w in l.disk.wallets then l.disk.wallets[w].nonce else 0)
  {
    Reachable(env, nodes, events, i);
    var (l, log) := (nodes[i].ledger, LogUpTo(env, nodes, events, i));
    ReadBackIsLog(env, l, log);
    BookNonces(l.disk.wallets);
    hide Outgoing, ReplayLog;
    assert NoncesInOrder(ReplayLog(log), log);
  }

  /** The archive holds exactly one transaction per tick, under pairwise distinct ids. */
  lemma OneTransactionPerTick(env: Env, nodes: seq<Node>, events: seq<Event>, i: nat)
    requires IsRun(env, nodes, events) && CleanRun(env, nodes, events) && PowfNonNegative(env.libm)
    requires nodes[0].ledger == EMPTY && i <= |events|
    ensures var l := nodes[i].ledger; var read := ReadBack(l.disk, l.sys.tick);
      && |l.disk.txs| == l.sys.tick
      && read.Some? && |read.value| == l.sys.tick && IdsDistinct(read.value)
      && forall t :: 0 <= t < |read.value| ==> IdTied(read.value[t], t + 1)
  {
    Reachable(env, nodes, events, i);
    var (l, log) := (nodes[i].ledger, LogUpTo(env, nodes, events, i));
    ReadBackIsLog(env, l, log);
    TxMapSize(log);
  }

  /** The wallet takes part in the transaction. */
  predicate TakesPart(tx: Transaction, w: WalletId)
  {
    match tx
    case Mint(_, to, _, _, _, _, _, _, _) => w == to
    case Transfer(_, from, to, _, _, _, _, _) => w == from || w == to
    case Burn(_, from, _, _, _, _, _) => w == from
    case Commit(c) =>
      || (exists i :: 0 <= i < |c.penalties| && c.penalties[i].0 == w)
      || (exists i :: 0 <= i < |c.rewards| && c.rewards[i].0 == w)
      || w in c.newWallets
  }

  lemma NamedTakesPart(tx: Transaction, w: WalletId)
    ensures w in tx.WalletIds() <==> TakesPart(tx, w)
  {
    if tx.Commit? {
      var (a, b) := (Firsts(tx.commit.penalties), Firsts(tx.commit.rewards));
      assert w in tx.WalletIds() <==> w in a || w in b || w in tx.commit.newWallets;
      assert forall i :: 0 <= i < |a| ==> a[i] == tx.commit.penalties[i].0;
      assert forall i :: 0 <= i < |b| ==> b[i] == tx.commit.rewards[i].0;
    }
  }

  /** A scan of the secondary index finds exactly the archived transactions that the wallet takes part in. */
  lemma IndexIsComplete(env: Env, nodes: seq<Node>, events: seq<Event>, i: nat, w: WalletId, id: Digest)
    requires IsRun(env, nodes, events) && CleanRun(env, nodes, events) && PowfNonNegative(env.libm)
    requires nodes[0].ledger == EMPTY && i <= |events|
    ensures var d := nodes[i].ledger.disk;
      && (id in ScannedIds(d.index, w) <==> id in d.txs && TakesPart(d.txs[id], w))
      && OneEntryPerTransaction(d.index, w)
  {
    Reachable(env, nodes, events, i);
    var (l, log) := (nodes[i].ledger, LogUpTo(env, nodes, events, i));
    hide Inv, IndexLog, TxMap, OneEntryPerTransaction, ScannedIds, TakesPart, Transaction.WalletIds;
    if id in l.disk.txs {
      NamedTakesPart(l.disk.txs[id], w);
    }
    assert l.disk.index == IndexLog(log) && l.disk.txs == TxMap(log) && IdsDistinct(log) by { InvRecord(env, l, log); }
    ScanFindsNamed(log, w, id);
    ScanFindsOnce(log, w);
    TxMapOnly(log, id);
    if t :| HasId(log, t, id) {
      TxMapMember(log, t);
      assert w in log[t].WalletIds() ==> NamedAt(log, t, w, id);
    }
    if t :| NamedAt(log, t, w, id) {
      TxMapMember(log, t);
    }
  }

  lemma InvRecord(env: Env, l: Ledger, log: seq<Transaction>)
    requires Inv(env, l, log)
    ensures l.disk.index == IndexLog(log) && l.disk.txs == TxMap(log) && IdsDistinct(log)
    ensures l.disk.poh == ByTick(PohLog(env.leader, log)) && l.sys.lastPohHash == LastHash(PohLog(env.leader, log))
    ensures l.sys.tick == |log| <= U64_MAX && CommitsFollow(log)
  {
  }

  /** The log entries of ticks 1..n, as stored. */
  ghost predicate Entries(d: Disk, entries: seq<PohEntry>)
  {
    forall t: nat :: (t in d.poh <==> 1 <= t <= |entries|) && (t in d.poh ==> d.poh[t] == entries[t - 1])
  }

  /** Every reachable log is a chain over ticks 1..current_tick, accepted link by link from the zero
  hash to the last hash, one transaction per entry. */
  lemma LogIsChain(env: Env, nodes: seq<Node>, events: seq<Event>, i: nat) returns (entries: seq<PohEntry>)
    requires IsRun(env, nodes, events) && CleanRun(env, nodes, events) && PowfNonNegative(env.libm)
    requires nodes[0].ledger == EMPTY && i <= |events|
    ensures var l := nodes[i].ledger;
      && Entries(l.disk, entries) && |entries| == l.sys.tick <= U64_MAX
      && Chain(entries) && LastHash(entries) == l.sys.lastPohHash
      && forall t :: 0 <= t < |entries| ==> |entries[t].txIds| == 1
  {
    hide Inv, PohLog, Chain, ByTick, LastHash, LogUpTo, CleanRun, Entries;
    Reachable(env, nodes, events, i);
    var log := LogUpTo(env, nodes, events, i);
    InvRecord(env, nodes[i].ledger, log);
    entries := PohLog(env.leader, log);
    PohLogIsChain(env.leader, log);
    StoredEntries(nodes[i].ledger.disk, entries);
  }

  lemma StoredEntries(d: Disk, entries: seq<PohEntry>)
    requires d.poh == ByTick(entries)
    ensures Entries(d, entries)
  {
    hide ByTick;
    forall t: nat ensures (t in d.poh <==> 1 <= t <= |entries|) && (t in d.poh ==> d.poh[t] == entries[t - 1]) {
      ByTickAt(entries, t);
    }
  }

  /** Two nodes that report the same last hash went through the same transactions: equally many ticks,
  and the same transaction id and leader at every tick. */
  lemma LastHashFixesHistory(env: Env, nodes: seq<Node>, events: seq<Event>, i: nat,
                             env': Env, nodes': seq<Node>, events': seq<Event>, i': nat)
    requires IsRun(env, nodes, events) && CleanRun(env, nodes, events) && PowfNonNegative(env.libm)
    requires IsRun(env', nodes', events') && CleanRun(env', nodes', events') && PowfNonNegative(env'.libm)
    requires nodes[0].ledger == EMPTY && nodes'[0].ledger == EMPTY && i <= |events| && i' <= |events'|
    requires nodes[i].ledger.sys.lastPohHash == nodes'[i'].ledger.sys.lastPohHash
    ensures var l := nodes[i].ledger; var l' := nodes'[i'].ledger;
      && l.sys.tick == l'.sys.tick
      && forall t: nat :: 1 <= t <= l.sys.tick ==>
           && t in l.disk.poh && t in l'.disk.poh
           && l.disk.poh[t].txIds == l'.disk.poh[t].txIds && l.disk.poh[t].leader == l'.disk.poh[t].leader
  {
    var a := LogIsChain(env, nodes, events, i);
    var b := LogIsChain(env', nodes', events', i');
    hide IsRun, CleanRun, Chain, LastHash;
    LastHashCommits(a, b);
    var (l, l') := (nodes[i].ledger, nodes'[i'].ledger);
    forall t: nat | 1 <= t <= l.sys.tick
      ensures t in l.disk.poh && t in l'.disk.poh
      ensures l.disk.poh[t].txIds == l'.disk.poh[t].txIds && l.disk.poh[t].leader == l'.disk.poh[t].leader
    {
      assert a[t - 1].txIds == b[t - 1].txIds;
    }
  }

  /** Every archived commit starts from the supply the earlier transactions leave, balances, and steers
  by (faucet mint - burned) / snapshot supply of the commit before it. */
  lemma CommitsBalance(env: Env, nodes: seq<Node>, events: seq<Event>, i: nat, t: nat)
    requires IsRun(env, nodes, events) && CleanRun(env, nodes, events) && PowfNonNegative(env.libm)
    requires nodes[0].ledger == EMPTY && i <= |events| && t < nodes[i].ledger.sys.tick
    ensures var read := ReadBack(nodes[i].ledger.disk, nodes[i].ledger.sys.tick);
      && read.Some? && |read.value| == nodes[i].ledger.sys.tick
      && (read.value[t].Commit? ==> CommitFollows(read.value[..t], read.value[t].commit))
  {
    Reachable(env, nodes, events, i);
    var (l, log) := (nodes[i].ledger, LogUpTo(env, nodes, events, i));
    ReadBackIsLog(env, l, log);
    hide CommitFollows;
  }

  /** Ticks follow the order of the lock: what one lock entry accepts is appended, in order, to what the
  earlier ones did, so every accepted transaction of a later entry has a larger tick. */
  lemma TicksFollowLockOrder(env: Env, nodes: seq<Node>, events: seq<Event>, i: nat)
    requires IsRun(env, nodes, events) && CleanRun(env, nodes, events) && PowfNonNegative(env.libm)
    requires nodes[0].ledger == EMPTY && i < |events|
    ensures var (l, l') := (nodes[i].ledger, nodes[i + 1].ledger);
      var (a, b) := (ReadBack(l.disk, l.sys.tick), ReadBack(l'.disk, l'.sys.tick));
      && Allowed(env, nodes[i], events[i])
      && a.Some? && b.Some? && b.value == a.value + EventLog(env, nodes[i], events[i])
      && l.sys.tick == |a.value| && l'.sys.tick == |b.value|
  {
    hide Inv, EventLog;
    Reachable(env, nodes, events, i);
    Reachable(env, nodes, events, i + 1);
    ReadBackOfReachable(env, nodes[i].ledger, LogUpTo(env, nodes, events, i));
    ReadBackOfReachable(env, nodes[i + 1].ledger, LogUpTo(env, nodes, events, i + 1));
  }

  lemma ReadBackOfReachable(env: Env, l: Ledger, log: seq<Transaction>)
    requires Inv(env, l, log)
    ensures ReadBack(l.disk, l.sys.tick) == Some(log) && l.sys.tick == |log|
  {
    ReadBackIsLog(env, l, log);
  }
}
