/** Supply and population over runs in which only iterations mint. */
module Growth {
  import opened Arith
  import opened Types
  import opened Economy
  import opened EconomyLaws
  import opened WalletMaps
  import opened Ledger
  import opened Counters
  import opened Requests
  import opened Node

  function MaxMint(p: Parameters): nat { p.maxNewWallets * MicroSeed(p) }

  ghost predicate Healthy(l: Ledger)
  {
    Sound(l) && FaucetIdsPast(l.disk.wallets, l.sys.iteration)
  }

  lemma MulBound(a: nat, b: nat, c: nat)
    requires a <= b
    ensures a * c <= b * c
  {
  }

  /** One iteration: it fits whenever the largest possible faucet mint fits, and adds no more than it. */
  lemma OneIteration(env: Env, p: Parameters, l: Ledger, listing: seq<Wallet>)
    requires Enabled(l, Iterate(p, listing)) && Healthy(l) && PowfNonNegative(env.libm)
    requires l.sys.totalSupply + MaxMint(p) <= U64_MAX
    requires l.sys.nWallets + p.maxNewWallets <= U64_MAX && l.sys.tick < U64_MAX
    ensures Fits(env, l, Iterate(p, listing))
    ensures var l' := Store(Apply(env, l, Iterate(p, listing)));
      && Healthy(l')
      && l'.sys.totalSupply <= l.sys.totalSupply + MaxMint(p)
      && l'.sys.nWallets <= l.sys.nWallets + p.maxNewWallets
      && l'.sys.tick == l.sys.tick + 1
  {
    var op := Iterate(p, listing);
    MulBound(PlannedWallets(p, |listing|), p.maxNewWallets, MicroSeed(p));
    EndowmentFits(env, l, p, listing);
    hide IterationFits;
    SoundStep(env, l, op);
    ApplyParts(env, l, op);
    IterationTotals(env, p, l, listing);
    assert CountersAfter(env, l, op).tick == l.sys.tick by { IterationTick(env, l, op); }
    hide Apply, CountersAfter, WalletsAfter, SoundAfter, Enabled, TotalBalance, ActiveIn;
  }

  lemma IterationTick(env: Env, l: Ledger, op: Op)
    requires op.Iterate? && Enabled(l, op)
    ensures CountersAfter(env, l, op).tick == l.sys.tick
  {
    hide ExecuteIteration;
  }

  lemma IterationTotals(env: Env, p: Parameters, l: Ledger, listing: seq<Wallet>)
    requires Enabled(l, Iterate(p, listing)) && Healthy(l) && PowfNonNegative(env.libm)
    requires Fits(env, l, Iterate(p, listing))
    ensures var s := CountersAfter(env, l, Iterate(p, listing));
      && s.totalSupply <= l.sys.totalSupply + PlannedWallets(p, |listing|) * MicroSeed(p)
      && s.nWallets == l.sys.nWallets + PlannedWallets(p, |listing|)
  {
    hide ExecuteIteration, PlannedWallets, MicroSeed, TotalBalance, ActiveIn, Settled, Created, Supply, PutAll;
    var op := Iterate(p, listing);
    var sys := l.sys.(iterationLock := true);
    ListingTotals(listing, l.disk.wallets);
    IterationConserves(env.libm, listing, p, sys, env.operator);
    IterationCounters(env, l, op);
    SettledTree(env, l, op);
    CreatedNumber(env, l, op);
  }

  lemma CreatedNumber(env: Env, l: Ledger, op: Op)
    requires op.Iterate? && Enabled(l, op)
    ensures |Result(env, l, op).commit.newWallets| == PlannedWallets(op.parameters, |op.listing|)
  {
    hide Redistribute, BurnRate;
    CommitFields(env.libm, op.listing, op.parameters, l.sys.(iterationLock := true), env.operator);
  }

  lemma MulStep(i: nat, x: nat)
    ensures (i + 1) * x == i * x + x
  {
  }

  // ---------- Transfers, burns and refused requests ----------

  ghost predicate MovesOrBurns(op: Op) { op.MoveFunds? || op.BurnFunds? }

  /** A job that mints nothing on this ledger: a transfer, a burn, a request that is refused, or a seed file
  that names stored wallets only. */
  ghost predicate MintsNothing(l: Ledger, job: Job)
  {
    match job
    case SingleJob(op) => MovesOrBurns(op) || Refusal(l, op).Some?
    case SeedJob(entries, _) => l.sys.iterationLock || AllKnown(l.disk.wallets, entries)
    case IterationJob(_) => l.sys.iterationLock
  }

  lemma SpendingStep(env: Env, l: Ledger, op: Op)
    requires MovesOrBurns(op) && Enabled(l, op) && Healthy(l) && PowfNonNegative(env.libm) && l.sys.tick < U64_MAX
    ensures Clean(env, l, op)
    ensures var l' := Store(Apply(env, l, op));
      && Healthy(l')
      && l'.sys.totalSupply <= l.sys.totalSupply && l'.sys.nWallets == l.sys.nWallets && l'.sys.tick == l.sys.tick + 1
  {
    SoundStep(env, l, op);
    ApplyParts(env, l, op);
    assert var s := CountersAfter(env, l, op);
      s.tick == l.sys.tick && s.totalSupply <= l.sys.totalSupply && s.nWallets == l.sys.nWallets;
    hide Apply, CountersAfter, WalletsAfter, SoundAfter, Enabled, TotalBalance, ActiveIn;
  }

  // ---------- Runs ----------

  /** A lock entry that mints nothing, or an iteration that creates at most `room` wallets and endows them
  with at most `mint`. */
  ghost predicate OnlyIterationsMint(env: Env, n: Node, e: Event, mint: nat, room: nat)
  {
    e.Enter? ==>
      && Allowed(env, n, e)
      && var job := Judge(env, n.waiting[e.id]).job;
         MintsNothing(n.ledger, job) || (job.IterationJob? && MintsAtMost(job.parameters, mint, room))
  }

  predicate MintsAtMost(p: Parameters, mint: nat, room: nat) { MaxMint(p) <= mint && p.maxNewWallets <= room }

  /** An iteration gets the lock and runs. */
  ghost predicate EntersIteration(env: Env, n: Node, e: Event)
  {
    e.Enter? && Allowed(env, n, e) && Judge(env, n.waiting[e.id]).job.IterationJob? && !n.ledger.sys.iterationLock
  }

  /** The iterations among the first `i` events. */
  ghost function IterationsUpTo(env: Env, nodes: seq<Node>, events: seq<Event>, i: nat): nat
    requires i <= |events| < |nodes|
  {
    if i == 0 then 0
    else
      var before := IterationsUpTo(env, nodes, events, i - 1);
      before + (if EntersIteration(env, nodes[i - 1], events[i - 1]) then 1 else 0)
  }

  /** The lock entries among the first `i` events. */
  function EntriesUpTo(events: seq<Event>, i: nat): nat
    requires i <= |events|
  {
    if i == 0 then 0 else EntriesUpTo(events, i - 1) + (if events[i - 1].Enter? then 1 else 0)
  }

  lemma {:induction false} KnownIsClean(env: Env, l: Ledger, entries: seq<SeedEntry>, defaultSeed: nat)
    requires !l.sys.iterationLock && AllKnown(l.disk.wallets, entries)
    ensures SeedClean(env, l, entries, defaultSeed)
    decreases |entries|
  {
    hide ReadableAt, Apply;
    if entries != [] && entries[0].publicKey.Some? {
      ReadableNext(entries, 0, KeyHash(entries[0].publicKey.value));
      forall i, id | ReadableAt(entries[1..], i, id) ensures id in l.disk.wallets {
        ReadableNext(entries, i + 1, id);
      }
      KnownIsClean(env, l, entries[1..], defaultSeed);
    }
  }

  lemma StoreKeepsHealthy(l: Ledger)
    requires Healthy(l)
    ensures Healthy(Store(l))
  {
    hide TotalBalance, ActiveIn;
  }

  /** A lock entry that mints nothing. */
  lemma QuietEntry(env: Env, l: Ledger, job: Job, listing: seq<Wallet>)
    requires WellFormed(job) && Runnable(l, job, listing) && Healthy(l) && PowfNonNegative(env.libm)
    requires MintsNothing(l, job) && l.sys.tick < U64_MAX
    ensures JobClean(env, l, job, listing)
    ensures var l' := Locked(env, l, job, listing).ledger;
      && Healthy(l')
      && l'.sys.totalSupply <= l.sys.totalSupply && l'.sys.nWallets <= l.sys.nWallets && l'.sys.tick <= l.sys.tick + 1
  {
    hide Healthy, Apply, Enabled, Fits, AllKnown, SeedLoop, SeedClean;
    if !l.sys.iterationLock {
      match job
      case SingleJob(op) =>
        RefusedIffDisabled(l, op);
        if Refusal(l, op).None? {
          hide Refusal, Store;
          SpendingStep(env, l, op);
        }
      case SeedJob(entries, defaultSeed) =>
        KnownIsClean(env, l, entries, defaultSeed);
        KnownChangesNothing(env, l, entries, defaultSeed);
        StoreKeepsHealthy(l);
      case IterationJob(_) =>
    }
  }

  /** One lock entry: it meets the hypotheses of the run theorems and mints no more than allowed. */
  lemma EntryStep(env: Env, l: Ledger, job: Job, listing: seq<Wallet>, mint: nat, room: nat)
    requires WellFormed(job) && Runnable(l, job, listing) && Healthy(l) && PowfNonNegative(env.libm)
    requires MintsNothing(l, job) || (job.IterationJob? && MintsAtMost(job.parameters, mint, room))
    requires MintsNothing(l, job) || (l.sys.totalSupply + mint <= U64_MAX && l.sys.nWallets + room <= U64_MAX)
    requires l.sys.tick < U64_MAX
    ensures JobClean(env, l, job, listing)
    ensures var l' := Locked(env, l, job, listing).ledger;
      && Healthy(l')
      && l'.sys.totalSupply <= l.sys.totalSupply + (if MintsNothing(l, job) then 0 else mint)
      && l'.sys.nWallets <= l.sys.nWallets + (if MintsNothing(l, job) then 0 else room)
      && l'.sys.tick <= l.sys.tick + 1
  {
    hide Healthy, Apply, Enabled, Store, Fits, MaxMint, SeedLoop, SeedClean, AllKnown;
    if MintsNothing(l, job) {
      QuietEntry(env, l, job, listing);
    } else {
      OneIteration(env, job.parameters, l, listing);
    }
  }

  lemma IterationOrQuiet(l: Ledger, job: Job)
    requires job.IterationJob?
    ensures MintsNothing(l, job) <==> l.sys.iterationLock
  {
  }

  /** In a run in which only iterations mint, whatever transfers, burns, refused requests and repeated seed
  files come between them, after `k` iterations supply is at most `S0 + k * mint` and there are at most `N0 + k * room`
  wallets. While those bounds fit in 64 bits, every lock entry meets the hypotheses of the run theorems. */
  lemma {:induction false} GrowthBound(env: Env, nodes: seq<Node>, events: seq<Event>, mint: nat, room: nat, i: nat)
    requires IsRun(env, nodes, events) && PowfNonNegative(env.libm) && Healthy(nodes[0].ledger) && i <= |events|
    requires forall j :: 0 <= j < i ==> OnlyIterationsMint(env, nodes[j], events[j], mint, room)
    requires nodes[0].ledger.sys.totalSupply + IterationsUpTo(env, nodes, events, i) * mint <= U64_MAX
    requires nodes[0].ledger.sys.nWallets + IterationsUpTo(env, nodes, events, i) * room <= U64_MAX
    requires nodes[0].ledger.sys.tick + EntriesUpTo(events, i) <= U64_MAX
    ensures var (l, k) := (nodes[i].ledger, IterationsUpTo(env, nodes, events, i));
      && Healthy(l)
      && l.sys.totalSupply <= nodes[0].ledger.sys.totalSupply + k * mint
      && l.sys.nWallets <= nodes[0].ledger.sys.nWallets + k * room
      && l.sys.tick <= nodes[0].ledger.sys.tick + EntriesUpTo(events, i)
    ensures forall j :: 0 <= j < i && events[j].Enter? ==> EventClean(env, nodes[j], events[j])
    decreases i
  {
    hide Healthy, Validate, Locked, JobClean, MintsAtMost, MintsNothing, Runnable, WellFormed;
    if i != 0 {
      var (n, e, k) := (nodes[i - 1], events[i - 1], IterationsUpTo(env, nodes, events, i - 1));
      assert Allowed(env, n, e) && nodes[i] == Step(env, n, e) && OnlyIterationsMint(env, n, e, mint, room);
      MulStep(k, mint);
      MulStep(k, room);
      GrowthBound(env, nodes, events, mint, room, i - 1);
      if e.Enter? {
        var job := Judge(env, n.waiting[e.id]).job;
        if job.IterationJob? {
          IterationOrQuiet(n.ledger, job);
        }
        EntryStep(env, n.ledger, job, e.listing, mint, room);
      }
    }
  }

  /** So from a healthy ledger such a run is clean: nothing saturates. */
  lemma GrowthIsClean(env: Env, nodes: seq<Node>, events: seq<Event>, mint: nat, room: nat)
    requires IsRun(env, nodes, events) && PowfNonNegative(env.libm) && Healthy(nodes[0].ledger)
    requires forall j :: 0 <= j < |events| ==> OnlyIterationsMint(env, nodes[j], events[j], mint, room)
    requires nodes[0].ledger.sys.totalSupply + IterationsUpTo(env, nodes, events, |events|) * mint <= U64_MAX
    requires nodes[0].ledger.sys.nWallets + IterationsUpTo(env, nodes, events, |events|) * room <= U64_MAX
    requires nodes[0].ledger.sys.tick + EntriesUpTo(events, |events|) <= U64_MAX
    ensures CleanRun(env, nodes, events)
  {
    hide Healthy, OnlyIterationsMint, EventClean;
    GrowthBound(env, nodes, events, mint, room, |events|);
  }
}
