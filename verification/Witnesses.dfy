/** Runs of concrete requests that show the hypotheses of the exact conditions at work: where one of them
fails, the promised property fails. */
module Witnesses {
  import opened Arith
  import opened Types
  import opened Economy
  import opened WalletMaps
  import opened Ledger
  import opened Counters
  import opened Requests
  import opened Node
  import opened Crash

  /** A 32-byte key. */
  function Key(n: nat): PublicKey { Ed25519(seq(32, i => n)) }

  lemma KeysDiffer(m: nat, n: nat)
    requires m != n
    ensures Key(m) != Key(n)
  {
    assert Key(m).bytes[0] == m && Key(n).bytes[0] == n;
  }

  function SeedLine(key: PublicKey, balance: nat): SeedEntry { SeedEntry(Some(key), Some(balance), 0, 0) }

  const BAD_LINE: SeedEntry := SeedEntry(None, None, 0, 0)

  /** The operation a seed line makes. */
  function Seeding(env: Env, key: PublicKey, amount: nat): Op
  {
    SeedWallet(key, amount, env.operator, 0, 0, "", SeedBootstrap)
  }

  function SeedTurn(p: Parameters, entries: seq<SeedEntry>): Turn { Turn(Ticket(p, true, InstallSeed(entries)), []) }

  /** The turn can be served on the ledger. */
  ghost predicate Servable(env: Env, l: Ledger, t: Turn)
  {
    var v := Judge(env, t.ticket);
    v.Valid? && Runnable(l, v.job, t.listing)
  }

  ghost function Serve(env: Env, l: Ledger, t: Turn): Outcome
    requires Servable(env, l, t)
  {
    Locked(env, l, Judge(env, t.ticket).job, t.listing)
  }

  /** The turn gets the lock as event `k`. */
  ghost predicate ServedAt(env: Env, nodes: seq<Node>, events: seq<Event>, k: nat, t: Turn)
    requires IsRun(env, nodes, events) && k < |events|
  {
    && events[k] == Enter(0, t.listing) && 0 in nodes[k].waiting && nodes[k].waiting[0] == t.ticket
    && Servable(env, nodes[k].ledger, t)
    && nodes[k + 1].ledger == Serve(env, nodes[k].ledger, t).ledger
  }

  /** One request from the empty ledger. */
  lemma OneRequest(env: Env, p: Parameters, t: Turn) returns (nodes: seq<Node>)
    requires Servable(env, EMPTY, t)
    ensures IsSerial(env, nodes, [t]) && nodes[0].ledger == EMPTY == nodes[2].ledger && nodes[3].waiting == map[]
    ensures SerialEvents([t]) == WholeTurn(t) && ServedAt(env, nodes, SerialEvents([t]), 2, t)
  {
    hide Validate, Locked, Runnable, WellFormed;
    assert [] + [t] == [t] && [t][..0] == [];
    var start := [Node(EMPTY, p, map[])];
    nodes := ExtendSerial(env, start, [], t);
    assert nodes[0] == start[0];
  }

  /** Two requests, one after the other. */
  lemma TwoRequests(env: Env, p: Parameters, t: Turn, u: Turn) returns (nodes: seq<Node>, events: seq<Event>)
    requires Servable(env, EMPTY, t) && Servable(env, Serve(env, EMPTY, t).ledger, u)
    ensures IsRun(env, nodes, events) && |events| == 6 && nodes[0].ledger == EMPTY == nodes[2].ledger
    ensures nodes[5].ledger == nodes[3].ledger
    ensures ServedAt(env, nodes, events, 2, t) && ServedAt(env, nodes, events, 5, u)
  {
    var one := OneRequest(env, p, t);
    hide Validate, Locked, Runnable, WellFormed;
    nodes := ExtendSerial(env, one, [t], u);
    events := SerialEvents([t] + [u]);
    assert ([t] + [u])[..1] == [t];
    assert events == WholeTurn(t) + WholeTurn(u);
    PrefixAt(one, nodes);
  }

  lemma EmptyIsSound()
    ensures Sound(EMPTY)
  {
    assert BalanceOf(map[]) == map[];
    assert ActiveIn(map[], 0) == {};
  }

  /** Registering a key and nothing else. */
  lemma FirstWallet(env: Env, key: PublicKey, amount: nat)
    requires amount <= U64_MAX
    ensures Enabled(EMPTY, Seeding(env, key, amount))
    ensures var l := Apply(env, EMPTY, Seeding(env, key, amount));
      && Sound(l) && !l.sys.iterationLock && l.sys.totalSupply == amount && l.sys.nWallets == 1 && l.sys.tick == 1
      && l.sys.iteration == 0 && l.disk.stored == GENESIS
      && l.disk.wallets == map[KeyHash(key) := NewWallet(EMPTY, key, amount, env.operator)]
  {
    EmptyIsSound();
    SeedExact(env, EMPTY, Seeding(env, key, amount));
    ApplyParts(env, EMPTY, Seeding(env, key, amount));
  }

  /** Seed files of one line, of one line and an undecodable one, and of two lines. */
  lemma SmallFiles(env: Env, p: Parameters, a: SeedEntry, b: SeedEntry)
    requires a.publicKey.Some? && a.initialBalance.Some? && a.idTime == a.recordTime == 0
    requires b.publicKey.Some? && b.initialBalance.Some? && b.idTime == b.recordTime == 0
    requires a.publicKey != b.publicKey
    ensures var (s, t) := (Seeding(env, a.publicKey.value, a.initialBalance.value),
                           Seeding(env, b.publicKey.value, b.initialBalance.value));
      && Enabled(EMPTY, s) && Enabled(Apply(env, EMPTY, s), t)
      && SeedLoop(env, EMPTY, [a], MicroSeed(p)) == Outcome(Apply(env, EMPTY, s), None)
      && SeedLoop(env, EMPTY, [a, BAD_LINE], MicroSeed(p)) == Outcome(Apply(env, EMPTY, s), Some(BadRequest))
      && SeedLoop(env, EMPTY, [a, b], MicroSeed(p)) == Outcome(Apply(env, Apply(env, EMPTY, s), t), None)
  {
    var s := Seeding(env, a.publicKey.value, a.initialBalance.value);
    SeedPuts(env, EMPTY, s);
    SeedKeepsLock(env, EMPTY, s);
    hide Apply;
    var l := Apply(env, EMPTY, s);
    var t := Seeding(env, b.publicKey.value, b.initialBalance.value);
    SeedKeepsLock(env, l, t);
    assert [a][1..] == [] && [a, b][1..] == [b] && [a, BAD_LINE][1..] == [BAD_LINE] && [b][1..] == [];
    assert SeedLoop(env, l, [b], MicroSeed(p)) == SeedLoop(env, Apply(env, l, t), [], MicroSeed(p));
    assert SeedOp(env, a.publicKey.value, a, MicroSeed(p)) == s;
  }

  /** A seed file of one wallet and one undecodable key is refused, and yet the wallet is there and its
  mint is in the log. Serving the accepted requests alone (there are none) gives another ledger. The
  state of the new ledger is not stored: reopening the store gives tick 0 again, beside one wallet. */
  lemma RefusedSeedLeavesWallet(env: Env, p: Parameters) returns (nodes: seq<Node>, events: seq<Event>)
    ensures IsRun(env, nodes, events) && |events| == 3 && nodes[0].ledger == EMPTY
    ensures events[2].Enter? && Allowed(env, nodes[2], events[2])
    ensures Answer(env, nodes[2], events[2]) == Some(BadRequest) && AcceptedEntries(env, nodes, events) == {}
    ensures var l := nodes[3].ledger;
      && l.sys.tick == 1 && l.disk.wallets.Keys == {KeyHash(Key(1))} && !Persisted(l)
      && Reopen(l.disk) != l && Reopen(l.disk).sys == GENESIS
  {
    hide Apply;
    var entries := [SeedLine(Key(1), 5), BAD_LINE];
    var t := SeedTurn(p, entries);
    KeysDiffer(1, 2);
    SmallFiles(env, p, SeedLine(Key(1), 5), SeedLine(Key(2), 0));
    FirstWallet(env, Key(1), 5);
    nodes := OneRequest(env, p, t);
    events := SerialEvents([t]);
    hide SeedLoop;
  }

  lemma StoreKeepsSound(l: Ledger)
    ensures Sound(Store(l)) <==> Sound(l)
  {
    hide TotalBalance, ActiveIn;
  }

  lemma SingleListing(w: Wallet)
    ensures IsListing([w], map[w.id := w])
  {
    assert [w][..0] == [];
  }

  lemma OnePlanned(p: Parameters)
    requires p.growthFactor == 1.0 && p.maxNewWallets == 1 && p.initialSeedAgc == 1
    ensures PlannedWallets(p, 1) == 1 && MicroSeed(p) == MICRO_AGC_PER_AGC
  {
    assert p.growthFactor * 1 as real == 1.0;
    assert (1.0).Floor == 1;
  }

  /** The iteration on a ledger whose only wallet has the key that it derives. */
  lemma IterationOverTakenKey(env: Env, p: Parameters, l: Ledger)
    requires PowfNonNegative(env.libm) && p.burnMin <= p.burnMax
    requires p.growthFactor == 1.0 && p.maxNewWallets == 1 && p.initialSeedAgc == 1
    requires l == Store(Apply(env, EMPTY, Seeding(env, Faucet(1, 0), 5)))
    ensures var op := Iterate(p, [NewWallet(EMPTY, Faucet(1, 0), 5, env.operator)]);
      Sound(l) && Enabled(l, op) && Fits(env, l, op) && !Sound(Store(Apply(env, l, op)))
  {
    hide Apply, Sound, SoundAfter, IsListing, PlannedWallets, MicroSeed, IterationFits;
    FirstWallet(env, Faucet(1, 0), 5);
    StoreKeepsSound(Apply(env, EMPTY, Seeding(env, Faucet(1, 0), 5)));
    var w := NewWallet(EMPTY, Faucet(1, 0), 5, env.operator);
    var op := Iterate(p, [w]);
    SingleListing(w);
    OnePlanned(p);
    assert |op.listing| == 1;
    EndowmentFits(env, l, p, op.listing);
    assert FaucetId(l.sys.iteration + 1, 0) in l.disk.wallets && |op.listing| == 1;
    assert !FreshIds(l, op);
    IterateExact(env, l, op);
    ApplyParts(env, l, op);
    StoreKeepsSound(Apply(env, l, op));
  }

  /** Somebody installs the key that the first iteration derives for its first new wallet; that
  iteration then overwrites the wallet and the counters no longer agree with the scan. */
  lemma FaucetKeyTaken(env: Env, p: Parameters) returns (nodes: seq<Node>, events: seq<Event>)
    requires PowfNonNegative(env.libm) && p.burnMin <= p.burnMax
    requires p.growthFactor == 1.0 && p.maxNewWallets == 1 && p.initialSeedAgc == 1
    ensures IsRun(env, nodes, events) && |events| == 6 && nodes[0].ledger == EMPTY
    ensures ServedAt(env, nodes, events, 2, SeedTurn(p, [SeedLine(Faucet(1, 0), 5)]))
    ensures events[5].Enter? && Fits(env, nodes[5].ledger, Iterate(p, events[5].listing))
    ensures ServedAt(env, nodes, events, 5, Turn(Ticket(p, true, RunIteration), events[5].listing))
    ensures Sound(nodes[5].ledger) && !Sound(nodes[6].ledger)
  {
    hide Apply, Sound, Store, Fits;
    var w := NewWallet(EMPTY, Faucet(1, 0), 5, env.operator);
    var (t, u) := (SeedTurn(p, [SeedLine(Faucet(1, 0), 5)]), Turn(Ticket(p, true, RunIteration), [w]));
    SmallFiles(env, p, SeedLine(Faucet(1, 0), 5), SeedLine(Key(2), 0));
    hide SeedLoop;
    var l := Serve(env, EMPTY, t).ledger;
    IterationOverTakenKey(env, p, l);
    hide Enabled;
    assert Serve(env, l, u).ledger == Store(Apply(env, l, Iterate(p, [w])));
    nodes, events := TwoRequests(env, p, t, u);
  }

  /** A charge past 64 bits on a ledger where another wallet holds something. */
  lemma ChargePastLimit(env: Env, l: Ledger)
    requires Enabled(EMPTY, Seeding(env, Key(1), 1))
    requires Enabled(Apply(env, EMPTY, Seeding(env, Key(1), 1)), Seeding(env, Key(2), 0))
    requires l == Store(Apply(env, Apply(env, EMPTY, Seeding(env, Key(1), 1)), Seeding(env, Key(2), 0)))
    ensures var op := ChargeWallet(KeyHash(Key(2)), U64_MAX, 0, ZeroHash, 0, "");
      Sound(l) && Enabled(l, op) && !Sound(Store(Apply(env, l, op)))
  {
    FirstWallet(env, Key(1), 1);
    var first := Apply(env, EMPTY, Seeding(env, Key(1), 1));
    SecondWallet(env, first, Seeding(env, Key(2), 0));
    hide Apply, Sound;
    StoreKeepsSound(Apply(env, first, Seeding(env, Key(2), 0)));
    var op := ChargeWallet(KeyHash(Key(2)), U64_MAX, 0, ZeroHash, 0, "");
    ChargeExact(env, l, op);
    ApplyParts(env, l, op);
    StoreKeepsSound(Apply(env, l, op));
  }

  lemma SecondWallet(env: Env, l: Ledger, op: Op)
    requires op.SeedWallet? && Enabled(l, op) && Fits(env, l, op) && Sound(l)
    ensures var l' := Apply(env, l, op);
      && Sound(l') && !l'.sys.iterationLock && l'.sys.totalSupply == l.sys.totalSupply + op.seedAmount
      && KeyHash(op.key) in l'.disk.wallets && l'.disk.wallets[KeyHash(op.key)].balance == op.seedAmount
  {
    SeedExact(env, l, op);
    ApplyParts(env, l, op);
    hide Sound, SoundAfter;
  }

  /** Two wallets are installed, one of them holding something, and the other is charged past 64 bits:
  the supply counter stops at the limit and the scan does not. */
  lemma ChargeOverflows(env: Env, p: Parameters) returns (nodes: seq<Node>, events: seq<Event>)
    ensures IsRun(env, nodes, events) && |events| == 6 && nodes[0].ledger == EMPTY
    ensures ServedAt(env, nodes, events, 2, SeedTurn(p, [SeedLine(Key(1), 1), SeedLine(Key(2), 0)]))
    ensures var charge := ChargeRequest(KeyHash(Key(2)), U64_MAX, 0, 0, ZeroHash, "");
      ServedAt(env, nodes, events, 5, Turn(Ticket(p, true, charge), []))
    ensures Sound(nodes[5].ledger) && !Sound(nodes[6].ledger)
  {
    hide Apply, Sound, Store;
    KeysDiffer(1, 2);
    var charge := ChargeRequest(KeyHash(Key(2)), U64_MAX, 0, 0, ZeroHash, "");
    var t := SeedTurn(p, [SeedLine(Key(1), 1), SeedLine(Key(2), 0)]);
    var u := Turn(Ticket(p, true, charge), []);
    SmallFiles(env, p, SeedLine(Key(1), 1), SeedLine(Key(2), 0));
    hide SeedLoop;
    var l := Serve(env, EMPTY, t).ledger;
    ChargePastLimit(env, l);
    var op := ChargeWallet(KeyHash(Key(2)), U64_MAX, 0, ZeroHash, 0, "");
    RefusedIffDisabled(l, op);
    hide Enabled, Refusal;
    assert Serve(env, l, u).ledger == Store(Apply(env, l, op));
    nodes, events := TwoRequests(env, p, t, u);
  }

  /** The hypotheses of the run theorems can be met: a request that arrives and gets the lock. */
  lemma SomeRun(env: Env, p: Parameters) returns (nodes: seq<Node>, events: seq<Event>)
    requires !p.requireCaptcha && MicroSeed(p) <= U64_MAX
    ensures IsRun(env, nodes, events) && CleanRun(env, nodes, events)
    ensures nodes[0].ledger == EMPTY && nodes[|events|].ledger.sys.tick == 1
  {
    var op := SeedWallet(Key(7), MicroSeed(p), ZeroHash, 0, 0, "", WalletSeed);
    var t := Turn(Ticket(p, true, CreateWallet(Some(Key(7)), "", 0, ZeroHash, "")), []);
    assert Judge(env, t.ticket) == Valid(SingleJob(op));
    nodes := OneRequest(env, p, t);
    events := SerialEvents([t]);
    assert EventClean(env, nodes[2], events[2]);
    assert nodes[3].ledger == Store(Apply(env, EMPTY, op));
    ApplyParts(env, EMPTY, op);
  }
}
