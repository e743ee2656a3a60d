/** The simulator: scripted events, synthetic activity, the economic iteration and re-indexing, row by row. */
module Simulator {
  import opened Arith
  import opened Sums
  import opened Types
  import opened Economy
  import opened EconomyLaws
  import opened SimTransfers
  import opened SimEvents
  import Engine

  // ---------- The economic step ----------

  /** The first `kept` wallets stay; the others start over with new indices and the balances they have. */
  ghost predicate IsReindexed(ws: seq<Wallet>, kept: nat, next: nat, after: seq<Wallet>)
  {
    && kept <= |ws| == |after|
    && (forall i :: 0 <= i < kept ==> after[i] == ws[i])
    && forall i :: kept <= i < |ws| ==> after[i] == SimWallet(next + (i - kept), ws[i].balance)
  }

  /** Indices handed to the wallets that the iteration created. */
  method Reindex(ws: seq<Wallet>, iteration: nat, next: nat, ghost kept: nat) returns (wallets: seq<Wallet>, next': nat)
    requires iteration > 0 && kept <= |ws| && SimValid(ws[..kept], next)
    requires forall i :: kept <= i < |ws| ==> ws[i].createdAtIteration == iteration
    ensures SimValid(wallets, next') && next' == next + (|ws| - kept)
    ensures |wallets| == |ws| && Supply(wallets) == Supply(ws)
    ensures IsReindexed(ws, kept, next, wallets)
  {
    wallets, next' := ws, next;
    for i := 0 to |ws|
      invariant |wallets| == |ws| && Balances(wallets) == Balances(ws)
      invariant next' == next + (if i <= kept then 0 else i - kept)
      invariant SimValid(wallets[..if i <= kept then kept else i], next')
      invariant forall k :: i <= k < |ws| || 0 <= k < kept ==> wallets[k] == ws[k]
      invariant forall k :: kept <= k < i ==> wallets[k] == SimWallet(next + (k - kept), ws[k].balance)
    {
      if i < kept {
        assert wallets[..kept][i] == wallets[i];
      }
      if wallets[i].createdAtIteration == iteration {
        ReindexStep(wallets, i, next');
        wallets := wallets[i := SimWallet(next', wallets[i].balance)];
        next' := next' + 1;
      }
    }
    assert wallets[..|ws|] == wallets;
  }

  lemma ReindexStep(ws: seq<Wallet>, i: nat, next: nat)
    requires i < |ws| && SimValid(ws[..i], next)
    ensures var ws' := ws[i := SimWallet(next, ws[i].balance)];
      SimValid(ws'[..i + 1], next + 1) && Balances(ws') == Balances(ws)
  {
    var ws' := ws[i := SimWallet(next, ws[i].balance)];
    SpawnStep(ws[..i], next, ws[i].balance);
    assert ws'[..i + 1] == ws[..i] + [SimWallet(next, ws[i].balance)];
  }

  /** The iteration keeps the simulated wallets in place and marks the new ones. */
  lemma IterationKeepsWallets(m: Libm, p: Parameters, ws: seq<Wallet>, sys: SystemState, operator: OperatorId,
                              next: nat)
    requires p.burnMin <= p.burnMax && PowfNonNegative(m) && SimValid(ws, next)
    requires Supply(ws) <= U64_MAX
    ensures var r := ExecuteIteration(m, ws, p, sys, operator);
      && |r.wallets| == |ws| + |r.commit.newWallets|
      && SimValid(r.wallets[..|ws|], next)
      && forall i :: |ws| <= i < |r.wallets| ==> r.wallets[i].createdAtIteration == sys.iteration + 1
  {
    hide ExecuteIteration, Redistribute, PlannedWallets, MicroSeed, BurnRate, Inflation, Supply;
    CommitFields(m, ws, p, sys, operator);
    var r := ExecuteIteration(m, ws, p, sys, operator);
    var beta := BurnRate(p, Inflation(sys));
    var settled := Redistribute(m, p, ws, beta).settled.wallets;
    forall i | 0 <= i < |ws|
      ensures settled[i].id == ws[i].id && settled[i].createdAtIteration == ws[i].createdAtIteration
    {
      WalletUpdate(m, p, ws, beta, i);
    }
    assert r.wallets[..|ws|] == settled;
    SameWalletsValid(ws, settled, next);
  }

  datatype Metrics = Metrics(iteration: nat, supply: nat, nWallets: nat, penaltyTotal: nat, burned: nat,
                             rewardTotal: nat, faucetFromMint: nat, newWallets: nat, nTxs: nat,
                             inflation: real, burnRate: real)

  // ---------- What a row reports ----------

  /** What the economic iteration is run on, and how it came about: the wallets and the next index before, the
  scripted events, how many transfers each wallet drew, the activity, the wallets after both, and the local
  state. */
  datatype Input = Input(before: seq<Wallet>, next: nat, script: Script, draws: seq<nat>, walk: Walk,
                         wallets: seq<Wallet>, state: SystemState)

  /** Events first, then activity by the wallets in turn. */
  ghost predicate Prepared(x: Input, p: Parameters, events: seq<ScriptedEvent>)
  {
    && |x.script.steps| == |events| + 1
    && IsScript(x.script, events, x.state.iteration + 1, x.before, x.next, MicroSeed(p), x.script.steps[|events|])
    && IsWalk(x.walk, Some(x.state.iteration), x.script.steps[|events|], x.wallets)
    && TookTurns(x.walk, |x.script.steps[|events|]|, x.draws)
  }

  /** What the iteration leaves for the next one. */
  ghost predicate Carries(m: Libm, p: Parameters, events: seq<ScriptedEvent>, x: Input, after: seq<Wallet>, next: nat)
    requires p.burnMin <= p.burnMax
  {
    var r := ExecuteIteration(m, x.wallets, p, x.state, ZeroHash);
    var idx := x.next + Spawned(events, x.state.iteration + 1);
    IsReindexed(r.wallets, |x.wallets|, idx, after) && next == idx + |r.commit.newWallets|
  }

  function CommitOf(m: Libm, p: Parameters, x: Input): IterationCommit
    requires p.burnMin <= p.burnMax
  {
    ExecuteIteration(m, x.wallets, p, x.state, ZeroHash).commit
  }

  /** Every figure of the row is that of the iteration engine on the input. */
  ghost predicate Reports(m: Libm, p: Parameters, row: Metrics, x: Input)
    requires p.burnMin <= p.burnMax
  {
    var c := CommitOf(m, p, x);
    && row.iteration == c.iterationId && row.supply == c.postSupply
    && row.nWallets == |x.wallets| + |c.newWallets| && row.newWallets == |c.newWallets|
    && row.penaltyTotal == Sum(Amounts(c.penalties)) && row.rewardTotal == Sum(Amounts(c.rewards))
    && row.burned == c.burned && row.faucetFromMint == c.faucetFromMint
    && row.inflation == c.inflation && row.burnRate == c.burnRate
    && row.nTxs == Sum(x.script.extras) + Count(x.walk.done)
  }

  /** The local state for the next inflation computation. */
  function NextState(s: SystemState, c: IterationCommit, nWallets: nat): SystemState
  {
    s.(iteration := c.iterationId, totalSupply := c.postSupply, previousStartSupply := c.snapshotSupply,
       previousSupply := c.postSupply, lastInflation := c.inflation, nWallets := nWallets)
  }

  /** The wallets are those of before plus what the scripted events of the iteration added. */
  ghost predicate EventsApplied(x: Input, p: Parameters, events: seq<ScriptedEvent>, supply: nat, n: nat)
  {
    && Supply(x.wallets) == supply + Minted(events, x.state.iteration + 1, MicroSeed(p), n) <= U64_MAX
    && |x.wallets| == n + Spawned(events, x.state.iteration + 1)
  }

  /** Supply and population a row starts from. */
  ghost function SupplyBefore(rows: seq<Metrics>, initial: seq<nat>, i: nat): nat
    requires i <= |rows|
  {
    if i == 0 then Sum(initial) else rows[i - 1].supply
  }

  ghost function WalletsBefore(rows: seq<Metrics>, initial: seq<nat>, i: nat): nat
    requires i <= |rows|
  {
    if i == 0 then |initial| else rows[i - 1].nWallets
  }

  /** The supply equation of one simulated iteration. */
  ghost predicate RowBalances(rows: seq<Metrics>, initial: seq<nat>, events: seq<ScriptedEvent>, seed: nat, i: nat)
    requires i < |rows|
  {
    var r := rows[i];
    var start := SupplyBefore(rows, initial, i) + Minted(events, i + 1, seed, WalletsBefore(rows, initial, i));
    && r.iteration == i + 1
    && r.burned <= start
    && r.supply == start - r.burned + r.faucetFromMint
    && r.nWallets == WalletsBefore(rows, initial, i) + Spawned(events, i + 1) + r.newWallets
    && r.burned + r.rewardTotal <= r.penaltyTotal
  }

  ghost function StateBefore(m: Libm, p: Parameters, rows: seq<Metrics>, inputs: seq<Input>, i: nat): SystemState
    requires p.burnMin <= p.burnMax && i <= |rows| && i <= |inputs|
  {
    if i == 0 then GENESIS else NextState(inputs[i - 1].state, CommitOf(m, p, inputs[i - 1]), rows[i - 1].nWallets)
  }

  /** Row `i` is the iteration engine's, on the state row `i - 1` left and the wallets after its events. */
  ghost predicate RowIsIteration(m: Libm, p: Parameters, rows: seq<Metrics>, inputs: seq<Input>, initial: seq<nat>,
                                 events: seq<ScriptedEvent>, i: nat)
    requires p.burnMin <= p.burnMax && i < |rows| && i < |inputs|
  {
    && Reports(m, p, rows[i], inputs[i]) && rows[i].supply <= U64_MAX
    && inputs[i].state == StateBefore(m, p, rows, inputs, i)
    && EventsApplied(inputs[i], p, events, SupplyBefore(rows, initial, i), WalletsBefore(rows, initial, i))
    && Prepared(inputs[i], p, events)
    && StartsFrom(m, p, inputs, initial, events, i, inputs[i].before, inputs[i].next)
  }

  /** The wallets and the next index at the start of row `i`. */
  ghost predicate StartsFrom(m: Libm, p: Parameters, inputs: seq<Input>, initial: seq<nat>,
                             events: seq<ScriptedEvent>, i: nat, ws: seq<Wallet>, next: nat)
    requires p.burnMin <= p.burnMax && i <= |inputs|
  {
    if i == 0
    then ws == seq(|initial|, k requires 0 <= k < |initial| => SimWallet(k, initial[k])) && next == |initial|
    else Carries(m, p, events, inputs[i - 1], ws, next)
  }

  /** Before an iteration: what the wallets hold and what the events add fits in 64 bits. */
  predicate EventsFit(p: Parameters, ws: seq<Wallet>, events: seq<ScriptedEvent>, iteration: nat)
  {
    Supply(ws) + Minted(events, iteration, MicroSeed(p), |ws|) <= U64_MAX
  }

  /** The iteration on these wallets after the events ends past 64 bits. */
  ghost predicate Overflows(m: Libm, p: Parameters, ws: seq<Wallet>, events: seq<ScriptedEvent>, x: Input)
    requires p.burnMin <= p.burnMax
  {
    && x.before == ws && Prepared(x, p, events) && EventsApplied(x, p, events, Supply(ws), |ws|)
    && CommitOf(m, p, x).postSupply > U64_MAX
  }

  method InitialWallets(balances: seq<nat>) returns (ws: seq<Wallet>)
    ensures SimValid(ws, |balances|) && Balances(ws) == balances
    ensures ws == seq(|balances|, k requires 0 <= k < |balances| => SimWallet(k, balances[k]))
  {
    ws := [];
    for i := 0 to |balances|
      invariant |ws| == i && SimValid(ws, i) && forall k :: 0 <= k < i ==> ws[k] == SimWallet(k, balances[k])
    {
      SpawnStep(ws, i, balances[i]);
      ws := ws + [SimWallet(i, balances[i])];
    }
  }

  /** A number of transfers for each wallet. */
  method DrawCounts(n: nat) returns (draws: seq<nat>)
    ensures |draws| == n
  {
    draws := [];
    for i := 0 to n
      invariant |draws| == i
    {
      var k: nat := *;
      draws := draws + [k];
    }
  }

  /** One simulated iteration: events, activity, economics, re-indexing. It stops when the supply ends past
  64 bits. */
  method SimulateOne(m: Libm, p: Parameters, events: seq<ScriptedEvent>, ws: seq<Wallet>, next: nat, state: SystemState)
    returns (wallets: seq<Wallet>, next': nat, state': SystemState, row: Metrics, fits: bool, ghost x: Input)
    requires p.burnMin <= p.burnMax && PowfNonNegative(m)
    requires SimValid(ws, next) && EventsFit(p, ws, events, state.iteration + 1)
    ensures x.state == state && x.before == ws && x.next == next
    ensures EventsApplied(x, p, events, Supply(ws), |ws|) && Prepared(x, p, events)
    ensures fits <==> CommitOf(m, p, x).postSupply <= U64_MAX
    ensures Reports(m, p, row, x)
    ensures fits ==>
      && SimValid(wallets, next') && Supply(wallets) == row.supply <= U64_MAX && |wallets| == row.nWallets
      && state' == NextState(state, CommitOf(m, p, x), |wallets|) && Carries(m, p, events, x, wallets, next')
    ensures !fits ==> wallets == ws && next' == next && state' == state
  {
    hide Supply, SimValid, ExecuteIteration, PlannedWallets, MicroSeed, Minted, Spawned, EventDone, Attempt,
      SimWallet;
    var iteration := state.iteration + 1;
    ghost var script, walk;
    var evented, next1, burst, active, nTxs;
    evented, next1, burst, script := ApplyScriptedEvents(events, iteration, ws, next, MicroSeed(p));
    var draws: seq<nat> := DrawCounts(|evented|);
    active, nTxs, walk := SyntheticActivity(evented, state.iteration, draws);
    SameWalletsValid(evented, active, next1);
    x := Input(ws, next, script, draws, walk, active, state);
    IterationConserves(m, active, p, state, ZeroHash);
    IterationKeepsWallets(m, p, active, state, ZeroHash, next1);
    var result := Engine.ExecuteIteration(m, active, p, state, ZeroHash);
    var c := result.commit;
    assert c.iterationId == iteration by { CommitIteration(m, active, p, state); }
    var penalties := Engine.SumAmounts(c.penalties);
    var rewards := Engine.SumAmounts(c.rewards);
    row := Metrics(c.iterationId, c.postSupply, |result.wallets|, penalties, c.burned, rewards, c.faucetFromMint,
                   |c.newWallets|, burst + nTxs, c.inflation, c.burnRate);
    fits := c.postSupply <= U64_MAX;
    if fits {
      wallets, next' := Reindex(result.wallets, iteration, next1, |active|);
      state' := state.(iteration := c.iterationId, totalSupply := c.postSupply,
                       previousStartSupply := c.snapshotSupply, previousSupply := c.postSupply,
                       lastInflation := c.inflation, nWallets := |wallets|);
    } else {
      wallets, next', state' := ws, next, state;
    }
  }

  lemma CommitIteration(m: Libm, ws: seq<Wallet>, p: Parameters, sys: SystemState)
    requires p.burnMin <= p.burnMax
    ensures ExecuteIteration(m, ws, p, sys, ZeroHash).commit.iterationId == sys.iteration + 1
  {
    hide Redistribute, FaucetWallets;
  }

  /** `run_simulation` from given initial balances, for every sequence of draws. Each row is what the
  iteration engine commits on the wallets after that iteration's events and on the state the row before
  left; the wallets end with distinct indices below the next one. The run stops short only where the money
  of the events or the supply after the iteration passes 64 bits. */
  method RunSimulation(m: Libm, p: Parameters, initial: seq<nat>, iterations: nat, events: seq<ScriptedEvent>)
    returns (rows: seq<Metrics>, wallets: seq<Wallet>, next: nat, overflow: bool, ghost inputs: seq<Input>)
    requires p.burnMin <= p.burnMax && PowfNonNegative(m)
    ensures |inputs| == |rows| && (!overflow ==> |rows| == iterations)
    ensures forall i :: 0 <= i < |rows| ==> RowIsIteration(m, p, rows, inputs, initial, events, i)
    ensures forall i :: 0 <= i < |rows| ==> RowBalances(rows, initial, events, MicroSeed(p), i)
    ensures SimValid(wallets, next)
    ensures Supply(wallets) == SupplyBefore(rows, initial, |rows|)
    ensures |wallets| == WalletsBefore(rows, initial, |rows|)
    ensures StartsFrom(m, p, inputs, initial, events, |rows|, wallets, next)
    ensures overflow ==> |rows| < iterations
    ensures overflow ==>
      || !EventsFit(p, wallets, events, |rows| + 1)
      || exists x: Input :: x.state == StateBefore(m, p, rows, inputs, |rows|) && Overflows(m, p, wallets, events, x)
  {
    hide SimValid, EventsFit, EventsApplied, Reports, NextState, CommitOf, RowBalances, Prepared, Carries;
    wallets := InitialWallets(initial);
    assert Supply(wallets) == Sum(initial);
    hide Supply;
    next, rows, inputs := |initial|, [], [];
    var state := GENESIS;
    for k := 0 to iterations
      invariant |rows| == |inputs| == k && state.iteration == k && SimValid(wallets, next)
      invariant state == StateBefore(m, p, rows, inputs, k)
      invariant StartsFrom(m, p, inputs, initial, events, k, wallets, next)
      invariant Supply(wallets) == SupplyBefore(rows, initial, k) && |wallets| == WalletsBefore(rows, initial, k)
      invariant forall i :: 0 <= i < k ==> RowIsIteration(m, p, rows, inputs, initial, events, i)
    {
      if !EventsFit(p, wallets, events, k + 1) {
        RowsConserve(m, p, rows, inputs, initial, events);
        overflow := true;
        return;
      }
      ghost var (before, was) := (rows, inputs);
      var row, fits;
      ghost var x: Input;
      wallets, next, state, row, fits, x := SimulateOne(m, p, events, wallets, next, state);
      if !fits {
        RowsConserve(m, p, rows, inputs, initial, events);
        overflow := true;
        return;
      }
      rows, inputs := rows + [row], inputs + [x];
      RowsSnoc(m, p, before, row, was, x, initial, events);
      NextIteration(m, p, x);
    }
    RowsConserve(m, p, rows, inputs, initial, events);
    overflow := false;
  }

  lemma NextIteration(m: Libm, p: Parameters, x: Input)
    requires p.burnMin <= p.burnMax
    ensures CommitOf(m, p, x).iterationId == x.state.iteration + 1
    ensures forall n :: NextState(x.state, CommitOf(m, p, x), n).iteration == x.state.iteration + 1
  {
    CommitIteration(m, x.wallets, p, x.state);
    hide ExecuteIteration;
  }

  lemma RowsSnoc(m: Libm, p: Parameters, rows: seq<Metrics>, row: Metrics, inputs: seq<Input>, x: Input,
                 initial: seq<nat>, events: seq<ScriptedEvent>)
    requires p.burnMin <= p.burnMax && |rows| == |inputs|
    requires forall i :: 0 <= i < |rows| ==> RowIsIteration(m, p, rows, inputs, initial, events, i)
    requires Reports(m, p, row, x) && row.supply <= U64_MAX && x.state == StateBefore(m, p, rows, inputs, |rows|)
    requires EventsApplied(x, p, events, SupplyBefore(rows, initial, |rows|), WalletsBefore(rows, initial, |rows|))
    requires Prepared(x, p, events) && StartsFrom(m, p, inputs, initial, events, |rows|, x.before, x.next)
    ensures forall i :: 0 <= i <= |rows| ==>
      RowIsIteration(m, p, rows + [row], inputs + [x], initial, events, i)
  {
    hide Reports, EventsApplied, NextState, CommitOf, Prepared, Carries;
    var (more, xs) := (rows + [row], inputs + [x]);
    forall i | 0 <= i <= |rows| ensures RowIsIteration(m, p, more, xs, initial, events, i) {
      assert SupplyBefore(more, initial, i) == SupplyBefore(rows, initial, i);
      assert WalletsBefore(more, initial, i) == WalletsBefore(rows, initial, i);
      assert StateBefore(m, p, more, xs, i) == StateBefore(m, p, rows, inputs, i);
      if i < |rows| {
        assert RowIsIteration(m, p, rows, inputs, initial, events, i);
        assert more[i] == rows[i] && xs[i] == inputs[i];
      }
    }
  }

  // ---------- What the rows say among themselves ----------

  /** The rows are numbered 1, 2, ... */
  lemma {:induction false} IterationNumber(m: Libm, p: Parameters, rows: seq<Metrics>, inputs: seq<Input>,
                                           initial: seq<nat>, events: seq<ScriptedEvent>, i: nat)
    requires p.burnMin <= p.burnMax && |rows| == |inputs| && i < |rows|
    requires forall k :: 0 <= k < |rows| ==> RowIsIteration(m, p, rows, inputs, initial, events, k)
    ensures inputs[i].state.iteration == i
    decreases i
  {
    hide Reports, EventsApplied, CommitOf, NextState, Prepared, StartsFrom;
    assert RowIsIteration(m, p, rows, inputs, initial, events, i);
    if i != 0 {
      IterationNumber(m, p, rows, inputs, initial, events, i - 1);
      NextIteration(m, p, inputs[i - 1]);
    }
  }

  /** Supply is conserved row by row: the supply before, plus what the events minted, minus the burn, plus the
  faucet mint. */
  lemma RowsConserve(m: Libm, p: Parameters, rows: seq<Metrics>, inputs: seq<Input>, initial: seq<nat>,
                     events: seq<ScriptedEvent>)
    requires p.burnMin <= p.burnMax && PowfNonNegative(m) && |rows| == |inputs|
    requires forall k :: 0 <= k < |rows| ==> RowIsIteration(m, p, rows, inputs, initial, events, k)
    ensures forall i :: 0 <= i < |rows| ==> RowBalances(rows, initial, events, MicroSeed(p), i)
  {
    hide ExecuteIteration, PlannedWallets, MicroSeed, Minted, Spawned, Supply, Prepared, StartsFrom;
    forall i | 0 <= i < |rows| ensures RowBalances(rows, initial, events, MicroSeed(p), i) {
      var x := inputs[i];
      assert RowIsIteration(m, p, rows, inputs, initial, events, i);
      IterationNumber(m, p, rows, inputs, initial, events, i);
      IterationConserves(m, x.wallets, p, x.state, ZeroHash);
      CommitIteration(m, x.wallets, p, x.state);
    }
  }

  /** Growth of the supply in a row, relative to the supply after its events. */
  ghost function Growth(rows: seq<Metrics>, initial: seq<nat>, events: seq<ScriptedEvent>, seed: nat, i: nat): real
    requires i < |rows|
  {
    var start := SupplyBefore(rows, initial, i) + Minted(events, i + 1, seed, WalletsBefore(rows, initial, i));
    if start > 0 then (rows[i].supply as real - start as real) / start as real else 0.0
  }

  /** The control loop closes over the rows: each row steers by the growth of the row before it. */
  lemma InflationFollowsRows(m: Libm, p: Parameters, rows: seq<Metrics>, inputs: seq<Input>, initial: seq<nat>,
                             events: seq<ScriptedEvent>, i: nat)
    requires p.burnMin <= p.burnMax && |rows| == |inputs| && i < |rows|
    requires forall k :: 0 <= k < |rows| ==> RowIsIteration(m, p, rows, inputs, initial, events, k)
    ensures rows[i].inflation == if i == 0 then 0.0 else Growth(rows, initial, events, MicroSeed(p), i - 1)
    ensures rows[i].burnRate == BurnRate(p, rows[i].inflation)
  {
    hide ExecuteIteration, MicroSeed, Minted, Spawned, Supply, BurnRate, Prepared, StartsFrom;
    assert RowIsIteration(m, p, rows, inputs, initial, events, i);
    CommitRates(m, inputs[i].wallets, p, inputs[i].state);
    if i != 0 {
      assert RowIsIteration(m, p, rows, inputs, initial, events, i - 1);
      IterationNumber(m, p, rows, inputs, initial, events, i - 1);
      CommitRates(m, inputs[i - 1].wallets, p, inputs[i - 1].state);
    }
  }

  lemma CommitRates(m: Libm, ws: seq<Wallet>, p: Parameters, sys: SystemState)
    requires p.burnMin <= p.burnMax
    ensures var c := ExecuteIteration(m, ws, p, sys, ZeroHash).commit;
      c.inflation == Inflation(sys) && c.burnRate == BurnRate(p, Inflation(sys)) && c.snapshotSupply == Supply(ws)
  {
    hide Redistribute, FaucetWallets, Inflation, BurnRate, Supply;
  }
}
