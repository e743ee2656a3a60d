/** Scripted events of the simulator, for every sequence of draws. */
module SimEvents {
  import opened Arith
  import opened Sums
  import opened Types
  import opened Economy
  import opened Rounding
  import opened SimTransfers

  datatype ScriptedEvent =
    | SpawnWallets(at: nat, count: nat, balance: Option<nat>)
    | TransferBurst(at: nat, nTxs: nat, fraction: Option<real>)
    | ChargeBurst(at: nat, amount: nat, nTargets: nat)
    | WealthShock(at: nat, share: real)
    | Unknown

  // ---------- Money created by events ----------

  function Endow(e: ScriptedEvent, defaultSeed: nat): nat
    requires e.SpawnWallets?
  {
    if e.balance.Some? then e.balance.value else defaultSeed
  }

  function SpawnedBy(e: ScriptedEvent, iteration: nat): nat
  {
    match e
    case SpawnWallets(at, count, _) => if at == iteration then count else 0
    case _ => 0
  }

  /** What an event mints when `n` wallets exist: spawned balances, and the evenly split part of an
  effective charge burst. */
  function MintedBy(e: ScriptedEvent, iteration: nat, defaultSeed: nat, n: nat): nat
  {
    match e
    case SpawnWallets(at, count, _) => if at == iteration then count * Endow(e, defaultSeed) else 0
    case ChargeBurst(at, amount, nTargets) =>
      if at == iteration && n > 0 && nTargets > 0 then nTargets * (amount / nTargets) else 0
    case _ => 0
  }

  function Spawned(events: seq<ScriptedEvent>, iteration: nat): nat
  {
    if events == [] then 0
    else Spawned(events[..|events| - 1], iteration) + SpawnedBy(events[|events| - 1], iteration)
  }

  function Minted(events: seq<ScriptedEvent>, iteration: nat, defaultSeed: nat, n: nat): nat
  {
    if events == [] then 0
    else
      var before := events[..|events| - 1];
      Minted(before, iteration, defaultSeed, n)
      + MintedBy(events[|events| - 1], iteration, defaultSeed, n + Spawned(before, iteration))
  }

  lemma {:induction false} MintedPrefix(events: seq<ScriptedEvent>, iteration: nat, defaultSeed: nat, n: nat, i: nat)
    requires i <= |events|
    ensures Minted(events[..i], iteration, defaultSeed, n) <= Minted(events, iteration, defaultSeed, n)
    decreases |events|
  {
    if i == |events| {
      assert events[..i] == events;
    } else {
      MintedPrefix(events[..|events| - 1], iteration, defaultSeed, n, i);
      assert events[..|events| - 1][..i] == events[..i];
    }
  }

  // ---------- Scripted events ----------

  /** New wallets with the next indices, behind the others. */
  ghost predicate IsSpawn(ws: seq<Wallet>, next: nat, count: nat, amount: nat, after: seq<Wallet>)
  {
    && |after| == |ws| + count && after[..|ws|] == ws
    && forall k :: |ws| <= k < |after| ==>
         var idx := next + (k - |ws|);
         after[k] == Wallet(SimHash(idx), SimKey(idx), amount, 0, 0, 0, ZeroHash, 0, {}, 0, 1.0)
  }

  method Spawn(ws: seq<Wallet>, next: nat, count: nat, amount: nat) returns (wallets: seq<Wallet>, next': nat)
    requires SimValid(ws, next)
    ensures SimValid(wallets, next') && next' == next + count
    ensures Supply(wallets) == Supply(ws) + count * amount
    ensures IsSpawn(ws, next, count, amount, wallets)
  {
    wallets, next' := ws, next;
    for i := 0 to count
      invariant SimValid(wallets, next') && next' == next + i
      invariant Supply(wallets) == Supply(ws) + i * amount
      invariant IsSpawn(ws, next, i, amount, wallets)
    {
      SpawnStep(wallets, next', amount);
      assert (i + 1) * amount == i * amount + amount;
      hide Supply, SimValid;
      ghost var before := wallets;
      wallets, next' := wallets + [SimWallet(next', amount)], next' + 1;
      assert wallets[..|ws|] == before[..|ws|];
    }
  }

  lemma SpawnStep(ws: seq<Wallet>, next: nat, amount: nat)
    requires SimValid(ws, next)
    ensures SimValid(ws + [SimWallet(next, amount)], next + 1)
    ensures Supply(ws + [SimWallet(next, amount)]) == Supply(ws) + amount
  {
    var more := ws + [SimWallet(next, amount)];
    assert Balances(more) == Balances(ws) + [amount];
    SumSnoc(Balances(ws), amount);
    assert Ids(more) == Ids(ws) + [SimHash(next)];
    assert forall i :: 0 <= i < |ws| ==> Ids(ws)[i] == ws[i].id;
  }

  /** A transfer burst: `count` attempts by drawn senders, unless there is nobody to pay. */
  method Burst(ws: seq<Wallet>, count: nat) returns (wallets: seq<Wallet>, extra: nat, ghost walk: Walk)
    requires Supply(ws) <= U64_MAX
    ensures Supply(wallets) == Supply(ws) && SameWallets(ws, wallets)
    ensures IsWalk(walk, None, ws, wallets) && extra == Count(walk.done)
    ensures |walk.senders| == if |ws| < 2 then 0 else count
  {
    hide Supply, Drawn, IsTransfer;
    wallets, extra, walk := ws, 0, Walk([ws], [], []);
    if |ws| < 2 {
      return;
    }
    for i := 0 to count
      invariant Supply(wallets) == Supply(ws) && SameWallets(ws, wallets)
      invariant IsWalk(walk, None, ws, wallets) && extra == Count(walk.done) && |walk.senders| == i
    {
      var sender: nat :| sender < |ws|;
      var done := false;
      ghost var mid := wallets;
      if wallets[sender].balance != 0 {
        wallets, done := RandomTransfer(wallets, sender, None);
        extra := if done then extra + 1 else extra;
      }
      walk := WalkOn(walk, None, ws, mid, sender, done, wallets);
    }
  }

  /** Every target that was drawn, as often as it was drawn, gets the amount. */
  ghost predicate IsCharge(ws: seq<Wallet>, each: nat, targets: seq<nat>, after: seq<Wallet>)
  {
    && |after| == |ws| && (forall k :: 0 <= k < |targets| ==> targets[k] < |ws|)
    && forall i :: 0 <= i < |ws| ==> after[i] == ws[i].(balance := ws[i].balance + multiset(targets)[i] * each)
  }

  /** A charge burst: the amount is split evenly, rounded down, over drawn targets. */
  method ChargeSome(ws: seq<Wallet>, amount: nat, nTargets: nat)
    returns (wallets: seq<Wallet>, ghost targets: seq<nat>)
    requires nTargets > 0 && ws != [] && Supply(ws) + nTargets * (amount / nTargets) <= U64_MAX
    ensures Supply(wallets) == Supply(ws) + nTargets * (amount / nTargets)
    ensures |targets| == nTargets && IsCharge(ws, amount / nTargets, targets, wallets)
  {
    var each := amount / nTargets;
    wallets, targets := Topped(ws, each, nTargets);
  }

  method Topped(ws: seq<Wallet>, each: nat, nTargets: nat) returns (wallets: seq<Wallet>, ghost targets: seq<nat>)
    requires ws != [] && Supply(ws) + nTargets * each <= U64_MAX
    ensures Supply(wallets) == Supply(ws) + nTargets * each
    ensures |targets| == nTargets && IsCharge(ws, each, targets, wallets)
  {
    hide Supply;
    wallets, targets := ws, [];
    for i := 0 to nTargets
      invariant Supply(wallets) == Supply(ws) + i * each && |targets| == i
      invariant IsCharge(ws, each, targets, wallets)
    {
      var idx: nat :| idx < |wallets|;
      assert (i + 1) * each == i * each + each;
      ScaleMonotone(i + 1, nTargets, each);
      var w := wallets[idx].(balance := SatAdd(wallets[idx].balance, each));
      SetBalance(wallets, idx, w);
      ChargeOneMore(ws, each, targets, wallets, idx);
      wallets, targets := wallets[idx := w], targets + [idx];
    }
  }

  lemma ChargeOneMore(ws: seq<Wallet>, each: nat, targets: seq<nat>, mid: seq<Wallet>, idx: nat)
    requires IsCharge(ws, each, targets, mid) && idx < |ws|
    ensures IsCharge(ws, each, targets + [idx], mid[idx := mid[idx].(balance := mid[idx].balance + each)])
  {
    var n := multiset(targets)[idx];
    assert multiset(targets + [idx])[idx] == n + 1;
    assert (n + 1) * each == n * each + each;
  }

  lemma ScaleMonotone(a: nat, b: nat, c: nat)
    requires a <= b
    ensures a * c <= b * c
  {
  }

  /** Everybody but the target gives up the given share of the balance, rounded down and capped by it, and
  notes the target; the target gets the sum. */
  ghost predicate IsShock(ws: seq<Wallet>, share: real, target: nat, takes: seq<nat>, after: seq<Wallet>)
  {
    && target < |ws| == |after| == |takes| && takes[target] == 0
    && (forall i :: 0 <= i < |ws| && i != target ==> TakenFrom(ws[i], share, takes[i], ws[target].id, after[i]))
    && after[target] == ws[target].(balance := ws[target].balance + Sum(takes),
                                    txCount := ws[target].txCount + (|ws| - 1))
  }

  ghost predicate TakenFrom(w: Wallet, share: real, take: nat, target: WalletId, after: Wallet)
  {
    && Largest(take, Times(w.balance as real, share), w.balance)
    && after == w.(balance := w.balance - take, txCount := w.txCount + 1, counterparties := w.counterparties + {target})
  }

  lemma ClampedShare(balance: nat, share: real)
    requires balance <= U64_MAX
    ensures Largest(Min(ToU64(Times(balance as real, Clamp(share, 0.0, 1.0))), balance),
                    Times(balance as real, share), balance)
  {
    var x := balance as real;
    FloorIsLargest(Times(x, Clamp(share, 0.0, 1.0)), balance);
    if share > 1.0 {
      MoreThanAll(x, share);
    } else if share < 0.0 {
      LessThanNothing(x, share);
    }
    hide Times;
  }

  lemma MoreThanAll(x: real, share: real)
    requires 0.0 <= x && share > 1.0
    ensures Times(x, 1.0) == x <= Times(x, share)
  {
    var more := share - 1.0;
    MulNonNegative(x, more);
    assert x * share == x + x * more;
  }

  lemma LessThanNothing(x: real, share: real)
    requires 0.0 <= x && share < 0.0
    ensures Times(x, 0.0) == 0.0 && Times(x, share) <= 0.0
  {
  }

  /** A wealth shock: everybody else's share goes to one drawn wallet; zero-sum. */
  method Shock(ws: seq<Wallet>, share: real)
    returns (wallets: seq<Wallet>, ghost target: nat, ghost takes: seq<nat>)
    requires ws != [] && Supply(ws) <= U64_MAX
    ensures Supply(wallets) == Supply(ws)
    ensures IsShock(ws, share, target, takes, wallets)
  {
    hide Supply, Largest, Times, ToU64;
    var drawn: nat :| drawn < |ws|;
    target, takes := drawn, [];
    var fraction := Clamp(share, 0.0, 1.0);
    var moved := 0;
    wallets := ws;
    for i := 0 to |ws|
      invariant |wallets| == |ws| && |takes| == i && moved == Sum(takes)
      invariant Supply(wallets) + moved == Supply(ws)
      invariant forall k :: 0 <= k < i && k != drawn ==> TakenFrom(ws[k], share, takes[k], ws[drawn].id, wallets[k])
      invariant forall k :: i <= k < |ws| || k == drawn ==> wallets[k] == ws[k]
      invariant drawn < i ==> takes[drawn] == 0
    {
      var take := 0;
      if i != drawn {
        var w := wallets[i];
        take := Min(ToU64(Times(w.balance as real, fraction)), w.balance);
        SetBalance(wallets, i, w);
        ClampedShare(w.balance, share);
        var w' := w.(balance := w.balance - take, txCount := w.txCount + 1,
                     counterparties := w.counterparties + {ws[drawn].id});
        SetBalance(wallets, i, w');
        wallets := wallets[i := w'];
        moved := SatAdd(moved, take);
      }
      SumSnoc(takes, take);
      takes := takes + [take];
    }
    var t := wallets[drawn];
    var t' := t.(balance := SatAdd(t.balance, moved), txCount := t.txCount + |wallets| - 1);
    SetBalance(wallets, drawn, t');
    wallets := wallets[drawn := t'];
  }

  lemma ShockSame(ws: seq<Wallet>, share: real, target: nat, takes: seq<nat>, after: seq<Wallet>)
    requires IsShock(ws, share, target, takes, after)
    ensures SameWallets(ws, after)
  {
    hide Largest;
    forall i | 0 <= i < |ws| ensures ws[i].id == after[i].id && ws[i].createdAtIteration == after[i].createdAtIteration
    {
      if i != target {
        assert TakenFrom(ws[i], share, takes[i], ws[target].id, after[i]);
      }
    }
  }

  // ---------- One event, and all of them ----------

  /** The draws behind the effect of an event. */
  datatype Draws =
    | NoDraws
    | BurstDraws(walk: Walk)
    | ChargeDraws(targets: seq<nat>)
    | ShockDraws(target: nat, takes: seq<nat>)

  /** What an event does in the given iteration: its own effect if it is scheduled for it, and nothing
  otherwise. */
  ghost predicate EventDone(e: ScriptedEvent, iteration: nat, ws: seq<Wallet>, next: nat, defaultSeed: nat,
                            after: seq<Wallet>, extra: nat, draws: Draws)
  {
    match e
    case SpawnWallets(at, count, balance) =>
      && extra == 0
      && if at == iteration
         then IsSpawn(ws, next, count, if balance.Some? then balance.value else defaultSeed, after) else after == ws
    case TransferBurst(at, nTxs, _) =>
      if at == iteration
      then draws.BurstDraws? && IsWalk(draws.walk, None, ws, after) && extra == Count(draws.walk.done)
           && |draws.walk.senders| == (if |ws| < 2 then 0 else nTxs)
      else after == ws && extra == 0
    case ChargeBurst(at, amount, nTargets) =>
      && extra == 0
      && if at == iteration && ws != [] && nTargets > 0
         then draws.ChargeDraws? && |draws.targets| == nTargets && IsCharge(ws, amount / nTargets, draws.targets, after)
         else after == ws
    case WealthShock(at, share) =>
      && extra == 0
      && if at == iteration && ws != []
         then draws.ShockDraws? && IsShock(ws, share, draws.target, draws.takes, after) else after == ws
    case Unknown => after == ws && extra == 0
  }

  lemma ChargeSame(ws: seq<Wallet>, each: nat, targets: seq<nat>, after: seq<Wallet>)
    requires IsCharge(ws, each, targets, after)
    ensures SameWallets(ws, after)
  {
  }

  /** One scripted event. */
  method ApplyEvent(e: ScriptedEvent, iteration: nat, ws: seq<Wallet>, next: nat, defaultSeed: nat)
    returns (wallets: seq<Wallet>, next': nat, extra: nat, ghost draws: Draws)
    requires SimValid(ws, next) && Supply(ws) + MintedBy(e, iteration, defaultSeed, |ws|) <= U64_MAX
    ensures SimValid(wallets, next') && next' == next + SpawnedBy(e, iteration)
    ensures |wallets| == |ws| + SpawnedBy(e, iteration)
    ensures Supply(wallets) == Supply(ws) + MintedBy(e, iteration, defaultSeed, |ws|)
    ensures EventDone(e, iteration, ws, next, defaultSeed, wallets, extra, draws)
  {
    hide Supply, SimValid, IsWalk, IsShock, IsCharge;
    wallets, next', extra, draws := ws, next, 0, NoDraws;
    match e
    case SpawnWallets(at, count, _) =>
      if at == iteration {
        wallets, next' := Spawn(ws, next, count, Endow(e, defaultSeed));
      }
    case TransferBurst(at, nTxs, _) =>
      if at == iteration {
        ghost var walk;
        wallets, extra, walk := Burst(ws, nTxs);
        draws := BurstDraws(walk);
        SameWalletsValid(ws, wallets, next);
      }
    case ChargeBurst(at, amount, nTargets) =>
      if at == iteration && ws != [] && nTargets != 0 {
        ghost var targets;
        wallets, targets := ChargeSome(ws, amount, nTargets);
        draws := ChargeDraws(targets);
        ChargeSame(ws, amount / nTargets, targets, wallets);
        SameWalletsValid(ws, wallets, next);
      }
    case WealthShock(at, share) =>
      if at == iteration && ws != [] {
        ghost var target, takes;
        wallets, target, takes := Shock(ws, share);
        draws := ShockDraws(target, takes);
        ShockSame(ws, share, target, takes, wallets);
        SameWalletsValid(ws, wallets, next);
      }
    case Unknown =>
  }

  /** The events of an iteration, one after the other: the wallets before and after each of them. */
  datatype Script = Script(steps: seq<seq<Wallet>>, extras: seq<nat>, draws: seq<Draws>)

  ghost predicate IsScript(s: Script, events: seq<ScriptedEvent>, iteration: nat, ws: seq<Wallet>, next: nat,
                           defaultSeed: nat, after: seq<Wallet>)
  {
    && |s.steps| == |events| + 1 && |s.extras| == |s.draws| == |events|
    && s.steps[0] == ws && s.steps[|events|] == after
    && forall i :: 0 <= i < |events| ==>
         EventDone(events[i], iteration, s.steps[i], next + Spawned(events[..i], iteration), defaultSeed,
                   s.steps[i + 1], s.extras[i], s.draws[i])
  }

  lemma ScriptOn(s: Script, events: seq<ScriptedEvent>, iteration: nat, ws: seq<Wallet>, next: nat, defaultSeed: nat,
                 mid: seq<Wallet>, i: nat, after: seq<Wallet>, extra: nat, draws: Draws) returns (s': Script)
    requires i < |events| && IsScript(s, events[..i], iteration, ws, next, defaultSeed, mid)
    requires EventDone(events[i], iteration, mid, next + Spawned(events[..i], iteration), defaultSeed, after, extra,
                       draws)
    ensures IsScript(s', events[..i + 1], iteration, ws, next, defaultSeed, after)
    ensures s'.extras == s.extras + [extra]
  {
    hide EventDone, Spawned;
    s' := Script(s.steps + [after], s.extras + [extra], s.draws + [draws]);
    forall k | 0 <= k <= i
      ensures EventDone(events[..i + 1][k], iteration, s'.steps[k],
                        next + Spawned(events[..i + 1][..k], iteration), defaultSeed,
                        s'.steps[k + 1], s'.extras[k], s'.draws[k])
    {
      assert events[..i + 1][..k] == events[..k] == events[..i][..k];
      if k < i {
        assert EventDone(events[..i][k], iteration, s.steps[k], next + Spawned(events[..i][..k], iteration),
                         defaultSeed, s.steps[k + 1], s.extras[k], s.draws[k]);
      }
    }
  }

  /** `apply_scripted_events`: in declaration order, so that later events see spawned wallets. */
  method ApplyScriptedEvents(events: seq<ScriptedEvent>, iteration: nat, ws: seq<Wallet>, next: nat, defaultSeed: nat)
    returns (wallets: seq<Wallet>, next': nat, extra: nat, ghost script: Script)
    requires SimValid(ws, next) && Supply(ws) + Minted(events, iteration, defaultSeed, |ws|) <= U64_MAX
    ensures SimValid(wallets, next') && next' == next + Spawned(events, iteration)
    ensures |wallets| == |ws| + Spawned(events, iteration)
    ensures Supply(wallets) == Supply(ws) + Minted(events, iteration, defaultSeed, |ws|)
    ensures IsScript(script, events, iteration, ws, next, defaultSeed, wallets) && extra == Sum(script.extras)
  {
    hide Supply, SimValid, MintedBy, SpawnedBy, EventDone;
    wallets, next', extra, script := ws, next, 0, Script([ws], [], []);
    for i := 0 to |events|
      invariant SimValid(wallets, next') && next' == next + Spawned(events[..i], iteration)
      invariant |wallets| == |ws| + Spawned(events[..i], iteration)
      invariant Supply(wallets) == Supply(ws) + Minted(events[..i], iteration, defaultSeed, |ws|)
      invariant IsScript(script, events[..i], iteration, ws, next, defaultSeed, wallets) && extra == Sum(script.extras)
    {
      assert events[..i + 1][..i] == events[..i];
      MintedPrefix(events, iteration, defaultSeed, |ws|, i + 1);
      var more;
      ghost var draws, mid := NoDraws, wallets;
      wallets, next', more, draws := ApplyEvent(events[i], iteration, wallets, next', defaultSeed);
      SumSnoc(script.extras, more);
      script := ScriptOn(script, events, iteration, ws, next, defaultSeed, mid, i, wallets, more, draws);
      extra := extra + more;
    }
    assert events[..|events|] == events;
  }
}
