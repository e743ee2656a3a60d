/** The iteration engine as the source runs it: passes over mutable lists, one stage after the other.
Each pass is proved to compute its stage in `Economy`. */
module Engine {
  import opened Arith
  import opened Sums
  import opened Types
  import opened Economy
  import Gini

  method SumBalances(ws: seq<Wallet>) returns (total: nat)
    ensures total == Supply(ws)
  {
    total := 0;
    for i := 0 to |ws|
      invariant total == Sum(Balances(ws)[..i])
    {
      SumPrefix(Balances(ws), i);
      total := total + ws[i].balance;
    }
    assert Balances(ws)[..|ws|] == Balances(ws);
  }

  method LargestBalance(ws: seq<Wallet>) returns (top: nat)
    ensures top == MaxBalance(Balances(ws))
  {
    top := 0;
    for i := 0 to |ws|
      invariant top == MaxBalance(Balances(ws)[..i])
    {
      assert Balances(ws)[..i + 1][..i] == Balances(ws)[..i];
      top := Max(top, ws[i].balance);
    }
    assert Balances(ws)[..|ws|] == Balances(ws);
  }

  method SumAmounts(pairs: seq<(WalletId, nat)>) returns (total: nat)
    ensures total == Sum(Amounts(pairs))
  {
    total := 0;
    for i := 0 to |pairs|
      invariant total == Sum(Amounts(pairs)[..i])
    {
      SumPrefix(Amounts(pairs), i);
      total := total + pairs[i].1;
    }
    assert Amounts(pairs)[..|pairs|] == Amounts(pairs);
  }

  /** First pass: one penalty per wallet, in wallet order. */
  method BasePass(m: Libm, ws: seq<Wallet>, p: Parameters) returns (penalties: seq<(WalletId, nat)>)
    ensures penalties == Pairs(Ids(ws), BasePenalties(m, p, Balances(ws)))
  {
    hide BasePenalty;
    var seed := MicroSeed(p);
    var top := LargestBalance(ws);
    var denominator := Denominator(m, top, seed);
    penalties := [];
    for i := 0 to |ws|
      invariant |penalties| == i
      invariant forall k :: 0 <= k < i ==>
        penalties[k] == (ws[k].id, BasePenalty(m, p.penaltyRate, seed, denominator, ws[k].balance))
    {
      penalties := penalties + [(ws[i].id, BasePenalty(m, p.penaltyRate, seed, denominator, ws[i].balance))];
    }
  }

  /** Second pass: rescale in place when the pool misses its target by more than a fifth. */
  method Calibrate(ws: seq<Wallet>, base: seq<(WalletId, nat)>, target: nat) returns (penalties: seq<(WalletId, nat)>)
    requires |base| == |ws|
    ensures |penalties| == |ws|
    ensures penalties == Pairs(Firsts(base), Calibrated(Balances(ws), Amounts(base), target))
  {
    hide Scaled, NeedsScaling;
    var total := SumAmounts(base);
    penalties := base;
    if NeedsScaling(total, target) {
      assert total > 0 by { ScalingIsPositive(total, target); }
      for i := 0 to |penalties|
        invariant |penalties| == |ws|
        invariant forall k :: 0 <= k < i ==>
            penalties[k] == (base[k].0, Scaled(base[k].1, target, total, ws[k].balance))
        invariant forall k :: i <= k < |ws| ==> penalties[k] == base[k]
      {
        penalties := penalties[i := (penalties[i].0, Scaled(penalties[i].1, target, total, ws[i].balance))];
      }
    }
  }

  lemma ScalingIsPositive(total: nat, target: nat)
    requires NeedsScaling(total, target)
    ensures total > 0
  {
  }

  /** Third pass: activity scores and balances after the penalty. */
  method ChargeAll(p: Parameters, ws: seq<Wallet>, penalties: seq<(WalletId, nat)>) returns (wallets: seq<Wallet>)
    requires |penalties| == |ws|
    ensures wallets == AfterPenalties(p, ws, Amounts(penalties))
  {
    hide Activity;
    wallets := ws;
    for i := 0 to |ws|
      invariant |wallets| == |ws|
      invariant forall k :: 0 <= k < i ==> wallets[k] == Charged(p, ws[k], penalties[k].1)
      invariant forall k :: i <= k < |ws| ==> wallets[k] == ws[k]
    {
      var score := Activity(p, wallets[i]);
      wallets := wallets[i := wallets[i].(activity := score, balance := SatSub(wallets[i].balance, penalties[i].1))];
    }
  }

  method Weigh(m: Libm, p: Parameters, ws: seq<Wallet>) returns (weights: seq<real>, total: real)
    ensures weights == Weights(m, p, ws) && total == RealSum(weights)
  {
    hide Weight;
    weights, total := [], 0.0;
    for i := 0 to |ws|
      invariant |weights| == i && total == RealSum(weights)
      invariant forall k :: 0 <= k < i ==> weights[k] == Weight(m, p, ws[k])
    {
      RealSumSnoc(weights, Weight(m, p, ws[i]));
      weights, total := weights + [Weight(m, p, ws[i])], total + Weight(m, p, ws[i]);
    }
  }

  /** Fourth pass: rewards, activity reset and the running total. */
  method RewardAll(ws: seq<Wallet>, pool: nat, weights: seq<real>, total: real)
    returns (wallets: seq<Wallet>, rewards: seq<nat>, distributed: nat)
    requires |weights| == |ws|
    ensures rewards == Shares(pool, weights, total)
    ensures wallets == AfterRewards(ws, rewards)
    ensures distributed == Distributed(rewards)
  {
    hide Share;
    wallets, rewards, distributed := ws, [], 0;
    for i := 0 to |ws|
      invariant |wallets| == |ws| && |rewards| == i && distributed == Distributed(rewards)
      invariant forall k :: 0 <= k < i ==> rewards[k] == Share(pool, weights[k], total)
      invariant forall k :: 0 <= k < i ==> wallets[k] == Rewarded(ws[k], rewards[k])
      invariant forall k :: i <= k < |ws| ==> wallets[k] == ws[k]
    {
      var reward := Share(pool, weights[i], total);
      assert (rewards + [reward])[..i] == rewards;
      wallets := wallets[i := Rewarded(wallets[i], reward)];
      rewards := rewards + [reward];
      distributed := SatAdd(distributed, reward);
    }
    assert rewards == Shares(pool, weights, total);
  }

  /** Last pass: the new wallets. */
  method CreateWallets(ws: seq<Wallet>, iteration: nat, count: nat, seed: nat, tick: nat, operator: OperatorId)
    returns (wallets: seq<Wallet>, ids: seq<WalletId>)
    ensures wallets == ws + FaucetWallets(iteration, count, seed, tick, operator)
    ensures ids == Ids(FaucetWallets(iteration, count, seed, tick, operator))
  {
    wallets, ids := ws, [];
    for i := 0 to count
      invariant |ids| == i && |wallets| == |ws| + i && wallets[..|ws|] == ws
      invariant forall k :: 0 <= k < i ==> ids[k] == FaucetId(iteration, k)
      invariant forall k :: 0 <= k < i ==> wallets[|ws| + k] == FaucetWallet(iteration, k, seed, tick, operator)
    {
      wallets := wallets + [FaucetWallet(iteration, i, seed, tick, operator)];
      ids := ids + [FaucetId(iteration, i)];
    }
    var created := FaucetWallets(iteration, count, seed, tick, operator);
    assert wallets == wallets[..|ws|] + wallets[|ws|..];
    assert wallets[|ws|..] == created;
  }

  /** Penalties and their effect on the wallets: the first three passes. */
  method TakePenalties(m: Libm, ws: seq<Wallet>, p: Parameters, supply: nat)
    returns (penalties: seq<(WalletId, nat)>, total: nat, charged: seq<Wallet>)
    requires supply == Supply(ws)
    ensures penalties == Pairs(Ids(ws), Penalties(m, p, Balances(ws)))
    ensures total == Sum(Penalties(m, p, Balances(ws)))
    ensures charged == AfterPenalties(p, ws, Penalties(m, p, Balances(ws)))
  {
    hide Calibrated, BasePenalties, TargetPenalty, Charged;
    var base := BasePass(m, ws, p);
    assert Amounts(base) == BasePenalties(m, p, Balances(ws)) && Firsts(base) == Ids(ws) by {
      PairsParts(Ids(ws), BasePenalties(m, p, Balances(ws)), |ws|) by { BaseCount(m, p, Balances(ws)); }
    }
    penalties := Calibrate(ws, base, TargetPenalty(p, supply));
    ghost var pens := Penalties(m, p, Balances(ws));
    CalibratedCount(m, p, Balances(ws));
    PairsParts(Ids(ws), pens, |ws|);
    total := SumAmounts(penalties);
    charged := ChargeAll(p, ws, penalties);
  }

  lemma BaseCount(m: Libm, p: Parameters, b: seq<nat>)
    ensures |BasePenalties(m, p, b)| == |b|
  {
  }

  lemma CalibratedCount(m: Libm, p: Parameters, b: seq<nat>)
    ensures |Penalties(m, p, b)| == |b|
  {
  }

  lemma PairsParts(ids: seq<WalletId>, amounts: seq<nat>, n: nat)
    requires |ids| == |amounts| == n
    ensures Firsts(Pairs(ids, amounts)) == ids && Amounts(Pairs(ids, amounts)) == amounts
  {
  }

  /** `execute_iteration`. */
  method ExecuteIteration(m: Libm, ws: seq<Wallet>, p: Parameters, sys: SystemState, operator: OperatorId)
    returns (r: IterationResult)
    requires p.burnMin <= p.burnMax
    ensures r == Economy.ExecuteIteration(m, ws, p, sys, operator)
  {
    hide Penalties, AfterPenalties, Allocate, Weights, Shares, AfterRewards, Settle, BurnRate, Inflation,
      PlannedWallets, MicroSeed, FaucetWallets, Supply, Gini.Pairwise, CommitDigest, Distributed, RealSum;
    var iteration := sys.iteration + 1;
    var supply := SumBalances(ws);
    var balances := Balances(ws);
    var gini := Gini.ComputeGiniFromBalances(balances);
    var inflation := Inflation(sys);
    var beta := BurnRate(p, inflation);
    var seed := MicroSeed(p);
    var penalties, total, charged := TakePenalties(m, ws, p, supply);
    var planned := PlannedWallets(p, |ws|);
    var alloc := Allocate(p, beta, planned, total);
    var weights, totalWeight := Weigh(m, p, charged);
    CalibratedCount(m, p, balances);
    Shapes(m, p, ws, Penalties(m, p, balances));
    var rewarded, rewards, distributed := RewardAll(charged, alloc.pool, weights, totalWeight);
    var settled := Settle(p.residualPolicy, Settlement(rewarded, rewards, alloc.burnedBase),
                          SatSub(alloc.pool, distributed));
    ghost var re := Redistribute(m, p, ws, beta);
    assert settled == re.settled;
    RedistributeShape(m, p, ws, beta);
    var wallets, newIds := CreateWallets(settled.wallets, iteration, planned, seed, sys.tick, operator);
    var post := SumBalances(wallets);
    var c := IterationCommit(ZeroHash, iteration, sys.tick, supply, |ws|, gini, inflation, beta, penalties,
                             Pairs(Ids(ws), settled.rewards), settled.burned, alloc.faucetFromPenalty,
                             alloc.faucetFromMint, newIds, post);
    r := IterationResult(c.(txId := CommitDigest(c)), wallets);
  }

  lemma Shapes(m: Libm, p: Parameters, ws: seq<Wallet>, pens: seq<nat>)
    requires |pens| == |ws|
    ensures |AfterPenalties(p, ws, pens)| == |ws|
    ensures |Weights(m, p, AfterPenalties(p, ws, pens))| == |ws|
  {
  }
}
