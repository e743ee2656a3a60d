/** The iteration as an auditor checks it: from the wallets before, the parameters, the commit and the
wallets after, with inequalities instead of the engine's floors, caps and stages. */
module Audit {
  import opened Arith
  import opened Sums
  import opened Types
  import opened Economy
  import opened EconomyLaws
  import opened Rounding
  import Gini

  // ---------- What the auditor checks ----------

  /** Figures the commit does not record: the largest balance, the penalties before calibration and their
  target, the burn and the shares before the rounding residual is settled. */
  datatype Workings = Workings(top: nat, base: seq<nat>, target: nat, burn: nat, shares: seq<nat>)

  function SeedAmount(p: Parameters): nat { Min(p.initialSeedAgc * 1_000_000, U64_MAX) }

  ghost predicate IsTop(b: seq<nat>, top: nat)
  {
    (forall i :: 0 <= i < |b| ==> b[i] <= top) && (if b == [] then top == 0 else top in b)
  }

  function Scale(m: Libm, seed: nat, balance: nat): real
    requires seed > 0
  {
    m.ln(1.0 + balance as real / seed as real)
  }

  /** Below this the platform counts a logarithm as zero. */
  const TWO_TO_MINUS_52: real := 1.0 / 4503599627370496.0

  /** The penalty grows with the logarithm of the balance, in proportion to that of the largest balance. */
  ghost predicate ProgressivePenalty(m: Libm, p: Parameters, top: nat, balance: nat, x: nat)
  {
    var seed := SeedAmount(p);
    if balance == 0 || seed == 0 || Scale(m, seed, top) <= TWO_TO_MINUS_52 then x == 0
    else LargestRatio(x, Times(Times(p.penaltyRate, balance as real), Scale(m, seed, balance)), Scale(m, seed, top),
                      balance)
  }

  /** Calibration: a pool more than a fifth off a positive target is scaled to it. */
  ghost predicate Calibrates(b: seq<nat>, base: seq<nat>, target: nat, pens: seq<nat>)
  {
    var total := Sum(base);
    && |b| == |base| == |pens|
    && if total > 0 && target > 0 && 5 * AbsDiff(total, target) > target
       then forall i :: 0 <= i < |b| ==>
              LargestRatio(pens[i], Times(base[i] as real, target as real), total as real, b[i])
       else pens == base
  }

  ghost predicate PenaltiesChecked(m: Libm, p: Parameters, b: seq<nat>, pens: seq<nat>, w: Workings)
  {
    && |b| == |w.base|
    && IsTop(b, w.top)
    && (forall i :: 0 <= i < |b| ==> ProgressivePenalty(m, p, w.top, b[i], w.base[i]))
    && Largest(w.target, Times(p.targetPenaltyShare, Sum(b) as real), U64_MAX)
    && Calibrates(b, w.base, w.target, pens)
  }

  /** The faucet takes its share of the pool, capped by what the new wallets need; the burn takes its rate of
  the whole pool, capped by what the faucet left. */
  ghost predicate PoolChecked(p: Parameters, c: IterationCommit, pool: nat, w: Workings)
  {
    var need := Min(|c.newWallets| * SeedAmount(p), U64_MAX);
    && Largest(c.faucetFromPenalty, Times(p.faucetShare, pool as real), Min(need, pool))
    && c.faucetFromPenalty + c.faucetFromMint == need
    && Largest(w.burn, Times(c.burnRate, pool as real), pool - c.faucetFromPenalty)
  }

  /** Weight of a wallet: between the idle and the active factor by activity, damped by the balance. */
  function FairWeight(m: Libm, p: Parameters, activity: real, balance: nat): real
  {
    var a := if activity < 0.0 then 0.0 else if activity > 1.0 then 1.0 else activity;
    var damping := if p.inverseBalanceWeight > 0.0 then m.powf(1.0 + balance as real, -p.inverseBalanceWeight) else 1.0;
    Times(MaxReal(Times(1.0 - a, p.activeMin) + Times(a, p.activeMax), 0.0), damping)
  }

  /** Weights after activity was updated and penalties were taken, before rewards. */
  function FairWeights(m: Libm, p: Parameters, ws: seq<Wallet>, pens: seq<nat>, after: seq<Wallet>): seq<real>
    requires |ws| == |pens| <= |after| && forall i :: 0 <= i < |ws| ==> pens[i] <= ws[i].balance
  {
    seq(|ws|, i requires 0 <= i < |ws| => FairWeight(m, p, after[i].activity, ws[i].balance - pens[i]))
  }

  /** Each share is the proportional part of the pool, rounded down. */
  ghost predicate SharesChecked(pool: nat, weights: seq<real>, shares: seq<nat>)
  {
    var total := RealSum(weights);
    && |shares| == |weights|
    && forall i :: 0 <= i < |shares| ==>
         if total > 0.0 then LargestRatio(shares[i], Times(pool as real, weights[i]), total, pool) else shares[i] == 0
  }

  /** What rounding leaves is burned, or goes to the first wallet. */
  ghost predicate ResidualChecked(p: Parameters, c: IterationCommit, pool: nat, w: Workings)
  {
    && Sum(w.shares) <= pool
    && var residual := pool - Sum(w.shares);
       if p.residualPolicy == BurnResidual || w.shares == []
       then c.burned == w.burn + residual && Amounts(c.rewards) == w.shares
       else c.burned == w.burn && Amounts(c.rewards) == w.shares[0 := w.shares[0] + residual]
  }

  /** The score moves towards one for a wallet with enough transactions and counterparties, towards zero
  otherwise, by the same fraction of the distance each time. */
  ghost predicate ScoreChecked(p: Parameters, before: Wallet, score: real)
  {
    var keep := if p.emaLambda < 0.0 then 1.0 else if p.emaLambda > 1.0 then 0.0 else 1.0 - p.emaLambda;
    if before.txCount >= p.minTxCount && |before.counterparties| >= p.minCounterparties
    then 1.0 - score == Times(keep, 1.0 - before.activity)
    else score == Times(keep, before.activity)
  }

  /** An existing wallet: charged, rewarded, its score moved and its activity counts reset; nothing else. */
  ghost predicate SettledChecked(p: Parameters, before: Wallet, penalty: nat, reward: nat, after: Wallet)
  {
    && ScoreChecked(p, before, after.activity)
    && after.balance == before.balance - penalty + reward
    && after == before.(balance := after.balance, activity := after.activity, txCount := 0, counterparties := {})
  }

  /** A wallet endowed by the faucet. */
  function EndowedWallet(p: Parameters, sys: SystemState, operator: OperatorId, j: nat): Wallet
  {
    var key := Faucet(sys.iteration + 1, j);
    Wallet(KeyHash(key), key, SeedAmount(p), 0, sys.tick, sys.iteration + 1, operator, 0, {}, sys.iteration + 1, 1.0)
  }

  ghost predicate WalletsChecked(p: Parameters, ws: seq<Wallet>, sys: SystemState, operator: OperatorId,
                                 c: IterationCommit, after: seq<Wallet>)
  {
    && |after| == |ws| + |c.newWallets|
    && Firsts(c.penalties) == Firsts(c.rewards) == Ids(ws)
    && (forall i :: 0 <= i < |ws| ==> SettledChecked(p, ws[i], c.penalties[i].1, c.rewards[i].1, after[i]))
    && Largest(|c.newWallets|, Times(p.growthFactor, |ws| as real), Min(p.maxNewWallets, U64_MAX))
    && (forall j :: 0 <= j < |c.newWallets| ==>
          after[|ws| + j] == EndowedWallet(p, sys, operator, j) && c.newWallets[j] == after[|ws| + j].id)
  }

  /** Snapshot, measured inflation and the burn rate that answers it. */
  ghost predicate HeaderChecked(p: Parameters, ws: seq<Wallet>, sys: SystemState, c: IterationCommit)
  {
    && c.iterationId == sys.iteration + 1 && c.triggeredAtTick == sys.tick
    && c.snapshotSupply == Supply(ws) && c.snapshotWallets == |ws| && c.snapshotGini == Gini.Pairwise(Balances(ws))
    && (if sys.previousStartSupply == 0 then c.inflation == 0.0
        else Times(c.inflation, sys.previousStartSupply as real)
             == sys.previousSupply as real - sys.previousStartSupply as real)
    && var answer := p.burnBase + Times(p.burnSensitivity, c.inflation - p.targetInflation);
       c.burnRate == if answer < p.burnMin then p.burnMin else if answer > p.burnMax then p.burnMax else answer
  }

  ghost predicate AuditPasses(m: Libm, p: Parameters, ws: seq<Wallet>, sys: SystemState, operator: OperatorId,
                              r: IterationResult, w: Workings)
  {
    var (c, pens) := (r.commit, Amounts(r.commit.penalties));
    && HeaderChecked(p, ws, sys, c)
    && |c.penalties| == |c.rewards| == |ws|
    && PenaltiesChecked(m, p, Balances(ws), pens, w)
    && (forall i :: 0 <= i < |ws| ==> pens[i] <= ws[i].balance)
    && PoolChecked(p, c, Sum(pens), w)
    && WalletsChecked(p, ws, sys, operator, c, r.wallets)
    && c.postSupply == Supply(r.wallets)
    && var pool := Sum(pens) - c.faucetFromPenalty - w.burn;
       SharesChecked(pool, FairWeights(m, p, ws, pens, r.wallets), w.shares) && ResidualChecked(p, c, pool, w)
  }

  // ---------- The engine passes ----------

  ghost function EngineWorkings(m: Libm, p: Parameters, ws: seq<Wallet>, beta: real): Workings
  {
    var b := Balances(ws);
    var r := Redistribute(m, p, ws, beta);
    var weights := Weights(m, p, AfterPenalties(p, ws, r.penalties));
    Workings(MaxBalance(b), BasePenalties(m, p, b), TargetPenalty(p, Sum(b)), r.alloc.burnedBase,
             Shares(r.alloc.pool, weights, RealSum(weights)))
  }

  lemma {:induction false} TopIsMax(b: seq<nat>)
    ensures IsTop(b, MaxBalance(b))
  {
    if b != [] {
      TopIsMax(b[..|b| - 1]);
      assert b == b[..|b| - 1] + [b[|b| - 1]];
    }
  }

  lemma RawIsRatio(rate: real, x: real, scale: real, den: real)
    requires den != 0.0
    ensures RawPenalty(rate, x, scale, den) == Times(Times(rate, x), scale) / den
  {
  }

  lemma OnePenalty(m: Libm, p: Parameters, top: nat, x: nat)
    requires x <= top && x <= U64_MAX
    ensures var seed := MicroSeed(p);
      ProgressivePenalty(m, p, top, x, BasePenalty(m, p.penaltyRate, seed, Denominator(m, top, seed), x))
  {
    var seed := SeedAmount(p);
    assert seed == MicroSeed(p);
    hide MicroSeed, SeedAmount, Times, LargestRatio, RawPenalty;
    if x > 0 && seed > 0 {
      var (scale, den) := (Scale(m, seed, x), Scale(m, seed, top));
      assert Denominator(m, top, seed) == den && LogScale(m, x, seed) == scale;
      hide Scale, Denominator, LogScale;
      if den > EPSILON {
        RawIsRatio(p.penaltyRate, x as real, scale, den);
        FloorIsLargestRatio(Times(Times(p.penaltyRate, x as real), scale), den, x);
      }
    }
  }

  lemma BaseIsProgressive(m: Libm, p: Parameters, b: seq<nat>, i: nat)
    requires i < |b| && Sum(b) <= U64_MAX
    ensures |BasePenalties(m, p, b)| == |b|
    ensures ProgressivePenalty(m, p, MaxBalance(b), b[i], BasePenalties(m, p, b)[i])
  {
    hide ProgressivePenalty, BasePenalty, Denominator, MaxBalance;
    SumAtLeast(b, i);
    MaxAtLeast(b, i);
    OnePenalty(m, p, MaxBalance(b), b[i]);
  }

  lemma FifthRatio(d: real, t: real)
    requires 0.0 < t
    ensures d / t > 0.20 <==> 5.0 * d > t
  {
    var q := d / t;
    assert q * t == d;
    if q > 0.20 {
      assert q * t > 0.20 * t;
    } else {
      assert q * t <= 0.20 * t;
    }
  }

  lemma DeviationIsFifth(total: nat, target: nat)
    requires target > 0
    ensures AbsDiff(total, target) as real / target as real > 0.20 <==> 5 * AbsDiff(total, target) > target
  {
    FifthRatio(AbsDiff(total, target) as real, target as real);
  }

  lemma CalibrationChecked(b: seq<nat>, base: seq<nat>, target: nat)
    requires |b| == |base| && Sum(b) <= U64_MAX
    ensures Calibrates(b, base, target, Calibrated(b, base, target))
  {
    var (total, pens) := (Sum(base), Calibrated(b, base, target));
    if target > 0 {
      DeviationIsFifth(total, target);
    }
    if NeedsScaling(total, target) {
      forall i | 0 <= i < |b|
        ensures LargestRatio(pens[i], Times(base[i] as real, target as real), total as real, b[i])
      {
        SumAtLeast(b, i);
        QuotaIsRatio(base[i] as real, target, total);
        hide Quota, LargestRatio;
        FloorIsLargestRatio(Times(base[i] as real, target as real), total as real, b[i]);
      }
    }
  }

  lemma QuotaIsRatio(x: real, target: nat, total: nat)
    requires total > 0
    ensures Quota(x, target, total) == Times(x, target as real) / total as real
  {
    var q := target as real / total as real;
    assert (x * q) * total as real == x * (q * total as real);
  }

  lemma TargetPass(p: Parameters, supply: nat)
    ensures Largest(TargetPenalty(p, supply), Times(p.targetPenaltyShare, supply as real), U64_MAX)
  {
    FloorIsLargest(Times(p.targetPenaltyShare, supply as real), U64_MAX);
  }

  lemma PenaltiesPass(m: Libm, p: Parameters, b: seq<nat>, w: Workings)
    requires Sum(b) <= U64_MAX
    requires w.top == MaxBalance(b) && w.base == BasePenalties(m, p, b) && w.target == TargetPenalty(p, Sum(b))
    ensures PenaltiesChecked(m, p, b, Penalties(m, p, b), w)
  {
    hide ProgressivePenalty, Calibrates, IsTop, Largest, Calibrated, Times, TargetPenalty, BasePenalty, MaxBalance;
    TopIsMax(b);
    TargetPass(p, Sum(b));
    forall i | 0 <= i < |b| ensures ProgressivePenalty(m, p, MaxBalance(b), b[i], BasePenalties(m, p, b)[i]) {
      BaseIsProgressive(m, p, b, i);
    }
    CalibrationChecked(b, BasePenalties(m, p, b), TargetPenalty(p, Sum(b)));
  }

  lemma SharesPass(pool: nat, weights: seq<real>)
    requires NonNegative(weights) && pool <= U64_MAX
    ensures SharesChecked(pool, weights, Shares(pool, weights, RealSum(weights)))
  {
    var total := RealSum(weights);
    RealSumNonNegative(weights);
    forall i | 0 <= i < |weights| && total > 0.0
      ensures LargestRatio(Share(pool, weights[i], total), Times(pool as real, weights[i]), total, pool)
    {
      ShareIsLargest(pool, weights[i], total);
    }
  }

  lemma ShareIsLargest(pool: nat, weight: real, total: real)
    requires 0.0 < total && 0.0 <= weight <= total && pool <= U64_MAX
    ensures LargestRatio(Share(pool, weight, total), Times(pool as real, weight), total, pool)
  {
    PortionFacts(pool as real, weight, 0.0, total);
    var num := Times(pool as real, weight);
    assert Portion(pool as real, weight, total) == num / total;
    hide Portion, Times;
    FloorIsLargestRatio(num, total, pool);
    ToU64Monotone(num / total, pool as real);
    assert ToU64(pool as real) == pool;
  }

  lemma PoolPass(p: Parameters, beta: real, planned: nat, total: nat, c: IterationCommit, w: Workings)
    requires total <= U64_MAX && |c.newWallets| == planned && c.burnRate == beta
    requires var a := Allocate(p, beta, planned, total);
      c.faucetFromPenalty == a.faucetFromPenalty && c.faucetFromMint == a.faucetFromMint && w.burn == a.burnedBase
    ensures PoolChecked(p, c, total, w)
  {
    hide Largest, Times, ToU64, Allocate, SatMul, SeedAmount;
    NeedIs(p, beta, planned, total);
    AllocateParts(p, beta, planned, total);
    AllocationExact(p, beta, planned, total);
    var a := Allocate(p, beta, planned, total);
    FloorIsLargest(Times(p.faucetShare, total as real), Min(a.faucetNeeded, total));
    FloorIsLargest(Times(beta, total as real), total - a.faucetFromPenalty);
  }

  lemma NeedIs(p: Parameters, beta: real, planned: nat, total: nat)
    ensures Allocate(p, beta, planned, total).faucetNeeded == Min(planned * SeedAmount(p), U64_MAX)
  {
    assert SeedAmount(p) == MicroSeed(p);
  }

  lemma AllocateParts(p: Parameters, beta: real, planned: nat, total: nat)
    ensures var a := Allocate(p, beta, planned, total);
      && a.faucetFromPenalty == Min(ToU64(Times(p.faucetShare, total as real)), Min(a.faucetNeeded, total))
      && a.faucetFromPenalty <= total
      && a.burnedBase == Min(ToU64(Times(beta, total as real)), total - a.faucetFromPenalty)
  {
    hide SatMul, MicroSeed, Times, ToU64;
  }

  lemma Interpolates(lo: real, hi: real, a: real)
    ensures lo + Times(hi - lo, a) == Times(1.0 - a, lo) + Times(a, hi)
  {
  }

  lemma WeightIsFair(m: Libm, p: Parameters, w: Wallet)
    ensures Weight(m, p, w) == FairWeight(m, p, w.activity, w.balance)
  {
    hide Times;
    Interpolates(p.activeMin, p.activeMax, Clamp(w.activity, 0.0, 1.0));
  }

  lemma TowardsOne(lambda: real, x: real)
    ensures 1.0 - Blended(lambda, 1.0, x) == Times(1.0 - lambda, 1.0 - x)
    ensures Blended(lambda, 0.0, x) == Times(1.0 - lambda, x)
  {
  }

  lemma ScorePasses(p: Parameters, w: Wallet)
    ensures ScoreChecked(p, w, Activity(p, w))
  {
    hide Times, Blended;
    TowardsOne(Clamp(p.emaLambda, 0.0, 1.0), w.activity);
  }

  lemma PlannedPass(p: Parameters, n: nat)
    ensures Largest(PlannedWallets(p, n), Times(p.growthFactor, n as real), Min(p.maxNewWallets, U64_MAX))
  {
    FloorIsLargest(Times(p.growthFactor, n as real), Min(p.maxNewWallets, U64_MAX));
  }

  lemma SharesOf(m: Libm, p: Parameters, ws: seq<Wallet>, beta: real)
    requires PowfNonNegative(m) && Supply(ws) <= U64_MAX
    ensures var (r, w) := (Redistribute(m, p, ws, beta), EngineWorkings(m, p, ws, beta));
      && (forall i :: 0 <= i < |ws| ==> r.penalties[i] <= ws[i].balance)
      && r.alloc.faucetFromPenalty + w.burn <= Sum(r.penalties) <= U64_MAX
      && SharesChecked(Sum(r.penalties) - r.alloc.faucetFromPenalty - w.burn,
                       Weights(m, p, AfterPenalties(p, ws, r.penalties)), w.shares)
      && Sum(w.shares) <= Sum(r.penalties) - r.alloc.faucetFromPenalty - w.burn
  {
    hide Allocate, Penalties, Weight, Share, Settle, SharesChecked, Shares;
    var b := Balances(ws);
    var r := Redistribute(m, p, ws, beta);
    PenaltiesCovered(m, p, b);
    AllocationExact(p, beta, PlannedWallets(p, |ws|), Sum(r.penalties));
    var charged := AfterPenalties(p, ws, r.penalties);
    var weights := Weights(m, p, charged);
    WeightsNonNegative(m, p, charged);
    SharesPass(r.alloc.pool, weights);
    SharesWithinPool(r.alloc.pool, weights);
    forall i | 0 <= i < |ws| ensures r.penalties[i] <= ws[i].balance {
      assert b[i] == ws[i].balance;
    }
  }

  /** How the residual is settled, against the shares before it. */
  lemma ResidualPass(m: Libm, p: Parameters, ws: seq<Wallet>, beta: real, c: IterationCommit)
    requires PowfNonNegative(m) && Supply(ws) <= U64_MAX
    requires var r := Redistribute(m, p, ws, beta);
      c.burned == r.settled.burned && Amounts(c.rewards) == r.settled.rewards
    ensures var (r, w) := (Redistribute(m, p, ws, beta), EngineWorkings(m, p, ws, beta));
      && r.alloc.faucetFromPenalty + w.burn <= Sum(r.penalties)
      && ResidualChecked(p, c, Sum(r.penalties) - r.alloc.faucetFromPenalty - w.burn, w)
  {
    hide Allocate, Penalties, Weight, Share, SharesChecked, Shares, Settle;
    var r := Redistribute(m, p, ws, beta);
    var w := EngineWorkings(m, p, ws, beta);
    SharesOf(m, p, ws, beta);
    AllocationExact(p, beta, PlannedWallets(p, |ws|), Sum(r.penalties));
    DistributedIsSum(w.shares);
    assert |w.shares| == |ws| by { ShareCount(m, p, ws, beta); }
    RedistributeShape(m, p, ws, beta);
    var charged := AfterPenalties(p, ws, r.penalties);
    var residual := r.alloc.pool - Sum(w.shares);
    SettleParts(p.residualPolicy, Settlement(AfterRewards(charged, w.shares), w.shares, w.burn), residual);
  }

  lemma SettleParts(policy: ResidualPolicy, s: Settlement, residual: nat)
    requires |s.wallets| == |s.rewards| && Sum(s.rewards) + residual <= U64_MAX && s.burned + residual <= U64_MAX
    ensures var t := Settle(policy, s, residual);
      if policy == BurnResidual || s.rewards == [] then t.burned == s.burned + residual && t.rewards == s.rewards
      else t.burned == s.burned && t.rewards == s.rewards[0 := s.rewards[0] + residual]
  {
    if s.rewards != [] {
      SumAtLeast(s.rewards, 0);
    }
  }

  lemma ShareCount(m: Libm, p: Parameters, ws: seq<Wallet>, beta: real)
    ensures |EngineWorkings(m, p, ws, beta).shares| == |ws|
  {
    RedistributeShape(m, p, ws, beta);
  }

  lemma HeaderPass(m: Libm, p: Parameters, ws: seq<Wallet>, sys: SystemState, operator: OperatorId)
    requires p.burnMin <= p.burnMax
    ensures HeaderChecked(p, ws, sys, ExecuteIteration(m, ws, p, sys, operator).commit)
  {
    hide Redistribute, FaucetWallets, Supply, Times, Gini.Pairwise;
    InflationMeasured(sys);
  }

  lemma InflationMeasured(sys: SystemState)
    ensures if sys.previousStartSupply == 0 then Inflation(sys) == 0.0
      else Times(Inflation(sys), sys.previousStartSupply as real)
           == sys.previousSupply as real - sys.previousStartSupply as real
  {
  }

  lemma SettledPass(m: Libm, p: Parameters, ws: seq<Wallet>, beta: real, i: nat)
    requires PowfNonNegative(m) && Supply(ws) <= U64_MAX && i < |ws|
    ensures var r := Redistribute(m, p, ws, beta);
      && |r.penalties| == |r.settled.wallets| == |r.settled.rewards| == |ws|
      && SettledChecked(p, ws[i], r.penalties[i], r.settled.rewards[i], r.settled.wallets[i])
      && r.settled.wallets[i].activity == Activity(p, ws[i])
  {
    WalletUpdate(m, p, ws, beta, i);
    ScorePasses(p, ws[i]);
    RedistributeShape(m, p, ws, beta);
    hide Allocate, Penalties, Weights, Weight, Share, Shares, Activity, ScoreChecked, Distributed;
    var r := Redistribute(m, p, ws, beta);
    var charged := AfterPenalties(p, ws, r.penalties);
    var weights := Weights(m, p, charged);
    var shares := Shares(r.alloc.pool, weights, RealSum(weights));
    assert |shares| == |ws| by { ShareCount(m, p, ws, beta); }
    assert AfterRewards(charged, shares)[i] == Rewarded(Charged(p, ws[i], r.penalties[i]), shares[i]);
  }

  lemma WeightsAreFair(m: Libm, p: Parameters, ws: seq<Wallet>, beta: real)
    requires PowfNonNegative(m) && Supply(ws) <= U64_MAX
    ensures var r := Redistribute(m, p, ws, beta);
      && |r.penalties| == |r.settled.wallets| == |ws|
      && (forall i :: 0 <= i < |ws| ==> r.penalties[i] <= ws[i].balance)
      && FairWeights(m, p, ws, r.penalties, r.settled.wallets) == Weights(m, p, AfterPenalties(p, ws, r.penalties))
  {
    hide Redistribute, Weight, FairWeight, Activity;
    RedistributeShape(m, p, ws, beta);
    SharesOf(m, p, ws, beta);
    var r := Redistribute(m, p, ws, beta);
    var charged := AfterPenalties(p, ws, r.penalties);
    forall i | 0 <= i < |ws|
      ensures FairWeight(m, p, r.settled.wallets[i].activity, ws[i].balance - r.penalties[i])
        == Weight(m, p, charged[i])
    {
      SettledPass(m, p, ws, beta, i);
      WeightIsFair(m, p, charged[i]);
    }
  }

  lemma WalletsPass(m: Libm, p: Parameters, ws: seq<Wallet>, sys: SystemState, operator: OperatorId)
    requires p.burnMin <= p.burnMax && PowfNonNegative(m) && Supply(ws) <= U64_MAX
    ensures var r := ExecuteIteration(m, ws, p, sys, operator);
      WalletsChecked(p, ws, sys, operator, r.commit, r.wallets)
  {
    hide ExecuteIteration, Redistribute, BurnRate, Inflation, SettledChecked, Largest, Times, PlannedWallets;
    CommitFields(m, ws, p, sys, operator);
    PlannedPass(p, |ws|);
    var r := ExecuteIteration(m, ws, p, sys, operator);
    var beta := BurnRate(p, Inflation(sys));
    var d := Redistribute(m, p, ws, beta);
    forall i | 0 <= i < |ws|
      ensures SettledChecked(p, ws[i], r.commit.penalties[i].1, r.commit.rewards[i].1, r.wallets[i])
    {
      SettledPass(m, p, ws, beta, i);
      assert Amounts(r.commit.penalties)[i] == d.penalties[i] && Amounts(r.commit.rewards)[i] == d.settled.rewards[i];
      assert r.wallets[i] == d.settled.wallets[i];
    }
    assert SeedAmount(p) == MicroSeed(p);
  }

  /** Every iteration passes the audit. */
  lemma IterationAudited(m: Libm, p: Parameters, ws: seq<Wallet>, sys: SystemState, operator: OperatorId)
    returns (w: Workings)
    requires p.burnMin <= p.burnMax && PowfNonNegative(m) && Supply(ws) <= U64_MAX
    ensures AuditPasses(m, p, ws, sys, operator, ExecuteIteration(m, ws, p, sys, operator), w)
  {
    hide ExecuteIteration, Redistribute, BurnRate, Inflation, HeaderChecked, PenaltiesChecked, PoolChecked,
      WalletsChecked, SharesChecked, ResidualChecked, FairWeights, PlannedWallets, MicroSeed, Weights, Weight,
      EngineWorkings;
    var r := ExecuteIteration(m, ws, p, sys, operator);
    var beta := BurnRate(p, Inflation(sys));
    var d := Redistribute(m, p, ws, beta);
    w := EngineWorkings(m, p, ws, beta);
    CommitFields(m, ws, p, sys, operator);
    CommitBurnRate(m, p, ws, sys, operator);
    HeaderPass(m, p, ws, sys, operator);
    WalletsPass(m, p, ws, sys, operator);
    SharesOf(m, p, ws, beta);
    WeightsAreFair(m, p, ws, beta);
    ResidualPass(m, p, ws, beta, r.commit);
    WorkingsParts(m, p, ws, beta);
    PenaltiesPass(m, p, Balances(ws), w);
    PoolPass(p, beta, PlannedWallets(p, |ws|), Sum(d.penalties), r.commit, w);
    FairWeightsPrefix(m, p, ws, d.penalties, d.settled.wallets, r.wallets);
  }

  lemma FairWeightsPrefix(m: Libm, p: Parameters, ws: seq<Wallet>, pens: seq<nat>, a: seq<Wallet>, b: seq<Wallet>)
    requires |ws| == |pens| <= |a| && a <= b && forall i :: 0 <= i < |ws| ==> pens[i] <= ws[i].balance
    ensures FairWeights(m, p, ws, pens, a) == FairWeights(m, p, ws, pens, b)
  {
    hide FairWeight;
  }

  lemma CommitBurnRate(m: Libm, p: Parameters, ws: seq<Wallet>, sys: SystemState, operator: OperatorId)
    requires p.burnMin <= p.burnMax
    ensures var c := ExecuteIteration(m, ws, p, sys, operator).commit;
      c.burnRate == BurnRate(p, Inflation(sys)) && |c.newWallets| == PlannedWallets(p, |ws|)
  {
    hide Redistribute, BurnRate, Inflation;
  }

  lemma WorkingsParts(m: Libm, p: Parameters, ws: seq<Wallet>, beta: real)
    ensures var (w, d, b) := (EngineWorkings(m, p, ws, beta), Redistribute(m, p, ws, beta), Balances(ws));
      && w.top == MaxBalance(b) && w.base == BasePenalties(m, p, b) && w.target == TargetPenalty(p, Sum(b))
      && w.burn == d.alloc.burnedBase && d.penalties == Penalties(m, p, b)
      && d.alloc == Allocate(p, beta, PlannedWallets(p, |ws|), Sum(d.penalties))
  {
    hide Allocate, Penalties, Weights, Shares, Settle, MaxBalance, BasePenalties, TargetPenalty;
  }

  /** The burn takes its rate of the whole penalty pool, to less than one unit, unless it takes everything the
  faucet left; only the rounding residual is burned on top. The faucet takes its share of the pool to less
  than one unit, unless it covers the whole need. */
  lemma BurnFollowsRate(m: Libm, p: Parameters, ws: seq<Wallet>, sys: SystemState, operator: OperatorId)
    returns (burn: nat)
    requires p.burnMin <= p.burnMax && PowfNonNegative(m) && Supply(ws) <= U64_MAX
    ensures var c := ExecuteIteration(m, ws, p, sys, operator).commit; var pool := Sum(Amounts(c.penalties));
      && c.faucetFromPenalty + burn <= pool
      && (0.0 <= c.burnRate ==> burn as real <= Times(c.burnRate, pool as real))
      && (Times(c.burnRate, pool as real) >= burn as real + 1.0 ==> c.faucetFromPenalty + burn == pool)
      && (if p.residualPolicy == BurnResidual || ws == [] then c.burned >= burn else c.burned == burn)
      && (0.0 <= p.faucetShare ==> c.faucetFromPenalty as real <= Times(p.faucetShare, pool as real))
      && (Times(p.faucetShare, pool as real) >= c.faucetFromPenalty as real + 1.0 ==>
            c.faucetFromPenalty == pool || c.faucetFromMint == 0)
  {
    var w := IterationAudited(m, p, ws, sys, operator);
    burn := w.burn;
    var c := ExecuteIteration(m, ws, p, sys, operator).commit;
    var pool := Sum(Amounts(c.penalties));
    hide ExecuteIteration, HeaderChecked, PenaltiesChecked, WalletsChecked, SharesChecked, FairWeights, Supply,
      Times, PoolChecked, SeedAmount;
    PoolBounds(p, c, pool, w);
    SharesMatch(m, p, ws, sys, operator, ExecuteIteration(m, ws, p, sys, operator), w);
  }

  lemma PoolBounds(p: Parameters, c: IterationCommit, pool: nat, w: Workings)
    requires PoolChecked(p, c, pool, w)
    ensures c.faucetFromPenalty + w.burn <= pool
    ensures 0.0 <= c.burnRate ==> w.burn as real <= Times(c.burnRate, pool as real)
    ensures Times(c.burnRate, pool as real) >= w.burn as real + 1.0 ==> c.faucetFromPenalty + w.burn == pool
    ensures 0.0 <= p.faucetShare ==> c.faucetFromPenalty as real <= Times(p.faucetShare, pool as real)
    ensures Times(p.faucetShare, pool as real) >= c.faucetFromPenalty as real + 1.0 ==>
      c.faucetFromPenalty == pool || c.faucetFromMint == 0
  {
    if 0.0 <= c.burnRate {
      TimesNonNegative(c.burnRate, pool as real);
    }
    if 0.0 <= p.faucetShare {
      TimesNonNegative(p.faucetShare, pool as real);
    }
    hide Times, SeedAmount;
  }

  lemma SharesMatch(m: Libm, p: Parameters, ws: seq<Wallet>, sys: SystemState, operator: OperatorId,
                    r: IterationResult, w: Workings)
    requires AuditPasses(m, p, ws, sys, operator, r, w)
    ensures |w.shares| == |ws|
  {
    hide HeaderChecked, PenaltiesChecked, WalletsChecked, PoolChecked, ResidualChecked, Supply, FairWeight,
      LargestRatio;
  }

  /** The id of a commit fixes everything the commit records. */
  lemma CommitIdFixesCommit(m: Libm, p: Parameters, ws: seq<Wallet>, sys: SystemState, operator: OperatorId,
                            m': Libm, p': Parameters, ws': seq<Wallet>, sys': SystemState, operator': OperatorId)
    requires p.burnMin <= p.burnMax && p'.burnMin <= p'.burnMax
    requires ExecuteIteration(m, ws, p, sys, operator).commit.txId
      == ExecuteIteration(m', ws', p', sys', operator').commit.txId
    ensures ExecuteIteration(m, ws, p, sys, operator).commit == ExecuteIteration(m', ws', p', sys', operator').commit
  {
    hide Redistribute, Inflation, BurnRate, Supply, FaucetWallets, PlannedWallets, MicroSeed, Gini.Pairwise;
  }
}
