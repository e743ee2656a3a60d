/** The economic iteration, stage by stage, as functions of the wallet list.

The engine in `Engine.dfy` computes the same stages with loops over mutable lists; the laws of the
iteration are proved here and in `EconomyLaws.dfy`. */
module Economy {
  import opened Arith
  import opened Sums
  import opened Types
  import Gini

  /** The two transcendental functions of the platform, left abstract. */
  datatype Libm = Libm(ln: real -> real, powf: (real, real) -> real)

  ghost predicate LnMonotone(m: Libm)
  {
    && m.ln(1.0) == 0.0
    && forall x, y :: 1.0 <= x <= y ==> m.ln(x) <= m.ln(y)
  }

  ghost predicate PowfNonNegative(m: Libm)
  {
    forall x, e :: 1.0 <= x ==> 0.0 <= m.powf(x, e)
  }

  ghost predicate PowfAntitone(m: Libm)
  {
    forall x, y, e :: 1.0 <= x <= y && e <= 0.0 ==> m.powf(y, e) <= m.powf(x, e)
  }

  function Balances(ws: seq<Wallet>): seq<nat>
  {
    seq(|ws|, i requires 0 <= i < |ws| => ws[i].balance)
  }

  function Supply(ws: seq<Wallet>): nat { Sum(Balances(ws)) }

  function Ids(ws: seq<Wallet>): seq<WalletId>
  {
    seq(|ws|, i requires 0 <= i < |ws| => ws[i].id)
  }

  function MicroSeed(p: Parameters): nat { SatMul(p.initialSeedAgc, MICRO_AGC_PER_AGC) }

  function Inflation(sys: SystemState): real
  {
    if sys.previousStartSupply > 0 then
      (sys.previousSupply as real - sys.previousStartSupply as real) / sys.previousStartSupply as real
    else 0.0
  }

  function BurnRate(p: Parameters, inflation: real): real
    requires p.burnMin <= p.burnMax
  {
    Clamp(p.burnBase + Times(p.burnSensitivity, inflation - p.targetInflation), p.burnMin, p.burnMax)
  }

  // ---------- Penalties ----------

  function MaxBalance(b: seq<nat>): nat
  {
    if b == [] then 0 else Max(MaxBalance(b[..|b| - 1]), b[|b| - 1])
  }

  function LogScale(m: Libm, balance: nat, seed: nat): real
  {
    m.ln(1.0 + balance as real / Max(seed, 1) as real)
  }

  function Denominator(m: Libm, bMax: nat, seed: nat): real
  {
    if bMax > 0 && seed > 0 then m.ln(1.0 + bMax as real / seed as real) else 0.0
  }

  function BasePenalty(m: Libm, rate: real, seed: nat, denominator: real, balance: nat): nat
  {
    if balance == 0 || denominator <= EPSILON then 0
    else
      Min(ToU64(RawPenalty(rate, balance as real, LogScale(m, balance, seed), denominator)), balance)
  }

  function RawPenalty(rate: real, balance: real, scale: real, denominator: real): real
    requires denominator != 0.0
  {
    rate * balance * scale / denominator
  }

  function BasePenalties(m: Libm, p: Parameters, b: seq<nat>): seq<nat>
  {
    var seed := MicroSeed(p);
    var d := Denominator(m, MaxBalance(b), seed);
    seq(|b|, i requires 0 <= i < |b| => BasePenalty(m, p.penaltyRate, seed, d, b[i]))
  }

  function TargetPenalty(p: Parameters, supply: nat): nat
  {
    ToU64(Times(p.targetPenaltyShare, supply as real))
  }

  /** The pool is rescaled when it misses a positive target by more than a fifth. */
  predicate NeedsScaling(total: nat, target: nat)
  {
    total > 0 && target > 0 && AbsDiff(total, target) as real / target as real > 0.20
  }

  function Scaled(penalty: nat, target: nat, total: nat, balance: nat): nat
    requires total > 0
  {
    Min(ToU64(Quota(penalty as real, target, total)), balance)
  }

  /** A penalty times the calibration factor `target / total`. */
  function Quota(penalty: real, target: nat, total: nat): real
    requires total > 0
  {
    penalty * (target as real / total as real)
  }

  function Calibrated(b: seq<nat>, base: seq<nat>, target: nat): seq<nat>
    requires |b| == |base|
  {
    var total := Sum(base);
    if NeedsScaling(total, target) then
      seq(|b|, i requires 0 <= i < |b| => Scaled(base[i], target, total, b[i]))
    else base
  }

  function Penalties(m: Libm, p: Parameters, b: seq<nat>): seq<nat>
  {
    Calibrated(b, BasePenalties(m, p, b), TargetPenalty(p, Sum(b)))
  }

  // ---------- Allocation of the pool ----------

  function PlannedWallets(p: Parameters, n: nat): nat
  {
    Min(ToU64(p.growthFactor * n as real), p.maxNewWallets)
  }

  datatype Allocation = Allocation(
    faucetNeeded: nat, faucetFromPenalty: nat, burnedBase: nat, pool: nat, faucetFromMint: nat)

  function Allocate(p: Parameters, beta: real, planned: nat, total: nat): Allocation
  {
    var needed := SatMul(planned, MicroSeed(p));
    var fromPenalty := Min(Min(needed, ToU64(Times(p.faucetShare, total as real))), total);
    var rest := total - fromPenalty;
    var burned := Min(ToU64(Times(beta, total as real)), rest);
    Allocation(needed, fromPenalty, burned, rest - burned, SatSub(needed, fromPenalty))
  }

  // ---------- Activity, weights and rewards ----------

  function Activity(p: Parameters, w: Wallet): real
  {
    var raw := if w.txCount >= p.minTxCount && |w.counterparties| >= p.minCounterparties then 1.0 else 0.0;
    var lambda := Clamp(p.emaLambda, 0.0, 1.0);
    Blended(lambda, raw, w.activity)
  }

  /** Exponential moving average. */
  function Blended(lambda: real, raw: real, score: real): real
  {
    Times(lambda, raw) + Times(1.0 - lambda, score)
  }

  function Charged(p: Parameters, w: Wallet, penalty: nat): Wallet
  {
    w.(activity := Activity(p, w), balance := SatSub(w.balance, penalty))
  }

  function AfterPenalties(p: Parameters, ws: seq<Wallet>, pens: seq<nat>): seq<Wallet>
    requires |ws| == |pens|
  {
    seq(|ws|, i requires 0 <= i < |ws| => Charged(p, ws[i], pens[i]))
  }

  function Alpha(p: Parameters, activity: real): real
  {
    p.activeMin + Times(p.activeMax - p.activeMin, Clamp(activity, 0.0, 1.0))
  }

  function Inverse(m: Libm, p: Parameters, balance: nat): real
  {
    if p.inverseBalanceWeight > 0.0 then m.powf(1.0 + balance as real, -p.inverseBalanceWeight) else 1.0
  }

  function Times(x: real, y: real): real { x * y }

  function Weight(m: Libm, p: Parameters, w: Wallet): real
  {
    Times(MaxReal(Alpha(p, w.activity), 0.0), Inverse(m, p, w.balance))
  }

  function Weights(m: Libm, p: Parameters, ws: seq<Wallet>): seq<real>
  {
    seq(|ws|, i requires 0 <= i < |ws| => Weight(m, p, ws[i]))
  }

  /** Floored proportional share of the redistribution pool. */
  function Share(pool: nat, weight: real, total: real): nat
  {
    if pool > 0 && total > 0.0 then ToU64(Portion(pool as real, weight, total)) else 0
  }

  function Portion(pool: real, weight: real, total: real): real
    requires total != 0.0
  {
    pool * weight / total
  }

  function Shares(pool: nat, weights: seq<real>, total: real): seq<nat>
  {
    seq(|weights|, i requires 0 <= i < |weights| => Share(pool, weights[i], total))
  }

  function Rewarded(w: Wallet, reward: nat): Wallet
  {
    w.(balance := SatAdd(w.balance, reward), txCount := 0, counterparties := {})
  }

  function AfterRewards(ws: seq<Wallet>, rewards: seq<nat>): seq<Wallet>
    requires |ws| == |rewards|
  {
    seq(|ws|, i requires 0 <= i < |ws| => Rewarded(ws[i], rewards[i]))
  }

  /** Running saturating total of the rewards. */
  function Distributed(rewards: seq<nat>): nat
  {
    if rewards == [] then 0
    else SatAdd(Distributed(rewards[..|rewards| - 1]), rewards[|rewards| - 1])
  }

  datatype Settlement = Settlement(wallets: seq<Wallet>, rewards: seq<nat>, burned: nat)

  /** Rounding residual: burned, or credited to the first wallet when there is one. */
  function Settle(policy: ResidualPolicy, s: Settlement, residual: nat): Settlement
  {
    if policy.BurnResidual? || s.wallets == [] || s.rewards == [] then
      s.(burned := SatAdd(s.burned, residual))
    else
      var w := s.wallets[0];
      Settlement(s.wallets[0 := w.(balance := SatAdd(w.balance, residual))],
                 s.rewards[0 := SatAdd(s.rewards[0], residual)],
                 s.burned)
  }

  // ---------- New wallets ----------

  function FaucetId(iteration: nat, idx: nat): WalletId { KeyHash(Faucet(iteration, idx)) }

  function FaucetWallet(iteration: nat, idx: nat, seed: nat, tick: nat, operator: OperatorId): Wallet
  {
    Wallet(FaucetId(iteration, idx), Faucet(iteration, idx), seed, 0, tick, iteration, operator, 0, {},
           iteration, 1.0)
  }

  function FaucetWallets(iteration: nat, count: nat, seed: nat, tick: nat, operator: OperatorId): seq<Wallet>
  {
    seq(count, i requires 0 <= i < count => FaucetWallet(iteration, i, seed, tick, operator))
  }

  // ---------- The whole pipeline ----------

  function Pairs(ids: seq<WalletId>, amounts: seq<nat>): seq<(WalletId, nat)>
    requires |ids| == |amounts|
  {
    seq(|ids|, i requires 0 <= i < |ids| => (ids[i], amounts[i]))
  }

  datatype IterationResult = IterationResult(commit: IterationCommit, wallets: seq<Wallet>)

  /** What happens to the existing wallets: penalties, allocation, and the settled redistribution. */
  datatype Redistribution = Redistribution(penalties: seq<nat>, alloc: Allocation, settled: Settlement)

  function Redistribute(m: Libm, p: Parameters, ws: seq<Wallet>, beta: real): (r: Redistribution)
  {
    var pens := Penalties(m, p, Balances(ws));
    var alloc := Allocate(p, beta, PlannedWallets(p, |ws|), Sum(pens));
    var charged := AfterPenalties(p, ws, pens);
    var weights := Weights(m, p, charged);
    var shares := Shares(alloc.pool, weights, RealSum(weights));
    Redistribution(pens, alloc,
                   Settle(p.residualPolicy,
                          Settlement(AfterRewards(charged, shares), shares, alloc.burnedBase),
                          SatSub(alloc.pool, Distributed(shares))))
  }

  function CommitDigest(c: IterationCommit): Digest
  {
    PayloadHash(CommitPayload(c.iterationId, c.triggeredAtTick, c.snapshotSupply, c.snapshotWallets,
                              c.snapshotGini, c.inflation, c.burnRate, c.penalties, c.rewards, c.burned,
                              c.faucetFromPenalty, c.faucetFromMint, c.newWallets, c.postSupply))
  }

  function ExecuteIteration(m: Libm, ws: seq<Wallet>, p: Parameters, sys: SystemState, operator: OperatorId)
    : IterationResult
    requires p.burnMin <= p.burnMax
  {
    var inflation := Inflation(sys);
    var beta := BurnRate(p, inflation);
    var r := Redistribute(m, p, ws, beta);
    RedistributeShape(m, p, ws, beta);
    var created := FaucetWallets(sys.iteration + 1, PlannedWallets(p, |ws|), MicroSeed(p), sys.tick, operator);
    var wallets := r.settled.wallets + created;
    var c := IterationCommit(ZeroHash, sys.iteration + 1, sys.tick, Supply(ws), |ws|,
                             Gini.Pairwise(Balances(ws)), inflation, beta,
                             Pairs(Ids(ws), r.penalties), Pairs(Ids(ws), r.settled.rewards),
                             r.settled.burned, r.alloc.faucetFromPenalty, r.alloc.faucetFromMint,
                             Ids(created), Supply(wallets));
    IterationResult(c.(txId := CommitDigest(c)), wallets)
  }

  lemma RedistributeShape(m: Libm, p: Parameters, ws: seq<Wallet>, beta: real)
    ensures var r := Redistribute(m, p, ws, beta);
      |r.penalties| == |r.settled.wallets| == |r.settled.rewards| == |ws|
  {
  }
}
