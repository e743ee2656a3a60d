/** Laws of the economic iteration: conservation, rounding, calibration and monotonicity. */
module EconomyLaws {
  import opened Arith
  import opened Sums
  import opened Types
  import opened Economy

  // ---------- Rounding: floored proportional shares ----------

  ghost predicate NonNegative(s: seq<real>)
  {
    forall i :: 0 <= i < |s| ==> 0.0 <= s[i]
  }

  lemma {:induction false} RealSumNonNegative(s: seq<real>)
    requires NonNegative(s)
    ensures 0.0 <= RealSum(s)
    ensures forall i :: 0 <= i < |s| ==> s[i] <= RealSum(s)
  {
    if s != [] {
      RealSumNonNegative(s[..|s| - 1]);
      forall i | 0 <= i < |s| ensures s[i] <= RealSum(s) {
        if i < |s| - 1 { assert s[i] == s[..|s| - 1][i]; }
      }
    }
  }

  lemma PortionFacts(pool: real, w: real, sum: real, total: real)
    requires 0.0 < total && 0.0 <= w <= total && 0.0 <= pool
    ensures 0.0 <= Portion(pool, w, total) <= pool
    ensures Portion(pool, sum + w, total) == Portion(pool, sum, total) + Portion(pool, w, total)
    ensures Portion(pool, 0.0, total) == 0.0
    ensures Portion(pool, total, total) == pool
  {
    hide Portion;
    PortionMonotone(pool, 0.0, w, total);
    PortionMonotone(pool, w, total, total);
    PortionAdds(pool, sum, w, total);
    PortionEnds(pool, total);
  }

  lemma PortionEnds(pool: real, total: real)
    requires total != 0.0
    ensures Portion(pool, 0.0, total) == 0.0 && Portion(pool, total, total) == pool
  {
    DivSelf(pool, total);
  }

  lemma PortionAdds(pool: real, v: real, w: real, total: real)
    requires total != 0.0
    ensures Portion(pool, v + w, total) == Portion(pool, v, total) + Portion(pool, w, total)
  {
    MulDistribute(pool, v, w);
    DivAdd(pool * v, pool * w, total);
  }

  /** One more share adds at most its exact portion, and less than one unit below it. */
  lemma ShareStep(pool: nat, w: real, total: real)
    requires 0.0 < total && 0.0 <= w <= total
    ensures Share(pool, w, total) as real <= Portion(pool as real, w, total)
    ensures pool <= U64_MAX ==> Portion(pool as real, w, total) < Share(pool, w, total) as real + 1.0
  {
    PortionFacts(pool as real, w, 0.0, total);
    hide Portion;
    ToU64Bounds(Portion(pool as real, w, total));
  }

  /** Sums of shares against the exact portions, for any common denominator. */
  lemma {:induction false} SharesAgainstPortion(pool: nat, ws: seq<real>, total: real)
    requires 0.0 < total && NonNegative(ws) && (forall i :: 0 <= i < |ws| ==> ws[i] <= total)
    ensures Sum(Shares(pool, ws, total)) as real <= Portion(pool as real, RealSum(ws), total)
    ensures pool <= U64_MAX && ws != [] ==>
      Portion(pool as real, RealSum(ws), total) < Sum(Shares(pool, ws, total)) as real + |ws| as real
  {
    hide Portion, Share;
    PortionFacts(pool as real, 0.0, 0.0, total);
    if ws != [] {
      var n := |ws| - 1;
      assert Shares(pool, ws, total)[..n] == Shares(pool, ws[..n], total);
      SharesAgainstPortion(pool, ws[..n], total);
      ShareStep(pool, ws[n], total);
      PortionFacts(pool as real, ws[n], RealSum(ws[..n]), total);
      if n == 0 {
        assert RealSum(ws[..0]) == 0.0;
      }
    }
  }

  /** The floored rewards never exceed the redistribution pool. */
  lemma SharesWithinPool(pool: nat, ws: seq<real>)
    requires NonNegative(ws)
    ensures Sum(Shares(pool, ws, RealSum(ws))) <= pool
  {
    hide Portion;
    var total := RealSum(ws);
    if pool > 0 && total > 0.0 {
      RealSumNonNegative(ws);
      SharesAgainstPortion(pool, ws, total);
      PortionFacts(pool as real, 0.0, 0.0, total);
    } else {
      assert Shares(pool, ws, total) == seq(|ws|, i => 0);
      SumConstant(|ws|, 0);
    }
  }

  /** With positive total weight the rounding residual is at most N - 1 micro-units. */
  lemma ResidualBound(pool: nat, ws: seq<real>)
    requires NonNegative(ws) && RealSum(ws) > 0.0 && pool <= U64_MAX
    ensures ws != []
    ensures pool - Sum(Shares(pool, ws, RealSum(ws))) <= |ws| - 1
  {
    hide Portion, Share;
    var total := RealSum(ws);
    RealSumNonNegative(ws);
    SharesAgainstPortion(pool, ws, total);
    PortionFacts(pool as real, 0.0, 0.0, total);
  }

  lemma {:induction false} DistributedIsSum(s: seq<nat>)
    requires Sum(s) <= U64_MAX
    ensures Distributed(s) == Sum(s)
  {
    if s != [] {
      DistributedIsSum(s[..|s| - 1]);
    }
  }

  // ---------- Penalties ----------

  /** No penalty exceeds the balance it is taken from. */
  lemma PenaltiesCovered(m: Libm, p: Parameters, b: seq<nat>)
    ensures |Penalties(m, p, b)| == |b|
    ensures forall i :: 0 <= i < |b| ==> Penalties(m, p, b)[i] <= b[i]
    ensures Sum(Penalties(m, p, b)) <= Sum(b)
  {
    SumMonotone(Penalties(m, p, b), b);
  }

  function ScaledAll(b: seq<nat>, base: seq<nat>, target: nat, total: nat): seq<nat>
    requires |b| == |base| && total > 0
  {
    seq(|b|, i requires 0 <= i < |b| => Scaled(base[i], target, total, b[i]))
  }

  lemma QuotaFacts(penalty: real, sum: real, target: nat, total: nat)
    requires total > 0 && 0.0 <= penalty
    ensures 0.0 <= Quota(penalty, target, total)
    ensures target < total ==> Quota(penalty, target, total) <= penalty
    ensures Quota(sum + penalty, target, total) == Quota(sum, target, total) + Quota(penalty, target, total)
    ensures Quota(0.0, target, total) == 0.0
    ensures Quota(total as real, target, total) == target as real
  {
    var scale := target as real / total as real;
    DivMonotone(0.0, target as real, total as real);
    MulNonNegative(penalty, scale);
    if target < total {
      DivMonotone(target as real, total as real, total as real);
      MulMonotone(penalty, scale, 1.0);
    }
  }

  lemma ScaledStep(penalty: nat, target: nat, total: nat, balance: nat)
    requires total > 0
    ensures Scaled(penalty, target, total, balance) as real <= Quota(penalty as real, target, total)
    ensures target < total <= U64_MAX && penalty <= balance && penalty <= total ==>
      && ToU64(Quota(penalty as real, target, total)) <= balance
      && Quota(penalty as real, target, total) < Scaled(penalty, target, total, balance) as real + 1.0
  {
    QuotaFacts(penalty as real, 0.0, target, total);
    hide Quota;
    ToU64Bounds(Quota(penalty as real, target, total));
  }

  /** Rescaled penalties against their exact quota. */
  lemma {:induction false} ScaledAtMostQuota(b: seq<nat>, base: seq<nat>, target: nat, total: nat)
    requires |b| == |base| && total > 0
    ensures Sum(ScaledAll(b, base, target, total)) as real <= Quota(Sum(base) as real, target, total)
  {
    hide Quota, Scaled;
    QuotaFacts(0.0, 0.0, target, total);
    if b != [] {
      var n := |b| - 1;
      assert ScaledAll(b, base, target, total)[..n] == ScaledAll(b[..n], base[..n], target, total);
      ScaledAtMostQuota(b[..n], base[..n], target, total);
      ScaledStep(base[n], target, total, b[n]);
      QuotaFacts(base[n] as real, Sum(base[..n]) as real, target, total);
    }
  }

  lemma {:induction false} ScaledDownNearQuota(b: seq<nat>, base: seq<nat>, target: nat, total: nat)
    requires |b| == |base| && target < total <= U64_MAX
    requires forall i :: 0 <= i < |b| ==> base[i] <= b[i] && base[i] <= total
    ensures b != [] ==>
      Quota(Sum(base) as real, target, total) < Sum(ScaledAll(b, base, target, total)) as real + |b| as real
  {
    hide Quota, Scaled;
    QuotaFacts(0.0, 0.0, target, total);
    if b != [] {
      var n := |b| - 1;
      assert ScaledAll(b, base, target, total)[..n] == ScaledAll(b[..n], base[..n], target, total);
      ScaledDownNearQuota(b[..n], base[..n], target, total);
      ScaledStep(base[n], target, total, b[n]);
      QuotaFacts(base[n] as real, Sum(base[..n]) as real, target, total);
      if n == 0 {
        assert Sum(base[..0]) == 0;
      }
    }
  }

  /** Calibration with a positive pool and a positive target: the calibrated pool never exceeds 1.2
  times the target. */
  lemma CalibratedPoolBound(b: seq<nat>, base: seq<nat>, target: nat)
    requires |b| == |base| && 0 < Sum(base) && 0 < target
    ensures Sum(Calibrated(b, base, target)) as real <= 1.2 * target as real
  {
    var total := Sum(base);
    if NeedsScaling(total, target) {
      assert Calibrated(b, base, target) == ScaledAll(b, base, target, total);
      ScaledAtMostQuota(b, base, target, total);
      QuotaFacts(0.0, 0.0, target, total);
    } else {
      WithinFifth(total, target);
    }
  }

  /** Whenever calibration scales down, no per-wallet balance cap binds and the new pool lies in
  `(target - N, target]`. */
  lemma ScalingDownIsTight(b: seq<nat>, base: seq<nat>, target: nat)
    requires |b| == |base| && (forall i :: 0 <= i < |b| ==> base[i] <= b[i])
    requires NeedsScaling(Sum(base), target) && target < Sum(base) <= U64_MAX
    ensures target - |b| < Sum(Calibrated(b, base, target)) <= target
    ensures forall i :: 0 <= i < |b| ==>
      Calibrated(b, base, target)[i] == ToU64(Quota(base[i] as real, target, Sum(base)))
  {
    hide Quota;
    var total := Sum(base);
    assert Calibrated(b, base, target) == ScaledAll(b, base, target, total);
    forall i | 0 <= i < |b|
      ensures base[i] <= total && ToU64(Quota(base[i] as real, target, total)) <= b[i]
    {
      SumAtLeast(base, i);
      ScaledStep(base[i], target, total, b[i]);
    }
    assert b != [];
    ScaledAtMostQuota(b, base, target, total);
    ScaledDownNearQuota(b, base, target, total);
    QuotaFacts(0.0, 0.0, target, total);
  }

  lemma WithinFifth(total: nat, target: nat)
    requires 0 < target && 0 < total && !NeedsScaling(total, target)
    ensures total as real <= 1.2 * target as real
  {
    var q := AbsDiff(total, target) as real / target as real;
    MulMonotone(target as real, q, 0.20);
    assert q * target as real == AbsDiff(total, target) as real;
  }

  // ---------- Monotonicity ----------

  lemma LogScaleMonotone(m: Libm, seed: nat, x: nat, y: nat)
    requires LnMonotone(m) && x <= y
    ensures 0.0 <= LogScale(m, x, seed) <= LogScale(m, y, seed)
  {
    var s := Max(seed, 1) as real;
    DivMonotone(0.0, x as real, s);
    DivMonotone(x as real, y as real, s);
  }

  lemma BasePenaltyMonotone(m: Libm, rate: real, seed: nat, d: real, x: nat, y: nat)
    requires LnMonotone(m) && x <= y
    ensures BasePenalty(m, rate, seed, d, x) <= BasePenalty(m, rate, seed, d, y)
  {
    hide RawPenalty, LogScale;
    if x != 0 && d > EPSILON {
      LogScaleMonotone(m, seed, x, y);
      ProductMonotone(rate, x as real, LogScale(m, x, seed), y as real, LogScale(m, y, seed), d);
    }
  }

  lemma ProductMonotone(rate: real, x: real, lx: real, y: real, ly: real, d: real)
    requires 0.0 <= x <= y && 0.0 <= lx <= ly && 0.0 < d
    ensures ToU64(RawPenalty(rate, x, lx, d)) <= ToU64(RawPenalty(rate, y, ly, d))
  {
    if 0.0 <= rate {
      RawMonotone(rate, x, lx, y, ly, d);
    } else {
      RawNonPositive(rate, x, lx, d);
    }
    hide RawPenalty;
  }

  lemma RawMonotone(rate: real, x: real, lx: real, y: real, ly: real, d: real)
    requires 0.0 <= x <= y && 0.0 <= lx <= ly && 0.0 < d && 0.0 <= rate
    ensures RawPenalty(rate, x, lx, d) <= RawPenalty(rate, y, ly, d)
  {
    MulMonotone(rate, x, y);
    MulNonNegative(rate, x);
    MulMonotone(rate * x, lx, ly);
    MulMonotone(ly, rate * x, rate * y);
    DivMonotone(rate * x * lx, rate * y * ly, d);
  }

  lemma RawNonPositive(rate: real, x: real, lx: real, d: real)
    requires 0.0 <= x && 0.0 <= lx && 0.0 < d && rate < 0.0
    ensures RawPenalty(rate, x, lx, d) <= 0.0
  {
    MulNonNegative(-rate, x);
    MulNonNegative((-rate) * x, lx);
    DivMonotone(rate * x * lx, 0.0, d);
  }

  lemma QuotaMonotone(x: real, y: real, target: nat, total: nat)
    requires total > 0 && x <= y
    ensures Quota(x, target, total) <= Quota(y, target, total)
  {
    DivMonotone(0.0, target as real, total as real);
    MulMonotone(target as real / total as real, x, y);
  }

  lemma ScaledMonotone(p1: nat, p2: nat, target: nat, total: nat, x: nat, y: nat)
    requires total > 0 && p1 <= p2 && x <= y
    ensures Scaled(p1, target, total, x) <= Scaled(p2, target, total, y)
  {
    hide Quota;
    QuotaMonotone(p1 as real, p2 as real, target, total);
    ToU64Monotone(Quota(p1 as real, target, total), Quota(p2 as real, target, total));
  }

  /** A richer wallet never pays a smaller penalty, before or after calibration. */
  lemma PenaltyMonotone(m: Libm, p: Parameters, b: seq<nat>, i: nat, j: nat)
    requires LnMonotone(m) && i < |b| && j < |b| && b[i] <= b[j]
    ensures BasePenalties(m, p, b)[i] <= BasePenalties(m, p, b)[j]
    ensures |Penalties(m, p, b)| == |b| && Penalties(m, p, b)[i] <= Penalties(m, p, b)[j]
  {
    var base := BasePenalties(m, p, b);
    var seed := MicroSeed(p);
    BasePenaltyMonotone(m, p.penaltyRate, seed, Denominator(m, MaxBalance(b), seed), b[i], b[j]);
    var target := TargetPenalty(p, Sum(b));
    if NeedsScaling(Sum(base), target) {
      ScaledMonotone(base[i], base[j], target, Sum(base), b[i], b[j]);
    }
  }

  lemma LogRatio(m: Libm, p: Parameters, b: seq<nat>, i: nat)
    requires LnMonotone(m) && i < |b| && Denominator(m, MaxBalance(b), MicroSeed(p)) > EPSILON
    ensures 0.0 <= LogScale(m, b[i], MicroSeed(p)) <= Denominator(m, MaxBalance(b), MicroSeed(p))
    ensures b[i] == MaxBalance(b) ==> LogScale(m, b[i], MicroSeed(p)) == Denominator(m, MaxBalance(b), MicroSeed(p))
  {
    var seed := MicroSeed(p);
    MaxAtLeast(b, i);
    LogScaleMonotone(m, seed, b[i], MaxBalance(b));
    hide MicroSeed;
    assert seed > 0 && Max(seed, 1) == seed;
    assert Denominator(m, MaxBalance(b), seed) == LogScale(m, MaxBalance(b), seed);
  }

  lemma {:induction false} MaxAtLeast(b: seq<nat>, i: nat)
    requires i < |b|
    ensures b[i] <= MaxBalance(b)
  {
    if i < |b| - 1 {
      MaxAtLeast(b[..|b| - 1], i);
    }
  }

  lemma RawIsPortion(rate: real, b: real, x: real, d: real)
    requires d != 0.0
    ensures RawPenalty(rate, b, x, d) == Portion(Times(rate, b), x, d)
  {
  }

  lemma RatioAtMostOne(rate: real, b: real, x: real, d: real)
    requires 0.0 <= rate && 0.0 <= b && 0.0 <= x <= d && 0.0 < d
    ensures RawPenalty(rate, b, x, d) <= Times(rate, b)
  {
    RawIsPortion(rate, b, x, d);
    TimesNonNegative(rate, b);
    hide RawPenalty, Portion, Times;
    PortionFacts(Times(rate, b), x, 0.0, d);
  }

  lemma RatioOne(rate: real, b: real, d: real)
    requires 0.0 < d
    ensures RawPenalty(rate, b, d, d) == Times(rate, b)
  {
    RawIsPortion(rate, b, d, d);
    hide RawPenalty, Portion, Times;
    PortionEnds(Times(rate, b), d);
  }

  lemma TimesRate(rate: real, b: real)
    requires 0.0 <= rate <= 1.0 && 0.0 <= b
    ensures 0.0 <= Times(rate, b) <= b
  {
    hide Times;
    TimesNonNegative(rate, b);
    TimesNonNegative(1.0 - rate, b);
    TimesComplement(rate, b);
  }

  /** For every penalty rate: before calibration no wallet is charged more than the rate of its balance, or
  more than its balance, and the richest wallet is charged exactly the smaller of the two (section D.2). A
  rate in [0, 1] is always the smaller. */
  lemma PenaltyWithinRate(m: Libm, p: Parameters, b: seq<nat>, i: nat)
    requires LnMonotone(m) && i < |b|
    ensures var charge := Min(ToU64(Times(p.penaltyRate, b[i] as real)), b[i]);
      && BasePenalties(m, p, b)[i] <= charge
      && (b[i] == MaxBalance(b) && Denominator(m, MaxBalance(b), MicroSeed(p)) > EPSILON ==>
            BasePenalties(m, p, b)[i] == charge)
    ensures 0.0 <= p.penaltyRate <= 1.0 ==> ToU64(Times(p.penaltyRate, b[i] as real)) <= b[i]
  {
    hide RawPenalty, LogScale, Denominator, MaxBalance, MicroSeed, Times;
    var (rate, x, d) := (p.penaltyRate, b[i] as real, Denominator(m, MaxBalance(b), MicroSeed(p)));
    if 0.0 <= rate <= 1.0 {
      TimesRate(rate, x);
      ToU64Monotone(Times(rate, x), x);
    }
    if d > EPSILON {
      LogRatio(m, p, b, i);
      var scale := LogScale(m, b[i], MicroSeed(p));
      if rate < 0.0 {
        RawNonPositive(rate, x, scale, d);
      } else {
        RatioAtMostOne(rate, x, scale, d);
        ToU64Monotone(RawPenalty(rate, x, scale, d), Times(rate, x));
      }
      RatioOne(rate, x, d);
    }
  }

  /** The control loop of section D.4: the burn rate stays within its bounds, is the clamped base rate
  when inflation is on target, and never falls when inflation rises. */
  lemma BurnRateFollowsInflation(p: Parameters, x: real, y: real)
    requires p.burnMin <= p.burnMax && 0.0 <= p.burnSensitivity && x <= y
    ensures p.burnMin <= BurnRate(p, x) <= BurnRate(p, y) <= p.burnMax
    ensures x == p.targetInflation ==> BurnRate(p, x) == Clamp(p.burnBase, p.burnMin, p.burnMax)
  {
    hide Times;
    TimesMonotoneRight(p.burnSensitivity, x - p.targetInflation, y - p.targetInflation);
  }

  lemma TimesMonotoneRight(a: real, b: real, c: real)
    requires 0.0 <= a && b <= c
    ensures Times(a, b) <= Times(a, c)
    ensures b == 0.0 ==> Times(a, b) == 0.0
  {
  }

  /** The activity score of section D.6 stays in [0, 1], moves towards one for an active wallet and
  towards zero for an idle one. */
  lemma ActivityMoves(p: Parameters, w: Wallet)
    requires 0.0 <= w.activity <= 1.0
    ensures 0.0 <= Activity(p, w) <= 1.0
    ensures if w.txCount >= p.minTxCount && |w.counterparties| >= p.minCounterparties
      then w.activity <= Activity(p, w) else Activity(p, w) <= w.activity
  {
    var k := Clamp(p.emaLambda, 0.0, 1.0);
    BlendUp(k, w.activity);
    BlendDown(k, w.activity);
    hide Blended;
  }

  lemma BlendUp(k: real, a: real)
    requires 0.0 <= k <= 1.0 && 0.0 <= a <= 1.0
    ensures a <= Blended(k, 1.0, a) <= 1.0
  {
    hide Times;
    TimesUnits(k);
    TimesFractions(k, a);
    TimesFractions(1.0 - k, a);
    TimesComplement(k, a);
  }

  lemma BlendDown(k: real, a: real)
    requires 0.0 <= k <= 1.0 && 0.0 <= a <= 1.0
    ensures 0.0 <= Blended(k, 0.0, a) <= a
  {
    hide Times;
    TimesUnits(k);
    TimesFractions(1.0 - k, a);
  }

  lemma TimesUnits(x: real)
    ensures Times(x, 1.0) == x && Times(x, 0.0) == 0.0
  {
  }

  lemma TimesFractions(x: real, y: real)
    requires 0.0 <= x <= 1.0 && 0.0 <= y <= 1.0
    ensures 0.0 <= Times(x, y) <= x && Times(x, y) <= y
  {
    hide Times;
    TimesNonNegative(x, y);
    TimesNonNegative(1.0 - x, y);
    TimesNonNegative(1.0 - y, x);
    TimesComplement(x, y);
    TimesComplement(y, x);
    TimesCommutes(x, y);
  }

  lemma TimesCommutes(x: real, y: real)
    ensures Times(x, y) == Times(y, x)
  {
  }

  lemma TimesComplement(k: real, a: real)
    ensures Times(1.0 - k, a) == a - Times(k, a)
  {
  }

  lemma WeightsNonNegative(m: Libm, p: Parameters, ws: seq<Wallet>)
    requires PowfNonNegative(m)
    ensures NonNegative(Weights(m, p, ws))
  {
    hide Times;
    forall i | 0 <= i < |ws| ensures 0.0 <= Weights(m, p, ws)[i] {
      TimesNonNegative(MaxReal(Alpha(p, ws[i].activity), 0.0), Inverse(m, p, ws[i].balance));
    }
  }

  lemma TimesNonNegative(x: real, y: real)
    requires 0.0 <= x && 0.0 <= y
    ensures 0.0 <= Times(x, y)
  {
  }

  lemma TimesMonotone(x: real, y: real, u: real, v: real)
    requires 0.0 <= x <= u && y <= v && 0.0 <= v
    ensures Times(x, y) <= Times(u, v)
  {
    MulMonotone(x, y, v);
    MulMonotone(v, x, u);
  }

  lemma WeightMonotone(m: Libm, p: Parameters, v: Wallet, w: Wallet)
    requires PowfNonNegative(m) && PowfAntitone(m) && p.activeMin <= p.activeMax
    requires v.activity <= w.activity && w.balance <= v.balance
    ensures Weight(m, p, v) <= Weight(m, p, w)
  {
    hide Times;
    var range := p.activeMax - p.activeMin;
    TimesMonotone(range, Clamp(v.activity, 0.0, 1.0), range, Clamp(w.activity, 0.0, 1.0));
    TimesMonotone(MaxReal(Alpha(p, v.activity), 0.0), Inverse(m, p, v.balance),
                  MaxReal(Alpha(p, w.activity), 0.0), Inverse(m, p, w.balance));
  }

  lemma PortionMonotone(pool: real, v: real, w: real, total: real)
    requires 0.0 <= pool && v <= w && 0.0 < total
    ensures Portion(pool, v, total) <= Portion(pool, w, total)
  {
    MulMonotone(pool, v, w);
    DivMonotone(pool * v, pool * w, total);
  }

  /** Before any genesis residual, a wallet at least as active and with no larger post-penalty balance
  never gets a smaller reward. */
  lemma RewardMonotone(m: Libm, p: Parameters, ws: seq<Wallet>, pool: nat, i: nat, j: nat)
    requires PowfNonNegative(m) && PowfAntitone(m) && p.activeMin <= p.activeMax
    requires i < |ws| && j < |ws| && ws[i].activity <= ws[j].activity && ws[j].balance <= ws[i].balance
    ensures var weights := Weights(m, p, ws); var shares := Shares(pool, weights, RealSum(weights));
      shares[i] <= shares[j]
  {
    hide Portion, Weight;
    var weights := Weights(m, p, ws);
    var total := RealSum(weights);
    WeightMonotone(m, p, ws[i], ws[j]);
    if pool > 0 && total > 0.0 {
      PortionMonotone(pool as real, weights[i], weights[j], total);
      ToU64Monotone(Portion(pool as real, weights[i], total), Portion(pool as real, weights[j], total));
    }
  }

  // ---------- Conservation ----------

  /** The three parts of the pool are exactly the pool, whatever the burn rate and faucet share. */
  lemma AllocationExact(p: Parameters, beta: real, planned: nat, total: nat)
    ensures var a := Allocate(p, beta, planned, total);
      && a.faucetFromPenalty + a.burnedBase + a.pool == total
      && a.faucetFromPenalty + a.faucetFromMint == a.faucetNeeded
  {
  }

  /** Balances after charging the penalties and after adding the rewards. */
  lemma {:induction false} ChargedSupply(p: Parameters, ws: seq<Wallet>, pens: seq<nat>)
    requires |ws| == |pens| && forall i :: 0 <= i < |ws| ==> pens[i] <= ws[i].balance
    ensures Supply(AfterPenalties(p, ws, pens)) + Sum(pens) == Supply(ws)
  {
    if ws != [] {
      var n := |ws| - 1;
      ChargedSupply(p, ws[..n], pens[..n]);
      assert Balances(ws)[..n] == Balances(ws[..n]);
      assert Balances(AfterPenalties(p, ws, pens))[..n] == Balances(AfterPenalties(p, ws[..n], pens[..n]));
    }
  }

  lemma {:induction false} RewardedSupply(ws: seq<Wallet>, rewards: seq<nat>)
    requires |ws| == |rewards| && Supply(ws) + Sum(rewards) <= U64_MAX
    ensures Supply(AfterRewards(ws, rewards)) == Supply(ws) + Sum(rewards)
    ensures forall i :: 0 <= i < |ws| ==> AfterRewards(ws, rewards)[i].balance == ws[i].balance + rewards[i]
  {
    if ws != [] {
      var n := |ws| - 1;
      assert Balances(ws)[..n] == Balances(ws[..n]);
      assert Balances(AfterRewards(ws, rewards))[..n] == Balances(AfterRewards(ws[..n], rewards[..n]));
      RewardedSupply(ws[..n], rewards[..n]);
      forall i | 0 <= i < |ws|
        ensures AfterRewards(ws, rewards)[i].balance == ws[i].balance + rewards[i]
      {
        if i < n {
          assert AfterRewards(ws, rewards)[i] == AfterRewards(ws[..n], rewards[..n])[i];
        }
      }
    }
  }

  lemma SettleSums(policy: ResidualPolicy, s: Settlement, residual: nat)
    requires |s.wallets| == |s.rewards|
    requires Supply(s.wallets) + residual <= U64_MAX && s.burned + residual <= U64_MAX
    requires Sum(s.rewards) + residual <= U64_MAX
    ensures var t := Settle(policy, s, residual);
      && t.burned + Sum(t.rewards) == s.burned + Sum(s.rewards) + residual
      && Supply(t.wallets) + Sum(s.rewards) == Supply(s.wallets) + Sum(t.rewards)
  {
    if !(policy.BurnResidual? || s.wallets == []) {
      var t := Settle(policy, s, residual);
      SumAtLeast(Balances(s.wallets), 0);
      SumAtLeast(s.rewards, 0);
      SumUpdate(s.rewards, 0, s.rewards[0] + residual);
      assert Balances(t.wallets) == Balances(s.wallets)[0 := s.wallets[0].balance + residual];
      SumUpdate(Balances(s.wallets), 0, s.wallets[0].balance + residual);
    }
  }

  /** Everything taken is burned, given to the faucet or paid out, and the existing wallets keep
  the rest: for every wallet list and parameter set, under both residual policies. */
  lemma RedistributionConserves(m: Libm, p: Parameters, ws: seq<Wallet>, beta: real)
    requires PowfNonNegative(m) && Supply(ws) <= U64_MAX
    ensures var r := Redistribute(m, p, ws, beta);
      && r.settled.burned + r.alloc.faucetFromPenalty + Sum(r.settled.rewards) == Sum(r.penalties)
      && Supply(r.settled.wallets) + r.settled.burned + r.alloc.faucetFromPenalty == Supply(ws)
  {
    hide Allocate, Penalties, Weight, Share, Settle, Supply;
    var pens := Penalties(m, p, Balances(ws));
    PenaltiesCovered(m, p, Balances(ws));
    var alloc := Allocate(p, beta, PlannedWallets(p, |ws|), Sum(pens));
    AllocationExact(p, beta, PlannedWallets(p, |ws|), Sum(pens));
    var charged := AfterPenalties(p, ws, pens);
    ChargedSupply(p, ws, pens);
    var weights := Weights(m, p, charged);
    var shares := Shares(alloc.pool, weights, RealSum(weights));
    WeightsNonNegative(m, p, charged);
    SharesWithinPool(alloc.pool, weights);
    DistributedIsSum(shares);
    RewardedSupply(charged, shares);
    SettleSums(p.residualPolicy, Settlement(AfterRewards(charged, shares), shares, alloc.burnedBase),
               alloc.pool - Sum(shares));
  }

  lemma SettleWallet(policy: ResidualPolicy, s: Settlement, residual: nat, i: nat)
    requires |s.wallets| == |s.rewards| && i < |s.wallets|
    requires Supply(s.wallets) + residual <= U64_MAX && Sum(s.rewards) + residual <= U64_MAX
    ensures var t := Settle(policy, s, residual);
      && |t.wallets| == |t.rewards| == |s.wallets|
      && t.wallets[i] == s.wallets[i].(balance := t.wallets[i].balance)
      && t.wallets[i].balance + s.rewards[i] == s.wallets[i].balance + t.rewards[i]
  {
    SumAtLeast(Balances(s.wallets), 0);
    SumAtLeast(s.rewards, 0);
    assert Balances(s.wallets)[0] == s.wallets[0].balance;
  }

  /** An existing wallet keeps its identity, its nonce and its activity mark; its balance becomes
  balance - penalty + reward, with the recorded penalty and reward. */
  lemma WalletUpdate(m: Libm, p: Parameters, ws: seq<Wallet>, beta: real, i: nat)
    requires PowfNonNegative(m) && Supply(ws) <= U64_MAX && i < |ws|
    ensures var r := Redistribute(m, p, ws, beta);
      && |r.penalties| == |r.settled.wallets| == |r.settled.rewards| == |ws|
      && r.penalties[i] <= ws[i].balance
      && r.settled.wallets[i].balance == ws[i].balance - r.penalties[i] + r.settled.rewards[i]
      && r.settled.wallets[i].id == ws[i].id && r.settled.wallets[i].nonce == ws[i].nonce
      && r.settled.wallets[i].lastActive == ws[i].lastActive
      && r.settled.wallets[i].createdAtIteration == ws[i].createdAtIteration
  {
    hide Allocate, Penalties, Weight, Share, Settle, Supply, Activity;
    var pens := Penalties(m, p, Balances(ws));
    PenaltiesCovered(m, p, Balances(ws));
    var alloc := Allocate(p, beta, PlannedWallets(p, |ws|), Sum(pens));
    AllocationExact(p, beta, PlannedWallets(p, |ws|), Sum(pens));
    var charged := AfterPenalties(p, ws, pens);
    ChargedSupply(p, ws, pens);
    var weights := Weights(m, p, charged);
    var shares := Shares(alloc.pool, weights, RealSum(weights));
    WeightsNonNegative(m, p, charged);
    SharesWithinPool(alloc.pool, weights);
    DistributedIsSum(shares);
    RewardedSupply(charged, shares);
    SettleWallet(p.residualPolicy, Settlement(AfterRewards(charged, shares), shares, alloc.burnedBase),
                 alloc.pool - Sum(shares), i);
    assert Balances(ws)[i] == ws[i].balance;
  }

  /** No saturating operation of the pipeline saturates: every difference is exact, every sum fits, and
  the product that gives the faucet need is exact whenever it fits. */
  lemma NothingSaturates(m: Libm, p: Parameters, ws: seq<Wallet>, beta: real)
    requires PowfNonNegative(m) && Supply(ws) <= U64_MAX
    ensures var r := Redistribute(m, p, ws, beta);
      var charged := AfterPenalties(p, ws, r.penalties);
      var weights := Weights(m, p, charged);
      var shares := Shares(r.alloc.pool, weights, RealSum(weights));
      && (forall i :: 0 <= i < |ws| ==> r.penalties[i] <= ws[i].balance)
      && (r.alloc.faucetNeeded == PlannedWallets(p, |ws|) * MicroSeed(p) <==>
          PlannedWallets(p, |ws|) * MicroSeed(p) <= U64_MAX)
      && r.alloc.faucetFromPenalty <= r.alloc.faucetNeeded
      && (forall i :: 0 <= i < |ws| ==> charged[i].balance + shares[i] <= U64_MAX)
      && Distributed(shares) == Sum(shares) <= r.alloc.pool <= U64_MAX
      && r.alloc.burnedBase + (r.alloc.pool - Sum(shares)) <= U64_MAX
      && (ws != [] ==> charged[0].balance + shares[0] + (r.alloc.pool - Sum(shares)) <= U64_MAX)
  {
    var pens := Penalties(m, p, Balances(ws));
    PenaltiesCovered(m, p, Balances(ws));
    var alloc := Allocate(p, beta, PlannedWallets(p, |ws|), Sum(pens));
    AllocationExact(p, beta, PlannedWallets(p, |ws|), Sum(pens));
    var charged := AfterPenalties(p, ws, pens);
    ChargedSupply(p, ws, pens);
    var weights := Weights(m, p, charged);
    var shares := Shares(alloc.pool, weights, RealSum(weights));
    WeightsNonNegative(m, p, charged);
    SharesWithinPool(alloc.pool, weights);
    DistributedIsSum(shares);
    forall i | 0 <= i < |ws| ensures charged[i].balance + shares[i] + (alloc.pool - Sum(shares)) <= U64_MAX {
      SumAtLeast(Balances(charged), i);
      SumAtLeast(shares, i);
      assert charged[i].balance == Balances(charged)[i];
    }
  }

  lemma FaucetSupply(iteration: nat, count: nat, seed: nat, tick: nat, operator: OperatorId)
    ensures Supply(FaucetWallets(iteration, count, seed, tick, operator)) == count * seed
  {
    assert Balances(FaucetWallets(iteration, count, seed, tick, operator)) == seq(count, i => seed);
    SumConstant(count, seed);
  }

  lemma SupplyConcat(v: seq<Wallet>, w: seq<Wallet>)
    ensures Supply(v + w) == Supply(v) + Supply(w)
  {
    assert Balances(v + w) == Balances(v) + Balances(w);
    SumConcat(Balances(v), Balances(w));
  }

  /** What the commit records, in terms of the stages. */
  lemma CommitFields(m: Libm, ws: seq<Wallet>, p: Parameters, sys: SystemState, operator: OperatorId)
    requires p.burnMin <= p.burnMax
    ensures var res := ExecuteIteration(m, ws, p, sys, operator); var c := res.commit;
      var r := Redistribute(m, p, ws, BurnRate(p, Inflation(sys)));
      var created := FaucetWallets(sys.iteration + 1, PlannedWallets(p, |ws|), MicroSeed(p), sys.tick, operator);
      && c.snapshotSupply == Supply(ws)
      && Amounts(c.penalties) == r.penalties && Amounts(c.rewards) == r.settled.rewards
      && Firsts(c.penalties) == Firsts(c.rewards) == Ids(ws)
      && c.burned == r.settled.burned
      && c.faucetFromPenalty == r.alloc.faucetFromPenalty && c.faucetFromMint == r.alloc.faucetFromMint
      && c.newWallets == Ids(created)
      && res.wallets == r.settled.wallets + created
      && c.postSupply == Supply(res.wallets)
      && r.alloc == Allocate(p, BurnRate(p, Inflation(sys)), PlannedWallets(p, |ws|), Sum(r.penalties))
      && |r.settled.wallets| == |r.settled.rewards| == |ws|
  {
    hide BurnRate, Inflation, Settle, PlannedWallets, MicroSeed, Supply, Penalties, Allocate, Shares, Weights,
      AfterPenalties, AfterRewards, CommitDigest, FaucetWallets;
    var beta := BurnRate(p, Inflation(sys));
    RedistributeShape(m, p, ws, beta);
    var r := Redistribute(m, p, ws, beta);
    assert Amounts(Pairs(Ids(ws), r.penalties)) == r.penalties;
    assert Amounts(Pairs(Ids(ws), r.settled.rewards)) == r.settled.rewards;
    assert Firsts(Pairs(Ids(ws), r.penalties)) == Ids(ws);
    assert Firsts(Pairs(Ids(ws), r.settled.rewards)) == Ids(ws);
  }

  /** The supply equation of section D.11: penalties are burned, given to the faucet or paid out to
  the last micro-unit, and the new supply is the old one less the burn plus the faucet mint, exactly when
  the money for the new wallets fits in 64 bits; a new supply that fits implies it. */
  lemma IterationConserves(m: Libm, ws: seq<Wallet>, p: Parameters, sys: SystemState, operator: OperatorId)
    requires p.burnMin <= p.burnMax && PowfNonNegative(m) && Supply(ws) <= U64_MAX
    ensures var r := ExecuteIteration(m, ws, p, sys, operator); var c := r.commit;
      var endowment := PlannedWallets(p, |ws|) * MicroSeed(p);
      && c.snapshotSupply == Supply(ws) && c.postSupply == Supply(r.wallets)
      && c.burned + c.faucetFromPenalty + Sum(Amounts(c.rewards)) == Sum(Amounts(c.penalties))
      && c.burned <= c.snapshotSupply
      && |c.newWallets| == PlannedWallets(p, |ws|)
      && (c.postSupply == c.snapshotSupply - c.burned + c.faucetFromMint <==> endowment <= U64_MAX)
      && (c.faucetFromPenalty + c.faucetFromMint == |c.newWallets| * MicroSeed(p) <==> endowment <= U64_MAX)
      && (c.postSupply <= U64_MAX ==> endowment <= U64_MAX)
      && (Supply(ws) + endowment <= U64_MAX ==> c.postSupply <= U64_MAX)
  {
    hide ExecuteIteration, Redistribute, BurnRate, Inflation, PlannedWallets, MicroSeed, Supply, FaucetWallets;
    CommitFields(m, ws, p, sys, operator);
    var beta := BurnRate(p, Inflation(sys));
    var r := Redistribute(m, p, ws, beta);
    RedistributionConserves(m, p, ws, beta);
    var planned := PlannedWallets(p, |ws|);
    AllocationExact(p, beta, planned, Sum(r.penalties));
    var created := FaucetWallets(sys.iteration + 1, planned, MicroSeed(p), sys.tick, operator);
    FaucetSupply(sys.iteration + 1, planned, MicroSeed(p), sys.tick, operator);
    SupplyConcat(r.settled.wallets, created);
    assert |Ids(created)| == planned by { FaucetCount(sys.iteration + 1, planned, MicroSeed(p), sys.tick, operator); }
  }

  lemma FaucetCount(iteration: nat, count: nat, seed: nat, tick: nat, operator: OperatorId)
    ensures |FaucetWallets(iteration, count, seed, tick, operator)| == count
  {
  }
}
