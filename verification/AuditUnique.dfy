/** The audit leaves no choice: it determines the result of an iteration. */
module AuditUnique {
  import opened Arith
  import opened Sums
  import opened Types
  import opened Economy
  import opened Rounding
  import opened Audit
  import Gini

  lemma TopUnique(b: seq<nat>, x: nat, y: nat)
    requires IsTop(b, x) && IsTop(b, y)
    ensures x == y
  {
  }

  lemma CancelFactor(x: real, y: real, d: real)
    requires d != 0.0 && Times(x, d) == Times(y, d)
    ensures x == y
  {
    assert (x - y) * d == 0.0;
  }

  lemma HeaderDetermines(p: Parameters, ws: seq<Wallet>, sys: SystemState, c: IterationCommit, c': IterationCommit)
    requires HeaderChecked(p, ws, sys, c) && HeaderChecked(p, ws, sys, c')
    ensures c.iterationId == c'.iterationId && c.triggeredAtTick == c'.triggeredAtTick
    ensures c.snapshotSupply == c'.snapshotSupply && c.snapshotWallets == c'.snapshotWallets
    ensures c.snapshotGini == c'.snapshotGini && c.inflation == c'.inflation && c.burnRate == c'.burnRate
  {
    hide Times, Supply, Gini.Pairwise;
    if sys.previousStartSupply != 0 {
      CancelFactor(c.inflation, c'.inflation, sys.previousStartSupply as real);
    }
  }

  lemma PenaltyDetermined(m: Libm, p: Parameters, top: nat, balance: nat, x: nat, y: nat)
    requires ProgressivePenalty(m, p, top, balance, x) && ProgressivePenalty(m, p, top, balance, y)
    ensures x == y
  {
    hide LargestRatio, Times, SeedAmount, Scale;
    var seed := SeedAmount(p);
    if balance != 0 && seed != 0 && Scale(m, seed, top) > EPSILON {
      LargestRatioUnique(x, y, Times(Times(p.penaltyRate, balance as real), Scale(m, seed, balance)),
                         Scale(m, seed, top), balance);
    }
  }

  lemma PenaltiesDetermined(m: Libm, p: Parameters, b: seq<nat>, pens: seq<nat>, w: Workings, pens': seq<nat>,
                            w': Workings)
    requires PenaltiesChecked(m, p, b, pens, w) && PenaltiesChecked(m, p, b, pens', w')
    ensures pens == pens'
  {
    hide ProgressivePenalty, LargestRatio, Largest, Times, IsTop;
    TopUnique(b, w.top, w'.top);
    LargestUnique(w.target, w'.target, Times(p.targetPenaltyShare, Sum(b) as real), U64_MAX);
    forall i | 0 <= i < |b| ensures w.base[i] == w'.base[i] {
      PenaltyDetermined(m, p, w.top, b[i], w.base[i], w'.base[i]);
    }
    assert w.base == w'.base;
    var total := Sum(w.base);
    if total > 0 && w.target > 0 && 5 * AbsDiff(total, w.target) > w.target {
      forall i | 0 <= i < |b| ensures pens[i] == pens'[i] {
        LargestRatioUnique(pens[i], pens'[i], Times(w.base[i] as real, w.target as real), total as real, b[i]);
      }
    }
  }

  lemma PoolDetermined(p: Parameters, c: IterationCommit, w: Workings, c': IterationCommit, w': Workings, pool: nat)
    requires PoolChecked(p, c, pool, w) && PoolChecked(p, c', pool, w')
    requires |c.newWallets| == |c'.newWallets| && c.burnRate == c'.burnRate
    ensures c.faucetFromPenalty == c'.faucetFromPenalty && c.faucetFromMint == c'.faucetFromMint && w.burn == w'.burn
  {
    hide Largest, Times, SeedAmount;
    var need := Min(|c.newWallets| * SeedAmount(p), U64_MAX);
    LargestUnique(c.faucetFromPenalty, c'.faucetFromPenalty, Times(p.faucetShare, pool as real), Min(need, pool));
    WithinCap(c.faucetFromPenalty, Times(p.faucetShare, pool as real), Min(need, pool));
    LargestUnique(w.burn, w'.burn, Times(c.burnRate, pool as real), pool - c.faucetFromPenalty);
  }

  lemma WithinCap(x: nat, bound: real, cap: nat)
    requires Largest(x, bound, cap)
    ensures x <= cap
  {
  }

  lemma SharesDetermined(pool: nat, weights: seq<real>, a: seq<nat>, b: seq<nat>)
    requires SharesChecked(pool, weights, a) && SharesChecked(pool, weights, b)
    ensures a == b
  {
    hide LargestRatio, Times;
    var total := RealSum(weights);
    forall i | 0 <= i < |a| ensures a[i] == b[i] {
      if total > 0.0 {
        LargestRatioUnique(a[i], b[i], Times(pool as real, weights[i]), total, pool);
      }
    }
  }

  lemma {:induction false} PairsDetermined(s: seq<(WalletId, nat)>, t: seq<(WalletId, nat)>)
    requires Firsts(s) == Firsts(t) && Amounts(s) == Amounts(t)
    ensures s == t
  {
    assert |s| == |Firsts(s)| == |t|;
    forall i | 0 <= i < |s| ensures s[i] == t[i] {
      assert Firsts(s)[i] == Firsts(t)[i] && Amounts(s)[i] == Amounts(t)[i];
    }
  }

  lemma WalletsDetermined(p: Parameters, ws: seq<Wallet>, sys: SystemState, operator: OperatorId,
                          c: IterationCommit, after: seq<Wallet>, c': IterationCommit, after': seq<Wallet>)
    requires WalletsChecked(p, ws, sys, operator, c, after) && WalletsChecked(p, ws, sys, operator, c', after')
    requires |c.penalties| == |c.rewards| == |c'.penalties| == |c'.rewards| == |ws|
    ensures c.newWallets == c'.newWallets
    ensures forall i :: 0 <= i < |ws| ==> after[i].activity == after'[i].activity
    ensures c.penalties == c'.penalties && c.rewards == c'.rewards ==> after == after'
  {
    hide Largest, Times;
    LargestUnique(|c.newWallets|, |c'.newWallets|, Times(p.growthFactor, |ws| as real), Min(p.maxNewWallets, U64_MAX));
    forall i | 0 <= i < |ws| ensures after[i].activity == after'[i].activity {
      assert SettledChecked(p, ws[i], c.penalties[i].1, c.rewards[i].1, after[i]);
      assert SettledChecked(p, ws[i], c'.penalties[i].1, c'.rewards[i].1, after'[i]);
    }
    forall j | 0 <= j < |c.newWallets| ensures c.newWallets[j] == c'.newWallets[j] {
      assert after[|ws| + j] == EndowedWallet(p, sys, operator, j) == after'[|ws| + j];
    }
    if c.penalties == c'.penalties && c.rewards == c'.rewards {
      forall i | 0 <= i < |after| ensures after[i] == after'[i] {
        if i < |ws| {
          assert SettledChecked(p, ws[i], c.penalties[i].1, c.rewards[i].1, after[i]);
          assert SettledChecked(p, ws[i], c'.penalties[i].1, c'.rewards[i].1, after'[i]);
        } else {
          assert after[|ws| + (i - |ws|)] == EndowedWallet(p, sys, operator, i - |ws|) == after'[|ws| + (i - |ws|)];
        }
      }
    }
  }

  /** Two results that pass the audit of the same iteration are the same, but for the id of the commit: the
  audit says everything there is to say about an iteration. */
  lemma AuditDetermines(m: Libm, p: Parameters, ws: seq<Wallet>, sys: SystemState, operator: OperatorId,
                        r: IterationResult, w: Workings, r': IterationResult, w': Workings)
    requires AuditPasses(m, p, ws, sys, operator, r, w) && AuditPasses(m, p, ws, sys, operator, r', w')
    ensures r.wallets == r'.wallets && r.commit == r'.commit.(txId := r.commit.txId)
  {
    hide HeaderChecked, PenaltiesChecked, PoolChecked, SharesChecked, FairWeight;
    var (c, c') := (r.commit, r'.commit);
    var (pens, pens') := (Amounts(c.penalties), Amounts(c'.penalties));
    HeaderDetermines(p, ws, sys, c, c');
    PenaltiesDetermined(m, p, Balances(ws), pens, w, pens', w');
    WalletsDetermined(p, ws, sys, operator, c, r.wallets, c', r'.wallets);
    PoolDetermined(p, c, w, c', w', Sum(pens));
    hide Supply, SettledChecked, Largest;
    var pool := Sum(pens) - c.faucetFromPenalty - w.burn;
    var weights := FairWeights(m, p, ws, pens, r.wallets);
    assert weights == FairWeights(m, p, ws, pens', r'.wallets);
    SharesDetermined(pool, weights, w.shares, w'.shares);
    PairsDetermined(c.penalties, c'.penalties);
    PairsDetermined(c.rewards, c'.rewards);
    assert r.wallets == r'.wallets;
  }
}
