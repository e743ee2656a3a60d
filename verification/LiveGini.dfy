/** The cached Gini value against a live recomputation over the stored wallets. */
module LiveGini {
  import opened Types
  import opened Economy
  import opened WalletMaps
  import opened Ledger
  import opened Counters
  import Gini

  /** Removing one wallet from a listing lists the tree without it. */
  lemma ListingWithout(ws: seq<Wallet>, k: nat, m: WalletMap)
    requires IsListing(ws, m) && k < |ws|
    ensures IsListing(ws[..k] + ws[k + 1..], m - {ws[k].id})
    ensures multiset(Balances(ws)) == multiset(Balances(ws[..k] + ws[k + 1..])) + multiset{ws[k].balance}
  {
    RestTree(ws, k, m);
    RestIsDistinct(ws, k);
    var (b, rest) := (Balances(ws), ws[..k] + ws[k + 1..]);
    hide IsListing;
    assert Balances(rest) == b[..k] + b[k + 1..];
    assert b == b[..k] + [b[k]] + b[k + 1..];
  }

  lemma RestTree(ws: seq<Wallet>, k: nat, m: WalletMap)
    requires IsListing(ws, m) && k < |ws|
    ensures PutAll(map[], ws[..k] + ws[k + 1..]) == m - {ws[k].id}
  {
    var (rest, id) := (ws[..k] + ws[k + 1..], ws[k].id);
    ListingTotals(ws, m);
    RestIsDistinct(ws, k);
    PutAllKeys(map[], rest);
    hide PutAll, Distinct, IsListing;
    var r := PutAll(map[], rest);
    forall x ensures x in r <==> x in m - {id} {
      RestMembers(ws, k, x) by { ListingDistinct(ws, m); }
    }
    forall x | x in r ensures r[x] == m[x] {
      RestLookup(ws, k, m, x);
    }
  }

  lemma RestLookup(ws: seq<Wallet>, k: nat, m: WalletMap, x: WalletId)
    requires IsListing(ws, m) && k < |ws| && x in Ids(ws[..k] + ws[k + 1..])
    ensures var r := PutAll(map[], ws[..k] + ws[k + 1..]); x in r && x in m && r[x] == m[x]
  {
    var rest := ws[..k] + ws[k + 1..];
    ListingTotals(ws, m);
    RestIsDistinct(ws, k);
    hide PutAll, Distinct, IsListing, TotalBalance, Supply;
    var i :| 0 <= i < |rest| && Ids(rest)[i] == x;
    PutAllAt(map[], rest, i);
    assert rest[i] == if i < k then ws[i] else ws[i + 1];
  }

  lemma ListingDistinct(ws: seq<Wallet>, m: WalletMap)
    requires IsListing(ws, m)
    ensures Distinct(Ids(ws))
  {
  }

  lemma RestIsDistinct(ws: seq<Wallet>, k: nat)
    requires Distinct(Ids(ws)) && k < |ws|
    ensures Distinct(Ids(ws[..k] + ws[k + 1..]))
  {
    var rest := ws[..k] + ws[k + 1..];
    forall i, j | 0 <= i < j < |rest| ensures Ids(rest)[i] != Ids(rest)[j] {
      var (a, b) := (if i < k then i else i + 1, if j < k then j else j + 1);
      assert Ids(ws)[a] != Ids(ws)[b];
    }
  }

  lemma RestMembers(ws: seq<Wallet>, k: nat, x: WalletId)
    requires Distinct(Ids(ws)) && k < |ws|
    ensures x in Ids(ws[..k] + ws[k + 1..]) <==> x in Ids(ws) && x != ws[k].id
  {
    var rest := ws[..k] + ws[k + 1..];
    if x in Ids(rest) {
      var i :| 0 <= i < |rest| && Ids(rest)[i] == x;
      var a := if i < k then i else i + 1;
      assert Ids(ws)[a] == x && Ids(ws)[k] == ws[k].id;
    }
    if x in Ids(ws) && x != ws[k].id {
      var a :| 0 <= a < |ws| && Ids(ws)[a] == x;
      assert Ids(rest)[if a < k then a else a - 1] == x;
    }
  }

  /** Two scans of the same tree see the same balances, in some order. */
  lemma {:induction false} ListingsPermute(v: seq<Wallet>, w: seq<Wallet>, m: WalletMap)
    requires IsListing(v, m) && IsListing(w, m)
    ensures multiset(Balances(v)) == multiset(Balances(w))
    decreases |v|
  {
    ListingTotals(v, m);
    ListingTotals(w, m);
    if v != [] {
      var n := |v| - 1;
      assert Ids(v)[n] == v[n].id;
      var k :| 0 <= k < |w| && Ids(w)[k] == v[n].id;
      hide IsListing, Balances, Supply, TotalBalance;
      ListingWithout(v, n, m);
      ListingWithout(w, k, m);
      ListingsPermute(v[..n] + v[n + 1..], w[..k] + w[k + 1..], m - {v[n].id});
    }
  }

  /** Right after an iteration, whatever order the scan comes in, the live Gini value over the stored
  wallets is the cached one. */
  lemma CachedGiniIsLive(env: Env, l: Ledger, op: Op, scan: seq<Wallet>)
    requires op.Iterate? && Enabled(l, op) && PowfNonNegative(env.libm) && Sound(l) && Fits(env, l, op)
    requires FreshIds(l, op) && IsListing(scan, Apply(env, l, op).disk.wallets)
    ensures Apply(env, l, op).sys.lastGini == Gini.Pairwise(Balances(scan))
  {
    var r := Result(env, l, op);
    ApplyParts(env, l, op);
    assert CountersAfter(env, l, op).lastGini == Gini.Pairwise(Balances(r.wallets));
    ResultIsListing(env, l, op);
    hide Apply, WalletsAfter, CountersAfter, Result, Sound, SoundAfter, IsListing, Enabled, Fits, Gini.Pairwise,
      Balances;
    ListingsPermute(r.wallets, scan, WalletsAfter(env, l, op));
    Gini.PairwisePermutation(Balances(r.wallets), Balances(scan));
  }

  lemma ResultIsListing(env: Env, l: Ledger, op: Op)
    requires op.Iterate? && Enabled(l, op) && PowfNonNegative(env.libm) && Sound(l)
    requires Fits(env, l, op) && FreshIds(l, op)
    ensures IsListing(Result(env, l, op).wallets, WalletsAfter(env, l, op))
  {
    hide Settled, Created, Result, CountersAfter, WalletsAfter, TotalBalance, ActiveIn, Fits, Enabled,
      PlannedWallets, MicroSeed, Sound, PutAll, Supply;
    var (settled, created) := (Settled(env, l, op), Created(env, l, op));
    ResultParts(env, l, op);
    CreatedFacts(env, l, op);
    SettledTree(env, l, op);
    CreatedCount(env, l, op);
    var t := PutAll(l.disk.wallets, settled);
    PutAllConcat(map[], settled, created);
    ListingTotals(settled, t);
    forall i | 0 <= i < |created| ensures created[i].id !in Ids(settled) {
      assert created[i].id == FaucetId(l.sys.iteration + 1, i);
    }
    DistinctConcat(settled, created);
  }

  lemma CreatedCount(env: Env, l: Ledger, op: Op)
    requires op.Iterate? && Enabled(l, op)
    ensures |Created(env, l, op)| == PlannedWallets(op.parameters, |op.listing|)
  {
  }

  lemma DistinctConcat(v: seq<Wallet>, w: seq<Wallet>)
    requires Distinct(Ids(v)) && Distinct(Ids(w)) && forall i :: 0 <= i < |w| ==> w[i].id !in Ids(v)
    ensures Distinct(Ids(v + w))
  {
    assert Ids(v + w) == Ids(v) + Ids(w);
    forall i, j | 0 <= i < j < |v + w| ensures Ids(v + w)[i] != Ids(v + w)[j] {
      if i < |v| <= j {
        assert Ids(v)[i] in Ids(v) && Ids(w)[j - |v|] == w[j - |v|].id;
      }
    }
  }
}
