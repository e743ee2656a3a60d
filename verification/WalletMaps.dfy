/** The wallet tree as a finite map, and what a full scan of it reports. */
module WalletMaps {
  import opened Sums
  import opened Types
  import opened Economy

  type WalletMap = map<WalletId, Wallet>

  function BalanceOf(m: WalletMap): map<WalletId, nat> { map id | id in m :: m[id].balance }

  /** Sum of all stored balances. */
  ghost function TotalBalance(m: WalletMap): nat { MapSum(BalanceOf(m)) }

  /** The wallets that took part in a transaction of the given iteration. */
  ghost function ActiveIn(m: WalletMap, iteration: nat): set<WalletId>
  {
    set id | id in m && m[id].lastActive == iteration
  }

  /** Writing a list of wallets one after the other, each under its own id. */
  function PutAll(m: WalletMap, ws: seq<Wallet>): WalletMap
  {
    if ws == [] then m else PutAll(m, ws[..|ws| - 1])[ws[|ws| - 1].id := ws[|ws| - 1]]
  }

  ghost predicate Distinct<T>(s: seq<T>)
  {
    forall i, j :: 0 <= i < j < |s| ==> s[i] != s[j]
  }

  /** A scan of the tree: every stored wallet once, in an arbitrary order. */
  ghost predicate IsListing(ws: seq<Wallet>, m: WalletMap)
  {
    Distinct(Ids(ws)) && PutAll(map[], ws) == m
  }

  lemma PutBalance(m: WalletMap, w: Wallet)
    ensures TotalBalance(m[w.id := w]) ==
      TotalBalance(m) - (if w.id in m then m[w.id].balance else 0) + w.balance
  {
    assert BalanceOf(m[w.id := w]) == BalanceOf(m)[w.id := w.balance];
    MapSumUpdate(BalanceOf(m), w.id, w.balance);
  }

  lemma BalanceWithinTotal(m: WalletMap, id: WalletId)
    requires id in m
    ensures m[id].balance <= TotalBalance(m)
  {
    MapSumRemove(BalanceOf(m), id);
  }

  lemma {:induction false} TwoBalancesWithinTotal(m: WalletMap, a: WalletId, b: WalletId)
    requires a in m && b in m && a != b
    ensures m[a].balance + m[b].balance <= TotalBalance(m)
  {
    MapSumRemove(BalanceOf(m), a);
    MapSumRemove(BalanceOf(m) - {a}, b);
  }

  lemma {:induction false} PutAllConcat(m: WalletMap, v: seq<Wallet>, w: seq<Wallet>)
    ensures PutAll(m, v + w) == PutAll(PutAll(m, v), w)
  {
    if w == [] {
      assert v + w == v;
    } else {
      assert (v + w)[..|v + w| - 1] == v + w[..|w| - 1];
      PutAllConcat(m, v, w[..|w| - 1]);
    }
  }

  lemma {:induction false} PutAllKeys(m: WalletMap, ws: seq<Wallet>)
    ensures forall id :: id in PutAll(m, ws) <==> id in m || id in Ids(ws)
    ensures forall id :: id in m && id !in Ids(ws) ==> PutAll(m, ws)[id] == m[id]
  {
    if ws != [] {
      var n := |ws| - 1;
      PutAllKeys(m, ws[..n]);
      assert Ids(ws) == Ids(ws[..n]) + [ws[n].id];
    }
  }

  lemma {:induction false} PutAllAt(m: WalletMap, ws: seq<Wallet>, i: nat)
    requires Distinct(Ids(ws)) && i < |ws|
    ensures ws[i].id in PutAll(m, ws) && PutAll(m, ws)[ws[i].id] == ws[i]
  {
    var n := |ws| - 1;
    if i < n {
      assert Ids(ws)[i] == ws[i].id && Ids(ws)[n] == ws[n].id;
      assert Ids(ws[..n]) == Ids(ws)[..n];
      PutAllAt(m, ws[..n], i);
    }
  }

  /** Overwriting every stored wallet forgets what was stored. */
  lemma {:induction false} PutAllCovers(m: WalletMap, ws: seq<Wallet>)
    requires Distinct(Ids(ws)) && forall id :: id in m ==> id in Ids(ws)
    ensures PutAll(m, ws) == PutAll(map[], ws)
  {
    PutAllKeys(m, ws);
    PutAllKeys(map[], ws);
    var (a, b) := (PutAll(m, ws), PutAll(map[], ws));
    forall id | id in a ensures id in b && a[id] == b[id] {
      var i :| 0 <= i < |ws| && Ids(ws)[i] == id;
      PutAllAt(m, ws, i);
      PutAllAt(map[], ws, i);
    }
  }

  /** Adding wallets under new, pairwise distinct ids. */
  lemma {:induction false} PutAllNew(m: WalletMap, ws: seq<Wallet>)
    requires Distinct(Ids(ws)) && forall i :: 0 <= i < |ws| ==> ws[i].id !in m
    ensures TotalBalance(PutAll(m, ws)) == TotalBalance(m) + Supply(ws)
    ensures |PutAll(m, ws)| == |m| + |ws|
  {
    if ws != [] {
      var n := |ws| - 1;
      PrefixDistinct(ws);
      hide TotalBalance, Distinct;
      PutAllNew(m, ws[..n]);
      PutAllKeys(m, ws[..n]);
      PutBalance(PutAll(m, ws[..n]), ws[n]);
      assert Balances(ws)[..n] == Balances(ws[..n]);
    }
  }

  lemma PrefixDistinct(ws: seq<Wallet>)
    requires Distinct(Ids(ws)) && ws != []
    ensures Distinct(Ids(ws[..|ws| - 1])) && ws[|ws| - 1].id !in Ids(ws[..|ws| - 1])
  {
    var n := |ws| - 1;
    assert Ids(ws[..n]) == Ids(ws)[..n];
    assert Ids(ws)[n] == ws[n].id;
  }

  /** A listing has as many wallets and as much supply as the tree. */
  lemma ListingTotals(ws: seq<Wallet>, m: WalletMap)
    requires IsListing(ws, m)
    ensures Supply(ws) == TotalBalance(m) && |ws| == |m|
    ensures forall i :: 0 <= i < |ws| ==> ws[i].id in m && m[ws[i].id] == ws[i]
    ensures forall id :: id in m <==> id in Ids(ws)
  {
    PutAllNew(map[], ws);
    PutAllKeys(map[], ws);
    assert BalanceOf(map[]) == map[];
    forall i | 0 <= i < |ws| ensures ws[i].id in m && m[ws[i].id] == ws[i] {
      PutAllAt(map[], ws, i);
    }
  }

  lemma {:induction false} DistinctCount<T>(s: seq<T>)
    requires Distinct(s)
    ensures |set x | x in s| == |s|
  {
    if s != [] {
      var n := |s| - 1;
      DistinctCount(s[..n]);
      assert (set x | x in s) == (set x | x in s[..n]) + {s[n]};
      assert s[n] !in s[..n];
    }
  }
}
