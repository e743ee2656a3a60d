/** Merkle root over the transaction ids of one tick, with the last node of an odd layer doubled. */
module Merkle {
  import opened Types

  /** An id as `decode_bytes` reads it; `None` when it is neither hex nor base64. */
  type Decoded = Option<seq<Symbol>>

  function LeafHash(data: seq<Symbol>): Digest { ByteHash([Byte(0)] + data) }

  function NodeHash(left: Digest, right: Digest): Digest { ByteHash([Byte(1), Raw(left), Raw(right)]) }

  function Leaves(ids: seq<Decoded>): seq<Digest>
    requires forall i :: 0 <= i < |ids| ==> ids[i].Some?
  {
    seq(|ids|, i requires 0 <= i < |ids| => LeafHash(ids[i].value))
  }

  // ---------- Reference: the recursive duplicate-last tree ----------

  /** Number of nodes at a level of the tree over `n` leaves. */
  function Width(n: nat, level: nat): nat
  {
    if level == 0 then n else (Width(n, level - 1) + 1) / 2
  }

  function Height(n: nat): nat
  {
    if n <= 1 then 0 else 1 + Height((n + 1) / 2)
  }

  function TreeNode(leaves: seq<Digest>, level: nat, i: nat): Digest
    requires i < Width(|leaves|, level)
  {
    if level == 0 then leaves[i]
    else
      var w := Width(|leaves|, level - 1);
      NodeHash(TreeNode(leaves, level - 1, 2 * i),
               TreeNode(leaves, level - 1, if 2 * i + 1 < w then 2 * i + 1 else 2 * i))
  }

  lemma {:induction false} WidthShift(n: nat, level: nat)
    ensures Width(n, level + 1) == Width((n + 1) / 2, level)
  {
    if level != 0 {
      WidthShift(n, level - 1);
    }
  }

  /** The tree narrows to one node, and not before its height. */
  lemma {:induction false} TopWidth(n: nat)
    requires n > 0
    ensures Width(n, Height(n)) == 1
    ensures forall k :: 0 <= k < Height(n) ==> Width(n, k) > 1
    decreases n
  {
    if n > 1 {
      TopWidth((n + 1) / 2);
      WidthShift(n, Height((n + 1) / 2));
      forall k | 0 <= k < Height(n) ensures Width(n, k) > 1 {
        if k > 0 { WidthShift(n, k - 1); }
      }
    }
  }

  function Root(leaves: seq<Digest>): Digest
    requires leaves != []
  {
    TopWidth(|leaves|);
    TreeNode(leaves, Height(|leaves|), 0)
  }

  function MerkleRoot(ids: seq<Decoded>): Option<Digest>
  {
    if ids == [] then Some(ZeroHash)
    else if forall i :: 0 <= i < |ids| ==> ids[i].Some? then Some(Root(Leaves(ids)))
    else None
  }

  function Layer(leaves: seq<Digest>, level: nat): seq<Digest>
  {
    seq(Width(|leaves|, level), i requires 0 <= i < Width(|leaves|, level) => TreeNode(leaves, level, i))
  }

  // ---------- The layer loop ----------

  method HashLeaves(ids: seq<Decoded>) returns (r: Option<seq<Digest>>)
    ensures r == if forall i :: 0 <= i < |ids| ==> ids[i].Some? then Some(Leaves(ids)) else None
  {
    var layer: seq<Digest> := [];
    for i := 0 to |ids|
      invariant |layer| == i
      invariant forall k :: 0 <= k < i ==> ids[k].Some? && layer[k] == LeafHash(ids[k].value)
    {
      match ids[i]
      case None => return None;
      case Some(data) => layer := layer + [LeafHash(data)];
    }
    assert layer == Leaves(ids);
    return Some(layer);
  }

  method PairUp(layer: seq<Digest>, ghost leaves: seq<Digest>, ghost level: nat) returns (next: seq<Digest>)
    requires layer == Layer(leaves, level)
    ensures next == Layer(leaves, level + 1)
  {
    next := [];
    var i := 0;
    while i < |layer|
      invariant i == 2 * |next| || (i == |layer| && i + 1 == 2 * |next|)
      invariant i <= |layer|
      invariant |next| <= Width(|leaves|, level + 1)
      invariant forall k :: 0 <= k < |next| ==> next[k] == TreeNode(leaves, level + 1, k)
    {
      var left := layer[i];
      if i + 1 < |layer| {
        next := next + [NodeHash(left, layer[i + 1])];
        i := i + 2;
      } else {
        next := next + [NodeHash(left, left)];
        i := i + 1;
      }
    }
    assert next == Layer(leaves, level + 1);
  }

  /** `merkle_root_hex`: the loop that halves the layer until one node is left. It terminates and
  computes the recursive tree; an undecodable id is an error. */
  method MerkleRootHex(ids: seq<Decoded>) returns (r: Option<Digest>)
    ensures r == MerkleRoot(ids)
  {
    if ids == [] {
      return Some(ZeroHash);
    }
    var hashed := HashLeaves(ids);
    match hashed
    case None => return None;
    case Some(leaves) =>
      var layer := leaves;
      ghost var level := 0;
      TopWidth(|leaves|);
      assert layer == Layer(leaves, 0);
      while |layer| > 1
        invariant level <= Height(|leaves|)
        invariant layer == Layer(leaves, level)
        invariant |layer| > 0
        decreases |layer|
      {
        layer := PairUp(layer, leaves, level);
        level := level + 1;
      }
      return Some(layer[0]);
  }

  // ---------- Commitment ----------

  /** A layer determines the layer below it. */
  lemma LayerDetermines(a: seq<Digest>, b: seq<Digest>, level: nat)
    requires |a| == |b| && Layer(a, level + 1) == Layer(b, level + 1)
    ensures Layer(a, level) == Layer(b, level)
  {
    var w := Width(|a|, level);
    forall i | 0 <= i < w ensures Layer(a, level)[i] == Layer(b, level)[i] {
      var j := i / 2;
      assert Layer(a, level + 1)[j] == Layer(b, level + 1)[j];
      assert TreeNode(a, level + 1, j) == TreeNode(b, level + 1, j);
      NodeInjective(TreeNode(a, level, 2 * j), TreeNode(a, level, if 2 * j + 1 < w then 2 * j + 1 else 2 * j),
                    TreeNode(b, level, 2 * j), TreeNode(b, level, if 2 * j + 1 < w then 2 * j + 1 else 2 * j));
    }
  }

  lemma NodeInjective(a: Digest, b: Digest, c: Digest, d: Digest)
    requires NodeHash(a, b) == NodeHash(c, d)
    ensures a == c && b == d
  {
    assert [Byte(1), Raw(a), Raw(b)] == [Byte(1), Raw(c), Raw(d)];
    assert [Byte(1), Raw(a), Raw(b)][1] == Raw(a) && [Byte(1), Raw(a), Raw(b)][2] == Raw(b);
    assert [Byte(1), Raw(c), Raw(d)][1] == Raw(c) && [Byte(1), Raw(c), Raw(d)][2] == Raw(d);
  }

  lemma {:induction false} LayersDetermine(a: seq<Digest>, b: seq<Digest>, level: nat)
    requires |a| == |b| && Layer(a, level) == Layer(b, level)
    ensures a == b
    decreases level
  {
    if level == 0 {
      assert a == Layer(a, 0) && b == Layer(b, 0);
    } else {
      LayerDetermines(a, b, level - 1);
      LayersDetermine(a, b, level - 1);
    }
  }

  lemma LeafInjective(a: seq<Symbol>, b: seq<Symbol>)
    requires LeafHash(a) == LeafHash(b)
    ensures a == b
  {
    assert a == ([Byte(0)] + a)[1..];
    assert b == ([Byte(0)] + b)[1..];
  }

  /** Equal-length lists with equal roots hold the same decoded ids in the same order. */
  lemma RootCommits(a: seq<Decoded>, b: seq<Decoded>)
    requires |a| == |b| && MerkleRoot(a).Some? && MerkleRoot(a) == MerkleRoot(b)
    ensures a == b
  {
    if a != [] {
      var (x, y) := (Leaves(a), Leaves(b));
      TopWidth(|x|);
      assert Layer(x, Height(|x|)) == Layer(y, Height(|y|));
      LayersDetermine(x, y, Height(|x|));
      forall i | 0 <= i < |a| ensures a[i] == b[i] {
        assert x[i] == y[i];
        LeafInjective(a[i].value, b[i].value);
      }
    }
  }

  lemma {:induction false} SameTree(a: seq<Digest>, b: seq<Digest>, level: nat, i: nat)
    requires level > 0 && |b| == |a| + 1 && |a| % 2 == 1 && b == a + [a[|a| - 1]]
    requires i < Width(|a|, level)
    ensures Width(|b|, level) == Width(|a|, level)
    ensures TreeNode(a, level, i) == TreeNode(b, level, i)
    decreases level
  {
    SameWidth(|a|, level);
    if level > 1 {
      SameWidth(|a|, level - 1);
      var w := Width(|a|, level - 1);
      SameTree(a, b, level - 1, 2 * i);
      SameTree(a, b, level - 1, if 2 * i + 1 < w then 2 * i + 1 else 2 * i);
    }
  }

  lemma {:induction false} SameWidth(n: nat, level: nat)
    requires level > 0 && n % 2 == 1
    ensures Width(n + 1, level) == Width(n, level)
  {
    if level > 1 {
      SameWidth(n, level - 1);
    }
  }

  /** The limit of the commitment: repeating the last id of an odd-length list of three or more leaves
  the root unchanged, so the root alone does not fix the number of ids. */
  lemma RepeatedLastId(ids: seq<Decoded>)
    requires |ids| % 2 == 1 && |ids| >= 3
    ensures MerkleRoot(ids + [ids[|ids| - 1]]) == MerkleRoot(ids)
  {
    var more := ids + [ids[|ids| - 1]];
    if forall i :: 0 <= i < |ids| ==> ids[i].Some? {
      RepeatedLastLeaf(Leaves(ids), Leaves(more));
    } else {
      var i :| 0 <= i < |ids| && !ids[i].Some?;
      assert !more[i].Some?;
    }
  }

  lemma RepeatedLastLeaf(a: seq<Digest>, b: seq<Digest>)
    requires |a| % 2 == 1 && |a| >= 3 && b == a + [a[|a| - 1]]
    ensures Root(a) == Root(b)
  {
    assert Height(|a|) == Height(|b|) > 0;
    TopWidth(|a|);
    SameTree(a, b, Height(|a|), 0);
  }

  // ---------- Exactly when roots collide ----------

  /** The leaves below a node, each repeated as often as the doubling of odd layers repeats it. */
  function Expand<T>(s: seq<T>, level: nat, i: nat): (r: seq<T>)
    requires i < Width(|s|, level)
    ensures forall x :: x in r ==> x in s
  {
    if level == 0 then [s[i]]
    else
      var w := Width(|s|, level - 1);
      Expand(s, level - 1, 2 * i) + Expand(s, level - 1, if 2 * i + 1 < w then 2 * i + 1 else 2 * i)
  }

  /** The list filled up to a full bottom layer by doubling the end of every odd layer. */
  function Filled<T>(s: seq<T>): seq<T>
  {
    if s == [] then [] else TopWidth(|s|); Expand(s, Height(|s|), 0)
  }

  ghost predicate AllDecoded(ids: seq<Decoded>) { forall id :: id in ids ==> id.Some? }

  function Pow2(h: nat): (r: nat)
    ensures r > 0
  {
    if h == 0 then 1 else 2 * Pow2(h - 1)
  }

  lemma {:induction false} ExpandSize<T>(s: seq<T>, level: nat, i: nat)
    requires i < Width(|s|, level)
    ensures |Expand(s, level, i)| == Pow2(level)
    decreases level
  {
    if level != 0 {
      var w := Width(|s|, level - 1);
      ExpandSize(s, level - 1, 2 * i);
      ExpandSize(s, level - 1, if 2 * i + 1 < w then 2 * i + 1 else 2 * i);
    }
  }

  /** Root of the full tree over a bottom layer of 2^h ids. */
  ghost function FullRoot(ids: seq<Decoded>, h: nat): Digest
    requires |ids| == Pow2(h) && AllDecoded(ids)
  {
    if h == 0 then LeafHash(ids[0].value)
    else
      var half := Pow2(h - 1);
      NodeHash(FullRoot(ids[..half], h - 1), FullRoot(ids[half..], h - 1))
  }

  lemma {:induction false} NodeIsFullRoot(ids: seq<Decoded>, level: nat, i: nat)
    requires AllDecoded(ids) && i < Width(|ids|, level)
    ensures |Expand(ids, level, i)| == Pow2(level)
    ensures TreeNode(Leaves(ids), level, i) == FullRoot(Expand(ids, level, i), level)
    decreases level
  {
    ExpandSize(ids, level, i);
    if level != 0 {
      var (w, half) := (Width(|ids|, level - 1), Pow2(level - 1));
      var j := if 2 * i + 1 < w then 2 * i + 1 else 2 * i;
      NodeIsFullRoot(ids, level - 1, 2 * i);
      NodeIsFullRoot(ids, level - 1, j);
      var e := Expand(ids, level, i);
      assert e[..half] == Expand(ids, level - 1, 2 * i) && e[half..] == Expand(ids, level - 1, j);
    }
  }

  lemma LeafIsNoNode(data: seq<Symbol>, left: Digest, right: Digest)
    ensures LeafHash(data) != NodeHash(left, right)
  {
    assert ([Byte(0)] + data)[0] == Byte(0) && [Byte(1), Raw(left), Raw(right)][0] == Byte(1);
  }

  lemma {:induction false} FullRootInjective(a: seq<Decoded>, h: nat, b: seq<Decoded>, k: nat)
    requires |a| == Pow2(h) && |b| == Pow2(k) && AllDecoded(a) && AllDecoded(b) && FullRoot(a, h) == FullRoot(b, k)
    ensures a == b
    decreases h
  {
    if h == 0 && k == 0 {
      LeafInjective(a[0].value, b[0].value);
    } else if h == 0 {
      LeafIsNoNode(a[0].value, FullRoot(b[..Pow2(k - 1)], k - 1), FullRoot(b[Pow2(k - 1)..], k - 1));
    } else if k == 0 {
      LeafIsNoNode(b[0].value, FullRoot(a[..Pow2(h - 1)], h - 1), FullRoot(a[Pow2(h - 1)..], h - 1));
    } else {
      var (m, n) := (Pow2(h - 1), Pow2(k - 1));
      NodeInjective(FullRoot(a[..m], h - 1), FullRoot(a[m..], h - 1), FullRoot(b[..n], k - 1), FullRoot(b[n..], k - 1));
      FullRootInjective(a[..m], h - 1, b[..n], k - 1);
      FullRootInjective(a[m..], h - 1, b[n..], k - 1);
      assert a == a[..m] + a[m..] && b == b[..n] + b[n..];
    }
  }

  lemma {:induction false} Pow2Injective(h: nat, k: nat)
    requires Pow2(h) == Pow2(k)
    ensures h == k
  {
    if h != 0 && k != 0 {
      Pow2Injective(h - 1, k - 1);
    }
  }

  lemma RootOfFilled(ids: seq<Decoded>)
    requires AllDecoded(ids) && ids != []
    ensures |Filled(ids)| == Pow2(Height(|ids|)) && AllDecoded(Filled(ids))
    ensures MerkleRoot(ids) == Some(FullRoot(Filled(ids), Height(|ids|)))
  {
    TopWidth(|ids|);
    NodeIsFullRoot(ids, Height(|ids|), 0);
  }

  /** Two lists have the same root exactly when they fill up to the same bottom layer. */
  lemma RootsEqualExactly(a: seq<Decoded>, b: seq<Decoded>)
    requires AllDecoded(a) && AllDecoded(b)
    ensures MerkleRoot(a) == MerkleRoot(b) <==> Filled(a) == Filled(b)
  {
    hide FullRoot, Filled;
    if a != [] && b != [] {
      RootOfFilled(a);
      RootOfFilled(b);
      if Filled(a) == Filled(b) {
        Pow2Injective(Height(|a|), Height(|b|));
      }
      if MerkleRoot(a) == MerkleRoot(b) {
        FullRootInjective(Filled(a), Height(|a|), Filled(b), Height(|b|));
      }
    } else {
      EmptyRoot(a, b);
    }
  }

  lemma EmptyRoot(a: seq<Decoded>, b: seq<Decoded>)
    requires AllDecoded(a) && AllDecoded(b) && (a == [] || b == [])
    ensures MerkleRoot(a) == MerkleRoot(b) <==> a == b
    ensures Filled(a) == Filled(b) <==> a == b
  {
    hide FullRoot;
    if a != [] {
      RootOfFilled(a);
      FullRootIsHash(Filled(a), Height(|a|));
    }
    if b != [] {
      RootOfFilled(b);
      FullRootIsHash(Filled(b), Height(|b|));
    }
  }

  lemma FullRootIsHash(ids: seq<Decoded>, h: nat)
    requires |ids| == Pow2(h) && AllDecoded(ids)
    ensures FullRoot(ids, h) != ZeroHash
  {
  }

  /** Lists of six and of eight ids that share a root: the doubling happens one layer up. */
  lemma SixAndEight(s: seq<Decoded>)
    requires |s| == 6
    ensures MerkleRoot(s) == MerkleRoot(s + s[4..])
  {
    var t := s + s[4..];
    if AllDecoded(s) {
      assert Height(3) == 2 && Height(6) == 3 && Height(4) == 2 && Height(8) == 3;
      assert Width(6, 1) == 3 && Width(6, 2) == 2 && Width(8, 1) == 4 && Width(8, 2) == 2;
      forall i | 0 <= i < 3 ensures Expand(s, 1, i) == [s[2 * i], s[2 * i + 1]] == Expand(t, 1, i) {
      }
      assert Expand(t, 1, 3) == [t[6], t[7]] == [s[4], s[5]];
      assert Expand(s, 2, 0) == Expand(t, 2, 0) && Expand(s, 2, 1) == Expand(t, 2, 1);
      assert Filled(s) == Filled(t);
      RootsEqualExactly(s, t);
    } else {
      var i :| 0 <= i < 6 && s[i].None?;
      assert t[i].None?;
    }
  }

  /** A single id is the exception: its root is its leaf, and two copies give an inner node. */
  lemma SingleIdIsCommitted(id: seq<Symbol>)
    ensures MerkleRoot([Some(id)]) == Some(LeafHash(id))
    ensures MerkleRoot([Some(id), Some(id)]) != MerkleRoot([Some(id)])
  {
    var (a, b) := (Leaves([Some(id)]), Leaves([Some(id), Some(id)]));
    assert Height(2) == 1 && Height(1) == 0 && Width(2, 0) == 2;
    assert |b| == 2;
    assert Root(b) == TreeNode(b, 1, 0) == NodeHash(TreeNode(b, 0, 0), TreeNode(b, 0, 1));
    assert ([Byte(0)] + id)[0] == Byte(0);
    assert [Byte(1), Raw(b[0]), Raw(b[1])][0] == Byte(1);
  }
}
