/** Proof-of-History entries and the hash chain over them. */
module Poh {
  import opened Arith
  import opened Encoding
  import opened Types
  import opened Merkle

  function TickBytes(tick: nat): (r: seq<Symbol>)
    ensures |r| == 8
  {
    seq(8, i requires 0 <= i < 8 => Byte(LittleEndian(256, 8, tick)[i]))
  }

  /** The hashed buffer: previous hash, tick, root, leader, without separators. */
  function Preimage(prev: Digest, tick: nat, root: Digest, leader: seq<Symbol>): seq<Symbol>
  {
    [Hex(prev)] + TickBytes(tick) + [Hex(root)] + leader
  }

  function PohHash(prev: Digest, tick: nat, root: Digest, leader: seq<Symbol>): Digest
  {
    ByteHash(Preimage(prev, tick, root, leader))
  }

  function DecodedIds(ids: seq<Digest>): seq<Decoded>
  {
    seq(|ids|, i requires 0 <= i < |ids| => Some([Raw(ids[i])]))
  }

  function TxRoot(ids: seq<Digest>): Digest
  {
    MerkleRoot(DecodedIds(ids)).value
  }

  function BuildEntry(tick: nat, prev: Digest, ids: seq<Digest>, leader: seq<Symbol>): PohEntry
  {
    var root := TxRoot(ids);
    PohEntry(tick, prev, PohHash(prev, tick, root, leader), root, ids, leader)
  }

  lemma EntryTick(tick: nat, prev: Digest, ids: seq<Digest>, leader: seq<Symbol>)
    ensures BuildEntry(tick, prev, ids, leader).tick == tick
  {
  }

  predicate VerifyChain(prev: Digest, e: PohEntry)
  {
    && e.prevHash == prev
    && TxRoot(e.txIds) == e.txRoot
    && PohHash(e.prevHash, e.tick, e.txRoot, e.leader) == e.hash
  }

  /** An entry that was built on a hash is accepted on that hash and on no other. */
  lemma BuiltEntryVerifies(tick: nat, prev: Digest, ids: seq<Digest>, leader: seq<Symbol>, other: Digest)
    ensures VerifyChain(other, BuildEntry(tick, prev, ids, leader)) <==> other == prev
  {
  }

  lemma TickBytesInjective(m: nat, n: nat)
    requires m <= U64_MAX && n <= U64_MAX && TickBytes(m) == TickBytes(n)
    ensures m == n
  {
    var (a, b) := (LittleEndian(256, 8, m), LittleEndian(256, 8, n));
    forall i | 0 <= i < 8 ensures a[i] == b[i] {
      assert TickBytes(m)[i] == Byte(a[i]) && TickBytes(n)[i] == Byte(b[i]);
    }
    assert a == b;
    Widths();
    LittleEndianInjective(256, 8, m, n);
  }

  /** Although the buffer has no separators, all four fields can be read back from it. */
  lemma PreimageInjective(p: Digest, m: nat, r: Digest, l: seq<Symbol>,
                          q: Digest, n: nat, s: Digest, k: seq<Symbol>)
    requires m <= U64_MAX && n <= U64_MAX
    requires PohHash(p, m, r, l) == PohHash(q, n, s, k)
    ensures p == q && m == n && r == s && l == k
  {
    var (a, b) := (Preimage(p, m, r, l), Preimage(q, n, s, k));
    assert a == b;
    assert a[0] == Hex(p) && b[0] == Hex(q);
    assert a[1..9] == TickBytes(m) && b[1..9] == TickBytes(n);
    TickBytesInjective(m, n);
    assert a[9] == Hex(r) && b[9] == Hex(s);
    assert a[10..] == l && b[10..] == k;
  }

  // ---------- Chains ----------

  function HashBefore(log: seq<PohEntry>, i: nat): Digest
    requires i <= |log|
  {
    if i == 0 then ZeroHash else log[i - 1].hash
  }

  function LastHash(log: seq<PohEntry>): Digest { HashBefore(log, |log|) }

  /** Entries for ticks 1, 2, ... each accepted on the hash of the one before, starting at zero. */
  ghost predicate Chain(log: seq<PohEntry>)
  {
    forall i :: 0 <= i < |log| ==> log[i].tick == i + 1 && VerifyChain(HashBefore(log, i), log[i])
  }

  /** The transaction ids of an entry, filled up to the full bottom layer of their Merkle tree. */
  function FilledIds(e: PohEntry): seq<Decoded> { Filled(DecodedIds(e.txIds)) }

  /** What a chain says about the transactions: leaders, and ids up to the filling of the Merkle tree. */
  ghost predicate SameHistory(a: seq<PohEntry>, b: seq<PohEntry>)
  {
    && |a| == |b|
    && forall i :: 0 <= i < |a| ==> a[i].leader == b[i].leader && FilledIds(a[i]) == FilledIds(b[i])
  }

  lemma {:induction false} ChainLengthFixed(a: seq<PohEntry>, b: seq<PohEntry>)
    requires Chain(a) && Chain(b) && |a| <= U64_MAX && |b| <= U64_MAX && LastHash(a) == LastHash(b)
    ensures |a| == |b|
  {
    if a != [] && b != [] {
      var (x, y) := (a[|a| - 1], b[|b| - 1]);
      PreimageInjective(x.prevHash, x.tick, x.txRoot, x.leader, y.prevHash, y.tick, y.txRoot, y.leader);
    }
  }

  /** Roots of transaction ids are equal exactly when the filled ids are. */
  lemma SameRoot(a: seq<Digest>, b: seq<Digest>)
    ensures TxRoot(a) == TxRoot(b) <==> Filled(DecodedIds(a)) == Filled(DecodedIds(b))
  {
    RootsEqualExactly(DecodedIds(a), DecodedIds(b));
  }

  /** Equally many ids with the same filling are the same ids. */
  lemma IdsFixed(a: seq<Digest>, b: seq<Digest>)
    requires |a| == |b| && Filled(DecodedIds(a)) == Filled(DecodedIds(b))
    ensures a == b
  {
    SameRoot(a, b);
    RootCommits(DecodedIds(a), DecodedIds(b));
    forall i | 0 <= i < |a| ensures a[i] == b[i] {
      assert DecodedIds(a)[i] == DecodedIds(b)[i];
      assert [Raw(a[i])][0] == [Raw(b[i])][0];
    }
  }

  /** The last hash commits to the whole history, and to nothing else: two chains end in the same hash
  exactly when they have the same length, the same leader at every tick and, up to the filling of the
  Merkle tree, the same transaction ids; wherever they record equally many ids, those are the same. */
  lemma {:induction false} LastHashCommits(a: seq<PohEntry>, b: seq<PohEntry>)
    requires Chain(a) && Chain(b) && |a| <= U64_MAX && |b| <= U64_MAX
    ensures LastHash(a) == LastHash(b) <==> SameHistory(a, b)
    ensures LastHash(a) == LastHash(b) ==>
      forall i :: 0 <= i < |a| && |a[i].txIds| == |b[i].txIds| ==> a[i].txIds == b[i].txIds
    decreases |a|
  {
    hide Chain, LastHash, FilledIds;
    if LastHash(a) == LastHash(b) {
      ChainLengthFixed(a, b);
    }
    if |a| == |b| && a != [] {
      var n := |a| - 1;
      LastEntries(a, b);
      LastHashCommits(a[..n], b[..n]);
      SameHistorySnoc(a, b);
    }
    if LastHash(a) == LastHash(b) {
      forall i | 0 <= i < |a| && |a[i].txIds| == |b[i].txIds| ensures a[i].txIds == b[i].txIds {
        SameIds(a, b, i);
      }
    }
  }

  lemma SameIds(a: seq<PohEntry>, b: seq<PohEntry>, i: nat)
    requires SameHistory(a, b) && i < |a| && |a[i].txIds| == |b[i].txIds|
    ensures a[i].txIds == b[i].txIds
  {
    hide Filled;
    IdsFixed(a[i].txIds, b[i].txIds);
  }

  lemma SameHistorySnoc(a: seq<PohEntry>, b: seq<PohEntry>)
    requires |a| == |b| && a != []
    ensures var n := |a| - 1;
      SameHistory(a, b) <==>
        SameHistory(a[..n], b[..n]) && a[n].leader == b[n].leader && FilledIds(a[n]) == FilledIds(b[n])
  {
    hide FilledIds;
    var n := |a| - 1;
    if SameHistory(a[..n], b[..n]) {
      forall i | 0 <= i < n ensures a[i].leader == b[i].leader && FilledIds(a[i]) == FilledIds(b[i]) {
        assert a[i] == a[..n][i] && b[i] == b[..n][i];
      }
    }
  }

  /** The last hash of a chain fixes the hash before it and the content of the last entry. */
  lemma LastEntries(a: seq<PohEntry>, b: seq<PohEntry>)
    requires Chain(a) && Chain(b) && |a| == |b| <= U64_MAX && a != []
    ensures var n := |a| - 1;
      && Chain(a[..n]) && Chain(b[..n])
      && (LastHash(a) == LastHash(b) <==>
          LastHash(a[..n]) == LastHash(b[..n]) && a[n].leader == b[n].leader && FilledIds(a[n]) == FilledIds(b[n]))
  {
    hide PohHash, TxRoot, Filled, Chain, LastHash;
    var n := |a| - 1;
    var (x, y) := (a[n], b[n]);
    ChainPrefix(a, n);
    ChainPrefix(b, n);
    ChainLast(a);
    ChainLast(b);
    SameRoot(x.txIds, y.txIds);
    if LastHash(a) == LastHash(b) {
      PreimageInjective(x.prevHash, x.tick, x.txRoot, x.leader, y.prevHash, y.tick, y.txRoot, y.leader);
    }
  }

  lemma ChainLast(a: seq<PohEntry>)
    requires Chain(a) && a != []
    ensures var e := a[|a| - 1];
      && LastHash(a) == PohHash(HashBefore(a, |a| - 1), |a|, TxRoot(e.txIds), e.leader)
      && e.tick == |a| && e.prevHash == HashBefore(a, |a| - 1) && e.txRoot == TxRoot(e.txIds)
  {
    hide PohHash, TxRoot;
  }

  lemma ChainPrefix(log: seq<PohEntry>, n: nat)
    requires Chain(log) && n <= |log|
    ensures Chain(log[..n]) && LastHash(log[..n]) == HashBefore(log, n)
  {
    forall i | 0 <= i < n
      ensures log[..n][i].tick == i + 1 && VerifyChain(HashBefore(log[..n], i), log[..n][i])
    {
      assert HashBefore(log[..n], i) == HashBefore(log, i);
    }
  }

  /** With several ids in one entry the hash does not fix their number: two chains with the same last
  hash and different ids. */
  lemma LastHashAmbiguity(d: Digest, leader: seq<Symbol>)
    ensures var a := [BuildEntry(1, ZeroHash, [d, d, d], leader)];
      var b := [BuildEntry(1, ZeroHash, [d, d, d, d], leader)];
      Chain(a) && Chain(b) && LastHash(a) == LastHash(b) && a[0].txIds != b[0].txIds
  {
    var three := DecodedIds([d, d, d]);
    assert DecodedIds([d, d, d, d]) == three + [three[2]];
    RepeatedLastId(three);
    assert |[d, d, d]| != |[d, d, d, d]|;
  }
}
