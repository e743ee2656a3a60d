/** The byte layouts that are hashed or used as keys, as a reader of the bytes finds them. */
module Layouts {
  import opened Arith
  import opened Encoding
  import opened Types
  import opened Merkle
  import opened Poh
  import opened Storage

  /** Roots of one, two and three ids, down to the hashed bytes: leaves are tagged 0 and inner nodes 1, left
  before right, and a node without a partner is paired with itself. */
  lemma SmallRoots(a: seq<Symbol>, b: seq<Symbol>, c: seq<Symbol>)
    ensures var (x, y, z) := (ByteHash([Byte(0)] + a), ByteHash([Byte(0)] + b), ByteHash([Byte(0)] + c));
      var (xy, zz) := (ByteHash([Byte(1), Raw(x), Raw(y)]), ByteHash([Byte(1), Raw(z), Raw(z)]));
      && MerkleRoot([]) == Some(ZeroHash)
      && MerkleRoot([Some(a)]) == Some(x)
      && MerkleRoot([Some(a), Some(b)]) == Some(xy)
      && MerkleRoot([Some(a), Some(b), Some(c)]) == Some(ByteHash([Byte(1), Raw(xy), Raw(zz)]))
  {
    assert Height(1) == 0 && Height(2) == 1 && Height(3) == 2;
    assert Width(1, 0) == 1 && Width(2, 0) == 2 && Width(2, 1) == 1;
    assert Width(3, 0) == 3 && Width(3, 1) == 2 && Width(3, 2) == 1;
    var (one, two) := (Leaves([Some(a)]), Leaves([Some(a), Some(b)]));
    assert Root(one) == TreeNode(one, 0, 0);
    assert Root(two) == TreeNode(two, 1, 0) == NodeHash(TreeNode(two, 0, 0), TreeNode(two, 0, 1));
    ThreeLeaves(Leaves([Some(a), Some(b), Some(c)]));
  }

  lemma ThreeLeaves(s: seq<Digest>)
    requires |s| == 3
    ensures Root(s) == NodeHash(NodeHash(s[0], s[1]), NodeHash(s[2], s[2]))
  {
    assert Height(3) == 2 && Width(3, 0) == 3 && Width(3, 1) == 2 && Width(3, 2) == 1;
    assert TreeNode(s, 1, 0) == NodeHash(s[0], s[1]) && TreeNode(s, 1, 1) == NodeHash(s[2], s[2]);
  }

  /** A log entry: its root is that of its ids, and its hash is over the text of the previous hash, the tick in
  eight bytes with the lowest first, the text of the root and the leader. */
  lemma EntryLayout(tick: nat, prev: Digest, ids: seq<Digest>, leader: seq<Symbol>)
    requires tick <= U64_MAX
    ensures var e := BuildEntry(tick, prev, ids, leader);
      && e.tick == tick && e.prevHash == prev && e.txIds == ids && e.leader == leader
      && MerkleRoot(DecodedIds(ids)) == Some(e.txRoot)
      && e.hash.ByteHash?
      && var buffer := e.hash.preimage;
         && |buffer| == 10 + |leader| && buffer[0] == Hex(prev) && buffer[9] == Hex(e.txRoot)
         && buffer[10..] == leader
         && exists bytes :: TickBytesAre(buffer[1..9], bytes) && LittleValue(256, bytes) == tick
  {
    var e := BuildEntry(tick, prev, ids, leader);
    var buffer := e.hash.preimage;
    var bytes := LittleEndian(256, 8, tick);
    Widths();
    LittleEndianRead(256, 8, tick);
    hide LittleEndian, LittleValue, MerkleRoot;
    assert buffer[1..9] == TickBytes(tick);
    assert TickBytesAre(buffer[1..9], bytes);
  }

  ghost predicate TickBytesAre(s: seq<Symbol>, bytes: seq<nat>)
  {
    |s| == |bytes| == 8 && forall i :: 0 <= i < 8 ==> bytes[i] < 256 && s[i] == Byte(bytes[i])
  }

  /** Twenty ASCII digits. */
  ghost predicate DigitsAre(s: seq<Symbol>, digits: seq<nat>)
  {
    |s| == |digits| == 20 && forall i :: 0 <= i < 20 ==> digits[i] < 10 && s[i] == Byte('0' as int + digits[i])
  }

  /** An index key: the wallet, a colon, the tick in twenty decimal digits, a colon, the transaction id. */
  lemma IndexKeyLayout(wallet: WalletId, tick: nat, id: Digest)
    requires tick <= U64_MAX
    ensures var key := IndexKey(wallet, tick, id);
      && |key| == 24 && key[0] == Hex(wallet) && key[1] == key[22] == Byte(':' as int) && key[23] == Hex(id)
      && exists digits :: DigitsAre(key[2..22], digits) && BigValue(10, digits) == tick
  {
    var key := IndexKey(wallet, tick, id);
    var digits := Digits(10, 20, tick);
    Widths();
    DigitsRead(10, 20, tick);
    hide Digits, BigValue;
    assert key[2..22] == Padded(tick);
    assert DigitsAre(key[2..22], digits);
  }

  /** Keys of the log and of the commits: eight bytes, highest first, which is just enough for every tick. */
  lemma TickKeyLayout(tick: nat)
    requires tick <= U64_MAX
    ensures U64_MAX + 1 == Power(256, 8)
    ensures |BigEndian(tick)| == 8 && BigValue(256, BigEndian(tick)) == tick
    ensures forall i :: 0 <= i < 8 ==> BigEndian(tick)[i] < 256
  {
    Widths();
    DigitsRead(256, 8, tick);
  }
}
