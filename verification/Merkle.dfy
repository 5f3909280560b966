// The Merkle tree of pkg/crypto/merkletree: level-wise construction with odd-node
// duplication, its equality with a perfect binary tree over a padded leaf list, and
// what equal roots say about the leaves.

module Merkle {
  import opened Sequences
  import opened Ordering
  import opened Binary

  newtype byte = i: int | 0 <= i < 256

  type HashFunc = string -> seq<byte>

  // ------------------------------------------------------------ hex digests

  function HexDigit(d: int): (c: char)
    requires 0 <= d < 16
    ensures IsHexChar(c)
  {
    if d < 10 then ('0' as int + d) as char else ('a' as int + (d - 10)) as char
  }

  predicate IsHexChar(c: char) { '0' <= c <= '9' || 'a' <= c <= 'f' }

  predicate IsHex(s: string) { forall i :: 0 <= i < |s| ==> IsHexChar(s[i]) }

  // hex.EncodeToString
  function Hex(bs: seq<byte>): (s: string)
    ensures |s| == 2 * |bs| && IsHex(s)
  {
    if bs == [] then [] else [HexDigit(bs[0] as int / 16), HexDigit(bs[0] as int % 16)] + Hex(bs[1..])
  }

  // Reading a hex digit.
  function HexValue(c: char): int
    requires IsHexChar(c)
  {
    if c <= '9' then c as int - '0' as int else 10 + (c as int - 'a' as int)
  }

  // Byte i is read back from digits 2 * i and 2 * i + 1, the high one first.
  lemma {:induction false} HexReadsBack(bs: seq<byte>, i: nat)
    requires i < |bs|
    ensures 16 * HexValue(Hex(bs)[2 * i]) + HexValue(Hex(bs)[2 * i + 1]) == bs[i] as int
  {
    if i > 0 {
      HexReadsBack(bs[1..], i - 1);
      assert Hex(bs)[2 * i] == Hex(bs[1..])[2 * (i - 1)] && Hex(bs)[2 * i + 1] == Hex(bs[1..])[2 * (i - 1) + 1];
    }
  }

  lemma {:induction false} HexInjective(a: seq<byte>, b: seq<byte>)
    requires Hex(a) == Hex(b)
    ensures a == b
  {
    assert |a| == |b|;
    if a != [] {
      assert Hex(a)[0] == Hex(b)[0] && Hex(a)[1] == Hex(b)[1];
      assert a[0] as int / 16 == b[0] as int / 16 && a[0] as int % 16 == b[0] as int % 16;
      assert Hex(a)[2..] == Hex(a[1..]) && Hex(b)[2..] == Hex(b[1..]);
      HexInjective(a[1..], b[1..]);
      assert a == [a[0]] + a[1..] && b == [b[0]] + b[1..];
    }
  }

  function Digest(h: HashFunc, s: string): (d: string)
    ensures IsHex(d) && |d| == 2 * |h(s)|
  {
    Hex(h(s))
  }

  ghost predicate FixedWidth(h: HashFunc, w: nat) { forall x :: |h(x)| == w }

  // Two different strings of the finite set A with the same hash.
  ghost predicate Collides(h: HashFunc, A: set<string>) {
    exists x, y :: x in A && y in A && x != y && h(x) == h(y)
  }

  lemma CollidesMonotone(h: HashFunc, A: set<string>, B: set<string>)
    requires A <= B
    ensures Collides(h, A) ==> Collides(h, B)
  {
    if Collides(h, A) {
      var x, y :| x in A && y in A && x != y && h(x) == h(y);
      assert x in B && y in B;
    }
  }

  lemma SameDigest(h: HashFunc, A: set<string>, x: string, y: string)
    requires x in A && y in A && Digest(h, x) == Digest(h, y)
    ensures x == y || Collides(h, A)
  {
    HexInjective(h(x), h(y));
  }

  // ------------------------------------------------- level-wise construction

  // One level up: pair neighbours, pairing an odd last element with itself.
  function Level(h: HashFunc, s: seq<string>): (r: seq<string>)
    ensures |r| == (|s| + 1) / 2
  {
    if s == [] then []
    else if |s| == 1 then [Digest(h, s[0] + s[0])]
    else [Digest(h, s[0] + s[1])] + Level(h, s[2..])
  }

  function Root(h: HashFunc, s: seq<string>): string
    requires s != []
    decreases |s|
  {
    if |s| == 1 then s[0] else Root(h, Level(h, s))
  }

  function TreeRoot(h: HashFunc, s: seq<string>): string {
    if s == [] then Digest(h, "") else Root(h, s)
  }

  // The roots of the smallest lists: left before right, and an odd last hash twice.
  lemma SmallRoots(h: HashFunc, a: string, b: string, c: string)
    ensures TreeRoot(h, []) == Hex(h("")) && TreeRoot(h, [a]) == a
    ensures TreeRoot(h, [a, b]) == Hex(h(a + b))
    ensures TreeRoot(h, [a, b, c]) == Hex(h(Hex(h(a + b)) + Hex(h(c + c))))
  {
    var x, y := Hex(h(a + b)), Hex(h(c + c));
    assert [a, b][2..] == [] && Level(h, [a, b]) == [x] && Root(h, [x]) == x;
    assert [a, b, c][2..] == [c] && Level(h, [c]) == [y];
    assert Level(h, [a, b, c]) == [x, y];
    assert Level(h, [x, y]) == [Hex(h(x + y))];
    assert Root(h, [a, b, c]) == Root(h, [x, y]) == Root(h, [Hex(h(x + y))]);
  }

  // The strings that the construction hands to the hash function.
  function LevelInputs(s: seq<string>): set<string> {
    if s == [] then {}
    else if |s| == 1 then {s[0] + s[0]}
    else {s[0] + s[1]} + LevelInputs(s[2..])
  }

  function RootInputs(h: HashFunc, s: seq<string>): set<string>
    requires s != []
    decreases |s|
  {
    if |s| == 1 then {} else LevelInputs(s) + RootInputs(h, Level(h, s))
  }

  function TreeInputs(h: HashFunc, s: seq<string>): set<string> {
    if s == [] then {""} else RootInputs(h, s)
  }

  // ------------------------------------------ the tree as the program builds it

  datatype MerkleNode = MerkleNode(hash: string, left: Option<MerkleNode>, right: Option<MerkleNode>)

  datatype MerkleTree = MerkleTree(root: Option<MerkleNode>, leaves: seq<MerkleNode>, rootHash: string)

  function Hashes(nodes: seq<MerkleNode>): (r: seq<string>)
    ensures |r| == |nodes|
    ensures forall i :: 0 <= i < |r| ==> r[i] == nodes[i].hash
  {
    Map((n: MerkleNode) => n.hash, nodes)
  }

  // Every inner node of the subtree carries the digest of its children's hashes.
  predicate WellHashed(h: HashFunc, n: MerkleNode) {
    match (n.left, n.right)
    case (None, None) => true
    case (Some(l), Some(r)) => n.hash == Digest(h, l.hash + r.hash) && WellHashed(h, l) && WellHashed(h, r)
    case _ => false
  }

  lemma {:induction false} LevelAt(h: HashFunc, s: seq<string>, k: nat)
    requires 2 * k < |s|
    ensures Level(h, s)[k] == Digest(h, s[2 * k] + s[if 2 * k + 1 < |s| then 2 * k + 1 else 2 * k])
    decreases |s|
  {
    if k > 0 {
      LevelAt(h, s[2..], k - 1);
    }
  }

  method BuildTree(h: HashFunc, nodes: seq<MerkleNode>) returns (root: MerkleNode)
    requires nodes != []
    requires forall i :: 0 <= i < |nodes| ==> WellHashed(h, nodes[i])
    ensures root.hash == Root(h, Hashes(nodes))
    ensures WellHashed(h, root)
    decreases |nodes|
  {
    if |nodes| == 1 {
      return nodes[0];
    }
    var upperLevel: seq<MerkleNode> := [];
    var i := 0;
    ghost var level := Level(h, Hashes(nodes));
    while i < |nodes|
      invariant 0 <= i <= |nodes| + 1 && i == 2 * |upperLevel|
      invariant forall k :: 0 <= k < |upperLevel| ==> upperLevel[k].hash == level[k] && WellHashed(h, upperLevel[k])
    {
      var left := nodes[i];
      var right;
      if i + 1 < |nodes| {
        right := nodes[i + 1];
      } else {
        right := MerkleNode(left.hash, None, None);
      }
      var parent := MerkleNode(Digest(h, left.hash + right.hash), Some(left), Some(right));
      LevelAt(h, Hashes(nodes), |upperLevel|);
      upperLevel := upperLevel + [parent];
      i := i + 2;
    }
    assert Hashes(upperLevel) == level;
    root := BuildTree(h, upperLevel);
  }

  method NewMerkleTree(h: HashFunc, hashes: seq<string>) returns (t: MerkleTree)
    ensures t.rootHash == TreeRoot(h, hashes)
    ensures Hashes(t.leaves) == hashes
    ensures t.root.None? <==> hashes == []
    ensures t.root.Some? ==> t.root.value.hash == t.rootHash && WellHashed(h, t.root.value)
  {
    if |hashes| == 0 {
      return MerkleTree(None, [], Digest(h, ""));
    }
    var leaves: seq<MerkleNode> := [];
    for i := 0 to |hashes|
      invariant |leaves| == i
      invariant forall k :: 0 <= k < i ==> leaves[k] == MerkleNode(hashes[k], None, None)
    {
      leaves := leaves + [MerkleNode(hashes[i], None, None)];
    }
    assert Hashes(leaves) == hashes;
    var root := BuildTree(h, leaves);
    t := MerkleTree(Some(root), leaves, root.hash);
  }

  // --------------------------------------------- reference: perfect binary tree

  function FirstHalf(t: seq<string>): seq<string> { t[..|t| / 2] }

  function SecondHalf(t: seq<string>): seq<string> { t[|t| / 2..] }

  // Root of the perfect tree of height k over its 2^k leaves, split from the top.
  function Perfect(h: HashFunc, t: seq<string>, k: nat): string
    requires |t| == Pow2(k)
    decreases k, 1
  {
    if k == 0 then t[0] else Digest(h, NodeInput(h, t, k))
  }

  // What the top node of the tree hashes.
  function NodeInput(h: HashFunc, t: seq<string>, k: nat): string
    requires k > 0 && |t| == Pow2(k)
    decreases k, 0
  {
    Perfect(h, FirstHalf(t), k - 1) + Perfect(h, SecondHalf(t), k - 1)
  }

  function PerfectInputs(h: HashFunc, t: seq<string>, k: nat): set<string>
    requires |t| == Pow2(k)
  {
    if k == 0 then {}
    else {NodeInput(h, t, k)} + PerfectInputs(h, FirstHalf(t), k - 1) + PerfectInputs(h, SecondHalf(t), k - 1)
  }

  function Height(n: nat): nat
    requires n > 0
  {
    if n == 1 then 0 else 1 + Height((n + 1) / 2)
  }

  // Join neighbouring blocks, repeating an odd last block.
  function PairBlocks(bs: seq<seq<string>>): (r: seq<seq<string>>)
    ensures |r| == (|bs| + 1) / 2
  {
    if bs == [] then []
    else if |bs| == 1 then [bs[0] + bs[0]]
    else [bs[0] + bs[1]] + PairBlocks(bs[2..])
  }

  function PadBlocks(bs: seq<seq<string>>): seq<string>
    requires bs != []
    decreases |bs|
  {
    if |bs| == 1 then bs[0] else PadBlocks(PairBlocks(bs))
  }

  function Singletons(s: seq<string>): (r: seq<seq<string>>)
    ensures |r| == |s|
    ensures forall i :: 0 <= i < |r| ==> r[i] == [s[i]]
  {
    Map((x: string) => [x], s)
  }

  // The leaf list padded to a power of two by repeating the last block at each odd level.
  function Pad(s: seq<string>): seq<string>
    requires s != []
  {
    PadBlocks(Singletons(s))
  }

  ghost predicate AllBlocks(bs: seq<seq<string>>, k: nat) {
    forall i :: 0 <= i < |bs| ==> |bs[i]| == Pow2(k)
  }

  // Roots of the blocks, and everything hashed inside them.
  function BlockRoots(h: HashFunc, bs: seq<seq<string>>, k: nat): (r: seq<string>)
    requires AllBlocks(bs, k)
    ensures |r| == |bs|
  {
    if bs == [] then [] else [Perfect(h, bs[0], k)] + BlockRoots(h, bs[1..], k)
  }

  function BlockInputs(h: HashFunc, bs: seq<seq<string>>, k: nat): set<string>
    requires AllBlocks(bs, k)
  {
    if bs == [] then {} else PerfectInputs(h, bs[0], k) + BlockInputs(h, bs[1..], k)
  }

  lemma PerfectJoin(h: HashFunc, a: seq<string>, b: seq<string>, k: nat)
    requires |a| == |b| == Pow2(k)
    ensures |a + b| == Pow2(k + 1)
    ensures Perfect(h, a + b, k + 1) == Digest(h, Perfect(h, a, k) + Perfect(h, b, k))
    ensures PerfectInputs(h, a + b, k + 1)
         == {Perfect(h, a, k) + Perfect(h, b, k)} + PerfectInputs(h, a, k) + PerfectInputs(h, b, k)
  {
    assert FirstHalf(a + b) == a && SecondHalf(a + b) == b;
  }

  lemma TwoMoreBlocks(h: HashFunc, bs: seq<seq<string>>, k: nat)
    requires AllBlocks(bs, k) && |bs| >= 2
    ensures BlockRoots(h, bs, k) == [Perfect(h, bs[0], k), Perfect(h, bs[1], k)] + BlockRoots(h, bs[2..], k)
    ensures BlockInputs(h, bs, k)
         == PerfectInputs(h, bs[0], k) + PerfectInputs(h, bs[1], k) + BlockInputs(h, bs[2..], k)
  {
    assert bs[1..][1..] == bs[2..];
    assert BlockRoots(h, bs[1..], k) == [Perfect(h, bs[1], k)] + BlockRoots(h, bs[2..], k);
  }

  // Pairing blocks is one level of the program's construction.
  lemma {:induction false} PairIsLevel(h: HashFunc, bs: seq<seq<string>>, k: nat)
    requires AllBlocks(bs, k)
    ensures AllBlocks(PairBlocks(bs), k + 1)
    ensures BlockRoots(h, PairBlocks(bs), k + 1) == Level(h, BlockRoots(h, bs, k))
    ensures BlockInputs(h, PairBlocks(bs), k + 1) == LevelInputs(BlockRoots(h, bs, k)) + BlockInputs(h, bs, k)
    decreases |bs|
  {
    var r := BlockRoots(h, bs, k);
    if |bs| == 1 {
      PerfectJoin(h, bs[0], bs[0], k);
    } else if |bs| >= 2 {
      PairIsLevel(h, bs[2..], k);
      PerfectJoin(h, bs[0], bs[1], k);
      var p := PairBlocks(bs);
      assert p[0] == bs[0] + bs[1] && p[1..] == PairBlocks(bs[2..]);
      TwoMoreBlocks(h, bs, k);
      assert r[2..] == BlockRoots(h, bs[2..], k);
    }
  }

  lemma {:induction false} RootOfBlocks(h: HashFunc, bs: seq<seq<string>>, k: nat, m: nat)
    requires bs != [] && AllBlocks(bs, k) && m == k + Height(|bs|)
    ensures |PadBlocks(bs)| == Pow2(m)
    ensures Root(h, BlockRoots(h, bs, k)) == Perfect(h, PadBlocks(bs), m)
    ensures PerfectInputs(h, PadBlocks(bs), m) == RootInputs(h, BlockRoots(h, bs, k)) + BlockInputs(h, bs, k)
    decreases |bs|
  {
    if |bs| == 1 {
      OneBlock(h, bs[0], k);
      assert bs == [bs[0]];
    } else {
      PairIsLevel(h, bs, k);
      RootOfBlocks(h, PairBlocks(bs), k + 1, m);
      LevelUnfold(h, BlockRoots(h, bs, k));
    }
  }

  lemma OneBlock(h: HashFunc, b: seq<string>, k: nat)
    requires |b| == Pow2(k)
    ensures BlockRoots(h, [b], k) == [Perfect(h, b, k)]
    ensures BlockInputs(h, [b], k) == PerfectInputs(h, b, k)
  {
  }

  lemma LevelUnfold(h: HashFunc, s: seq<string>)
    requires |s| > 1
    ensures Root(h, s) == Root(h, Level(h, s))
    ensures RootInputs(h, s) == LevelInputs(s) + RootInputs(h, Level(h, s))
  {
  }

  lemma {:induction false} SingletonRoots(h: HashFunc, s: seq<string>)
    ensures AllBlocks(Singletons(s), 0)
    ensures BlockRoots(h, Singletons(s), 0) == s
    ensures BlockInputs(h, Singletons(s), 0) == {}
  {
    if s != [] {
      SingletonRoots(h, s[1..]);
      assert Singletons(s)[1..] == Singletons(s[1..]);
    }
  }

  // The level-wise tree is the perfect tree over the padded leaves, and it hashes the same
  // strings.
  lemma LevelwiseIsPerfect(h: HashFunc, s: seq<string>)
    requires s != []
    ensures |Pad(s)| == Pow2(Height(|s|))
    ensures TreeRoot(h, s) == Perfect(h, Pad(s), Height(|s|))
    ensures PerfectInputs(h, Pad(s), Height(|s|)) == TreeInputs(h, s)
  {
    SingletonRoots(h, s);
    RootOfBlocks(h, Singletons(s), 0, Height(|s|));
  }

  // -------------------------------------------------- what the padding preserves

  lemma {:induction false} PairFlatten(bs: seq<seq<string>>)
    ensures Flatten(bs) <= Flatten(PairBlocks(bs))
    ensures forall x :: x in Flatten(PairBlocks(bs)) ==> x in Flatten(bs)
    decreases |bs|
  {
    if |bs| == 1 {
      assert Flatten(bs) == bs[0];
      assert Flatten([bs[0] + bs[0]]) == bs[0] + bs[0];
    } else if |bs| >= 2 {
      PairFlatten(bs[2..]);
      assert bs[1..][1..] == bs[2..];
      assert Flatten(bs) == bs[0] + bs[1] + Flatten(bs[2..]);
      assert PairBlocks(bs)[1..] == PairBlocks(bs[2..]);
      assert Flatten(PairBlocks(bs)) == bs[0] + bs[1] + Flatten(PairBlocks(bs[2..]));
    }
  }

  lemma {:induction false} PadFlatten(bs: seq<seq<string>>)
    requires bs != []
    ensures Flatten(bs) <= PadBlocks(bs)
    ensures forall x :: x in PadBlocks(bs) ==> x in Flatten(bs)
    decreases |bs|
  {
    if |bs| == 1 {
      assert Flatten(bs) == bs[0];
    } else {
      PairFlatten(bs);
      PadFlatten(PairBlocks(bs));
    }
  }

  lemma {:induction false} FlattenSingletons(s: seq<string>)
    ensures Flatten(Singletons(s)) == s
  {
    if s != [] {
      FlattenSingletons(s[1..]);
      assert Singletons(s)[1..] == Singletons(s[1..]);
    }
  }

  // Padding keeps the list as a prefix and adds only values that are already there.
  lemma PadExtends(s: seq<string>)
    requires s != []
    ensures s <= Pad(s)
    ensures forall x :: x in Pad(s) ==> x in s
  {
    PadFlatten(Singletons(s));
    FlattenSingletons(s);
  }

  lemma ShorterRepeats(s: seq<string>, t: seq<string>)
    requires s != [] && |s| < |t| && Pad(s) == Pad(t)
    ensures !Distinct(t)
  {
    PadExtends(s);
    PadExtends(t);
    var p := Pad(s);
    assert p[|s|] == t[|s|] && p[|s|] in s;
    var j :| 0 <= j < |s| && s[j] == p[|s|];
    assert t[j] == p[j] == s[j];
  }

  // Two duplicate-free lists with the same padding are the same list.
  lemma PadInjectiveOnDistinct(s: seq<string>, t: seq<string>)
    requires s != [] && t != [] && Distinct(s) && Distinct(t)
    requires Pad(s) == Pad(t)
    ensures s == t
  {
    PadExtends(s);
    PadExtends(t);
    if |s| < |t| {
      ShorterRepeats(s, t);
    } else if |t| < |s| {
      ShorterRepeats(t, s);
    }
  }

  // ------------------------------------------------------------------- binding

  ghost predicate Digests(s: seq<string>, w: nat) {
    forall i :: 0 <= i < |s| ==> |s[i]| == 2 * w && IsHex(s[i])
  }

  lemma {:induction false} PerfectWidth(h: HashFunc, w: nat, t: seq<string>, k: nat)
    requires FixedWidth(h, w) && |t| == Pow2(k) && Digests(t, w)
    ensures |Perfect(h, t, k)| == 2 * w && IsHex(Perfect(h, t, k))
  {
  }

  lemma SplitConcat(a: string, b: string, c: string, d: string)
    requires |a| == |c| && a + b == c + d
    ensures a == c && b == d
  {
    assert a == (a + b)[..|a|] && c == (c + d)[..|c|];
    assert b == (a + b)[|a|..] && d == (c + d)[|c|..];
  }

  lemma HalvesDigests(t: seq<string>, w: nat, k: nat)
    requires k > 0 && |t| == Pow2(k) && Digests(t, w)
    ensures |FirstHalf(t)| == |SecondHalf(t)| == Pow2(k - 1)
    ensures Digests(FirstHalf(t), w) && Digests(SecondHalf(t), w)
    ensures t == FirstHalf(t) + SecondHalf(t)
  {
  }

  // One inner node on each side: the left and right subtrees agree too, or a collision.
  lemma NodeBinding(h: HashFunc, w: nat, t: seq<string>, k: nat, u: seq<string>, m: nat, A: set<string>)
    requires FixedWidth(h, w) && k > 0 && m > 0 && |t| == Pow2(k) && |u| == Pow2(m) && Digests(t, w) && Digests(u, w)
    requires PerfectInputs(h, t, k) <= A && PerfectInputs(h, u, m) <= A
    requires Perfect(h, t, k) == Perfect(h, u, m)
    ensures Collides(h, A)
         || (Perfect(h, FirstHalf(t), k - 1) == Perfect(h, FirstHalf(u), m - 1)
             && Perfect(h, SecondHalf(t), k - 1) == Perfect(h, SecondHalf(u), m - 1))
  {
    HalvesDigests(t, w, k);
    HalvesDigests(u, w, m);
    var x, y := NodeInput(h, t, k), NodeInput(h, u, m);
    assert x in A && y in A;
    SameDigest(h, A, x, y);
    if x == y {
      PerfectWidth(h, w, FirstHalf(t), k - 1);
      PerfectWidth(h, w, FirstHalf(u), m - 1);
      SplitConcat(Perfect(h, FirstHalf(t), k - 1), Perfect(h, SecondHalf(t), k - 1),
                  Perfect(h, FirstHalf(u), m - 1), Perfect(h, SecondHalf(u), m - 1));
    }
  }

  // Equal perfect roots of equal height: equal leaves, or a collision among the
  // strings hashed in the two trees.
  lemma {:induction false} PerfectBinding(h: HashFunc, w: nat, t: seq<string>, u: seq<string>, k: nat, A: set<string>)
    requires FixedWidth(h, w) && |t| == |u| == Pow2(k) && Digests(t, w) && Digests(u, w)
    requires PerfectInputs(h, t, k) <= A && PerfectInputs(h, u, k) <= A
    requires Perfect(h, t, k) == Perfect(h, u, k)
    ensures t == u || Collides(h, A)
  {
    if k == 0 {
      assert t == [t[0]] && u == [u[0]];
    } else {
      HalvesDigests(t, w, k);
      HalvesDigests(u, w, k);
      NodeBinding(h, w, t, k, u, k, A);
      if !Collides(h, A) {
        PerfectBinding(h, w, FirstHalf(t), FirstHalf(u), k - 1, A);
        PerfectBinding(h, w, SecondHalf(t), SecondHalf(u), k - 1, A);
      }
    }
  }

  // Equal roots at different heights: down the left edge, the first leaf of the lower
  // tree meets an inner node of the higher one.
  lemma {:induction false} LeftEdge(h: HashFunc, w: nat, t: seq<string>, k: nat, u: seq<string>, m: nat, A: set<string>)
    requires FixedWidth(h, w) && k < m && |t| == Pow2(k) && |u| == Pow2(m) && Digests(t, w) && Digests(u, w)
    requires PerfectInputs(h, t, k) <= A && PerfectInputs(h, u, m) <= A
    requires Perfect(h, t, k) == Perfect(h, u, m)
    ensures Collides(h, A) || exists c :: c in A && IsHex(c) && t[0] == Digest(h, c)
    decreases k, 0
  {
    HalvesDigests(u, w, m);
    if k == 0 {
      PerfectWidth(h, w, FirstHalf(u), m - 1);
      PerfectWidth(h, w, SecondHalf(u), m - 1);
      var c := NodeInput(h, u, m);
      assert c in A && IsHex(c);
    } else {
      HalvesDigests(t, w, k);
      NodeBinding(h, w, t, k, u, m, A);
      if !Collides(h, A) {
        LeftEdge(h, w, FirstHalf(t), k - 1, FirstHalf(u), m - 1, A);
      }
    }
  }

  lemma PadDigests(s: seq<string>, w: nat)
    requires s != [] && Digests(s, w)
    ensures Digests(Pad(s), w)
  {
    PadExtends(s);
    forall i | 0 <= i < |Pad(s)|
      ensures |Pad(s)[i]| == 2 * w && IsHex(Pad(s)[i])
    {
      assert Pad(s)[i] in s;
    }
  }

  // Trees of equal height have equal roots exactly when their padded leaf lists are
  // equal, up to a collision among the strings they hash.
  lemma EqualHeightBinding(h: HashFunc, w: nat, s: seq<string>, t: seq<string>)
    requires FixedWidth(h, w) && s != [] && t != [] && Digests(s, w) && Digests(t, w)
    requires Height(|s|) == Height(|t|)
    ensures Pad(s) == Pad(t) ==> TreeRoot(h, s) == TreeRoot(h, t)
    ensures TreeRoot(h, s) == TreeRoot(h, t) ==> Pad(s) == Pad(t) || Collides(h, TreeInputs(h, s) + TreeInputs(h, t))
  {
    LevelwiseIsPerfect(h, s);
    LevelwiseIsPerfect(h, t);
    PadDigests(s, w);
    PadDigests(t, w);
    if TreeRoot(h, s) == TreeRoot(h, t) {
      PerfectBinding(h, w, Pad(s), Pad(t), Height(|s|), TreeInputs(h, s) + TreeInputs(h, t));
    }
  }

  // For lists of equal length the padding adds nothing: equal roots, equal lists.
  lemma EqualLengthBinding(h: HashFunc, w: nat, s: seq<string>, t: seq<string>)
    requires FixedWidth(h, w) && |s| == |t| && Digests(s, w) && Digests(t, w)
    requires TreeRoot(h, s) == TreeRoot(h, t)
    ensures s == t || Collides(h, TreeInputs(h, s) + TreeInputs(h, t))
  {
    if s != [] {
      EqualHeightBinding(h, w, s, t);
      PadExtends(s);
      PadExtends(t);
    }
  }

  // ------------------------------------- binding across lengths and heights

  // The list d levels up.
  function Lift(h: HashFunc, t: seq<string>, d: nat): seq<string>
    decreases d
  {
    if d == 0 then t else Lift(h, Level(h, t), d - 1)
  }

  lemma LevelDigests(h: HashFunc, w: nat, t: seq<string>)
    requires FixedWidth(h, w)
    ensures Digests(Level(h, t), w)
  {
    forall k | 0 <= k < |Level(h, t)|
      ensures |Level(h, t)[k]| == 2 * w && IsHex(Level(h, t)[k])
    {
      LevelAt(h, t, k);
    }
  }

  // Going up keeps the root, lowers the height by one a level, and hashes nothing new.
  lemma {:induction false} LiftKeeps(h: HashFunc, w: nat, t: seq<string>, d: nat)
    requires FixedWidth(h, w) && t != [] && Digests(t, w) && d <= Height(|t|)
    ensures var u := Lift(h, t, d);
            && u != [] && Digests(u, w) && Height(|u|) == Height(|t|) - d
            && Root(h, u) == Root(h, t) && RootInputs(h, u) <= RootInputs(h, t)
    decreases d
  {
    if d > 0 {
      LevelDigests(h, w, t);
      LevelUnfold(h, t);
      LiftKeeps(h, w, Level(h, t), d - 1);
    }
  }

  lemma BindingVia(h: HashFunc, w: nat, s: seq<string>, t: seq<string>, u: seq<string>)
    requires FixedWidth(h, w) && s != [] && t != [] && u != [] && Digests(s, w) && Digests(u, w)
    requires Height(|s|) == Height(|u|) && Root(h, u) == Root(h, t) && RootInputs(h, u) <= RootInputs(h, t)
    ensures Pad(s) == Pad(u) ==> TreeRoot(h, s) == TreeRoot(h, t)
    ensures TreeRoot(h, s) == TreeRoot(h, t) ==>
              Pad(s) == Pad(u) || Collides(h, TreeInputs(h, s) + TreeInputs(h, t))
  {
    EqualHeightBinding(h, w, s, u);
    if TreeRoot(h, s) == TreeRoot(h, t) && Pad(s) != Pad(u) {
      CollidesMonotone(h, TreeInputs(h, s) + TreeInputs(h, u), TreeInputs(h, s) + TreeInputs(h, t));
    }
  }

  // Any two non-empty lists of fixed-width hashes, the higher one lifted to the height of
  // the lower: equal paddings give equal roots, and equal roots give equal paddings or a
  // collision among the strings hashed.
  lemma CrossHeightBinding(h: HashFunc, w: nat, s: seq<string>, t: seq<string>, d: nat)
    requires FixedWidth(h, w) && s != [] && t != [] && Digests(s, w) && Digests(t, w) && Height(|t|) == Height(|s|) + d
    ensures Lift(h, t, d) != []
    ensures Pad(s) == Pad(Lift(h, t, d)) ==> TreeRoot(h, s) == TreeRoot(h, t)
    ensures TreeRoot(h, s) == TreeRoot(h, t) ==>
              Pad(s) == Pad(Lift(h, t, d)) || Collides(h, TreeInputs(h, s) + TreeInputs(h, t))
  {
    LiftKeeps(h, w, t, d);
    BindingVia(h, w, s, t, Lift(h, t, d));
  }

  // A preimage that no inner node and no empty tree can have: it starts with 'i'.
  predicate LeafPreimage(e: string) { |e| > 0 && e[0] == 'i' }

  // Everything hashed for a tree whose leaves are the digests of es.
  function LeafTreeInputs(h: HashFunc, es: seq<string>): set<string> {
    (set e | e in es) + TreeInputs(h, LeafHashes(h, es))
  }

  function LeafHashes(h: HashFunc, es: seq<string>): (r: seq<string>)
    ensures |r| == |es|
    ensures forall i :: 0 <= i < |r| ==> r[i] == Digest(h, es[i])
  {
    Map((e: string) => Digest(h, e), es)
  }

  lemma LeafNotHex(e: string)
    requires LeafPreimage(e)
    ensures !IsHex(e)
  {
    assert !IsHexChar(e[0]);
  }

  lemma LowerTreeClashes(h: HashFunc, w: nat, es: seq<string>, fs: seq<string>)
    requires FixedWidth(h, w) && es != [] && fs != [] && LeafPreimage(es[0])
    requires Height(|es|) < Height(|fs|)
    requires TreeRoot(h, LeafHashes(h, es)) == TreeRoot(h, LeafHashes(h, fs))
    ensures Collides(h, LeafTreeInputs(h, es) + LeafTreeInputs(h, fs))
  {
    var s, t := LeafHashes(h, es), LeafHashes(h, fs);
    var A := LeafTreeInputs(h, es) + LeafTreeInputs(h, fs);
    LevelwiseIsPerfect(h, s);
    LevelwiseIsPerfect(h, t);
    PadDigests(s, w);
    PadDigests(t, w);
    LeftEdge(h, w, Pad(s), Height(|s|), Pad(t), Height(|t|), A);
    if !Collides(h, A) {
      PadExtends(s);
      var c :| c in A && IsHex(c) && Pad(s)[0] == Digest(h, c);
      assert Pad(s)[0] == s[0] == Digest(h, es[0]);
      assert es[0] in A;
      LeafNotHex(es[0]);
      SameDigest(h, A, es[0], c);
    }
  }

  // A tree of two or more leaves: its root is the digest of a string of full width.
  lemma TallRootPreimage(h: HashFunc, w: nat, s: seq<string>)
    requires FixedWidth(h, w) && |s| > 1 && Digests(s, w)
    ensures exists c :: c in TreeInputs(h, s) && |c| == 4 * w && TreeRoot(h, s) == Digest(h, c)
  {
    LevelwiseIsPerfect(h, s);
    PadDigests(s, w);
    var t, k := Pad(s), Height(|s|);
    HalvesDigests(t, w, k);
    PerfectWidth(h, w, FirstHalf(t), k - 1);
    PerfectWidth(h, w, SecondHalf(t), k - 1);
    assert NodeInput(h, t, k) in PerfectInputs(h, t, k);
  }

  // A tree with leaves against the empty tree.
  lemma EmptyTreeClashes(h: HashFunc, w: nat, es: seq<string>)
    requires FixedWidth(h, w) && es != [] && LeafPreimage(es[0])
    requires TreeRoot(h, LeafHashes(h, es)) == TreeRoot(h, [])
    ensures Collides(h, LeafTreeInputs(h, es) + TreeInputs(h, []))
  {
    var s := LeafHashes(h, es);
    var A := LeafTreeInputs(h, es) + TreeInputs(h, []);
    assert es[0] in A && "" in A;
    if |s| == 1 {
      SameDigest(h, A, es[0], "");
    } else if w == 0 {
      assert h(es[0]) == h("") == [];
    } else {
      TallRootPreimage(h, w, s);
      var c :| c in TreeInputs(h, s) && |c| == 4 * w && TreeRoot(h, s) == Digest(h, c);
      SameDigest(h, A, c, "");
    }
  }

  // Equal roots of two trees over record-hash leaves without repetition, of any sizes:
  // the same leaves, or a collision among the strings that were hashed.
  lemma RootBinding(h: HashFunc, w: nat, es: seq<string>, fs: seq<string>)
    requires FixedWidth(h, w)
    requires forall e :: e in es || e in fs ==> LeafPreimage(e)
    requires Distinct(LeafHashes(h, es)) && Distinct(LeafHashes(h, fs))
    requires TreeRoot(h, LeafHashes(h, es)) == TreeRoot(h, LeafHashes(h, fs))
    ensures LeafHashes(h, es) == LeafHashes(h, fs) || Collides(h, LeafTreeInputs(h, es) + LeafTreeInputs(h, fs))
  {
    var s, t := LeafHashes(h, es), LeafHashes(h, fs);
    var A := LeafTreeInputs(h, es) + LeafTreeInputs(h, fs);
    if es == [] || fs == [] {
      if es != [] {
        EmptyTreeClashes(h, w, es);
        assert t == [];
        CollidesMonotone(h, LeafTreeInputs(h, es) + TreeInputs(h, []), A);
      } else if fs != [] {
        EmptyTreeClashes(h, w, fs);
        assert s == [];
        CollidesMonotone(h, LeafTreeInputs(h, fs) + TreeInputs(h, []), A);
      }
    } else if Height(|s|) < Height(|t|) {
      LowerTreeClashes(h, w, es, fs);
    } else if Height(|s|) > Height(|t|) {
      LowerTreeClashes(h, w, fs, es);
      assert LeafTreeInputs(h, fs) + LeafTreeInputs(h, es) == A;
    } else {
      EqualHeightBinding(h, w, s, t);
      if Pad(s) == Pad(t) {
        PadInjectiveOnDistinct(s, t);
      } else {
        CollidesMonotone(h, TreeInputs(h, s) + TreeInputs(h, t), A);
      }
    }
  }

  // Without the two conditions on the leaves binding fails, for every hash function:
  // a repeated last leaf goes unnoticed, and a lone leaf is its own root.
  lemma ArbitraryLeavesDoNotBind(h: HashFunc, a: string, b: string, c: string)
    ensures TreeRoot(h, [a, b, c]) == TreeRoot(h, [a, b, c, c])
    ensures TreeRoot(h, [a, b]) == TreeRoot(h, [Digest(h, a + b)])
  {
    var d, e := Digest(h, a + b), Digest(h, c + c);
    assert [a, b, c][2..] == [c] && [a, b, c, c][2..] == [c, c] && [c, c][2..] == [] && [a, b][2..] == [];
    assert Level(h, [a, b, c]) == [d, e];
    assert Level(h, [a, b, c, c]) == [d, e];
    assert Level(h, [a, b]) == [d];
  }
}
