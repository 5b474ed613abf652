/** The Merkle tree over Pi content: honest proofs verify, and a forged one is a hash collision. */
module PiTree {
  import opened Options
  import opened Powers
  import opened WorkBytes
  import opened PiContent

  const MAX_ARCALS: nat := 1_000_000
  const PI_TREE_HEIGHT: nat := 20

  /** keccak256 is foreign code: any function from byte strings to 32 bytes. */
  type Keccak = seq<byte> -> Bytes32

  /** numberToHex(id, { size: 4 }): four bytes, most significant first. */
  function BigEndian4(n: nat): seq<byte> {
    [n / 0x100_0000 % 256, n / 0x1_0000 % 256, n / 0x100 % 256, n % 256]
  }

  function LeafInput(id: nat, contentHash: Bytes32): seq<byte> {
    [0] + BigEndian4(id) + contentHash
  }

  function PiLeaf(keccak: Keccak, id: nat, contentHash: Bytes32): Bytes32 {
    keccak(LeafInput(id, contentHash))
  }

  function NodeInput(left: Bytes32, right: Bytes32): seq<byte> {
    [1] + left + right
  }

  function PiNode(keccak: Keccak, left: Bytes32, right: Bytes32): Bytes32 {
    keccak(NodeInput(left, right))
  }

  /** The definition of the tree: the root over 2^height leaves. */
  function Root(keccak: Keccak, leaves: seq<Bytes32>, height: nat): Bytes32
    requires |leaves| == Pow2(height)
    decreases height
  {
    if height == 0 then leaves[0]
    else
      var half := Pow2(height - 1);
      PiNode(keccak, Root(keccak, leaves[..half], height - 1), Root(keccak, leaves[half..], height - 1))
  }

  /** The siblings of leaf `index`, from the leaf up. */
  function Siblings(keccak: Keccak, leaves: seq<Bytes32>, height: nat, index: nat): (path: seq<Bytes32>)
    requires |leaves| == Pow2(height) && index < Pow2(height)
    ensures |path| == height
    decreases height
  {
    if height == 0 then []
    else
      var half := Pow2(height - 1);
      if index < half
      then Siblings(keccak, leaves[..half], height - 1, index) + [Root(keccak, leaves[half..], height - 1)]
      else Siblings(keccak, leaves[half..], height - 1, index - half) + [Root(keccak, leaves[..half], height - 1)]
  }

  function Combine(keccak: Keccak, current: Bytes32, sibling: Bytes32, index: nat): Bytes32 {
    if index % 2 == 0 then PiNode(keccak, current, sibling) else PiNode(keccak, sibling, current)
  }

  /** What the loop over the proof computes. */
  function Fold(keccak: Keccak, current: Bytes32, index: nat, proof: seq<Bytes32>): Bytes32
    decreases |proof|
  {
    if proof == [] then current else Fold(keccak, Combine(keccak, current, proof[0], index), index / 2, proof[1..])
  }

  method ComputePiRootFromProof(
    keccak: Keccak, id: int, contentHash: Bytes32, proof: seq<Bytes32>) returns (root: Option<Bytes32>)
    ensures root.Some? <==> 1 <= id <= MAX_ARCALS && |proof| == PI_TREE_HEIGHT
    ensures root.Some? ==> root.value == Fold(keccak, PiLeaf(keccak, id, contentHash), id - 1, proof)
  {
    if id < 1 || id > MAX_ARCALS || |proof| != PI_TREE_HEIGHT {
      return None;
    }
    var current: Bytes32 := PiLeaf(keccak, id, contentHash);
    var index := id - 1;
    for i := 0 to |proof|
      invariant index >= 0
      invariant Fold(keccak, current, index, proof[i..]) == Fold(keccak, PiLeaf(keccak, id, contentHash), id - 1, proof)
    {
      assert proof[i..][1..] == proof[i + 1..];
      current := if index % 2 == 0 then PiNode(keccak, current, proof[i]) else PiNode(keccak, proof[i], current);
      index := index / 2;
    }
    return Some(current);
  }

  /** None where the program throws. */
  method VerifyPiProof(keccak: Keccak, id: int, packed: seq<byte>, proof: seq<Bytes32>, expectedRoot: Bytes32)
    returns (valid: Option<bool>)
    ensures valid.None? <==> IsPackedPi(packed) && !(1 <= id <= MAX_ARCALS && |proof| == PI_TREE_HEIGHT)
    ensures valid == Some(true) <==> 1 <= id <= MAX_ARCALS && Accepts(keccak, id, packed, proof, expectedRoot)
  {
    if !IsPackedPi(packed) {
      return Some(false);
    }
    var root := ComputePiRootFromProof(keccak, id, keccak(packed), proof);
    if root.None? {
      return None;
    }
    return Some(root.value == expectedRoot);
  }

  predicate Accepts(keccak: Keccak, id: nat, packed: seq<byte>, proof: seq<Bytes32>, root: Bytes32) {
    && 1 <= id && IsPackedPi(packed) && |proof| == PI_TREE_HEIGHT
    && Fold(keccak, PiLeaf(keccak, id, keccak(packed)), id - 1, proof) == root
  }

  /** The index once the loop has consumed n siblings. */
  function HighBits(index: nat, n: nat): nat {
    if n == 0 then index else HighBits(index / 2, n - 1)
  }

  lemma {:induction false} TopBit(index: nat, n: nat)
    requires index < 2 * Pow2(n)
    ensures HighBits(index, n) == if index < Pow2(n) then 0 else 1
  {
    if n > 0 {
      TopBit(index / 2, n - 1);
    }
  }

  /** The last sibling is combined last, by the highest bit of the index. */
  lemma {:induction false} FoldLast(keccak: Keccak, current: Bytes32, index: nat, proof: seq<Bytes32>, last: Bytes32)
    ensures Fold(keccak, current, index, proof + [last])
      == Combine(keccak, Fold(keccak, current, index, proof), last, HighBits(index, |proof|))
    decreases |proof|
  {
    hide Combine;
    if proof == [] {
      assert proof + [last] == [last] && [last][1..] == [];
      assert Fold(keccak, current, index, [last]) == Fold(keccak, Combine(keccak, current, last, index), index / 2, []);
    } else {
      assert (proof + [last])[1..] == proof[1..] + [last] && (proof + [last])[0] == proof[0];
      FoldLast(keccak, Combine(keccak, current, proof[0], index), index / 2, proof[1..], last);
    }
  }

  /** Bits of the index above the height of the proof play no part. */
  lemma {:induction false} FoldIgnoresHighBits(
    keccak: Keccak, current: Bytes32, index: nat, high: nat, proof: seq<Bytes32>)
    ensures Fold(keccak, current, index + high * Pow2(|proof|), proof) == Fold(keccak, current, index, proof)
    decreases |proof|
  {
    hide PiNode;
    if proof != [] {
      var p := Pow2(|proof| - 1);
      EvenShift(index, high, p);
      FoldIgnoresHighBits(keccak, Combine(keccak, current, proof[0], index), index / 2, high, proof[1..]);
    }
  }

  lemma EvenShift(index: nat, high: nat, p: nat)
    ensures (index + high * (2 * p)) % 2 == index % 2
    ensures (index + high * (2 * p)) / 2 == index / 2 + high * p
  {
    assert high * (2 * p) == 2 * (high * p);
  }

  lemma LeftHalf(keccak: Keccak, current: Bytes32, index: nat, path: seq<Bytes32>, left: Bytes32, right: Bytes32)
    requires index < Pow2(|path|) && Fold(keccak, current, index, path) == left
    ensures Fold(keccak, current, index, path + [right]) == PiNode(keccak, left, right)
  {
    hide Fold, PiNode, Pow2;
    FoldLast(keccak, current, index, path, right);
    TopBit(index, |path|);
  }

  lemma RightHalf(keccak: Keccak, current: Bytes32, index: nat, path: seq<Bytes32>, left: Bytes32, right: Bytes32)
    requires index < Pow2(|path|) && Fold(keccak, current, index, path) == right
    ensures Fold(keccak, current, index + Pow2(|path|), path + [left]) == PiNode(keccak, left, right)
  {
    hide Fold, PiNode, Pow2;
    FoldLast(keccak, current, index + Pow2(|path|), path, left);
    TopBit(index + Pow2(|path|), |path|);
    FoldIgnoresHighBits(keccak, current, index, 1, path);
  }

  /** One level of the definitions, with the halves named. */
  lemma Level(keccak: Keccak, leaves: seq<Bytes32>, height: nat, index: nat)
    returns (left: seq<Bytes32>, right: seq<Bytes32>, half: nat)
    requires height > 0 && |leaves| == Pow2(height) && index < Pow2(height)
    ensures half == Pow2(height - 1) == |left| == |right|
    ensures leaves == left + right
    ensures Root(keccak, leaves, height) == PiNode(keccak, Root(keccak, left, height - 1), Root(keccak, right, height - 1))
    ensures index < half ==>
      leaves[index] == left[index]
      && Siblings(keccak, leaves, height, index) == Siblings(keccak, left, height - 1, index) + [Root(keccak, right, height - 1)]
    ensures index >= half ==>
      index - half < half && leaves[index] == right[index - half]
      && Siblings(keccak, leaves, height, index) == Siblings(keccak, right, height - 1, index - half) + [Root(keccak, left, height - 1)]
  {
    hide PiNode;
    half := Pow2(height - 1);
    left, right := leaves[..half], leaves[half..];
  }

  lemma SingleLeaf(keccak: Keccak, leaves: seq<Bytes32>, index: nat)
    requires |leaves| == Pow2(0) && index < Pow2(0)
    ensures Fold(keccak, leaves[index], index, Siblings(keccak, leaves, 0, index)) == Root(keccak, leaves, 0)
  {
  }

  /** Completeness: for a tree of any height, every leaf's honest path folds to the root. */
  lemma {:induction false} HonestPathFolds(keccak: Keccak, leaves: seq<Bytes32>, height: nat, index: nat)
    requires |leaves| == Pow2(height) && index < Pow2(height)
    ensures Fold(keccak, leaves[index], index, Siblings(keccak, leaves, height, index)) == Root(keccak, leaves, height)
    decreases height
  {
    hide Fold, PiNode, Combine, Root, Siblings, Pow2;
    if height == 0 {
      SingleLeaf(keccak, leaves, index);
    } else {
      var left, right, half := Level(keccak, leaves, height, index);
      var l, r := Root(keccak, left, height - 1), Root(keccak, right, height - 1);
      if index < half {
        HonestPathFolds(keccak, left, height - 1, index);
        LeftHalf(keccak, left[index], index, Siblings(keccak, left, height - 1, index), l, r);
      } else {
        HonestPathFolds(keccak, right, height - 1, index - half);
        RightHalf(keccak, right[index - half], index - half, Siblings(keccak, right, height - 1, index - half), l, r);
      }
    }
  }

  predicate Collision(keccak: Keccak, a: seq<byte>, b: seq<byte>) {
    a != b && keccak(a) == keccak(b)
  }

  lemma NodeInputsDiffer(a: Bytes32, b: Bytes32, c: Bytes32, d: Bytes32)
    requires a != c || b != d
    ensures NodeInput(a, b) != NodeInput(c, d)
  {
    assert NodeInput(a, b)[1..33] == a && NodeInput(a, b)[33..] == b;
    assert NodeInput(c, d)[1..33] == c && NodeInput(c, d)[33..] == d;
  }

  /** Two different values at one index that fold to one root give a collision of the node hash. */
  lemma {:induction false} FoldCollision(
    keccak: Keccak, a: Bytes32, b: Bytes32, index: nat, p: seq<Bytes32>, q: seq<Bytes32>)
    returns (x: seq<byte>, y: seq<byte>)
    requires |p| == |q| && a != b && Fold(keccak, a, index, p) == Fold(keccak, b, index, q)
    ensures Collision(keccak, x, y)
    decreases |p|
  {
    var c, d := Combine(keccak, a, p[0], index), Combine(keccak, b, q[0], index);
    if c == d {
      if index % 2 == 0 {
        NodeInputsDiffer(a, p[0], b, q[0]);
        x, y := NodeInput(a, p[0]), NodeInput(b, q[0]);
      } else {
        NodeInputsDiffer(p[0], a, q[0], b);
        x, y := NodeInput(p[0], a), NodeInput(q[0], b);
      }
    } else {
      x, y := FoldCollision(keccak, c, d, index / 2, p[1..], q[1..]);
    }
  }

  lemma LeafInputsDiffer(id: nat, a: Bytes32, b: Bytes32)
    requires a != b
    ensures LeafInput(id, a) != LeafInput(id, b)
  {
    assert LeafInput(id, a)[5..] == a && LeafInput(id, b)[5..] == b;
  }

  /** Soundness: two contents accepted for one Arcal under one root exhibit a Keccak collision. */
  lemma SecondContentIsACollision(
    keccak: Keccak, id: nat, root: Bytes32, packed: seq<byte>, proof: seq<Bytes32>, other: seq<byte>, otherProof: seq<Bytes32>)
    returns (x: seq<byte>, y: seq<byte>)
    requires Accepts(keccak, id, packed, proof, root) && Accepts(keccak, id, other, otherProof, root) && packed != other
    ensures Collision(keccak, x, y)
  {
    var a, b := keccak(packed), keccak(other);
    if a == b {
      return packed, other;
    }
    if PiLeaf(keccak, id, a) == PiLeaf(keccak, id, b) {
      LeafInputsDiffer(id, a, b);
      return LeafInput(id, a), LeafInput(id, b);
    }
    x, y := FoldCollision(keccak, PiLeaf(keccak, id, a), PiLeaf(keccak, id, b), id - 1, proof, otherProof);
  }

  /** A tree of this height that commits to `packed` as the content of Arcal `id`. */
  ghost predicate Commits(keccak: Keccak, leaves: seq<Bytes32>, height: nat, id: nat, packed: seq<byte>) {
    && |leaves| == Pow2(height) && 1 <= id <= |leaves|
    && leaves[id - 1] == PiLeaf(keccak, id, keccak(packed))
  }

  lemma CommittedContentIsAccepted(keccak: Keccak, leaves: seq<Bytes32>, height: nat, id: nat, packed: seq<byte>)
    requires height == PI_TREE_HEIGHT && Commits(keccak, leaves, height, id, packed) && IsPackedPi(packed)
    ensures Accepts(keccak, id, packed, Siblings(keccak, leaves, height, id - 1), Root(keccak, leaves, height))
  {
    hide Root, Siblings, Pow2, PiLeaf, Fold, IsPackedPi;
    HonestPathFolds(keccak, leaves, height, id - 1);
  }

  /** The verifier accepts exactly the committed content: anything else, under any proof, comes with a Keccak collision. */
  lemma OnlyCommittedContent(
    keccak: Keccak, leaves: seq<Bytes32>, height: nat, id: nat, packed: seq<byte>, other: seq<byte>, proof: seq<Bytes32>)
    returns (x: seq<byte>, y: seq<byte>)
    requires height == PI_TREE_HEIGHT && Commits(keccak, leaves, height, id, packed) && IsPackedPi(packed)
    requires Accepts(keccak, id, other, proof, Root(keccak, leaves, height))
    ensures other == packed || Collision(keccak, x, y)
  {
    hide Root, Siblings, Pow2, PiLeaf, Fold, IsPackedPi, Accepts, Collision;
    x, y := [], [];
    CommittedContentIsAccepted(keccak, leaves, height, id, packed);
    if other != packed {
      x, y := SecondContentIsACollision(
        keccak, id, Root(keccak, leaves, height), packed, Siblings(keccak, leaves, height, id - 1), other, proof);
    }
  }
}
