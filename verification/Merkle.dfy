/**
 Merkle roots (crates/meshmine-hns/src/merkle.rs) and shard proofs
 (crates/meshmine-body/src/availability.rs). Hashing is ideal: digests of
 different inputs or different domains are different, which a datatype of
 digests captures exactly.
 */
module Merkle {
  import opened Arith
  import opened Bits
  import opened Bytes

  datatype Digest =
    | Raw(id: nat)
    | Empty
    | Leaf(leaf: Digest)
    | Node(left: Digest, right: Digest)
    | Shard(body: Digest, index: nat, bytes: seq<Byte>)

  datatype ShardProof = ShardProof(shardIndex: nat, totalShards: nat, siblings: seq<Digest>)

  // ---- What the tree is ----

  function Hashed(leaves: seq<Digest>): (level: seq<Digest>)
    ensures |level| == |leaves| && forall i :: 0 <= i < |level| ==> level[i] == Leaf(leaves[i])
  {
    seq(|leaves|, i requires 0 <= i < |leaves| => Leaf(leaves[i]))
  }

  function NodeAt(level: seq<Digest>, i: nat): Digest { if i < |level| then level[i] else Empty }

  /** The next level: neighbours are joined, a last odd node is joined with the empty digest. */
  function Pairs(level: seq<Digest>): (next: seq<Digest>)
    ensures |next| == (|level| + 1) / 2
    ensures forall i :: 0 <= i < |next| ==> next[i] == Node(NodeAt(level, 2 * i), NodeAt(level, 2 * i + 1))
  {
    seq((|level| + 1) / 2, i requires 0 <= i < (|level| + 1) / 2 => Node(NodeAt(level, 2 * i),
                                                                         NodeAt(level, 2 * i + 1)))
  }

  function Top(level: seq<Digest>): Digest
    requires level != []
    decreases |level|
  {
    if |level| == 1 then level[0] else Top(Pairs(level))
  }

  function Root(leaves: seq<Digest>): Digest {
    if leaves == [] then Empty else Top(Hashed(leaves))
  }

  function Height(n: nat): nat
    requires n > 0
  {
    if n == 1 then 0 else 1 + Height((n + 1) / 2)
  }

  /** `position ^ 1`. */
  function Flip(position: nat): nat { if position % 2 == 0 then position + 1 else position - 1 }

  function Path(level: seq<Digest>, position: nat): seq<Digest>
    requires position < |level|
    decreases |level|
  {
    if |level| == 1 then [] else [NodeAt(level, Flip(position))] + Path(Pairs(level), position / 2)
  }

  function Join(node: Digest, position: nat, sibling: Digest): Digest {
    if position % 2 == 0 then Node(node, sibling) else Node(sibling, node)
  }

  function Climb(node: Digest, position: nat, siblings: seq<Digest>): Digest
    decreases |siblings|
  {
    if siblings == [] then node else Climb(Join(node, position, siblings[0]), position / 2, siblings[1..])
  }

  predicate Proves(leaf: Digest, proof: ShardProof, root: Digest) {
    Climb(Leaf(leaf), proof.shardIndex, proof.siblings) == root
  }

  // ---- Completeness ----

  lemma {:induction false} PathClimbs(level: seq<Digest>, position: nat)
    requires position < |level|
    ensures Climb(level[position], position, Path(level, position)) == Top(level)
    ensures |Path(level, position)| == Height(|level|)
    decreases |level|
  {
    if |level| > 1 {
      PathClimbs(Pairs(level), position / 2);
      var path := Path(level, position);
      assert path[1..] == Path(Pairs(level), position / 2);
      assert Join(level[position], position, path[0]) == Pairs(level)[position / 2];
    }
  }

  /** The proof made for a leaf verifies against the root. */
  lemma ProofComplete(leaves: seq<Digest>, index: nat)
    requires index < |leaves|
    ensures Proves(leaves[index], ShardProof(index, |leaves|, Path(Hashed(leaves), index)), Root(leaves))
  {
    PathClimbs(Hashed(leaves), index);
  }

  // ---- Binding ----

  /** Every leaf of the tree is at the same depth; only empty digests end a branch early. */
  predicate Shape(tree: Digest, depth: int) {
    match tree
    case Empty => true
    case Leaf(_) => depth == 0
    case Node(l, r) => depth > 0 && Shape(l, depth - 1) && Shape(r, depth - 1)
    case _ => false
  }

  lemma {:induction false} TopShape(level: seq<Digest>, depth: nat)
    requires level != [] && forall i :: 0 <= i < |level| ==> Shape(level[i], depth)
    ensures Shape(Top(level), depth + Height(|level|))
    decreases |level|
  {
    if |level| > 1 {
      TopShape(Pairs(level), depth + 1);
    }
  }

  lemma {:induction false} ClimbShape(node: Digest, position: nat, siblings: seq<Digest>, depth: int)
    requires Shape(Climb(node, position, siblings), depth)
    ensures Shape(node, depth - |siblings|)
    decreases |siblings|
  {
    if siblings != [] {
      ClimbShape(Join(node, position, siblings[0]), position / 2, siblings[1..], depth);
    }
  }

  /** Equal results from paths of equal length come from equal nodes and equal paths. */
  lemma {:induction false} ClimbInjective(a: Digest, b: Digest, position: nat, s: seq<Digest>, t: seq<Digest>)
    requires |s| == |t| && Climb(a, position, s) == Climb(b, position, t)
    ensures a == b && s == t
    decreases |s|
  {
    if s != [] {
      ClimbInjective(Join(a, position, s[0]), Join(b, position, t[0]), position / 2, s[1..], t[1..]);
      assert s == [s[0]] + s[1..] && t == [t[0]] + t[1..];
    }
  }

  /** The low bits of a position, which are all that a path of this height reads. */
  function Place(position: nat, height: nat): nat {
    if height == 0 then 0 else 2 * Place(position / 2, height - 1) + position % 2
  }

  lemma {:induction false} PlaceIsRemainder(position: nat, height: nat)
    ensures Place(position, height) == position % Pow2(height)
  {
    if height > 0 {
      PlaceIsRemainder(position / 2, height - 1);
      HalfPosition(position, Pow2(height - 1));
    }
  }

  lemma HalfPosition(position: nat, p: nat)
    requires p > 0
    ensures position % (2 * p) == 2 * (position / 2 % p) + position % 2
  {
    var q := position / 2;
    var r := q % p;
    assert q == p * (q / p) + r && position == 2 * q + position % 2;
    assert position == 2 * p * (q / p) + (2 * r + position % 2) by {
      assert 2 * (p * (q / p)) == 2 * p * (q / p);
    }
    DivModUnique(position, 2 * p, q / p, 2 * r + position % 2);
  }

  /** Positions within a level are read as they are. */
  lemma {:induction false} PlaceWithin(n: nat, position: nat)
    requires position < n
    ensures Place(position, Height(n)) == position
    decreases n
  {
    if n > 1 {
      PlaceWithin((n + 1) / 2, position / 2);
    }
  }

  /** The node at this place, with the honest siblings. */
  predicate Honest(level: seq<Digest>, node: Digest, i: nat, siblings: seq<Digest>) {
    i < |level| && level[i] == node && siblings == Path(level, i)
  }

  lemma PlaceStep(level: seq<Digest>, position: nat)
    requires |level| > 1
    ensures Height(|level|) == 1 + Height(|Pairs(level)|)
    ensures Place(position, Height(|level|)) == 2 * Place(position / 2, Height(|Pairs(level)|)) + position % 2
  {
  }

  lemma HonestStep(level: seq<Digest>, node: Digest, position: nat, siblings: seq<Digest>, j: nat)
    requires |level| > 1 && node != Empty && siblings != []
    requires Honest(Pairs(level), Join(node, position, siblings[0]), j, siblings[1..])
    ensures Honest(level, node, 2 * j + position % 2, siblings)
  {
    JoinBinds(level, node, position, siblings[0], j);
    FirstSibling(siblings);
  }

  /** A path of the tree's height leads to the top only from the node at its position, with the honest siblings. */
  lemma {:induction false} ClimbBinds(level: seq<Digest>, node: Digest, position: nat, siblings: seq<Digest>)
    requires level != [] && node != Empty && |siblings| == Height(|level|)
             && Climb(node, position, siblings) == Top(level)
    ensures Honest(level, node, Place(position, Height(|level|)), siblings)
    decreases |level|
  {
    if |level| > 1 {
      PlaceStep(level, position);
      ClimbBinds(Pairs(level), Join(node, position, siblings[0]), position / 2, siblings[1..]);
      HonestStep(level, node, position, siblings, Place(position / 2, Height(|Pairs(level)|)));
    }
  }

  lemma FirstSibling(siblings: seq<Digest>)
    requires siblings != []
    ensures siblings == [siblings[0]] + siblings[1..]
  {
  }

  /** The two nodes joined at a place, and which of them was on the path. */
  lemma JoinBinds(level: seq<Digest>, node: Digest, position: nat, sibling: Digest, j: nat)
    requires node != Empty && |level| > 1 && j < |Pairs(level)| && Pairs(level)[j] == Join(node, position, sibling)
    ensures var i := 2 * j + position % 2;
            && i < |level| && level[i] == node && Path(level, i) == [sibling] + Path(Pairs(level), j)
  {
    var i := 2 * j + position % 2;
    JoinedNodes(level, node, position, sibling, j);
    PathUnfolds(level, i, j);
  }

  lemma JoinedNodes(level: seq<Digest>, node: Digest, position: nat, sibling: Digest, j: nat)
    requires node != Empty && j < |Pairs(level)| && Pairs(level)[j] == Join(node, position, sibling)
    ensures var i := 2 * j + position % 2; i < |level| && level[i] == node && NodeAt(level, Flip(i)) == sibling
  {
    assert Pairs(level)[j] == Node(NodeAt(level, 2 * j), NodeAt(level, 2 * j + 1));
  }

  lemma PathUnfolds(level: seq<Digest>, i: nat, j: nat)
    requires |level| > 1 && i < |level| && (i == 2 * j || i == 2 * j + 1)
    ensures j < |Pairs(level)| && Path(level, i) == [NodeAt(level, Flip(i))] + Path(Pairs(level), j)
  {
    assert i / 2 == j;
  }

  lemma ProofHeight(leaves: seq<Digest>, leaf: Digest, proof: ShardProof)
    requires leaves != [] && Proves(leaf, proof, Root(leaves))
    ensures |proof.siblings| == Height(|leaves|)
  {
    TopShape(Hashed(leaves), 0);
    ClimbShape(Leaf(leaf), proof.shardIndex, proof.siblings, Height(|leaves|));
  }

  /**
   Whatever climbs to the root is the leaf at its own index, and its siblings are the honest ones. Only the low bits of
   the index are read, so the index itself is bound exactly if it is one of the leaves'.
   */
  lemma ProofBinds(leaves: seq<Digest>, leaf: Digest, proof: ShardProof)
    requires leaves != [] && Proves(leaf, proof, Root(leaves))
    ensures var i := Place(proof.shardIndex, Height(|leaves|));
            && i < |leaves| && leaves[i] == leaf && proof.siblings == Path(Hashed(leaves), i)
            && (proof.shardIndex < |leaves| <==> i == proof.shardIndex)
  {
    var level := Hashed(leaves);
    ProofHeight(leaves, leaf, proof);
    ClimbBinds(level, Leaf(leaf), proof.shardIndex, proof.siblings);
    if proof.shardIndex < |leaves| {
      PlaceWithin(|leaves|, proof.shardIndex);
    }
  }

  /** An index beyond the tree verifies like its low bits: the index needs its own check. */
  lemma IndexWraps(leaves: seq<Digest>, index: nat)
    requires leaves != [] && Place(index, Height(|leaves|)) < |leaves|
    ensures var i := Place(index, Height(|leaves|));
            Proves(leaves[i], ShardProof(index, |leaves|, Path(Hashed(leaves), i)), Root(leaves))
  {
    var i := Place(index, Height(|leaves|));
    PathClimbs(Hashed(leaves), i);
    PlaceWithin(|leaves|, i);
    ClimbWraps(Leaf(leaves[i]), i, index, Path(Hashed(leaves), i));
  }

  lemma {:induction false} ClimbWraps(node: Digest, i: nat, index: nat, siblings: seq<Digest>)
    requires Place(index, |siblings|) == Place(i, |siblings|)
    ensures Climb(node, index, siblings) == Climb(node, i, siblings)
    decreases |siblings|
  {
    if siblings != [] {
      ClimbWraps(Join(node, i, siblings[0]), i / 2, index / 2, siblings[1..]);
    }
  }

  // ---- The loops ----

  method HashLeaves(leaves: seq<Digest>) returns (level: seq<Digest>)
    ensures level == Hashed(leaves)
  {
    level := [];
    for i := 0 to |leaves|
      invariant level == Hashed(leaves)[..i]
    {
      level := level + [Leaf(leaves[i])];
    }
  }

  /** One pass over the chunks of two. */
  method NextLevel(level: seq<Digest>) returns (next: seq<Digest>)
    ensures next == Pairs(level)
  {
    next := [];
    var i := 0;
    while i < |level|
      invariant i == 2 * |next| && |next| <= |Pairs(level)| && next == Pairs(level)[..|next|]
    {
      var right := if i + 1 < |level| then level[i + 1] else Empty;
      next := next + [Node(level[i], right)];
      i := i + 2;
    }
  }

  method MerkleRoot(leaves: seq<Digest>) returns (root: Digest)
    ensures root == Root(leaves)
  {
    if leaves == [] {
      return Empty;
    }
    var level := HashLeaves(leaves);
    while |level| > 1
      invariant level != [] && Top(level) == Root(leaves)
      decreases |level|
    {
      level := NextLevel(level);
    }
    root := level[0];
  }

  lemma PathStep(siblings: seq<Digest>, level: seq<Digest>, position: nat)
    requires |level| > 1 && position < |level|
    ensures siblings + Path(level, position)
         == siblings + [NodeAt(level, Flip(position))] + Path(Pairs(level), position / 2)
  {
  }

  method CreateProof(leaves: seq<Digest>, index: nat) returns (proof: ShardProof)
    requires index < |leaves|
    ensures proof == ShardProof(index, |leaves|, Path(Hashed(leaves), index))
    ensures Proves(leaves[index], proof, Root(leaves))
  {
    var level := HashLeaves(leaves);
    var position: nat, siblings := index, [];
    while |level| > 1
      invariant position < |level| && Path(Hashed(leaves), index) == siblings + Path(level, position)
      decreases |level|
    {
      PathStep(siblings, level, position);
      siblings := siblings + [NodeAt(level, Flip(position))];
      level := NextLevel(level);
      position := position / 2;
    }
    ProofComplete(leaves, index);
    proof := ShardProof(index, |leaves|, siblings);
  }

  method VerifyProof(leaf: Digest, proof: ShardProof, expected: Digest) returns (ok: bool)
    ensures ok == Proves(leaf, proof, expected)
  {
    var root, position := Leaf(leaf), proof.shardIndex;
    for i := 0 to |proof.siblings|
      invariant Climb(root, position, proof.siblings[i..]) == Climb(Leaf(leaf), proof.shardIndex, proof.siblings)
    {
      root := if position % 2 == 0 then Node(root, proof.siblings[i]) else Node(proof.siblings[i], root);
      position := position / 2;
      assert proof.siblings[i..][1..] == proof.siblings[i + 1..];
    }
    ok := root == expected;
  }
}
