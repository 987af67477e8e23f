/** The art commitment: positional Merkle trees of any size, an odd last node being paired with itself. */
module Merkle {
  import opened Base
  import opened Arithmetic

  // ----- collisions

  /**
   Two different byte strings with one hash, one of them among `xs` and the other among `ys`. The
   soundness results below end in this alternative instead of assuming that no collision exists.
   */
  ghost predicate Collides(sha: Hash, xs: set<Bytes>, ys: set<Bytes>) {
    exists x, y :: x in xs && y in ys && x != y && sha(x) == sha(y)
  }

  lemma CollidesIn(sha: Hash, x: Bytes, y: Bytes, xs: set<Bytes>, ys: set<Bytes>)
    requires x in xs && y in ys && x != y && sha(x) == sha(y)
    ensures Collides(sha, xs, ys)
  {
  }

  lemma CollidesMonotone(sha: Hash, xs: set<Bytes>, ys: set<Bytes>, xs': set<Bytes>, ys': set<Bytes>)
    requires Collides(sha, xs, ys) && xs <= xs' && ys <= ys'
    ensures Collides(sha, xs', ys')
  {
    var x, y :| x in xs && y in ys && x != y && sha(x) == sha(y);
    CollidesIn(sha, x, y, xs', ys');
  }

  // ----- the tree

  function NodeInput(left: Digest, right: Digest): Bytes {
    [1] + left + right
  }

  function NodeHash(sha: Hash, left: Digest, right: Digest): Digest {
    sha(NodeInput(left, right))
  }

  lemma NodeInputInjective(l: Digest, r: Digest, l': Digest, r': Digest)
    requires NodeInput(l, r) == NodeInput(l', r')
    ensures l == l' && r == r'
  {
    var a, b := NodeInput(l, r), NodeInput(l', r');
    assert a[1..33] == l && b[1..33] == l';
    assert a[33..] == r && b[33..] == r';
  }

  /** Two nodes make one of the next level; an odd last node is its own partner. */
  function NextLevel(sha: Hash, level: seq<Digest>): (next: seq<Digest>)
    ensures |next| == (|level| + 1) / 2
  {
    if level == [] then []
    else if |level| == 1 then [NodeHash(sha, level[0], level[0])]
    else [NodeHash(sha, level[0], level[1])] + NextLevel(sha, level[2..])
  }

  function Root(sha: Hash, leaves: seq<Digest>): Digest
    requires leaves != []
    decreases |leaves|
  {
    if |leaves| == 1 then leaves[0] else Root(sha, NextLevel(sha, leaves))
  }

  /** The other node of the pair that node `i` belongs to. */
  function Sibling(level: seq<Digest>, i: nat): Digest
    requires i < |level|
  {
    if i % 2 == 1 then level[i - 1] else if i + 1 < |level| then level[i + 1] else level[i]
  }

  function ProofOf(sha: Hash, leaves: seq<Digest>, i: nat): seq<Digest>
    requires i < |leaves|
    decreases |leaves|
  {
    if |leaves| == 1 then [] else [Sibling(leaves, i)] + ProofOf(sha, NextLevel(sha, leaves), i / 2)
  }

  /** Every byte string hashed to obtain the next level. */
  ghost function LevelInputs(level: seq<Digest>): set<Bytes> {
    if level == [] then {}
    else if |level| == 1 then {NodeInput(level[0], level[0])}
    else {NodeInput(level[0], level[1])} + LevelInputs(level[2..])
  }

  /** Every byte string hashed while the tree over `leaves` is built. */
  ghost function TreeInputs(sha: Hash, leaves: seq<Digest>): set<Bytes>
    decreases |leaves|
  {
    if |leaves| <= 1 then {} else LevelInputs(leaves) + TreeInputs(sha, NextLevel(sha, leaves))
  }

  // ----- verifying a proof

  function PairInput(node: Digest, i: nat, sibling: Digest): Bytes {
    if i % 2 == 0 then NodeInput(node, sibling) else NodeInput(sibling, node)
  }

  function Fold(sha: Hash, node: Digest, i: nat, proof: seq<Digest>): Digest
    decreases |proof|
  {
    if proof == [] then node else Fold(sha, sha(PairInput(node, i, proof[0])), i / 2, proof[1..])
  }

  /** Every byte string hashed while a proof is verified. */
  ghost function PathInputs(sha: Hash, node: Digest, i: nat, proof: seq<Digest>): set<Bytes>
    decreases |proof|
  {
    if proof == [] then {}
    else {PairInput(node, i, proof[0])} + PathInputs(sha, sha(PairInput(node, i, proof[0])), i / 2, proof[1..])
  }

  /** How many levels lie above `size` leaves. */
  function Depth(size: nat): nat {
    if size <= 1 then 0 else 1 + Depth((size + 1) / 2)
  }

  /** The depth is the least `d` with `size <= 2^d`. */
  lemma {:induction false} DepthIsLeast(size: nat)
    ensures size <= Pow2(Depth(size))
    ensures forall d :: 0 <= d < Depth(size) ==> Pow2(d) < size
  {
    if size > 1 {
      var half := (size + 1) / 2;
      DepthIsLeast(half);
      forall d | 0 <= d < Depth(size)
        ensures Pow2(d) < size
      {
        if d > 0 {
          assert Pow2(d - 1) < half;
        }
      }
    }
  }

  method DepthFor(size: u32) returns (d: nat)
    ensures d == Depth(size)
  {
    d := 0;
    var power := 1;
    DepthIsLeast(size);
    while power < size
      invariant power == Pow2(d) && d <= Depth(size)
      decreases Depth(size) - d
    {
      d := d + 1;
      power := 2 * power;
    }
  }

  predicate Verifies(sha: Hash, leaf: Digest, index: u32, size: u32, proof: seq<Digest>, root: Digest) {
    index < size && |proof| == Depth(size) && Fold(sha, leaf, index, proof) == root
  }

  method Verify(sha: Hash, leaf: Digest, index: u32, size: u32, proof: seq<Digest>, root: Digest) returns (ok: bool)
    ensures ok <==> Verifies(sha, leaf, index, size, proof, root)
  {
    var depth := DepthFor(size);
    if index >= size || |proof| != depth {
      return false;
    }
    var node: Digest, i: nat := leaf, index;
    for k := 0 to |proof|
      invariant Fold(sha, node, i, proof[k..]) == Fold(sha, leaf, index, proof)
    {
      node := if i % 2 == 0 then NodeHash(sha, node, proof[k]) else NodeHash(sha, proof[k], node);
      i := i / 2;
      assert proof[k..][1..] == proof[k + 1..];
    }
    ok := node == root;
  }

  // ----- building the tree and all proofs

  function Levels(sha: Hash, leaves: seq<Digest>): (levels: seq<seq<Digest>>)
    requires leaves != []
    ensures |levels| >= 1 && levels[0] == leaves
    decreases |leaves|
  {
    if |leaves| == 1 then [leaves] else [leaves] + Levels(sha, NextLevel(sha, leaves))
  }

  lemma {:induction false} LevelsShape(sha: Hash, leaves: seq<Digest>)
    requires leaves != []
    ensures var levels := Levels(sha, leaves);
            && (forall k :: 0 <= k < |levels| - 1 ==> |levels[k]| > 1 && levels[k + 1] == NextLevel(sha, levels[k]))
            && |levels[|levels| - 1]| == 1 && levels[|levels| - 1][0] == Root(sha, leaves)
    decreases |leaves|
  {
    if |leaves| > 1 {
      LevelsShape(sha, NextLevel(sha, leaves));
      var levels, rest := Levels(sha, leaves), Levels(sha, NextLevel(sha, leaves));
      forall k | 0 <= k < |levels| - 1
        ensures |levels[k]| > 1 && levels[k + 1] == NextLevel(sha, levels[k])
      {
        assert levels[k + 1] == rest[k];
        if k > 0 {
          assert levels[k] == rest[k - 1];
        }
      }
    }
  }

  method Build(sha: Hash, leaves: seq<Digest>) returns (root: Digest, proofs: seq<seq<Digest>>)
    requires leaves != []
    ensures root == Root(sha, leaves)
    ensures |proofs| == |leaves| && forall i :: 0 <= i < |leaves| ==> proofs[i] == ProofOf(sha, leaves, i)
  {
    hide ProofOf, Root, NextLevel;
    var levels := BuildLevels(sha, leaves);
    LevelsShape(sha, leaves);
    root := levels[|levels| - 1][0];
    proofs := [];
    for i := 0 to |leaves|
      invariant |proofs| == i && forall j :: 0 <= j < i ==> proofs[j] == ProofOf(sha, leaves, j)
    {
      var p := BuildProof(sha, levels, i);
      proofs := proofs + [p];
    }
  }

  method BuildProof(sha: Hash, levels: seq<seq<Digest>>, index: nat) returns (p: seq<Digest>)
    requires levels != [] && |levels[|levels| - 1]| == 1 && index < |levels[0]|
    requires forall k :: 0 <= k < |levels| - 1 ==> |levels[k]| > 1 && levels[k + 1] == NextLevel(sha, levels[k])
    ensures p == ProofOf(sha, levels[0], index)
  {
    hide NextLevel;
    p := [];
    var i := index;
    for k := 0 to |levels| - 1
      invariant 0 <= i < |levels[k]| && p + ProofOf(sha, levels[k], i) == ProofOf(sha, levels[0], index)
    {
      ghost var before, rest := p, ProofOf(sha, levels[k + 1], i / 2);
      assert ProofOf(sha, levels[k], i) == [Sibling(levels[k], i)] + rest;
      p := p + [Sibling(levels[k], i)];
      assert p + rest == before + ([Sibling(levels[k], i)] + rest);
      i := i / 2;
    }
  }

  method BuildLevels(sha: Hash, leaves: seq<Digest>) returns (levels: seq<seq<Digest>>)
    requires leaves != []
    ensures levels == Levels(sha, leaves)
  {
    hide NextLevel;
    levels := [leaves];
    while |levels[|levels| - 1]| > 1
      invariant |levels| >= 1 && levels[|levels| - 1] != []
      invariant levels[..|levels| - 1] + Levels(sha, levels[|levels| - 1]) == Levels(sha, leaves)
      decreases |levels[|levels| - 1]|
    {
      var top := levels[|levels| - 1];
      var next := NextLevel(sha, top);
      assert levels == levels[..|levels| - 1] + [top];
      levels := levels + [next];
      assert levels[..|levels| - 1] + Levels(sha, next) == levels[..|levels| - 2] + ([top] + Levels(sha, next));
    }
    assert levels == levels[..|levels| - 1] + [levels[|levels| - 1]];
  }

  // ----- completeness and soundness

  lemma {:induction false} NextLevelAt(sha: Hash, level: seq<Digest>, i: nat)
    requires i < |level|
    ensures NextLevel(sha, level)[i / 2] == sha(PairInput(level[i], i, Sibling(level, i)))
    ensures PairInput(level[i], i, Sibling(level, i)) in LevelInputs(level)
  {
    if i >= 2 {
      NextLevelAt(sha, level[2..], i - 2);
      assert Sibling(level[2..], i - 2) == Sibling(level, i);
      assert PairInput(level[i], i - 2, Sibling(level, i)) == PairInput(level[i], i, Sibling(level, i));
      assert i / 2 == 1 + (i - 2) / 2;
    }
  }

  /** Every proof the builder produces is accepted. */
  lemma {:induction false} Complete(sha: Hash, leaves: seq<Digest>, i: nat)
    requires i < |leaves|
    ensures |ProofOf(sha, leaves, i)| == Depth(|leaves|)
    ensures Fold(sha, leaves[i], i, ProofOf(sha, leaves, i)) == Root(sha, leaves)
    decreases |leaves|
  {
    if |leaves| > 1 {
      Complete(sha, NextLevel(sha, leaves), i / 2);
      NextLevelAt(sha, leaves, i);
      assert ProofOf(sha, leaves, i)[1..] == ProofOf(sha, NextLevel(sha, leaves), i / 2);
    }
  }

  lemma PairInputInjective(a: Digest, s: Digest, b: Digest, t: Digest, i: nat)
    requires PairInput(a, i, s) == PairInput(b, i, t)
    ensures a == b && s == t
  {
    if i % 2 == 0 {
      NodeInputInjective(a, s, b, t);
    } else {
      NodeInputInjective(s, a, t, b);
    }
  }

  /**
   A node and proof that reach the root from position `i` are that position's own node and proof,
   unless a string hashed on the path collides with one hashed in the tree.
   */
  lemma {:induction false} Sound(sha: Hash, leaves: seq<Digest>, node: Digest, i: nat, proof: seq<Digest>)
    requires i < |leaves| && |proof| == Depth(|leaves|)
    requires Fold(sha, node, i, proof) == Root(sha, leaves)
    ensures (node == leaves[i] && proof == ProofOf(sha, leaves, i))
            || Collides(sha, PathInputs(sha, node, i, proof), TreeInputs(sha, leaves))
    decreases |leaves|
  {
    if |leaves| > 1 {
      var next := NextLevel(sha, leaves);
      var input := PairInput(node, i, proof[0]);
      Sound(sha, next, sha(input), i / 2, proof[1..]);
      if sha(input) == next[i / 2] && proof[1..] == ProofOf(sha, next, i / 2) {
        NextLevelAt(sha, leaves, i);
        var treeInput := PairInput(leaves[i], i, Sibling(leaves, i));
        if input == treeInput {
          PairInputInjective(node, proof[0], leaves[i], Sibling(leaves, i), i);
          assert proof == [proof[0]] + proof[1..];
        } else {
          CollidesIn(sha, input, treeInput, PathInputs(sha, node, i, proof), TreeInputs(sha, leaves));
        }
      } else {
        CollidesMonotone(sha, PathInputs(sha, sha(input), i / 2, proof[1..]), TreeInputs(sha, next),
                         PathInputs(sha, node, i, proof), TreeInputs(sha, leaves));
      }
    }
  }

  // ----- the same tree, level by level and bit by bit

  /** Where the partner of node `x` stands on a level of `len` nodes; an odd last node is its own partner. */
  function Partner(x: nat, len: nat): (y: nat)
    requires x < len
    ensures y < len
  {
    if x % 2 == 1 then x - 1 else if x + 1 < len then x + 1 else x
  }

  /** `next` lies above `level`: its node `j` hashes the nodes `2j` and `2j + 1`, or an odd last one with itself. */
  ghost predicate LiesAbove(sha: Hash, next: seq<Digest>, level: seq<Digest>) {
    && |next| == (|level| + 1) / 2
    && forall j :: 0 <= j < |next| ==> next[j] == sha([1] + level[2 * j] + level[Partner(2 * j, |level|)])
  }

  lemma NextLiesAbove(sha: Hash, level: seq<Digest>)
    ensures LiesAbove(sha, NextLevel(sha, level), level)
  {
    hide NextLevel;
    forall j | 0 <= j < |NextLevel(sha, level)|
      ensures NextLevel(sha, level)[j] == sha([1] + level[2 * j] + level[Partner(2 * j, |level|)])
    {
      NextLevelAt(sha, level, 2 * j);
    }
  }

  /** The tree: the leaves below, each level above the one before it, the root alone on the last. */
  lemma TreeByLevels(sha: Hash, leaves: seq<Digest>)
    requires leaves != []
    ensures var levels := Levels(sha, leaves);
            && levels[0] == leaves && levels[|levels| - 1] == [Root(sha, leaves)]
            && forall k :: 0 <= k < |levels| - 1 ==> |levels[k]| > 1 && LiesAbove(sha, levels[k + 1], levels[k])
  {
    hide Root, NextLevel, Levels, LiesAbove;
    LevelsShape(sha, leaves);
    var levels := Levels(sha, leaves);
    forall k | 0 <= k < |levels| - 1
      ensures LiesAbove(sha, levels[k + 1], levels[k])
    {
      NextLiesAbove(sha, levels[k]);
    }
  }

  /** The proof of leaf `i` is read off the levels: on each, the partner of the node above the leaf. */
  lemma {:induction false} ProofByLevels(sha: Hash, leaves: seq<Digest>, i: nat, k: nat)
    requires i < |leaves| && k < |Levels(sha, leaves)| - 1
    ensures |ProofOf(sha, leaves, i)| == |Levels(sha, leaves)| - 1
    ensures var level := Levels(sha, leaves)[k];
            i / Pow2(k) < |level| && ProofOf(sha, leaves, i)[k] == level[Partner(i / Pow2(k), |level|)]
    decreases |leaves|
  {
    var next := NextLevel(sha, leaves);
    if |next| > 1 {
      ProofByLevels(sha, next, i / 2, if k == 0 then 0 else k - 1);
    }
    if k > 0 {
      Halve(i, Pow2(k - 1));
    }
  }

  /** The nodes on the way from a leaf to the top: bit `k` of the index says on which side node `k` stands. */
  ghost predicate Walk(sha: Hash, nodes: seq<Digest>, i: nat, proof: seq<Digest>) {
    && |nodes| == |proof| + 1
    && forall k :: 0 <= k < |proof| ==>
         nodes[k + 1] == if i / Pow2(k) % 2 == 0 then sha([1] + nodes[k] + proof[k]) else sha([1] + proof[k] + nodes[k])
  }

  lemma {:induction false} FoldIsWalk(sha: Hash, node: Digest, i: nat, proof: seq<Digest>) returns (nodes: seq<Digest>)
    ensures Walk(sha, nodes, i, proof) && nodes[0] == node && nodes[|proof|] == Fold(sha, node, i, proof)
    decreases |proof|
  {
    if proof == [] {
      nodes := [node];
    } else {
      var rest := FoldIsWalk(sha, sha(PairInput(node, i, proof[0])), i / 2, proof[1..]);
      nodes := [node] + rest;
      forall k | 0 <= k < |proof|
        ensures nodes[k + 1]
                == if i / Pow2(k) % 2 == 0 then sha([1] + nodes[k] + proof[k]) else sha([1] + proof[k] + nodes[k])
      {
        if k > 0 {
          Halve(i, Pow2(k - 1));
          assert rest[k] == nodes[k + 1] && rest[k - 1] == nodes[k] && proof[1..][k - 1] == proof[k];
        } else {
          assert i / Pow2(0) == i;
        }
      }
    }
  }

  lemma {:induction false} WalkIsUnique(sha: Hash, a: seq<Digest>, b: seq<Digest>, i: nat, proof: seq<Digest>, k: nat)
    requires Walk(sha, a, i, proof) && Walk(sha, b, i, proof) && a[0] == b[0] && k <= |proof|
    ensures a[k] == b[k]
  {
    if k > 0 {
      WalkIsUnique(sha, a, b, i, proof, k - 1);
    }
  }

  /** The walk from `leaf` along `proof` ends in `root`. */
  ghost predicate LeadsTo(sha: Hash, leaf: Digest, i: nat, proof: seq<Digest>, root: Digest) {
    exists nodes: seq<Digest> :: Walk(sha, nodes, i, proof) && nodes[0] == leaf && nodes[|proof|] == root
  }

  lemma DepthByPowers(size: nat, d: nat)
    requires size > 0
    ensures Depth(size) == d <==> size <= Pow2(d) && (d > 0 ==> Pow2(d - 1) < size)
  {
    hide Depth, Pow2;
    DepthIsLeast(size);
    if Depth(size) < d {
      Pow2Monotone(Depth(size), d - 1);
    }
  }

  lemma LeadsToFold(sha: Hash, leaf: Digest, i: nat, proof: seq<Digest>, root: Digest)
    ensures LeadsTo(sha, leaf, i, proof, root) <==> Fold(sha, leaf, i, proof) == root
  {
    hide Fold, Pow2;
    var nodes := FoldIsWalk(sha, leaf, i, proof);
    if LeadsTo(sha, leaf, i, proof, root) {
      var other: seq<Digest> :| Walk(sha, other, i, proof) && other[0] == leaf && other[|proof|] == root;
      WalkIsUnique(sha, nodes, other, i, proof, |proof|);
    }
  }

  /** Acceptance in plain terms: an index in range, a proof of the least length, a walk that ends in the root. */
  lemma VerifiesExactly(sha: Hash, leaf: Digest, index: u32, size: u32, proof: seq<Digest>, root: Digest)
    ensures Verifies(sha, leaf, index, size, proof, root)
            <==> && index < size <= Pow2(|proof|) && (proof != [] ==> Pow2(|proof| - 1) < size)
                 && LeadsTo(sha, leaf, index, proof, root)
  {
    hide Fold, LeadsTo, Depth;
    if index < size {
      DepthByPowers(size, |proof|);
    }
    LeadsToFold(sha, leaf, index, proof, root);
  }
}
