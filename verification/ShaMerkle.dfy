/**
 The off-chain integrity tree: SHA-256 over the concatenation of two hex
 strings, leaves in ledger order.
 */
module ShaMerkle {
  import opened Hashing
  import opened MerkleTree

  /** `pair_hash` as the pairing function of the tree. */
  function PairHash(h: Hashes): (string, string) -> string {
    (left, right) => h.sha256(left + right)
  }

  // ---- the loops

  method ComputeMerkleRoot(h: Hashes, leafHashes: seq<string>) returns (root: string)
    ensures leafHashes == [] ==> root == ""
    ensures leafHashes != [] ==> root == Root(PairHash(h), leafHashes)
  {
    if leafHashes == [] {
      return "";
    }
    root := ClimbToRoot(PairHash(h), leafHashes);
  }

  method MerkleProof(h: Hashes, leafHashes: seq<string>, index: int) returns (proof: Option<seq<string>>)
    ensures proof.Some? <==> 0 <= index < |leafHashes|
    ensures proof.Some? ==> proof.value == Proof(PairHash(h), leafHashes, index)
  {
    if !(0 <= index < |leafHashes|) {
      return None;  // IndexError
    }
    var siblings, root := ClimbCollecting(PairHash(h), leafHashes, index);
    return Some(siblings);
  }

  predicate Accepts(h: Hashes, leaf: string, proof: seq<string>, root: string, index: nat) {
    Fold(PairHash(h), leaf, proof, index) == root
  }

  method VerifyMerkleProof(h: Hashes, leaf: string, proof: seq<string>, root: string, index: nat)
    returns (ok: bool)
    ensures ok == Accepts(h, leaf, proof, root, index)
  {
    var node, idx := leaf, index;
    for k := 0 to |proof|
      invariant Fold(PairHash(h), node, proof[k..], idx) == Fold(PairHash(h), leaf, proof, index)
    {
      assert proof[k..][1..] == proof[k + 1..];
      node := if idx % 2 == 1 then h.sha256(proof[k] + node) else h.sha256(node + proof[k]);
      idx := idx / 2;
    }
    return node == root;
  }

  // ---- completeness

  lemma {:induction false} RoundTrip(h: Hashes, leaves: seq<string>, i: nat)
    requires i < |leaves|
    ensures
      var proof := Proof(PairHash(h), leaves, i);
      && Accepts(h, leaves[i], proof, Root(PairHash(h), leaves), i)
      && |leaves| <= Pow2(|proof|)
      && (|leaves| >= 2 ==> |proof| >= 1 && Pow2(|proof| - 1) < |leaves|)
      && (|leaves| == 1 ==> proof == [])
  {
    ProofFoldsToRoot(PairHash(h), leaves, i);
    ProofHasDepth(PairHash(h), leaves, i);
    DepthIsCeilLog2(|leaves|);
  }

  // ---- soundness

  /** The string hashed for node `j` of the level above. */
  function PairText(level: seq<string>, j: nat): string
    requires 2 * j < |level|
  {
    level[2 * j] + level[SiblingIndex(|level|, 2 * j)]
  }

  /** Every string hashed while the root is computed. */
  function TreeInputs(h: Hashes, level: seq<string>): set<string>
    decreases |level|
  {
    if |level| <= 1 then {}
    else (set j | 0 <= j < (|level| + 1) / 2 :: PairText(level, j)) + TreeInputs(h, Next(PairHash(h), level))
  }

  /** Every string hashed while a proof is replayed. */
  function ProofInputs(h: Hashes, node: string, proof: seq<string>, i: nat): set<string>
    decreases |proof|
  {
    if proof == [] then {}
    else
      var text := if i % 2 == 1 then proof[0] + node else node + proof[0];
      {text} + ProofInputs(h, h.sha256(text), proof[1..], i / 2)
  }

  /** Above the leaves, a proof of the right length can only start from the node that is there. */
  lemma {:induction false} ReplayReachesNode(h: Hashes, level: seq<string>, node: string, proof: seq<string>, i: nat)
    requires Sized(h)
    requires i < |level| && |proof| == Depth(|level|)
    requires |node| == |level[i]|
    requires Accepts(h, node, proof, Root(PairHash(h), level), i)
    requires NoCollision(h.sha256, TreeInputs(h, level) + ProofInputs(h, node, proof, i))
    ensures node == level[i]
    decreases |level|
  {
    if |level| > 1 {
      ReplayIsPairText(h, level, node, proof, i);
      var left, right := level[i / 2 * 2], level[SiblingIndex(|level|, i / 2 * 2)];
      if i % 2 == 1 {
        assert node == (proof[0] + node)[|proof[0]|..] && right == (left + right)[|left|..];
      } else {
        assert node == (node + proof[0])[..|node|] && left == (left + right)[..|left|];
      }
    }
  }

  /** The first string a replayed proof hashes is the very string the tree hashed there. */
  lemma {:induction false} ReplayIsPairText(h: Hashes, level: seq<string>, node: string, proof: seq<string>, i: nat)
    requires Sized(h)
    requires i < |level| && |level| > 1 && |proof| == Depth(|level|)
    requires Accepts(h, node, proof, Root(PairHash(h), level), i)
    requires NoCollision(h.sha256, TreeInputs(h, level) + ProofInputs(h, node, proof, i))
    ensures (if i % 2 == 1 then proof[0] + node else node + proof[0]) == PairText(level, i / 2)
    decreases |level|, 0
  {
    var next := Next(PairHash(h), level);
    var text := if i % 2 == 1 then proof[0] + node else node + proof[0];
    assert PairText(level, i / 2) in TreeInputs(h, level);
    assert next[i / 2] == h.sha256(PairText(level, i / 2));
    ReplayReachesNode(h, next, h.sha256(text), proof[1..], i / 2);
  }

  /** Binding at an index, with the length guard that makes it true. */
  lemma {:induction false} AcceptedLeafIsTheLeaf(h: Hashes, leaves: seq<string>, leaf: string, proof: seq<string>, i: nat)
    requires Sized(h)
    requires i < |leaves| && |proof| == Depth(|leaves|)
    requires Accepts(h, leaf, proof, Root(PairHash(h), leaves), i)
    requires NoCollision(h.sha256, TreeInputs(h, leaves) + ProofInputs(h, leaf, proof, i))
    ensures leaf == leaves[i] <==> |leaf| == |leaves[i]|
  {
    if |leaf| == |leaves[i]| {
      ReplayReachesNode(h, leaves, leaf, proof, i);
    }
  }

  /** The proof that passes `leaf` off for leaf `i`: cut the hashed pair at another place. */
  function RecutProof(h: Hashes, leaves: seq<string>, leaf: string, i: nat): seq<string>
    requires i < |leaves| && |leaves| > 1
    requires |leaf| <= |PairText(leaves, i / 2)|
  {
    var text := PairText(leaves, i / 2);
    [if i % 2 == 1 then text[..|text| - |leaf|] else text[|leaf|..]] + Proof(PairHash(h), Next(PairHash(h), leaves), i / 2)
  }

  /** `leaf` is the end (odd index) or the beginning (even index) of the pair hashed above leaf `i`. */
  predicate IsCutOfPair(leaves: seq<string>, leaf: string, i: nat)
    requires i < |leaves|
  {
    var text := PairText(leaves, i / 2);
    |leaf| <= |text| && leaf == if i % 2 == 1 then text[|text| - |leaf|..] else text[..|leaf|]
  }

  /**
   What index `i` really binds. `pair_hash` concatenates without a separator
   and the verifier does not look at the length of the leaf, so every cut of
   the concatenated pair is accepted by a proof of the right length ...
   */
  lemma {:induction false} EveryCutIsAccepted(h: Hashes, leaves: seq<string>, leaf: string, i: nat)
    requires i < |leaves| && |leaves| > 1
    requires IsCutOfPair(leaves, leaf, i)
    ensures |RecutProof(h, leaves, leaf, i)| == Depth(|leaves|)
    ensures Accepts(h, leaf, RecutProof(h, leaves, leaf, i), Root(PairHash(h), leaves), i)
  {
    var text, next, proof := PairText(leaves, i / 2), Next(PairHash(h), leaves), RecutProof(h, leaves, leaf, i);
    assert proof[1..] == Proof(PairHash(h), next, i / 2);
    assert text == if i % 2 == 1 then proof[0] + leaf else leaf + proof[0];
    ProofFoldsToRoot(PairHash(h), next, i / 2);
    ProofHasDepth(PairHash(h), next, i / 2);
  }

  /** ... and nothing else is. */
  lemma {:induction false} OnlyCutsAreAccepted(h: Hashes, leaves: seq<string>, leaf: string, proof: seq<string>, i: nat)
    requires Sized(h)
    requires i < |leaves| && |leaves| > 1 && |proof| == Depth(|leaves|)
    requires Accepts(h, leaf, proof, Root(PairHash(h), leaves), i)
    requires NoCollision(h.sha256, TreeInputs(h, leaves) + ProofInputs(h, leaf, proof, i))
    ensures IsCutOfPair(leaves, leaf, i)
  {
    ReplayIsPairText(h, leaves, leaf, proof, i);
  }

  // ---- what the root binds

  predicate AllDigests(level: seq<string>) {
    forall i :: 0 <= i < |level| ==> IsDigest(level[i])
  }

  /** The leaf at position `i` of the completed tree. */
  function LeafAt(level: seq<string>, i: nat): string
    requires level != []
  {
    level[Origin(|level|, i)]
  }

  ghost predicate SameCompletion(a: seq<string>, b: seq<string>)
    requires a != [] && b != []
  {
    forall i: nat :: i < Pow2(Depth(|a|)) ==> LeafAt(a, i) == LeafAt(b, i)
  }

  /** A node of the level above is the hash of the two completed positions below it. */
  lemma {:induction false} NodeAbove(h: Hashes, level: seq<string>, j: nat)
    requires |level| > 1
    ensures LeafAt(Next(PairHash(h), level), j) == h.sha256(LeafAt(level, 2 * j) + LeafAt(level, 2 * j + 1))
    ensures LeafAt(level, 2 * j) + LeafAt(level, 2 * j + 1) in TreeInputs(h, level)
  {
    var p := Origin((|level| + 1) / 2, j);
    assert 2 * j / 2 == j && (2 * j + 1) / 2 == j;
    assert Origin(|level|, 2 * j) == 2 * p && Origin(|level|, 2 * j + 1) == SiblingIndex(|level|, 2 * p);
    assert PairText(level, p) in TreeInputs(h, level);
  }

  /** Completions agree on a level exactly when they agree on the level above. */
  lemma {:induction false} CompletionUp(h: Hashes, a: seq<string>, b: seq<string>)
    requires |a| > 1 && |b| > 1 && SameCompletion(a, b)
    ensures SameCompletion(Next(PairHash(h), a), Next(PairHash(h), b))
  {
    hide Origin, LeafAt, Next, PairHash, TreeInputs;
    var na, nb := Next(PairHash(h), a), Next(PairHash(h), b);
    forall j: nat | j < Pow2(Depth(|na|)) ensures LeafAt(na, j) == LeafAt(nb, j) {
      NodeAbove(h, a, j);
      NodeAbove(h, b, j);
      assert LeafAt(a, 2 * j) == LeafAt(b, 2 * j) && LeafAt(a, 2 * j + 1) == LeafAt(b, 2 * j + 1);
    }
  }

  lemma {:induction false} ChildrenAgree(h: Hashes, a: seq<string>, b: seq<string>, j: nat)
    requires AllDigests(a) && AllDigests(b) && |a| > 1 && |b| > 1
    requires LeafAt(Next(PairHash(h), a), j) == LeafAt(Next(PairHash(h), b), j)
    requires NoCollision(h.sha256, TreeInputs(h, a) + TreeInputs(h, b))
    ensures LeafAt(a, 2 * j) == LeafAt(b, 2 * j) && LeafAt(a, 2 * j + 1) == LeafAt(b, 2 * j + 1)
  {
    hide Origin, Next, PairHash, TreeInputs;
    NodeAbove(h, a, j);
    NodeAbove(h, b, j);
    SplitPair(LeafAt(a, 2 * j), LeafAt(a, 2 * j + 1), LeafAt(b, 2 * j), LeafAt(b, 2 * j + 1));
  }

  lemma {:induction false} CompletionDown(h: Hashes, a: seq<string>, b: seq<string>)
    requires AllDigests(a) && AllDigests(b) && |a| > 1 && |b| > 1
    requires Depth(|a|) == Depth(|b|)
    requires SameCompletion(Next(PairHash(h), a), Next(PairHash(h), b))
    requires NoCollision(h.sha256, TreeInputs(h, a) + TreeInputs(h, b))
    ensures SameCompletion(a, b)
  {
    hide LeafAt, PairHash, TreeInputs, AllDigests, NoCollision;
    forall i: nat | i < Pow2(Depth(|a|)) ensures LeafAt(a, i) == LeafAt(b, i) {
      var j := i / 2;
      assert LeafAt(Next(PairHash(h), a), j) == LeafAt(Next(PairHash(h), b), j);
      ChildrenAgree(h, a, b, j);
      assert i == 2 * j || i == 2 * j + 1;
    }
  }

  lemma {:induction false} SplitPair(a: string, b: string, x: string, y: string)
    requires |a| == |x| && a + b == x + y
    ensures a == x && b == y
  {
    assert a == (a + b)[..|a|] && b == (a + b)[|a|..];
  }

  /**
   Two leaf lists of the same depth share a root exactly when they fill the
   completed tree alike. The leaf count is therefore needed on top of the
   root to pin the list down.
   */
  lemma {:induction false} SameRootIffSameCompletion(h: Hashes, a: seq<string>, b: seq<string>)
    requires Sized(h)
    requires AllDigests(a) && AllDigests(b) && a != [] && b != []
    requires Depth(|a|) == Depth(|b|)
    requires NoCollision(h.sha256, TreeInputs(h, a) + TreeInputs(h, b))
    ensures Root(PairHash(h), a) == Root(PairHash(h), b) <==> SameCompletion(a, b)
    decreases |a|
  {
    hide LeafAt, Origin, IsDigest;
    if |a| == 1 {
      LeafAtSingle(a);
      LeafAtSingle(b);
    } else {
      var na, nb := Next(PairHash(h), a), Next(PairHash(h), b);
      SameRootIffSameCompletion(h, na, nb);
      if SameCompletion(na, nb) {
        CompletionDown(h, a, b);
      }
      if SameCompletion(a, b) {
        CompletionUp(h, a, b);
      }
    }
  }

  lemma {:induction false} LeafAtSingle(level: seq<string>)
    requires |level| == 1
    ensures LeafAt(level, 0) == level[0]
  {
  }

  /** Root and leaf count together determine the whole list, order included. */
  lemma {:induction false} RootAndCountBindLeaves(h: Hashes, a: seq<string>, b: seq<string>)
    requires Sized(h)
    requires AllDigests(a) && AllDigests(b) && a != [] && |a| == |b|
    requires Root(PairHash(h), a) == Root(PairHash(h), b)
    requires NoCollision(h.sha256, TreeInputs(h, a) + TreeInputs(h, b))
    ensures a == b
  {
    SameRootIffSameCompletion(h, a, b);
    DepthIsCeilLog2(|a|);
    forall i | 0 <= i < |a| ensures a[i] == b[i] {
      OriginOfLeaf(|a|, i);
      assert LeafAt(a, i) == LeafAt(b, i);
    }
  }

  /** The count cannot be dropped: an odd list and the same list with its last leaf repeated share a root. */
  lemma {:induction false} RepeatedLastLeafKeepsRoot(h: Hashes, leaves: seq<string>)
    requires |leaves| % 2 == 1 && |leaves| > 1
    ensures Root(PairHash(h), leaves + [leaves[|leaves| - 1]]) == Root(PairHash(h), leaves)
  {
    assert Next(PairHash(h), leaves + [leaves[|leaves| - 1]]) == Next(PairHash(h), leaves);
  }

  // ---- the tree without its loops

  /** Node `i` at height `d` of the tree completed by duplication: SHA-256 of its left child's text and then its right child's. */
  function CompletedNode(h: Hashes, leaves: seq<string>, d: nat, i: nat): string
    requires leaves != []
  {
    if d == 0 then LeafAt(leaves, i)
    else h.sha256(CompletedNode(h, leaves, d - 1, 2 * i) + CompletedNode(h, leaves, d - 1, 2 * i + 1))
  }

  lemma {:induction false} NodesOfNext(h: Hashes, leaves: seq<string>, d: nat, i: nat)
    requires |leaves| > 1
    ensures CompletedNode(h, leaves, d + 1, i) == CompletedNode(h, Next(PairHash(h), leaves), d, i)
  {
    hide Next, PairHash, LeafAt;
    if d == 0 {
      NodeAbove(h, leaves, i);
    } else {
      NodesOfNext(h, leaves, d - 1, 2 * i);
      NodesOfNext(h, leaves, d - 1, 2 * i + 1);
    }
  }

  /** The root is the top of the completed tree. */
  lemma {:induction false} RootIsCompletedTop(h: Hashes, leaves: seq<string>)
    requires leaves != []
    ensures Root(PairHash(h), leaves) == CompletedNode(h, leaves, Depth(|leaves|), 0)
    decreases |leaves|
  {
    if |leaves| == 1 {
      LeafAtSingle(leaves);
    } else {
      var next := Next(PairHash(h), leaves);
      RootIsCompletedTop(h, next);
      NodesOfNext(h, leaves, Depth(|next|), 0);
    }
  }

  /** Three leaves, written out. */
  lemma {:induction false} RootOfThree(h: Hashes, a: string, b: string, c: string)
    ensures Root(PairHash(h), [a, b, c]) == h.sha256(h.sha256(a + b) + h.sha256(c + c))
  {
    var next := Next(PairHash(h), [a, b, c]);
    assert next == [h.sha256(a + b), h.sha256(c + c)];
    var top := Next(PairHash(h), next);
    assert top == [h.sha256(next[0] + next[1])];
    assert Root(PairHash(h), top) == top[0];
  }
}
