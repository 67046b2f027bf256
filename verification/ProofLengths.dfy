/**
 What an accepted sorted-pair proof shows when nobody looks at its length, as
 the mock client and the contract do not: a proof of the depth of the tree
 starts from a leaf, a shorter one from an interior node, and a longer one
 passes through a leaf on its way up.
 */
module ProofLengths {
  import opened Hashing
  import opened MerkleTree
  import opened EvmMerkle

  /** The level `height` steps above the leaves. */
  function LevelAt(f: Format, level: seq<string>, height: nat): seq<string>
    requires height <= Depth(|level|)
    decreases height
  {
    if height == 0 then level else LevelAt(f, Next(PairSorted(f), level), height - 1)
  }

  lemma {:induction false} OneLevelUp(f: Format, level: seq<string>)
    requires Lawful(f) && AllNodes(f, level) && |level| > 1
    ensures
      var next := Next(PairSorted(f), level);
      && AllNodes(f, next) && next != [] && Depth(|next|) == Depth(|level|) - 1
      && Root(PairSorted(f), next) == Root(PairSorted(f), level)
      && TreeInputsEvm(f, next) <= TreeInputsEvm(f, level)
  {
    hide Lawful, IsNode, PairSorted, PairBytes;
    NextAllNodes(f, level);
  }

  /** A proof no longer than the tree is deep starts from a node of the level that is as many steps below the root. */
  lemma {:induction false} ShortProofStartsInside(f: Format, level: seq<string>, node: string, siblings: seq<string>) returns (k: nat)
    requires Lawful(f) && AllNodes(f, level) && level != []
    requires |siblings| <= Depth(|level|)
    requires VerifyEvm(f, node, siblings, Root(PairSorted(f), level)) == Some(true)
    requires NoCollision(f.keccak, TreeInputsEvm(f, level) + ProofInputsEvm(f, node, siblings))
    ensures k < |LevelAt(f, level, Depth(|level|) - |siblings|)|
    ensures f.parse(node) == f.parse(LevelAt(f, level, Depth(|level|) - |siblings|)[k])
    decreases |level|
  {
    hide Lawful, IsNode, PairSorted, VerifyEvm, NoCollision, TreeInputsEvm, ProofInputsEvm, Next, Root;
    if |siblings| == Depth(|level|) {
      k := ReplayStartsInLevel(f, level, node, siblings);
    } else {
      var next := Next(PairSorted(f), level);
      OneLevelUp(f, level);
      FewerInputs(f.keccak, TreeInputsEvm(f, level) + ProofInputsEvm(f, node, siblings),
                  TreeInputsEvm(f, next) + ProofInputsEvm(f, node, siblings));
      k := ShortProofStartsInside(f, next, node, siblings);
    }
  }

  /** Above the leaves every node is the hash of a pair of the tree. */
  lemma {:induction false} InteriorIsHashed(f: Format, level: seq<string>, height: nat, k: nat) returns (x: Bytes)
    requires Lawful(f) && AllNodes(f, level) && 0 < height <= Depth(|level|) && k < |LevelAt(f, level, height)|
    ensures x in TreeInputsEvm(f, level) && f.parse(LevelAt(f, level, height)[k]) == Some(f.keccak(x))
    decreases height
  {
    hide Lawful, IsNode, PairSorted, PairBytes, TreeInputsEvm, Depth;
    var next := Next(PairSorted(f), level);
    DeepIsLong(level);
    OneLevelUp(f, level);
    if height == 1 {
      x := PairBytes(f, level[2 * k], level[SiblingIndex(|level|, 2 * k)]);
      NodeIsHashed(f, level, k);
    } else {
      x := InteriorIsHashed(f, next, height - 1, k);
    }
  }

  lemma {:induction false} DeepIsLong(level: seq<string>)
    ensures Depth(|level|) > 0 ==> |level| > 1
  {
  }

  lemma {:induction false} NodeIsHashed(f: Format, level: seq<string>, k: nat)
    requires Lawful(f) && |level| > 1 && k < |Next(PairSorted(f), level)|
    ensures
      var x := PairBytes(f, level[2 * k], level[SiblingIndex(|level|, 2 * k)]);
      x in TreeInputsEvm(f, level) && f.parse(Next(PairSorted(f), level)[k]) == Some(f.keccak(x))
  {
    hide PairBytes;
    assert |f.keccak(PairBytes(f, level[2 * k], level[SiblingIndex(|level|, 2 * k)]))| == 32;
  }

  /** A longer proof hashes a pair into a node that reads like a leaf. */
  lemma {:induction false} LongProofPassesLeaf(f: Format, level: seq<string>, node: string, siblings: seq<string>)
    returns (k: nat, x: Bytes)
    requires Lawful(f) && AllNodes(f, level) && level != []
    requires |siblings| > Depth(|level|)
    requires VerifyEvm(f, node, siblings, Root(PairSorted(f), level)) == Some(true)
    requires NoCollision(f.keccak, TreeInputsEvm(f, level) + ProofInputsEvm(f, node, siblings))
    ensures k < |level| && x in ProofInputsEvm(f, node, siblings) && f.parse(level[k]) == Some(f.keccak(x))
    decreases |siblings|
  {
    hide Lawful, IsNode, NoCollision, TreeInputsEvm, PairBytes, Root, FoldEvm, KeccakPairSorted;
    var up := PairSorted(f)(node, siblings[0]);
    StepOfReplay(f, node, siblings, Root(PairSorted(f), level));
    FewerInputs(f.keccak, TreeInputsEvm(f, level) + ProofInputsEvm(f, node, siblings),
                TreeInputsEvm(f, level) + ProofInputsEvm(f, up, siblings[1..]));
    if |siblings| == Depth(|level|) + 1 {
      k := ReplayStartsInLevel(f, level, up, siblings[1..]);
      x := PairBytes(f, node, siblings[0]);
    } else {
      k, x := LongProofPassesLeaf(f, level, up, siblings[1..]);
    }
  }

  lemma {:induction false} StepOfReplay(f: Format, node: string, siblings: seq<string>, root: string)
    requires Lawful(f) && siblings != [] && VerifyEvm(f, node, siblings, root) == Some(true)
    ensures
      var up := PairSorted(f)(node, siblings[0]);
      && VerifyEvm(f, up, siblings[1..], root) == Some(true)
      && f.parse(up) == Some(f.keccak(PairBytes(f, node, siblings[0])))
      && ProofInputsEvm(f, up, siblings[1..]) <= ProofInputsEvm(f, node, siblings)
      && PairBytes(f, node, siblings[0]) in ProofInputsEvm(f, node, siblings)
  {
    hide PairBytes;
    assert |f.keccak(PairBytes(f, node, siblings[0]))| == 32;
  }

  // ---- what it means for a ledger digest

  /**
   A ledger digest accepted with a proof of any length: with the depth of the
   batch it is a digest of the batch; with fewer siblings its text is a pair
   that the batch's tree hashes; with more, the text of some leaf is a pair
   that the proof hashes.
   */
  lemma {:induction false} DigestAtAnyLength(f: Format, leaves: seq<string>, digest: string, siblings: seq<string>)
    requires Lawful(f) && leaves != [] && IsDigest(digest)
    requires forall i :: 0 <= i < |leaves| ==> IsDigest(leaves[i])
    requires NoCollision(f.keccak, LeafInputs(f, leaves + [digest]) + TreeInputsEvm(f, LeafNodes(f, leaves))
                                   + ProofInputsEvm(f, LeafNode(f, digest), siblings))
    requires VerifyEvm(f, LeafNode(f, digest), siblings, RootEvm(f, leaves)) == Some(true)
    ensures |siblings| == Depth(|leaves|) ==> digest in leaves
    ensures |siblings| < Depth(|leaves|) ==> f.leafText(digest) in TreeInputsEvm(f, LeafNodes(f, leaves))
    ensures |siblings| > Depth(|leaves|) ==>
              exists i | 0 <= i < |leaves| :: f.leafText(leaves[i]) in ProofInputsEvm(f, LeafNode(f, digest), siblings)
  {
    hide Lawful, IsNode, AllNodes, NoCollision, TreeInputsEvm, ProofInputsEvm, VerifyEvm, LeafInputs, LeafNode, IsDigest, Root, LevelAt, Depth;
    var level := LeafNodes(f, leaves);
    var tree, proof := TreeInputsEvm(f, level), ProofInputsEvm(f, LeafNode(f, digest), siblings);
    var all := LeafInputs(f, leaves + [digest]) + tree + proof;
    LeafNodesAreNodes(f, leaves);
    FewerInputs(f.keccak, all, tree + proof);
    FewerInputs(f.keccak, all, LeafInputs(f, leaves + [digest]));
    LeafIsHashed(f, leaves, digest, |leaves|);
    if |siblings| == Depth(|leaves|) {
      ForeignDigestIsRejected(f, leaves, digest, siblings);
    } else if |siblings| < Depth(|leaves|) {
      var k := ShortProofStartsInside(f, level, LeafNode(f, digest), siblings);
      var x := InteriorIsHashed(f, level, Depth(|leaves|) - |siblings|, k);
      SameInput(f.keccak, all, f.leafText(digest), x);
    } else {
      var k, x := LongProofPassesLeaf(f, level, LeafNode(f, digest), siblings);
      LeafIsHashed(f, leaves, digest, k);
      SameInput(f.keccak, all, f.leafText(leaves[k]), x);
    }
  }

  /** Leaf `i` of the batch with the digest added. */
  lemma {:induction false} LeafIsHashed(f: Format, leaves: seq<string>, digest: string, i: nat)
    requires Lawful(f) && i <= |leaves|
    ensures
      var leaf := if i < |leaves| then leaves[i] else digest;
      f.leafText(leaf) in LeafInputs(f, leaves + [digest]) && f.parse(LeafNode(f, leaf)) == Some(f.keccak(f.leafText(leaf)))
  {
    var leaf := if i < |leaves| then leaves[i] else digest;
    assert (leaves + [digest])[i] == leaf;
    assert |f.keccak(f.leafText(leaf))| == 32;
  }

  // ---- and both happen

  /** Every interior node is accepted with a proof that is one sibling shorter than the leaves' proofs. */
  lemma {:induction false} InteriorNodeIsAccepted(f: Format, leaves: seq<string>, j: nat)
    requires Lawful(f) && |leaves| > 1 && j < |Next(PairSorted(f), LeafNodes(f, leaves))|
    ensures
      var next := Next(PairSorted(f), LeafNodes(f, leaves));
      && VerifyEvm(f, next[j], Proof(PairSorted(f), next, j), RootEvm(f, leaves)) == Some(true)
      && |Proof(PairSorted(f), next, j)| == Depth(|leaves|) - 1
  {
    hide Lawful, IsNode, PairSorted, FoldEvm, Proof, Next, TreeInputsEvm, Depth;
    var next := Next(PairSorted(f), LeafNodes(f, leaves));
    LeafNodesAreNodes(f, leaves);
    OneLevelUp(f, LeafNodes(f, leaves));
    SortedReplayIgnoresSides(f, next, j);
    ProofHasDepth(PairSorted(f), next, j);
  }

  /**
   The 64 characters of a digest, cut in the middle, are two strings of 32
   bytes; when they are in order, the first half is accepted with the second
   as an additional sibling.
   */
  lemma {:induction false} HalfOfLeafTextIsAccepted(f: Format, leaves: seq<string>, k: nat)
    requires Lawful(f) && k < |leaves| && |f.leafText(leaves[k])| == 64
    requires BytesLe(f.leafText(leaves[k])[..32], f.leafText(leaves[k])[32..])
    ensures
      var text := f.leafText(leaves[k]);
      var siblings := [f.print_(text[32..])] + ProofEvmOf(f, leaves, k).siblings;
      VerifyEvm(f, f.print_(text[..32]), siblings, RootEvm(f, leaves)) == Some(true)
      && |siblings| == Depth(|leaves|) + 1
  {
    hide Proof, Root, Depth, BytesLe, PairSorted;
    var text := f.leafText(leaves[k]);
    var lo, hi := text[..32], text[32..];
    var tail := ProofEvmOf(f, leaves, k).siblings;
    assert f.parse(f.print_(lo)) == Some(lo) && f.parse(f.print_(hi)) == Some(hi);
    assert SortedPair(lo, hi) == lo + hi == text;
    assert KeccakPairSorted(f, f.print_(lo), f.print_(hi)) == Some(LeafNode(f, leaves[k]));
    assert ([f.print_(hi)] + tail)[1..] == tail;
    RoundTripEvm(f, leaves, k);
    ProofHasDepth(PairSorted(f), LeafNodes(f, leaves), k);
  }
}
