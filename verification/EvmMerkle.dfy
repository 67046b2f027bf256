/**
 The anchored tree: sorted-pair Keccak-256 over `keccak(sha256_hex)` leaves.
 Nodes are hex strings that are parsed into bytes at every pairing. The tree
 is developed over any text format that obeys `Lawful`; `Keccak256` is the
 format of the source, and `Keccak256IsLawful` discharges the laws for it.
 */
module EvmMerkle {
  import opened Hashing
  import HexText
  import opened MerkleTree

  datatype Format = Format(
    keccak: Bytes -> Bytes,
    parse: string -> Option<Bytes>,  // `None` is ValueError
    print_: Bytes -> string,
    lower: string -> string,
    leafText: string -> Bytes)

  /** What the tree needs of its text format. */
  ghost predicate Lawful(f: Format) {
    && (forall b :: |f.keccak(b)| == 32)
    && (forall s :: f.parse(s).Some? ==> |f.parse(s).value| <= 32)
    && (forall b :: |b| == 32 ==> f.parse(f.print_(b)) == Some(b) && f.lower(f.print_(b)) == f.print_(b))
    && (forall s, t :: f.lower(s) == f.lower(t) ==> f.parse(s) == f.parse(t))
    && (forall a, b :: IsDigest(a) && IsDigest(b) && f.leafText(a) == f.leafText(b) ==> a == b)
  }

  /** Hexadecimal text over the Keccak of `h`: the format of the source. */
  function Keccak256(h: Hashes): Format {
    Format(h.keccak, HexText.HexToBytes32, HexText.Prefixed, HexText.Lower, HexText.LeafText)
  }

  lemma {:induction false} Keccak256IsLawful(h: Hashes)
    requires Sized(h)
    ensures Lawful(Keccak256(h))
  {
    hide HexText.HexToBytes32, HexText.Prefixed, HexText.Lower, HexText.LeafText, IsDigest;
    forall b: Bytes | |b| == 32
      ensures HexText.HexToBytes32(HexText.Prefixed(b)) == Some(b)
      ensures HexText.Lower(HexText.Prefixed(b)) == HexText.Prefixed(b)
    {
      HexText.PrefixedParses(b);
      HexText.LowerOfPrefixed(b);
    }
    forall s, t | HexText.Lower(s) == HexText.Lower(t) ensures HexText.HexToBytes32(s) == HexText.HexToBytes32(t) {
      LowerDecidesParse(s, t);
    }
    forall a, b | IsDigest(a) && IsDigest(b) && HexText.LeafText(a) == HexText.LeafText(b) ensures a == b {
      HexText.LeafTextInjective(a, b);
    }
  }

  lemma {:induction false} LowerDecidesParse(s: string, t: string)
    requires HexText.Lower(s) == HexText.Lower(t)
    ensures HexText.HexToBytes32(s) == HexText.HexToBytes32(t)
  {
    assert HexText.Body64(s) == HexText.Body64(t);
  }

  // ---- pairing

  /** Python's order on `bytes`. */
  predicate BytesLe(a: Bytes, b: Bytes) {
    a == [] || (b != [] && (a[0] < b[0] || (a[0] == b[0] && BytesLe(a[1..], b[1..]))))
  }

  lemma {:induction false} BytesLeTotalOrder(a: Bytes, b: Bytes)
    ensures BytesLe(a, b) || BytesLe(b, a)
    ensures BytesLe(a, b) && BytesLe(b, a) ==> a == b
  {
    if a != [] && b != [] {
      BytesLeTotalOrder(a[1..], b[1..]);
      assert a == [a[0]] + a[1..] && b == [b[0]] + b[1..];
    }
  }

  /** The first byte in which they differ decides; without one the shorter comes first. */
  lemma {:induction false} BytesLeIsLexicographic(a: Bytes, b: Bytes)
    ensures BytesLe(a, b) <==> a <= b || exists k :: 0 <= k < |a| && k < |b| && a[..k] == b[..k] && a[k] < b[k]
  {
    if a != [] && b != [] {
      var p, q := a[1..], b[1..];
      BytesLeIsLexicographic(p, q);
      if a[0] == b[0] {
        assert a <= b <==> p <= q by {
          assert a == [a[0]] + p && b == [b[0]] + q;
        }
        if k :| 0 <= k < |a| && k < |b| && a[..k] == b[..k] && a[k] < b[k] {
          assert p[..k - 1] == a[1..k] && q[..k - 1] == b[1..k];
          assert p[k - 1] < q[k - 1];
        }
        if k :| 0 <= k < |p| && k < |q| && p[..k] == q[..k] && p[k] < q[k] {
          assert a[..k + 1] == [a[0]] + p[..k] && b[..k + 1] == [b[0]] + q[..k];
          assert a[k + 1] < b[k + 1];
        }
      } else if a[0] < b[0] {
        assert a[..0] == b[..0];
      } else {
        assert forall k :: 0 < k < |a| && k < |b| ==> a[..k][0] != b[..k][0];
      }
    }
  }

  /** What is hashed for two nodes: the smaller byte string first. */
  function SortedPair(a: Bytes, b: Bytes): Bytes {
    if BytesLe(a, b) then a + b else b + a
  }

  lemma {:induction false} SortedPairSymmetric(a: Bytes, b: Bytes)
    ensures SortedPair(a, b) == SortedPair(b, a)
  {
    BytesLeTotalOrder(a, b);
  }

  /** Equal hashed pairs are the same two byte strings: 64 bytes can only be cut in the middle. */
  lemma {:induction false} SortedPairDeterminesThePair(a: Bytes, b: Bytes, x: Bytes, y: Bytes)
    requires |a| <= 32 && |b| <= 32 && |x| == 32 && |y| == 32
    requires SortedPair(a, b) == SortedPair(x, y)
    ensures (a == x && b == y) || (a == y && b == x)
  {
    var text := SortedPair(x, y);
    assert |a| == 32 && |b| == 32;
    assert text[..32] == if BytesLe(x, y) then x else y;
    assert text[32..] == if BytesLe(x, y) then y else x;
    assert SortedPair(a, b)[..32] == if BytesLe(a, b) then a else b;
    assert SortedPair(a, b)[32..] == if BytesLe(a, b) then b else a;
  }

  /** The bytes hashed for a pair of strings that parse. */
  function PairBytes(f: Format, left: string, right: string): Bytes {
    var a, b := f.parse(left), f.parse(right);
    if a.None? || b.None? then [] else SortedPair(a.value, b.value)
  }

  /** `keccak_pair_sorted`; `None` is the ValueError of a string that does not parse. */
  function KeccakPairSorted(f: Format, left: string, right: string): Option<string> {
    if f.parse(left).None? || f.parse(right).None? then None
    else Some(f.print_(f.keccak(PairBytes(f, left, right))))
  }

  /** Of two strings read as `x` and `y`, the one with the smaller first difference is hashed first, in either order of the arguments. */
  lemma {:induction false} SmallerIsHashedFirst(f: Format, left: string, right: string, x: Bytes, y: Bytes, k: nat)
    requires f.parse(left) == Some(x) && f.parse(right) == Some(y)
    requires k < |x| && k < |y| && x[..k] == y[..k] && x[k] < y[k]
    ensures KeccakPairSorted(f, left, right) == Some(f.print_(f.keccak(x + y)))
    ensures KeccakPairSorted(f, right, left) == Some(f.print_(f.keccak(x + y)))
  {
    BytesLeIsLexicographic(x, y);
    SortedPairSymmetric(x, y);
  }

  /** The pairing function of the tree. `NodesPair` shows that on nodes it is `keccak_pair_sorted`. */
  function PairSorted(f: Format): (string, string) -> string {
    (left, right) => f.print_(f.keccak(PairBytes(f, left, right)))
  }

  /** The bridge from a ledger digest to a leaf of the anchored tree. */
  function LeafNode(f: Format, leaf: string): string {
    f.print_(f.keccak(f.leafText(leaf)))
  }

  function LeafNodes(f: Format, leaves: seq<string>): (r: seq<string>)
    ensures |r| == |leaves|
  {
    seq(|leaves|, i requires 0 <= i < |leaves| => LeafNode(f, leaves[i]))
  }

  function RootEvm(f: Format, leaves: seq<string>): string {
    if leaves == [] then "" else Root(PairSorted(f), LeafNodes(f, leaves))
  }

  // ---- the functions of the source

  method ComputeMerkleRootEvm(f: Format, leaves: seq<string>) returns (root: string)
    ensures root == RootEvm(f, leaves)
  {
    var level := LeafNodes(f, leaves);
    if level == [] {
      return "";
    }
    root := ClimbToRoot(PairSorted(f), level);
  }

  datatype ProofEvm = ProofEvm(leaf: string, siblings: seq<string>, root: string)

  function ProofEvmOf(f: Format, leaves: seq<string>, i: nat): ProofEvm
    requires i < |leaves|
  {
    var level := LeafNodes(f, leaves);
    ProofEvm(level[i], Proof(PairSorted(f), level, i), RootEvm(f, leaves))
  }

  method MerkleProofEvm(f: Format, leaves: seq<string>, index: int) returns (r: Option<ProofEvm>)
    ensures r.Some? <==> 0 <= index < |leaves|
    ensures r.Some? ==> r.value == ProofEvmOf(f, leaves, index)
  {
    if !(0 <= index < |leaves|) {
      return None;  // IndexError
    }
    var level := LeafNodes(f, leaves);
    var siblings, root := ClimbCollecting(PairSorted(f), level, index);
    return Some(ProofEvm(level[index], siblings, root));
  }

  /** Replays a sorted-pair proof; `None` when some string does not parse. */
  function FoldEvm(f: Format, node: string, siblings: seq<string>): Option<string>
    decreases |siblings|
  {
    if siblings == [] then Some(node)
    else
      match KeccakPairSorted(f, node, siblings[0])
      case None => None
      case Some(up) => FoldEvm(f, up, siblings[1..])
  }

  /** `Some(ok)` is the returned boolean, `None` the ValueError of an unparsable string. */
  function VerifyEvm(f: Format, leaf: string, siblings: seq<string>, root: string): Option<bool> {
    match FoldEvm(f, leaf, siblings)
    case None => None
    case Some(top) => Some(f.lower(top) == f.lower(root))
  }

  method VerifyMerkleProofEvm(f: Format, leaf: string, siblings: seq<string>, root: string)
    returns (r: Option<bool>)
    ensures r == VerifyEvm(f, leaf, siblings, root)
  {
    var node := leaf;
    for k := 0 to |siblings|
      invariant FoldEvm(f, node, siblings[k..]) == FoldEvm(f, leaf, siblings)
    {
      assert siblings[k..][1..] == siblings[k + 1..];
      match KeccakPairSorted(f, node, siblings[k]) {
        case None => return None;
        case Some(up) => node := up;
      }
    }
    return Some(f.lower(node) == f.lower(root));
  }

  // ---- nodes are canonical

  /** The canonical text of 32 bytes. */
  predicate IsNode(f: Format, s: string) {
    var b := f.parse(s);
    b.Some? && |b.value| == 32 && s == f.print_(b.value)
  }

  ghost predicate AllNodes(f: Format, level: seq<string>) {
    forall i :: 0 <= i < |level| ==> IsNode(f, level[i])
  }

  lemma {:induction false} NodesPair(f: Format, a: string, b: string)
    requires Lawful(f) && IsNode(f, a) && IsNode(f, b)
    ensures KeccakPairSorted(f, a, b) == Some(PairSorted(f)(a, b)) && IsNode(f, PairSorted(f)(a, b))
  {
    assert |f.keccak(PairBytes(f, a, b))| == 32;
  }

  lemma {:induction false} NextAllNodes(f: Format, level: seq<string>)
    requires Lawful(f) && AllNodes(f, level)
    ensures AllNodes(f, Next(PairSorted(f), level))
  {
    var next := Next(PairSorted(f), level);
    forall j | 0 <= j < |next| ensures IsNode(f, next[j]) {
      NodesPair(f, level[2 * j], level[SiblingIndex(|level|, 2 * j)]);
    }
  }

  lemma {:induction false} LeafNodesAreNodes(f: Format, leaves: seq<string>)
    requires Lawful(f)
    ensures AllNodes(f, LeafNodes(f, leaves))
  {
    forall i | 0 <= i < |leaves| ensures IsNode(f, LeafNodes(f, leaves)[i]) {
      assert |f.keccak(f.leafText(leaves[i]))| == 32;
    }
  }

  // ---- completeness

  lemma {:induction false} PairSortedSymmetric(f: Format, a: string, b: string)
    ensures PairSorted(f)(a, b) == PairSorted(f)(b, a)
  {
    assert PairBytes(f, a, b) == PairBytes(f, b, a) by {
      if f.parse(a).Some? && f.parse(b).Some? {
        SortedPairSymmetric(f.parse(a).value, f.parse(b).value);
      }
    }
  }

  /** Sorting makes the side irrelevant, so the indexed replay and the sorted one agree. */
  lemma {:induction false} SortedReplayIgnoresSides(f: Format, level: seq<string>, i: nat)
    requires Lawful(f) && AllNodes(f, level) && i < |level|
    ensures FoldEvm(f, level[i], Proof(PairSorted(f), level, i)) == Some(Root(PairSorted(f), level))
    decreases |level|
  {
    hide Lawful, IsNode, PairSorted, KeccakPairSorted, Next, Root, Proof;
    ProofStep(PairSorted(f), level, i);
    if |level| > 1 {
      var next, sibling := Next(PairSorted(f), level), level[SiblingIndex(|level|, i)];
      NodesPair(f, level[i], sibling);
      PairSortedSymmetric(f, level[i], sibling);
      NextAllNodes(f, level);
      SortedReplayIgnoresSides(f, next, i / 2);
      assert Proof(PairSorted(f), level, i)[1..] == Proof(PairSorted(f), next, i / 2);
    }
  }

  /** Every generated proof is accepted against the separately computed root and has the depth of the tree. */
  lemma {:induction false} RoundTripEvm(f: Format, leaves: seq<string>, i: nat)
    requires Lawful(f) && i < |leaves|
    ensures
      var p := ProofEvmOf(f, leaves, i);
      && VerifyEvm(f, p.leaf, p.siblings, p.root) == Some(true)
      && p.root == RootEvm(f, leaves)
      && p.leaf == LeafNode(f, leaves[i])
      && |leaves| <= Pow2(|p.siblings|)
      && (|leaves| >= 2 ==> |p.siblings| >= 1 && Pow2(|p.siblings| - 1) < |leaves|)
      && (|leaves| == 1 ==> p.siblings == [])
  {
    hide Lawful, AllNodes, PairSorted, FoldEvm, Proof, Root, Depth, Pow2, LeafNode;
    LeafNodesAreNodes(f, leaves);
    SortedReplayIgnoresSides(f, LeafNodes(f, leaves), i);
    ProofHasDepth(PairSorted(f), LeafNodes(f, leaves), i);
    DepthIsCeilLog2(|leaves|);
  }

  // ---- soundness

  /** Every byte string hashed while the root is computed. */
  function TreeInputsEvm(f: Format, level: seq<string>): set<Bytes>
    decreases |level|
  {
    if |level| <= 1 then {}
    else
      (set j | 0 <= j < (|level| + 1) / 2 :: PairBytes(f, level[2 * j], level[SiblingIndex(|level|, 2 * j)]))
      + TreeInputsEvm(f, Next(PairSorted(f), level))
  }

  /** Every byte string hashed while a proof is replayed. */
  function ProofInputsEvm(f: Format, node: string, siblings: seq<string>): set<Bytes>
    decreases |siblings|
  {
    if siblings == [] then {}
    else {PairBytes(f, node, siblings[0])} + ProofInputsEvm(f, PairSorted(f)(node, siblings[0]), siblings[1..])
  }

  lemma {:induction false} PrintInjective(f: Format, a: Bytes, b: Bytes)
    requires Lawful(f) && |a| == 32 && |b| == 32 && f.print_(a) == f.print_(b)
    ensures a == b
  {
    assert Some(a) == f.parse(f.print_(a)) == f.parse(f.print_(b)) == Some(b);
  }

  /** A proof of full depth that reaches the root starts from a node of the level. */
  lemma {:induction false} ReplayStartsInLevel(f: Format, level: seq<string>, node: string, siblings: seq<string>)
    returns (k: nat)
    requires Lawful(f) && AllNodes(f, level) && level != []
    requires |siblings| == Depth(|level|)
    requires VerifyEvm(f, node, siblings, Root(PairSorted(f), level)) == Some(true)
    requires NoCollision(f.keccak, TreeInputsEvm(f, level) + ProofInputsEvm(f, node, siblings))
    ensures k < |level| && f.parse(node) == f.parse(level[k])
    decreases |level|
  {
    if |level| == 1 {
      k := 0;
    } else {
      var next, up := Next(PairSorted(f), level), PairSorted(f)(node, siblings[0]);
      NextAllNodes(f, level);
      var j := ReplayStartsInLevel(f, next, up, siblings[1..]);
      var left, right := level[2 * j], level[SiblingIndex(|level|, 2 * j)];
      assert PairBytes(f, left, right) in TreeInputsEvm(f, level);
      assert f.parse(up) == Some(f.keccak(PairBytes(f, node, siblings[0])));
      assert f.parse(next[j]) == Some(f.keccak(PairBytes(f, left, right)));
      SortedPairDeterminesThePair(f.parse(node).value, f.parse(siblings[0]).value, f.parse(left).value, f.parse(right).value);
      k := if f.parse(node) == f.parse(left) then 2 * j else SiblingIndex(|level|, 2 * j);
    }
  }

  /** Sorted-pair soundness: an accepted string of full depth denotes one of the batch's leaves. */
  lemma {:induction false} AcceptedLeafIsInBatch(f: Format, leaves: seq<string>, leaf: string, siblings: seq<string>)
    returns (k: nat)
    requires Lawful(f) && leaves != []
    requires |siblings| == Depth(|leaves|)
    requires VerifyEvm(f, leaf, siblings, RootEvm(f, leaves)) == Some(true)
    requires NoCollision(f.keccak, TreeInputsEvm(f, LeafNodes(f, leaves)) + ProofInputsEvm(f, leaf, siblings))
    ensures k < |leaves| && f.parse(leaf) == f.parse(LeafNode(f, leaves[k]))
  {
    LeafNodesAreNodes(f, leaves);
    k := ReplayStartsInLevel(f, LeafNodes(f, leaves), leaf, siblings);
  }

  /** The texts hashed into leaf nodes. */
  function LeafInputs(f: Format, leaves: seq<string>): set<Bytes> {
    set i | 0 <= i < |leaves| :: f.leafText(leaves[i])
  }

  lemma {:induction false} LeafNodeInjective(f: Format, a: string, b: string)
    requires Lawful(f) && IsDigest(a) && IsDigest(b)
    requires NoCollision(f.keccak, {f.leafText(a), f.leafText(b)})
    requires f.parse(LeafNode(f, a)) == f.parse(LeafNode(f, b))
    ensures a == b
  {
    assert |f.keccak(f.leafText(a))| == 32 && |f.keccak(f.leafText(b))| == 32;
    assert f.leafText(a) == f.leafText(b);
  }

  /**
   The claim a title certificate makes: a ledger digest that was not in the
   batch has no proof of the batch's depth.
   */
  lemma {:induction false} ForeignDigestIsRejected(f: Format, leaves: seq<string>, digest: string, siblings: seq<string>)
    requires Lawful(f) && leaves != [] && IsDigest(digest)
    requires forall i :: 0 <= i < |leaves| ==> IsDigest(leaves[i])
    requires |siblings| == Depth(|leaves|)
    requires NoCollision(f.keccak, LeafInputs(f, leaves + [digest]))
    requires NoCollision(f.keccak, TreeInputsEvm(f, LeafNodes(f, leaves)) + ProofInputsEvm(f, LeafNode(f, digest), siblings))
    ensures VerifyEvm(f, LeafNode(f, digest), siblings, RootEvm(f, leaves)) == Some(true) ==> digest in leaves
  {
    if VerifyEvm(f, LeafNode(f, digest), siblings, RootEvm(f, leaves)) == Some(true) {
      var k := AcceptedLeafIsInBatch(f, leaves, LeafNode(f, digest), siblings);
      assert (leaves + [digest])[|leaves|] == digest && (leaves + [digest])[k] == leaves[k];
      assert f.leafText(digest) in LeafInputs(f, leaves + [digest]);
      assert f.leafText(leaves[k]) in LeafInputs(f, leaves + [digest]);
      LeafNodeInjective(f, digest, leaves[k]);
    }
  }

  // ---- what the root binds, and what it does not

  lemma {:induction false} SameParentSameChildren(f: Format, a: seq<string>, p: nat, b: seq<string>, q: nat)
    requires Lawful(f) && AllNodes(f, a) && AllNodes(f, b)
    requires |a| > 1 && |b| > 1 && p < (|a| + 1) / 2 && q < (|b| + 1) / 2
    requires Next(PairSorted(f), a)[p] == Next(PairSorted(f), b)[q]
    requires NoCollision(f.keccak, TreeInputsEvm(f, a) + TreeInputsEvm(f, b))
    ensures {a[2 * p], a[SiblingIndex(|a|, 2 * p)]} == {b[2 * q], b[SiblingIndex(|b|, 2 * q)]}
  {
    var s, t := a[2 * p], a[SiblingIndex(|a|, 2 * p)];
    var u, v := b[2 * q], b[SiblingIndex(|b|, 2 * q)];
    assert PairBytes(f, s, t) in TreeInputsEvm(f, a) && PairBytes(f, u, v) in TreeInputsEvm(f, b);
    PrintInjective(f, f.keccak(PairBytes(f, s, t)), f.keccak(PairBytes(f, u, v)));
    SortedPairDeterminesThePair(f.parse(s).value, f.parse(t).value, f.parse(u).value, f.parse(v).value);
  }

  lemma {:induction false} TreeInputsAbove(f: Format, a: seq<string>, b: seq<string>)
    requires |a| > 1 && |b| > 1
    requires NoCollision(f.keccak, TreeInputsEvm(f, a) + TreeInputsEvm(f, b))
    ensures NoCollision(f.keccak, TreeInputsEvm(f, Next(PairSorted(f), a)) + TreeInputsEvm(f, Next(PairSorted(f), b)))
  {
  }

  /** Every node of a level is hashed into some node above, so equal roots propagate down. */
  lemma {:induction false} SameRootCovers(f: Format, a: seq<string>, b: seq<string>, i: nat) returns (k: nat)
    requires Lawful(f) && AllNodes(f, a) && AllNodes(f, b) && b != [] && i < |a|
    requires Depth(|a|) == Depth(|b|)
    requires Root(PairSorted(f), a) == Root(PairSorted(f), b)
    requires NoCollision(f.keccak, TreeInputsEvm(f, a) + TreeInputsEvm(f, b))
    ensures k < |b| && b[k] == a[i]
    decreases |a|
  {
    hide Lawful, IsNode, PairSorted, NoCollision, TreeInputsEvm, Next, Root, Proof;
    ProofStep(PairSorted(f), a, i);
    ProofStep(PairSorted(f), b, 0);
    if |a| == 1 {
      k := 0;
    } else {
      NextAllNodes(f, a);
      NextAllNodes(f, b);
      TreeInputsAbove(f, a, b);
      var q := SameRootCovers(f, Next(PairSorted(f), a), Next(PairSorted(f), b), i / 2);
      SameParentSameChildren(f, a, i / 2, b, q);
      assert i == i / 2 * 2 || i == SiblingIndex(|a|, i / 2 * 2);
      k := if b[2 * q] == a[i] then 2 * q else SiblingIndex(|b|, 2 * q);
    }
  }

  /** Two batches of equal depth and equal root hold the same set of ledger digests. */
  lemma {:induction false} SameRootSameLeaves(f: Format, a: seq<string>, b: seq<string>, i: nat) returns (k: nat)
    requires Lawful(f) && b != [] && i < |a| && Depth(|a|) == Depth(|b|)
    requires forall j :: 0 <= j < |a| ==> IsDigest(a[j])
    requires forall j :: 0 <= j < |b| ==> IsDigest(b[j])
    requires RootEvm(f, a) == RootEvm(f, b)
    requires NoCollision(f.keccak, LeafInputs(f, a) + LeafInputs(f, b))
    requires NoCollision(f.keccak, TreeInputsEvm(f, LeafNodes(f, a)) + TreeInputsEvm(f, LeafNodes(f, b)))
    ensures k < |b| && b[k] == a[i]
  {
    LeafNodesAreNodes(f, a);
    LeafNodesAreNodes(f, b);
    k := SameRootCovers(f, LeafNodes(f, a), LeafNodes(f, b), i);
    assert f.leafText(a[i]) in LeafInputs(f, a) && f.leafText(b[k]) in LeafInputs(f, b);
    LeafNodeInjective(f, a[i], b[k]);
  }

  /** Order is not bound: two leaves can be exchanged under the same root. */
  lemma {:induction false} RootIgnoresOrder(f: Format, a: string, b: string)
    ensures RootEvm(f, [a, b]) == RootEvm(f, [b, a])
  {
    var s, t := LeafNodes(f, [a, b]), LeafNodes(f, [b, a]);
    assert s == [LeafNode(f, a), LeafNode(f, b)] && t == [LeafNode(f, b), LeafNode(f, a)];
    PairSortedSymmetric(f, s[0], s[1]);
    assert Next(PairSorted(f), s) == [PairSorted(f)(s[0], s[1])];
    assert Next(PairSorted(f), t) == [PairSorted(f)(t[0], t[1])];
  }

  /** Multiplicity is not bound either: repeating the last leaf of an odd batch keeps the root. */
  lemma {:induction false} RootIgnoresRepetition(f: Format, leaves: seq<string>)
    requires |leaves| % 2 == 1 && |leaves| > 1
    ensures RootEvm(f, leaves + [leaves[|leaves| - 1]]) == RootEvm(f, leaves)
  {
    var level, longer := LeafNodes(f, leaves), LeafNodes(f, leaves + [leaves[|leaves| - 1]]);
    assert Next(PairSorted(f), longer) == Next(PairSorted(f), level);
  }

  // ---- two leaves, written out

  /** The root of two ledger digests: Keccak of the text of each, the smaller hash first, Keccak of both. */
  lemma {:induction false} RootOfTwo(h: Hashes, a: string, b: string, k: nat)
    requires Sized(h) && k < 32
    requires
      var x, y := h.keccak(HexText.LeafText(a)), h.keccak(HexText.LeafText(b));
      x[..k] == y[..k] && x[k] < y[k]
    ensures
      var root := HexText.Prefixed(h.keccak(h.keccak(HexText.LeafText(a)) + h.keccak(HexText.LeafText(b))));
      RootEvm(Keccak256(h), [a, b]) == root && RootEvm(Keccak256(h), [b, a]) == root
  {
    hide HexText.LeafText, HexText.HexToBytes32, HexText.Prefixed, HexText.Lower;
    var f := Keccak256(h);
    var x, y := h.keccak(HexText.LeafText(a)), h.keccak(HexText.LeafText(b));
    HexText.PrefixedParses(x);
    HexText.PrefixedParses(y);
    SmallerIsHashedFirst(f, HexText.Prefixed(x), HexText.Prefixed(y), x, y, k);
    PairIsRoot(f, a, b);
    PairIsRoot(f, b, a);
  }

  lemma {:induction false} PairIsRoot(f: Format, a: string, b: string)
    ensures RootEvm(f, [a, b]) == PairSorted(f)(LeafNode(f, a), LeafNode(f, b))
  {
    var level := LeafNodes(f, [a, b]);
    assert level == [LeafNode(f, a), LeafNode(f, b)];
    var top := Next(PairSorted(f), level);
    assert Root(PairSorted(f), top) == top[0];
  }

  /** The verdict compares the top of the replay with the root, but for the case of letters. */
  lemma {:induction false} VerdictIgnoresCase(h: Hashes, leaf: string, siblings: seq<string>, root: string)
    ensures
      match FoldEvm(Keccak256(h), leaf, siblings)
      case None => VerifyEvm(Keccak256(h), leaf, siblings, root) == None
      case Some(top) => VerifyEvm(Keccak256(h), leaf, siblings, root) == Some(HexText.SameButCase(top, root))
  {
    hide HexText.HexToBytes32, HexText.Prefixed, HexText.LeafText, HexText.Lower;
    if FoldEvm(Keccak256(h), leaf, siblings).Some? {
      HexText.LowerIgnoresCase(FoldEvm(Keccak256(h), leaf, siblings).value, root);
    }
  }
}
