/**
 The shape shared by both Merkle regimes of LandGuard: a level is folded
 pairwise into the next one, the last node of an odd level being paired with
 itself. The module is parametric in the node type and in the pairing
 function, so that the SHA-256 and the Keccak trees are two instances.
 */
module MerkleTree {

  /** Position of the node that the node at `i` is hashed with, in a level of `n` nodes. */
  function SiblingIndex(n: nat, i: nat): (k: nat)
    requires i < n
    ensures k < n
  {
    if i % 2 == 1 then i - 1 else if i + 1 < n then i + 1 else i
  }

  /** The level above: node `j` is the hash of nodes `2j` and `2j+1`. */
  function Next<T>(pair: (T, T) -> T, level: seq<T>): (r: seq<T>)
    ensures |r| == (|level| + 1) / 2
    ensures forall j :: 0 <= j < |r| ==> r[j] == pair(level[2 * j], level[SiblingIndex(|level|, 2 * j)])
  {
    seq((|level| + 1) / 2, j requires 0 <= j < (|level| + 1) / 2 =>
      pair(level[2 * j], level[SiblingIndex(|level|, 2 * j)]))
  }

  function Root<T>(pair: (T, T) -> T, level: seq<T>): T
    requires level != []
    decreases |level|
  {
    if |level| == 1 then level[0] else Root(pair, Next(pair, level))
  }

  /** `if len(level) % 2 == 1: level.append(level[-1])`. */
  method PadLevel<T>(level: seq<T>) returns (padded: seq<T>)
    requires level != []
    ensures |padded| == (|level| + 1) / 2 * 2
    ensures forall i :: 0 <= i < |level| ==> padded[i] == level[i]
    ensures forall i :: 0 <= i < |level| ==> padded[if i % 2 == 1 then i - 1 else i + 1] == level[SiblingIndex(|level|, i)]
  {
    padded := level;
    if |padded| % 2 == 1 {
      padded := padded + [padded[|padded| - 1]];
    }
  }

  /** Number of levels above the leaves. */
  function Depth(n: nat): nat {
    if n <= 1 then 0 else 1 + Depth((n + 1) / 2)
  }

  function Pow2(d: nat): nat {
    if d == 0 then 1 else 2 * Pow2(d - 1)
  }

  /** The siblings met on the way up from leaf `i`. */
  function Proof<T>(pair: (T, T) -> T, level: seq<T>, i: nat): (r: seq<T>)
    requires i < |level|
    decreases |level|
  {
    if |level| == 1 then [] else [level[SiblingIndex(|level|, i)]] + Proof(pair, Next(pair, level), i / 2)
  }

  /** One turn of the proof loop, seen from its specification. */
  lemma {:induction false} ProofStep<T>(pair: (T, T) -> T, level: seq<T>, i: nat)
    requires i < |level|
    ensures |level| == 1 ==> Proof(pair, level, i) == [] && Root(pair, level) == level[0]
    ensures |level| > 1 ==>
              && Root(pair, level) == Root(pair, Next(pair, level))
              && Proof(pair, level, i) == [level[SiblingIndex(|level|, i)]] + Proof(pair, Next(pair, level), i / 2)
              && |Next(pair, level)| == (|level| + 1) / 2
              && Next(pair, level)[i / 2] == if i % 2 == 1 then pair(level[SiblingIndex(|level|, i)], level[i])
                                             else pair(level[i], level[SiblingIndex(|level|, i)])
  {
  }

  /** Replays a proof from `node` at position `i`, the parity of the position giving the side. */
  function Fold<T>(pair: (T, T) -> T, node: T, proof: seq<T>, i: nat): T
    decreases |proof|
  {
    if proof == [] then node
    else Fold(pair, if i % 2 == 1 then pair(proof[0], node) else pair(node, proof[0]), proof[1..], i / 2)
  }

  /** Every generated proof replays to the root, whatever the leaf count. */
  lemma {:induction false} ProofFoldsToRoot<T>(pair: (T, T) -> T, level: seq<T>, i: nat)
    requires i < |level|
    ensures Fold(pair, level[i], Proof(pair, level, i), i) == Root(pair, level)
    decreases |level|
  {
    if |level| > 1 {
      var next, proof := Next(pair, level), Proof(pair, level, i);
      assert proof[1..] == Proof(pair, next, i / 2);
      assert next[i / 2] == if i % 2 == 1 then pair(proof[0], level[i]) else pair(level[i], proof[0]);
      ProofFoldsToRoot(pair, next, i / 2);
    }
  }

  lemma {:induction false} ProofHasDepth<T>(pair: (T, T) -> T, level: seq<T>, i: nat)
    requires i < |level|
    ensures |Proof(pair, level, i)| == Depth(|level|)
    decreases |level|
  {
    if |level| > 1 {
      ProofHasDepth(pair, Next(pair, level), i / 2);
    }
  }

  /** The depth is the ceiling of the binary logarithm of the leaf count. */
  lemma {:induction false} DepthIsCeilLog2(n: nat)
    requires n >= 1
    ensures n <= Pow2(Depth(n))
    ensures n >= 2 ==> Depth(n) >= 1 && Pow2(Depth(n) - 1) < n
    ensures n == 1 ==> Depth(n) == 0
  {
    if n > 1 {
      DepthIsCeilLog2((n + 1) / 2);
    }
  }

  /**
   The leaf that position `i` of the completed binary tree of depth
   `Depth(n)` really holds: positions past the end of a level repeat that
   level's last node, together with everything below it.
   */
  function Origin(n: nat, i: nat): (k: nat)
    requires n >= 1
    ensures k < n
    decreases n
  {
    if n == 1 then 0
    else
      var p := Origin((n + 1) / 2, i / 2);
      if 2 * p + i % 2 < n then 2 * p + i % 2 else 2 * p
  }

  /** Positions of real leaves are not moved. */
  lemma {:induction false} OriginOfLeaf(n: nat, i: nat)
    requires i < n
    ensures Origin(n, i) == i
    decreases n
  {
    if n > 1 {
      OriginOfLeaf((n + 1) / 2, i / 2);
    }
  }

  // ---- the loops, which the two regimes write out alike

  /** One turn of the `while` loops: duplicate the last node of an odd level, then pair up. */
  method LevelUp<T>(pair: (T, T) -> T, nodes: seq<T>) returns (level: seq<T>)
    requires |nodes| > 1
    ensures level == Next(pair, nodes)
    ensures 0 < |level| < |nodes|
  {
    var padded := PadLevel(nodes);
    level := seq(|padded| / 2, j requires 0 <= j < |padded| / 2 => pair(padded[2 * j], padded[2 * j + 1]));
  }

  method ClimbToRoot<T>(pair: (T, T) -> T, leaves: seq<T>) returns (root: T)
    requires leaves != []
    ensures root == Root(pair, leaves)
  {
    var level := leaves;
    while |level| > 1
      invariant level != []
      invariant Root(pair, level) == Root(pair, leaves)
      decreases |level|
    {
      level := LevelUp(pair, level);
    }
    return level[0];
  }

  method ClimbCollecting<T>(pair: (T, T) -> T, leaves: seq<T>, index: nat) returns (siblings: seq<T>, root: T)
    requires index < |leaves|
    ensures siblings == Proof(pair, leaves, index)
    ensures root == Root(pair, leaves)
  {
    var level, idx: nat := leaves, index;
    siblings := [];
    while |level| > 1
      invariant idx < |level|
      invariant siblings + Proof(pair, level, idx) == Proof(pair, leaves, index)
      invariant Root(pair, level) == Root(pair, leaves)
      decreases |level|
    {
      var padded := PadLevel(level);
      var sibling := padded[if idx % 2 == 1 then idx - 1 else idx + 1];  // idx ^ 1
      ghost var above := Proof(pair, Next(pair, level), idx / 2);
      ProofStep(pair, level, idx);
      assert siblings + ([sibling] + above) == (siblings + [sibling]) + above;
      siblings := siblings + [sibling];
      level := LevelUp(pair, level);
      idx := idx / 2;
    }
    ProofStep(pair, level, idx);
    return siblings, level[0];
  }
}
