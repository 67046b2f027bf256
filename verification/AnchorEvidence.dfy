/** What the anchoring protocol guarantees in every reachable state, and how fast it drains a backlog. */
module AnchorEvidence {
  import opened Hashing
  import opened Ledger
  import opened EvmMerkle
  import opened AnchorProtocol
  import CanonicalJson
  import MerkleTree
  import ProofLengths

  // ---- reachable states

  lemma {:induction false} StartIsOk(sys: Settings)
    ensures Inv(sys, START)
  {
  }

  /**
   Under every interleaving of appends and flushes, failing and refused ones
   included, the anchored events are a prefix of the ledger and every batch
   describes its range, in the table and on the chain.
   */
  lemma {:induction false} ReachableIsAnchoredInOrder(sys: Settings, actions: seq<Action>)
    ensures
      var s := Run(sys, START, actions);
      && (forall i, j :: 0 <= i < j < |s.rows| && s.rows[j].anchoredIn.Some? ==> s.rows[i].anchoredIn.Some?)
      && Unanchored(s.rows) == s.rows[Frontier(s.rows)..]
      && (forall b :: b in s.anchors ==> AnchorOk(sys.f, s.rows, s.anchors[b]))
      && (forall i :: 0 <= i < |s.rows| ==> s.rows[i].seqNo == i + 1 && EventOk(s, s.rows[i]))
      && (forall b :: b in s.chain ==> b in s.anchors && s.chain[b] == s.anchors[b].rootHash)
  {
    hide AnchorOk, EventOk, Run;
    StartIsOk(sys);
    RunKeepsInv(sys, START, actions);
    UnanchoredIsTail(Run(sys, START, actions).rows);
  }

  /** What is recorded stays recorded, and a mark, once set, is never changed, whatever happens later. */
  lemma {:induction false} MarksAreFinal(sys: Settings, actions: seq<Action>, more: seq<Action>, i: nat)
    requires i < |Run(sys, START, actions).rows|
    ensures
      var early, late := Run(sys, START, actions).rows, Run(sys, Run(sys, START, actions), more).rows;
      && i < |late|
      && late[i].(anchoredIn := None) == early[i].(anchoredIn := None)
      && (early[i].anchoredIn.Some? ==> late[i] == early[i])
  {
    hide Inv, Run;
    StartIsOk(sys);
    RunKeepsInv(sys, START, actions);
    RunKeepsInv(sys, Run(sys, START, actions), more);
  }

  /** Without a completed flush nothing is marked: a failed, refused or cancelled one leaves its events to the next. */
  lemma {:induction false} OnlyCompletionMarks(sys: Settings, s: State, actions: seq<Action>)
    requires forall i :: 0 <= i < |actions| ==> !actions[i].FinishCommitted?
    ensures
      var t := Run(sys, s, actions);
      && s.rows <= t.rows
      && ((forall i :: 0 <= i < |actions| ==> !actions[i].RecordEvent?) ==> Pending(sys, t.rows) == Pending(sys, s.rows))
  {
    hide Pending, NewRow, TooSoon, Snapshot, Enabled;
    if actions != [] {
      OnlyCompletionMarks(sys, s, actions[..|actions| - 1]);
    }
  }

  // ---- proofs

  datatype MerkleProof = MerkleProof(batchId: string, leaf: string, siblings: seq<string>, root: string)

  /** `ORDER BY seq` position of a row in a query result. */
  function IndexOf(rows: seq<Row>, seqNo: int): (i: nat)
    ensures i <= |rows|
    ensures i < |rows| ==> rows[i].seqNo == seqNo
    ensures forall j :: 0 <= j < i ==> rows[j].seqNo != seqNo
  {
    if rows == [] || rows[0].seqNo == seqNo then 0 else 1 + IndexOf(rows[1..], seqNo)
  }

  /** The batch that the join of the event with `anchors` finds. */
  function BatchOf(s: State, leafSeq: int): Option<string> {
    var i := IndexOf(s.rows, leafSeq);
    if i == |s.rows| || s.rows[i].anchoredIn.None? || s.rows[i].anchoredIn.value !in s.anchors then None
    else s.rows[i].anchoredIn
  }

  /** The chain's `verifyProof`; `None` is the ValueError of an unparsable string. */
  function ChainAccepts(f: Format, chain: map<string, string>, batchId: string, leaf: string, siblings: seq<string>): Option<bool> {
    if batchId !in chain then Some(false) else VerifyEvm(f, leaf, siblings, chain[batchId])
  }

  /** `Absent` is no matching row; `Crashed` is `next` on an exhausted iterator. */
  datatype Built = Absent | Crashed | Built(proof: MerkleProof)

  /** `build_proof_for_event`. */
  function ProofFor(f: Format, s: State, leafSeq: int): Built {
    match BatchOf(s, leafSeq)
    case None => Absent
    case Some(b) =>
      var a := s.anchors[b];
      var found := Between(s.rows, a.first, a.last);
      var i := IndexOf(found, leafSeq);
      if i == |found| then Crashed
      else
        var p := ProofEvmOf(f, PayloadHashes(found), i);
        Built(MerkleProof(b, p.leaf, p.siblings, a.rootHash))
  }

  lemma {:induction false} BatchOfNumbered(s: State, leafSeq: int)
    requires Numbered(s.rows) && forall i :: 0 <= i < |s.rows| ==> EventOk(s, s.rows[i])
    ensures BatchOf(s, leafSeq) == if 1 <= leafSeq <= |s.rows| then s.rows[leafSeq - 1].anchoredIn else None
  {
    IndexOfNumbered(s.rows, 1, leafSeq);
    if 1 <= leafSeq <= |s.rows| {
      assert EventOk(s, s.rows[leafSeq - 1]);
    }
  }

  /** In the range of an anchor row, the query finds the leaves and the position. */
  lemma {:induction false} RangeQuery(f: Format, rows: seq<Row>, a: Anchor, leafSeq: int)
    requires Numbered(rows) && AnchorOk(f, rows, a) && a.first <= leafSeq <= a.last
    ensures
      var found := Between(rows, a.first, a.last);
      && PayloadHashes(found) == LeavesOf(rows, a.first, a.last)
      && |found| == a.leafCount && IndexOf(found, leafSeq) == leafSeq - a.first < |found|
      && PayloadHashes(found)[leafSeq - a.first] == rows[leafSeq - 1].payloadHash
  {
    hide RootEvm;
    BetweenIsSlice(rows, 1, a.first, a.last);
    IndexOfNumbered(rows[a.first - 1..a.last], a.first, leafSeq);
  }

  lemma {:induction false} ProofInBatch(f: Format, s: State, leafSeq: int)
    requires Lawful(f) && Numbered(s.rows)
    requires 1 <= leafSeq <= |s.rows| && BatchOf(s, leafSeq) == s.rows[leafSeq - 1].anchoredIn
    requires s.rows[leafSeq - 1].anchoredIn.Some?
    requires EventOk(s, s.rows[leafSeq - 1])
    requires
      var b := s.rows[leafSeq - 1].anchoredIn.value;
      AnchorOk(f, s.rows, s.anchors[b]) && b in s.chain && s.chain[b] == s.anchors[b].rootHash
    ensures
      var b := s.rows[leafSeq - 1].anchoredIn.value;
      && ProofFor(f, s, leafSeq).Built?
      && var p := ProofFor(f, s, leafSeq).proof;
         && p.batchId == b && p.root == s.anchors[b].rootHash
         && p.leaf == LeafNode(f, s.rows[leafSeq - 1].payloadHash)
         && ChainAccepts(f, s.chain, p.batchId, p.leaf, p.siblings) == Some(true)
  {
    hide Lawful, VerifyEvm, ProofEvmOf, RootEvm, LeafNode, LeavesOf, Between, BatchOf, IndexOf;
    var a := s.anchors[s.rows[leafSeq - 1].anchoredIn.value];
    RangeQuery(f, s.rows, a, leafSeq);
    RoundTripEvm(f, PayloadHashes(Between(s.rows, a.first, a.last)), leafSeq - a.first);
  }

  /**
   In every reachable state a proof is built exactly for the anchored events,
   it is about that very event, and the chain accepts it, however the batches
   of concurrent flushes overlap.
   */
  lemma {:induction false} ProofIsAccepted(sys: Settings, actions: seq<Action>, leafSeq: int)
    requires Lawful(sys.f)
    ensures
      var s := Run(sys, START, actions);
      && !ProofFor(sys.f, s, leafSeq).Crashed?
      && (ProofFor(sys.f, s, leafSeq).Built? <==> 1 <= leafSeq <= |s.rows| && s.rows[leafSeq - 1].anchoredIn.Some?)
      && (ProofFor(sys.f, s, leafSeq).Built? ==>
            var p := ProofFor(sys.f, s, leafSeq).proof;
            && Some(p.batchId) == s.rows[leafSeq - 1].anchoredIn
            && p.leaf == LeafNode(sys.f, s.rows[leafSeq - 1].payloadHash)
            && ChainAccepts(sys.f, s.chain, p.batchId, p.leaf, p.siblings) == Some(true))
  {
    hide Run, Lawful, ProofEvmOf, AnchorOk, PrefixAnchored, LeafNode, ChainAccepts, Between, Numbered, BatchOf, IndexOf;
    var s := Run(sys, START, actions);
    StartIsOk(sys);
    RunKeepsInv(sys, START, actions);
    BatchOfNumbered(s, leafSeq);
    if 1 <= leafSeq <= |s.rows| && s.rows[leafSeq - 1].anchoredIn.Some? {
      assert EventOk(s, s.rows[leafSeq - 1]);
      ProofInBatch(sys.f, s, leafSeq);
    }
  }

  lemma {:induction false} IndexOfNumbered(rows: seq<Row>, base: int, seqNo: int)
    requires forall i :: 0 <= i < |rows| ==> rows[i].seqNo == base + i
    ensures IndexOf(rows, seqNo) == if base <= seqNo < base + |rows| then seqNo - base else |rows|
  {
    if base <= seqNo < base + |rows| {
      assert rows[seqNo - base].seqNo == seqNo;
    }
  }

  lemma {:induction false} StepRecordsDigests(sys: Settings, s: State, a: Action, i: nat)
    requires Sized(sys.c.h) && Inv(sys, s) && Enabled(s, a) && i < |Step(sys, s, a).rows|
    requires forall j :: 0 <= j < |s.rows| ==> IsDigest(s.rows[j].payloadHash)
    ensures IsDigest(Step(sys, s, a).rows[i].payloadHash)
  {
    hide IsDigest, Begin, Inv;
    if a.BeginFlush? {
      BeginKeepsInv(sys, s, a.batchId, a.force, a.refused, a.now);
    }
  }

  /** Only digests are ever recorded. */
  lemma {:induction false} DigestsAreRecorded(sys: Settings, actions: seq<Action>, i: nat)
    requires Sized(sys.c.h) && i < |Run(sys, START, actions).rows|
    ensures IsDigest(Run(sys, START, actions).rows[i].payloadHash)
    decreases |actions|
  {
    hide IsDigest, Step, Enabled, Inv, Sized;
    if actions != [] {
      var before, a := actions[..|actions| - 1], actions[|actions| - 1];
      var s := Run(sys, START, before);
      forall j | 0 <= j < |s.rows| ensures IsDigest(s.rows[j].payloadHash) {
        DigestsAreRecorded(sys, before, j);
      }
      if Enabled(s, a) {
        StartIsOk(sys);
        RunKeepsInv(sys, START, before);
        StepRecordsDigests(sys, s, a, i);
      }
    }
  }

  /** The leaves of a batch of a reachable state are the recorded payload hashes of its range, which are digests. */
  lemma {:induction false} BatchHoldsDigests(sys: Settings, actions: seq<Action>, batchId: string)
    requires Sized(sys.c.h) && batchId in Run(sys, START, actions).anchors
    ensures
      var s := Run(sys, START, actions);
      var a := s.anchors[batchId];
      var leaves := PayloadHashes(Between(s.rows, a.first, a.last));
      && 1 <= a.first <= a.last <= |s.rows| && |leaves| == a.leafCount == a.last - a.first + 1
      && a.rootHash == RootEvm(sys.f, leaves)
      && (batchId in s.chain ==> s.chain[batchId] == a.rootHash)
      && forall i :: 0 <= i < |leaves| ==> IsDigest(leaves[i]) && leaves[i] == s.rows[a.first - 1 + i].payloadHash
  {
    hide Run, Sized, IsDigest, RootEvm, Between, Frontier, PrefixAnchored, EventOk, FlightOk;
    var s := Run(sys, START, actions);
    StartIsOk(sys);
    RunKeepsInv(sys, START, actions);
    var a := s.anchors[batchId];
    assert AnchorOk(sys.f, s.rows, a);
    RangeQuery(sys.f, s.rows, a, a.first);
    var leaves := LeavesOf(s.rows, a.first, a.last);
    forall i | 0 <= i < |leaves| ensures IsDigest(leaves[i]) {
      DigestsAreRecorded(sys, actions, a.first - 1 + i);
    }
  }

  /**
   What the chain attests, whatever the length of the proof: in every
   reachable state, a digest that it accepts for a batch was recorded in the
   range of the batch, if the proof has the batch's depth; with fewer siblings
   its text is a pair hashed in the batch's tree; with more, the text of a
   recorded digest is a pair hashed by the proof.
   */
  lemma {:induction false} AcceptedDigestWasRecorded(sys: Settings, actions: seq<Action>, batchId: string,
                                                     digest: string, siblings: seq<string>)
    requires Lawful(sys.f) && Sized(sys.c.h) && IsDigest(digest)
    requires batchId in Run(sys, START, actions).anchors
    requires
      var a := Run(sys, START, actions).anchors[batchId];
      var leaves := PayloadHashes(Between(Run(sys, START, actions).rows, a.first, a.last));
      NoCollision(sys.f.keccak, LeafInputs(sys.f, leaves + [digest]) + TreeInputsEvm(sys.f, LeafNodes(sys.f, leaves))
                                + ProofInputsEvm(sys.f, LeafNode(sys.f, digest), siblings))
    requires ChainAccepts(sys.f, Run(sys, START, actions).chain, batchId, LeafNode(sys.f, digest), siblings) == Some(true)
    ensures
      var s := Run(sys, START, actions);
      var a := s.anchors[batchId];
      var leaves := PayloadHashes(Between(s.rows, a.first, a.last));
      && 1 <= a.first <= a.last <= |s.rows|
      && (|siblings| == MerkleTree.Depth(a.leafCount) ==>
            exists i | a.first - 1 <= i < a.last :: s.rows[i].payloadHash == digest)
      && (|siblings| < MerkleTree.Depth(a.leafCount) ==>
            sys.f.leafText(digest) in TreeInputsEvm(sys.f, LeafNodes(sys.f, leaves)))
      && (|siblings| > MerkleTree.Depth(a.leafCount) ==>
            exists i | 0 <= i < |leaves| :: sys.f.leafText(leaves[i]) in ProofInputsEvm(sys.f, LeafNode(sys.f, digest), siblings))
  {
    hide Run, Lawful, Sized, IsDigest, VerifyEvm, RootEvm, LeafNode, LeafNodes, LeafInputs, TreeInputsEvm, ProofInputsEvm,
         NoCollision, Between, PayloadHashes, MerkleTree.Depth;
    var s := Run(sys, START, actions);
    var a := s.anchors[batchId];
    BatchHoldsDigests(sys, actions, batchId);
    var leaves := PayloadHashes(Between(s.rows, a.first, a.last));
    ProofLengths.DigestAtAnyLength(sys.f, leaves, digest, siblings);
    if |siblings| == MerkleTree.Depth(a.leafCount) {
      var i :| 0 <= i < |leaves| && leaves[i] == digest;
      assert s.rows[a.first - 1 + i].payloadHash == digest;
    }
  }

  // ---- draining a backlog

  /** Events that arrive, then one forced flush that succeeds and whose ANCHOR_COMMITTED event is recorded. */
  datatype Round = Round(arrivals: seq<Action>, batchId: string, now: real, receipt: Receipt, event: CanonicalJson.Json)

  function FlushActions(r: Round): seq<Action> {
    [BeginFlush(r.batchId, true, false, r.now), CommitBatch(r.batchId), FinishCommitted(r.batchId, r.receipt, Some(r.event))]
  }

  predicate OnlyEvents(actions: seq<Action>) {
    forall i :: 0 <= i < |actions| ==> actions[i].RecordEvent?
  }

  predicate FreshRound(sys: Settings, s: State, r: Round) {
    && OnlyEvents(r.arrivals) && r.batchId !in s.anchors && r.batchId !in s.chain
  }

  function AfterRound(sys: Settings, s: State, r: Round): State {
    Run(sys, Run(sys, s, r.arrivals), FlushActions(r))
  }

  predicate FreshRounds(sys: Settings, s: State, rounds: seq<Round>) {
    rounds == [] || (FreshRounds(sys, s, rounds[..|rounds| - 1])
                     && FreshRound(sys, AfterRounds(sys, s, rounds[..|rounds| - 1]), rounds[|rounds| - 1]))
  }

  function AfterRounds(sys: Settings, s: State, rounds: seq<Round>): State {
    if rounds == [] then s else AfterRound(sys, AfterRounds(sys, s, rounds[..|rounds| - 1]), rounds[|rounds| - 1])
  }

  /** Nothing arrives. */
  predicate Quiet(rounds: seq<Round>) {
    rounds == [] || (Quiet(rounds[..|rounds| - 1]) && rounds[|rounds| - 1].arrivals == [])
  }

  function Min(a: int, b: int): int {
    if a <= b then a else b
  }

  lemma {:induction false} ArrivalsOnlyAdd(sys: Settings, s: State, actions: seq<Action>)
    requires Inv(sys, s) && OnlyEvents(actions)
    ensures
      var t := Run(sys, s, actions);
      && Inv(sys, t) && t.anchors == s.anchors && t.chain == s.chain && t.inFlight == s.inFlight
      && |t.rows| == |s.rows| + |actions| && Frontier(t.rows) == Frontier(s.rows)
  {
    hide Frontier, PrefixAnchored, EventOk, FlightOk, AnchorOk, Evolves;
    if actions != [] {
      var before, a := actions[..|actions| - 1], actions[|actions| - 1];
      ArrivalsOnlyAdd(sys, s, before);
      RecordKeepsInv(sys, Run(sys, s, before), a.eventType, a.payload, a.userId);
      AppendEvolves(sys.c, Run(sys, s, before).rows, a.eventType, a.payload, a.userId);
    }
  }

  /** Unfolds a run of three actions. */
  lemma {:induction false} RunThree(sys: Settings, s: State, a: Action, b: Action, c: Action)
    requires Enabled(s, a) && Enabled(Step(sys, s, a), b) && Enabled(Step(sys, Step(sys, s, a), b), c)
    ensures Run(sys, s, [a, b, c]) == Step(sys, Step(sys, Step(sys, s, a), b), c)
  {
    hide Enabled, Step;
    assert [a, b, c][..2] == [a, b] && [a, b][..1] == [a] && [a][..0] == [];
    assert Run(sys, s, [a]) == Step(sys, s, a);
    assert Run(sys, s, [a, b]) == Step(sys, Step(sys, s, a), b);
  }

  /** The rows that a flush alone leaves. */
  lemma {:induction false} FlushAloneRows(sys: Settings, s: State, r: Round)
    requires r.batchId !in s.anchors && r.batchId !in s.chain && Pending(sys, s.rows) != []
    ensures
      var flush := Snapshot(sys.f, Pending(sys, s.rows));
      var marked := Mark(s.rows, flush.first, flush.last, r.batchId);
      Run(sys, s, FlushActions(r)).rows == marked + [NewRow(sys.c, marked, "ANCHOR_COMMITTED", r.event, "system:anchor_service")]
  {
    hide NewRow, Mark, Pending, Snapshot;
    var id := r.batchId;
    RunThree(sys, s, BeginFlush(id, true, false, r.now), CommitBatch(id), FinishCommitted(id, r.receipt, Some(r.event)));
  }

  /** One forced flush that succeeds, alone: it anchors what it may and puts one event back. */
  lemma {:induction false} FlushAlone(sys: Settings, s: State, r: Round)
    requires Inv(sys, s) && r.batchId !in s.anchors && r.batchId !in s.chain
    requires Frontier(s.rows) < |s.rows| && sys.batchSize >= 1
    ensures
      var t := Run(sys, s, FlushActions(r));
      && Inv(sys, t) && |t.rows| == |s.rows| + 1
      && Frontier(t.rows) == Min(Frontier(s.rows) + 4 * sys.batchSize, |s.rows|)
      && t.rows[|s.rows|].eventType == "ANCHOR_COMMITTED"
  {
    hide Frontier, PrefixAnchored, Numbered, LeavesOf, EventOk, AnchorOk, FlightOk, Pending, Snapshot, Evolves, Run, FlushActions;
    PendingIsNext(sys, s.rows);
    FlushAloneRows(sys, s, r);
    RunKeepsInv(sys, s, FlushActions(r));
    var flush := Snapshot(sys.f, Pending(sys, s.rows));
    MarkEvolves(s.rows, flush.first, flush.last, r.batchId);
    AppendEvolves(sys.c, Mark(s.rows, flush.first, flush.last, r.batchId), "ANCHOR_COMMITTED", r.event, "system:anchor_service");
  }

  lemma {:induction false} OneRound(sys: Settings, s: State, r: Round)
    requires Inv(sys, s) && sys.batchSize >= 1 && Frontier(s.rows) < |s.rows| && FreshRound(sys, s, r)
    ensures
      var t := AfterRound(sys, s, r);
      && Inv(sys, t) && |t.rows| == |s.rows| + |r.arrivals| + 1
      && Frontier(t.rows) == Min(Frontier(s.rows) + 4 * sys.batchSize, |s.rows| + |r.arrivals|)
  {
    hide Inv, Frontier, FlushActions, Run;
    ArrivalsOnlyAdd(sys, s, r.arrivals);
    FlushAlone(sys, Run(sys, s, r.arrivals), r);
  }

  /** The arithmetic of one more round. */
  lemma {:induction false} OneMoreRound(k: nat, n: nat, i: nat, limit: nat, front: nat, size: nat)
    requires limit >= 1 && size >= n + i
    ensures k + (i + 1) * limit == k + i * limit + limit
    ensures front >= Min(k + i * limit, n) ==> Min(front + limit, size) >= Min(k + (i + 1) * limit, n)
    ensures size == n + i && (i == 0 ==> front == k) && (i > 0 ==> front == Min(k + i * limit, size - 1))
            ==> Min(front + limit, size) == Min(k + (i + 1) * limit, size)
  {
    assert (i + 1) * limit == i * limit + limit;
  }

  /**
   However many events arrive between the rounds, `i` rounds anchor at least
   the first `i * 4 * batchSize` of those that were waiting; without arrivals
   the frontier is exactly as stated, so `ceil(n / L)` flushes are needed and
   suffice for `n` waiting events, and the queue is never empty afterwards.
   */
  lemma {:induction false} Drain(sys: Settings, s: State, rounds: seq<Round>)
    requires Inv(sys, s) && sys.batchSize >= 1 && Frontier(s.rows) < |s.rows| && FreshRounds(sys, s, rounds)
    ensures
      var t, reach := AfterRounds(sys, s, rounds), Frontier(s.rows) + |rounds| * (4 * sys.batchSize);
      && Inv(sys, t)
      && Frontier(t.rows) < |t.rows| && |t.rows| >= |s.rows| + |rounds|
      && Frontier(t.rows) >= Min(reach, |s.rows|)
      && (Quiet(rounds) && rounds != [] ==>
            && |t.rows| == |s.rows| + |rounds|
            && Frontier(t.rows) == Min(reach, |t.rows| - 1)
            && (Frontier(t.rows) >= |s.rows| <==> reach >= |s.rows|))
  {
    hide Inv, Frontier, AfterRound, FreshRound;
    if rounds == [] {
      assert |rounds| * (4 * sys.batchSize) == 0;
    } else {
      var before, r := rounds[..|rounds| - 1], rounds[|rounds| - 1];
      Drain(sys, s, before);
      var t := AfterRounds(sys, s, before);
      OneRound(sys, t, r);
      OneMoreRound(Frontier(s.rows), |s.rows|, |before|, 4 * sys.batchSize, Frontier(t.rows), |t.rows| + |r.arrivals|);
    }
  }

  // ---- when a flush lists a batch

  /** The greatest `anchored_at` of any row, 0.0 when there is none. */
  ghost predicate IsLatest(anchors: map<string, Anchor>, latest: real) {
    && (anchors == map[] ==> latest == 0.0)
    && (anchors != map[] ==> exists b | b in anchors :: anchors[b].anchoredAt == latest)
    && forall b :: b in anchors ==> anchors[b].anchoredAt <= latest
  }

  /**
   The reply of a flush in terms of the `n` events that wait: nothing without
   one; deferred when it is not forced, and there are fewer than a batch, and
   the interval since the latest anchor row has not passed; otherwise a row is
   listed, and the flush stops there exactly when the breaker refuses.
   */
  lemma {:induction false} FlushReplyIff(sys: Settings, actions: seq<Action>, batchId: string, force: bool, refused: bool, now: real, latest: real)
    requires sys.batchSize >= 1 && IsLatest(Run(sys, START, actions).anchors, latest)
    ensures
      var s := Run(sys, START, actions);
      var (t, reply) := Begin(sys, s, batchId, force, refused, now);
      var n := |s.rows| - Frontier(s.rows);
      var deferred := !force && 0 < n < sys.batchSize && now - latest < sys.interval;
      && (reply == Empty <==> n == 0)
      && (reply == Deferred(n) <==> deferred)
      && (reply == BreakerOpen <==> n > 0 && !deferred && refused)
      && (reply == Awaiting <==> n > 0 && !deferred && !refused)
  {
    hide Run, Frontier, Snapshot, PendingAnchor;
    var s := Run(sys, START, actions);
    RunIsNumbered(sys, actions);
    PendingIsNext(sys, s.rows);
    TooSoonIff(s.anchors, now, sys.interval, latest);
  }

  lemma {:induction false} TooSoonIff(anchors: map<string, Anchor>, now: real, interval: real, latest: real)
    requires IsLatest(anchors, latest)
    ensures TooSoon(anchors, now, interval) <==> now - latest < interval
  {
    if anchors != map[] {
      var b :| b in anchors && anchors[b].anchoredAt == latest;
    }
  }

  /** The next events: at most four batches, from behind the frontier. */
  predicate CoversNext(sys: Settings, rows: seq<Row>, a: Anchor) {
    var first, last := Frontier(rows) + 1, Min(Frontier(rows) + 4 * sys.batchSize, |rows|);
    && first <= last
    && a.first == first && a.last == last && a.leafCount == last - first + 1
    && a.rootHash == RootEvm(sys.f, LeavesOf(rows, first, last))
  }

  lemma {:induction false} SnapshotCoversNext(sys: Settings, rows: seq<Row>, now: real)
    requires Numbered(rows) && PrefixAnchored(rows) && Pending(sys, rows) != []
    ensures CoversNext(sys, rows, PendingAnchor(Snapshot(sys.f, Pending(sys, rows)), now))
  {
    hide RootEvm, Frontier, LeavesOf, Numbered, PrefixAnchored;
    PendingIsNext(sys, rows);
  }

  /** What a flush writes: nothing, or one PENDING row over the next events; and only a flush that is let through stays in flight. */
  lemma {:induction false} FlushLists(sys: Settings, actions: seq<Action>, batchId: string, force: bool, refused: bool, now: real)
    requires batchId !in Run(sys, START, actions).anchors
    ensures
      var s := Run(sys, START, actions);
      var (t, reply) := Begin(sys, s, batchId, force, refused, now);
      && (reply.Empty? || reply.Deferred? ==> t == s)
      && (reply.BreakerOpen? || reply.Awaiting? ==>
            && batchId in t.anchors && CoversNext(sys, s.rows, t.anchors[batchId])
            && t.anchors[batchId].status == "PENDING" && t.anchors[batchId].anchoredAt == now && t.anchors[batchId].receipt == None
            && t == s.(anchors := s.anchors[batchId := t.anchors[batchId]], inFlight := t.inFlight)
            && t.inFlight.Keys == s.inFlight.Keys + if reply.Awaiting? then {batchId} else {})
  {
    hide Run, Pending, Snapshot, CoversNext, TooSoon;
    var s := Run(sys, START, actions);
    RunIsNumbered(sys, actions);
    if Pending(sys, s.rows) != [] {
      SnapshotCoversNext(sys, s.rows, now);
    }
  }

  lemma {:induction false} RunIsNumbered(sys: Settings, actions: seq<Action>)
    ensures Numbered(Run(sys, START, actions).rows) && PrefixAnchored(Run(sys, START, actions).rows)
  {
    hide Run, Numbered, PrefixAnchored;
    StartIsOk(sys);
    RunKeepsInv(sys, START, actions);
  }

  /** A flush that is not forced lists a batch as soon as a full batch waits, or any event waits and the interval has passed. */
  lemma {:induction false} FullOrLateIsListed(sys: Settings, actions: seq<Action>, batchId: string, force: bool, refused: bool, now: real, latest: real)
    requires sys.batchSize >= 1 && IsLatest(Run(sys, START, actions).anchors, latest)
    requires
      var s := Run(sys, START, actions);
      |s.rows| - Frontier(s.rows) >= if now - latest >= sys.interval then 1 else sys.batchSize
    ensures
      var (t, reply) := Begin(sys, Run(sys, START, actions), batchId, force, refused, now);
      batchId in t.anchors && t.anchors[batchId].status == "PENDING" && reply == if refused then BreakerOpen else Awaiting
  {
    hide Run, Frontier, Pending, Snapshot;
    FlushReplyIff(sys, actions, batchId, force, refused, now, latest);
  }

  /** How a flush in flight ends: marked events, the receipt in its row and at most one new event; or a FAILED row and no mark; or nothing. */
  lemma {:induction false} FlushEnds(sys: Settings, actions: seq<Action>, batchId: string, receipt: Receipt, event: Option<CanonicalJson.Json>)
    requires batchId in Run(sys, START, actions).inFlight
    ensures batchId in Run(sys, START, actions).anchors
    ensures
      var s := Run(sys, START, actions);
      var (a, done) := (s.anchors[batchId], Complete(sys, s, batchId, receipt, event));
      && |done.rows| == |s.rows| + (if event.Some? then 1 else 0)
      && (forall i :: 0 <= i < |s.rows| ==>
            done.rows[i] == if a.first <= i + 1 <= a.last && s.rows[i].anchoredIn.None? then s.rows[i].(anchoredIn := Some(batchId)) else s.rows[i])
      && done.anchors == s.anchors[batchId := a.(status := receipt.status, receipt := Some(receipt))]
      && done.inFlight.Keys == s.inFlight.Keys - {batchId} && done.chain == s.chain
    ensures
      var s := Run(sys, START, actions);
      var (failed, gone) := (Step(sys, s, FinishFailed(batchId)), Step(sys, s, Cancelled(batchId)));
      && failed.rows == s.rows && failed.chain == s.chain && failed.inFlight.Keys == s.inFlight.Keys - {batchId}
      && failed.anchors == s.anchors[batchId := s.anchors[batchId].(status := "FAILED")]
      && gone == s.(inFlight := gone.inFlight) && gone.inFlight.Keys == s.inFlight.Keys - {batchId}
  {
    hide Run, Frontier, RootEvm, NewRow;
    var s := Run(sys, START, actions);
    StartIsOk(sys);
    RunKeepsInv(sys, START, actions);
    assert FlightOk(s, batchId);
  }
}
