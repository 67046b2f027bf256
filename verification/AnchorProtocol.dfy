/**
 The anchoring of one district as a state machine. A flush has two atomic
 halves around one `await`, so any number of flushes can be in flight while
 events are appended and while other flushes begin, commit, fail or vanish.
 A run is a list of actions; an action that is not enabled changes nothing.
 */
module AnchorProtocol {
  import opened Hashing
  import opened Ledger
  import opened EvmMerkle
  import CanonicalJson

  datatype Settings = Settings(c: Codec, f: Format, batchSize: nat, interval: real)

  datatype Receipt = Receipt(txHash: string, blockNumber: Option<int>, confirmedAt: Option<real>, status: string)

  /** A row of `anchors`; `receipt` holds tx_hash, block_number and confirmed_at once they are known. */
  datatype Anchor = Anchor(
    rootHash: string, first: int, last: int, leafCount: nat, status: string, anchoredAt: real, receipt: Option<Receipt>)

  /** The local variables of a flush that is suspended at its `await`. */
  datatype Flush = Flush(first: int, last: int, leaves: seq<string>, onchainRoot: string)

  /** The district's ledger rows, the `anchors` table, the chain, and the suspended flushes, by batch id. */
  datatype State = State(rows: seq<Row>, anchors: map<string, Anchor>, chain: map<string, string>, inFlight: map<string, Flush>)

  const START := State([], map[], map[], map[])

  datatype Reply = Empty | Deferred(leafCount: nat) | BreakerOpen | Awaiting

  // ---- the two halves of a flush

  /** The events that one flush takes. */
  function Pending(sys: Settings, rows: seq<Row>): seq<Row> {
    Take(Unanchored(rows), 4 * sys.batchSize)
  }

  /** Less than `interval` since the last anchor row of any status, or since time 0. */
  predicate TooSoon(anchors: map<string, Anchor>, now: real, interval: real) {
    if anchors == map[] then now < interval
    else exists b | b in anchors :: now - anchors[b].anchoredAt < interval
  }

  function Snapshot(f: Format, events: seq<Row>): Flush
    requires events != []
  {
    var leaves := PayloadHashes(events);
    Flush(events[0].seqNo, events[|events| - 1].seqNo, leaves, RootEvm(f, leaves))
  }

  function PendingAnchor(flush: Flush, now: real): Anchor {
    Anchor(flush.onchainRoot, flush.first, flush.last, |flush.leaves|, "PENDING", now, None)
  }

  /** Up to the `await`; `refused` is the breaker's CircuitOpenError. */
  function Begin(sys: Settings, s: State, batchId: string, force: bool, refused: bool, now: real): (State, Reply) {
    var events := Pending(sys, s.rows);
    if events == [] then (s, Empty)
    else if !force && |events| < sys.batchSize && TooSoon(s.anchors, now, sys.interval) then (s, Deferred(|events|))
    else
      var flush := Snapshot(sys.f, events);
      var listed := s.(anchors := s.anchors[batchId := PendingAnchor(flush, now)]);
      if refused then (listed, BreakerOpen)
      else (listed.(inFlight := s.inFlight[batchId := flush]), Awaiting)
  }

  /** The two updates of an anchor row. */
  datatype Update = Fail | Confirm(receipt: Receipt)

  function Updated(a: Anchor, update: Update): Anchor {
    match update
    case Fail => a.(status := "FAILED")
    case Confirm(receipt) => a.(status := receipt.status, receipt := Some(receipt))
  }

  function UpdateRow(anchors: map<string, Anchor>, batchId: string, update: Update): map<string, Anchor> {
    if batchId in anchors then anchors[batchId := Updated(anchors[batchId], update)] else anchors
  }

  /** After the `await` returned a receipt, whatever its status; `event` is `None` when `audit_emit` swallowed an error. */
  function Complete(sys: Settings, s: State, batchId: string, receipt: Receipt, event: Option<CanonicalJson.Json>): State
    requires batchId in s.inFlight
  {
    var flush := s.inFlight[batchId];
    var marked := Mark(s.rows, flush.first, flush.last, batchId);
    State(
      if event.None? then marked
      else marked + [NewRow(sys.c, marked, "ANCHOR_COMMITTED", event.value, "system:anchor_service")],
      UpdateRow(s.anchors, batchId, Confirm(receipt)),
      s.chain,
      s.inFlight - {batchId})
  }

  // ---- runs

  /**
   `FinishFailed` may follow a commit that reached the chain; `Cancelled` is
   a task that dies at its `await` and leaves its row PENDING.
   */
  datatype Action =
    | RecordEvent(eventType: string, payload: CanonicalJson.Json, userId: string)
    | BeginFlush(batchId: string, force: bool, refused: bool, now: real)
    | CommitBatch(batchId: string)
    | FinishCommitted(batchId: string, receipt: Receipt, event: Option<CanonicalJson.Json>)
    | FinishFailed(batchId: string)
    | Cancelled(batchId: string)

  /** Batch ids are fresh, and only a suspended flush commits or finishes. */
  predicate Enabled(s: State, a: Action) {
    match a
    case RecordEvent(_, _, _) => true
    case BeginFlush(batchId, _, _, _) => batchId !in s.anchors && batchId !in s.chain
    case FinishCommitted(batchId, _, _) => batchId in s.inFlight && batchId in s.chain
    case _ => a.batchId in s.inFlight
  }

  function Step(sys: Settings, s: State, a: Action): State
    requires Enabled(s, a)
  {
    match a
    case RecordEvent(eventType, payload, userId) => s.(rows := s.rows + [NewRow(sys.c, s.rows, eventType, payload, userId)])
    case BeginFlush(batchId, force, refused, now) => Begin(sys, s, batchId, force, refused, now).0
    case CommitBatch(batchId) => s.(chain := s.chain[batchId := s.inFlight[batchId].onchainRoot])
    case FinishCommitted(batchId, receipt, event) => Complete(sys, s, batchId, receipt, event)
    case FinishFailed(batchId) =>
      s.(anchors := UpdateRow(s.anchors, batchId, Fail), inFlight := s.inFlight - {batchId})
    case Cancelled(batchId) => s.(inFlight := s.inFlight - {batchId})
  }

  function Run(sys: Settings, s: State, actions: seq<Action>): State {
    if actions == [] then s
    else
      var before := Run(sys, s, actions[..|actions| - 1]);
      if Enabled(before, actions[|actions| - 1]) then Step(sys, before, actions[|actions| - 1]) else before
  }

  // ---- the invariant

  predicate Numbered(rows: seq<Row>) {
    forall i :: 0 <= i < |rows| ==> rows[i].seqNo == i + 1
  }

  /** Length of the longest anchored prefix. */
  function Frontier(rows: seq<Row>): (k: nat)
    ensures k <= |rows|
    ensures forall i :: 0 <= i < k ==> rows[i].anchoredIn.Some?
    ensures k < |rows| ==> rows[k].anchoredIn.None?
  {
    if rows == [] || rows[0].anchoredIn.None? then 0 else 1 + Frontier(rows[1..])
  }

  /** No anchored event lies behind an unanchored one. */
  predicate PrefixAnchored(rows: seq<Row>) {
    forall i :: Frontier(rows) <= i < |rows| ==> rows[i].anchoredIn.None?
  }

  function LeavesOf(rows: seq<Row>, first: int, last: int): seq<string>
    requires 1 <= first <= last <= |rows|
  {
    PayloadHashes(rows[first - 1..last])
  }

  /** An anchor row describes its range of the ledger. */
  predicate AnchorOk(f: Format, rows: seq<Row>, a: Anchor) {
    && 1 <= a.first <= a.last <= |rows|
    && a.leafCount == a.last - a.first + 1
    && a.rootHash == RootEvm(f, LeavesOf(rows, a.first, a.last))
  }

  /** A suspended flush starts no later than one past the frontier. */
  predicate FlightOk(s: State, batchId: string)
    requires batchId in s.inFlight
  {
    var flush := s.inFlight[batchId];
    && batchId in s.anchors
    && s.anchors[batchId].first == flush.first && s.anchors[batchId].last == flush.last
    && s.anchors[batchId].rootHash == flush.onchainRoot
    && flush.first <= Frontier(s.rows) + 1
  }

  predicate EventOk(s: State, row: Row) {
    row.anchoredIn.Some? ==>
      var b := row.anchoredIn.value;
      && b in s.anchors && b in s.chain
      && s.anchors[b].first <= row.seqNo <= s.anchors[b].last
  }

  ghost predicate Inv(sys: Settings, s: State) {
    && Numbered(s.rows)
    && PrefixAnchored(s.rows)
    && (forall b :: b in s.anchors ==> AnchorOk(sys.f, s.rows, s.anchors[b]))
    && (forall b :: b in s.inFlight ==> FlightOk(s, b))
    && (forall b :: b in s.chain ==> b in s.anchors && s.chain[b] == s.anchors[b].rootHash)
    && (forall i :: 0 <= i < |s.rows| ==> EventOk(s, s.rows[i]))
  }

  // ---- how the rows evolve

  /** Events are only added, and only their mark may change, once. */
  predicate Evolves(old_: seq<Row>, new_: seq<Row>) {
    && |old_| <= |new_|
    && forall i :: 0 <= i < |old_| ==>
         new_[i] == old_[i] || (old_[i].anchoredIn.None? && new_[i] == old_[i].(anchoredIn := new_[i].anchoredIn))
  }

  lemma {:induction false} EvolvesTransitive(a: seq<Row>, b: seq<Row>, c: seq<Row>)
    requires Evolves(a, b) && Evolves(b, c)
    ensures Evolves(a, c)
  {
    forall i | 0 <= i < |a|
      ensures c[i] == a[i] || (a[i].anchoredIn.None? && c[i] == a[i].(anchoredIn := c[i].anchoredIn))
    {
      assert c[i] == b[i] || c[i] == b[i].(anchoredIn := c[i].anchoredIn);
    }
  }

  lemma {:induction false} FrontierIs(rows: seq<Row>, k: nat)
    requires k <= |rows| && forall i :: 0 <= i < |rows| ==> (rows[i].anchoredIn.Some? <==> i < k)
    ensures Frontier(rows) == k && PrefixAnchored(rows)
  {
    var r := Frontier(rows);
    assert r < |rows| ==> (rows[r].anchoredIn.Some? <==> r < k);
    assert k < |rows| ==> rows[k].anchoredIn.None?;
  }

  lemma {:induction false} LeavesSurvive(old_: seq<Row>, new_: seq<Row>, first: int, last: int)
    requires Evolves(old_, new_) && 1 <= first <= last <= |old_|
    ensures LeavesOf(new_, first, last) == LeavesOf(old_, first, last)
  {
  }

  lemma {:induction false} AnchorSurvives(f: Format, old_: seq<Row>, new_: seq<Row>, a: Anchor)
    requires Evolves(old_, new_) && AnchorOk(f, old_, a)
    ensures AnchorOk(f, new_, a)
  {
    hide RootEvm;
    LeavesSurvive(old_, new_, a.first, a.last);
  }

  lemma {:induction false} AppendEvolves(c: Codec, rows: seq<Row>, eventType: string, payload: CanonicalJson.Json, userId: string)
    requires Numbered(rows)
    ensures
      var longer := rows + [NewRow(c, rows, eventType, payload, userId)];
      && Numbered(longer) && Evolves(rows, longer)
      && (PrefixAnchored(rows) ==> PrefixAnchored(longer) && Frontier(longer) == Frontier(rows))
  {
    if PrefixAnchored(rows) {
      FrontierIs(rows + [NewRow(c, rows, eventType, payload, userId)], Frontier(rows));
    }
  }

  /** A mark whose range starts no later than one past the frontier moves the frontier to its end, if that is further. */
  lemma {:induction false} MarkEvolves(rows: seq<Row>, first: int, last: int, batchId: string)
    requires Numbered(rows) && PrefixAnchored(rows)
    requires 1 <= first <= last <= |rows| && first <= Frontier(rows) + 1
    ensures
      var marked := Mark(rows, first, last, batchId);
      && Numbered(marked) && Evolves(rows, marked) && PrefixAnchored(marked)
      && Frontier(marked) == if Frontier(rows) < last then last else Frontier(rows)
  {
    var k := if Frontier(rows) < last then last else Frontier(rows);
    FrontierIs(Mark(rows, first, last, batchId), k);
  }

  // ---- what the queries return

  /** A snapshot is gap-free: the unanchored events are the tail behind the frontier. */
  lemma {:induction false} UnanchoredIsTail(rows: seq<Row>)
    requires PrefixAnchored(rows)
    ensures Unanchored(rows) == rows[Frontier(rows)..]
  {
    if rows != [] {
      var k := Frontier(rows);
      if k == 0 {
        AllUnanchored(rows);
      } else {
        assert forall i :: 0 <= i < |rows[1..]| ==> rows[1..][i] == rows[i + 1];
        UnanchoredIsTail(rows[1..]);
        assert rows[1..][k - 1..] == rows[k..];
      }
    }
  }

  lemma {:induction false} AllUnanchored(rows: seq<Row>)
    requires forall i :: 0 <= i < |rows| ==> rows[i].anchoredIn.None?
    ensures Unanchored(rows) == rows
  {
    if rows != [] {
      AllUnanchored(rows[1..]);
    }
  }

  lemma {:induction false} BetweenIsSlice(rows: seq<Row>, base: int, first: int, last: int)
    requires forall i :: 0 <= i < |rows| ==> rows[i].seqNo == base + i
    requires base <= first <= last < base + |rows|
    ensures Between(rows, first, last) == rows[first - base..last - base + 1]
  {
    if base < first {
      BetweenIsSlice(rows[1..], base + 1, first, last);
      assert rows[1..][first - base - 1..last - base] == rows[first - base..last - base + 1];
    } else if base < last {
      BetweenIsSlice(rows[1..], base + 1, base + 1, last);
      BetweenFrom(rows[1..], base + 1, first, last);
      assert [rows[0]] + rows[1..][..last - base] == rows[..last - base + 1];
    } else {
      BetweenNone(rows[1..], first, last);
    }
  }

  lemma {:induction false} BetweenFrom(rows: seq<Row>, base: int, first: int, last: int)
    requires forall i :: 0 <= i < |rows| ==> rows[i].seqNo >= base
    requires first <= base
    ensures Between(rows, first, last) == Between(rows, base, last)
  {
    if rows != [] {
      BetweenFrom(rows[1..], base, first, last);
    }
  }

  lemma {:induction false} BetweenNone(rows: seq<Row>, first: int, last: int)
    requires forall i :: 0 <= i < |rows| ==> rows[i].seqNo > last
    ensures Between(rows, first, last) == []
  {
    if rows != [] {
      BetweenNone(rows[1..], first, last);
    }
  }

  /** What a flush takes, in terms of the frontier. */
  lemma {:induction false} PendingIsNext(sys: Settings, rows: seq<Row>)
    requires Numbered(rows) && PrefixAnchored(rows)
    ensures
      var k := Frontier(rows);
      var n := if |rows| - k <= 4 * sys.batchSize then |rows| - k else 4 * sys.batchSize;
      && Pending(sys, rows) == rows[k..k + n]
      && (n > 0 ==>
            && Snapshot(sys.f, rows[k..k + n]).first == k + 1 && Snapshot(sys.f, rows[k..k + n]).last == k + n
            && Snapshot(sys.f, rows[k..k + n]).leaves == LeavesOf(rows, k + 1, k + n))
  {
    hide RootEvm;
    UnanchoredIsTail(rows);
    var k := Frontier(rows);
    var n := if |rows| - k <= 4 * sys.batchSize then |rows| - k else 4 * sys.batchSize;
    assert rows[k..][..n] == rows[k..k + n];
  }

  // ---- every step keeps the invariant

  lemma {:induction false} RowsGrow(sys: Settings, s: State, rows: seq<Row>)
    requires Inv(sys, s) && Evolves(s.rows, rows) && Numbered(rows) && PrefixAnchored(rows)
    requires Frontier(rows) >= Frontier(s.rows)
    requires forall i :: 0 <= i < |rows| ==> EventOk(s, rows[i])
    ensures Inv(sys, s.(rows := rows))
  {
    hide Frontier, Evolves, AnchorOk, Numbered, PrefixAnchored;
    forall b | b in s.anchors ensures AnchorOk(sys.f, rows, s.anchors[b]) {
      AnchorSurvives(sys.f, s.rows, rows, s.anchors[b]);
    }
    var t := s.(rows := rows);
    forall b | b in t.inFlight ensures FlightOk(t, b) {
      assert FlightOk(s, b);
    }
    forall i | 0 <= i < |rows| ensures EventOk(t, rows[i]) {
      assert EventOk(s, rows[i]);
    }
  }

  lemma {:induction false} RecordKeepsInv(sys: Settings, s: State, eventType: string, payload: CanonicalJson.Json, userId: string)
    requires Inv(sys, s)
    ensures Inv(sys, s.(rows := s.rows + [NewRow(sys.c, s.rows, eventType, payload, userId)]))
    ensures Evolves(s.rows, s.rows + [NewRow(sys.c, s.rows, eventType, payload, userId)])
  {
    hide Frontier, AnchorOk, FlightOk, Numbered, PrefixAnchored, Evolves;
    AppendEvolves(sys.c, s.rows, eventType, payload, userId);
    RowsGrow(sys, s, s.rows + [NewRow(sys.c, s.rows, eventType, payload, userId)]);
  }

  /** A new anchor row under a fresh id disturbs nothing. */
  lemma {:induction false} ListKeepsInv(sys: Settings, s: State, batchId: string, a: Anchor)
    requires Inv(sys, s) && batchId !in s.anchors && batchId !in s.chain && AnchorOk(sys.f, s.rows, a)
    ensures Inv(sys, s.(anchors := s.anchors[batchId := a]))
  {
    hide Frontier, Numbered, PrefixAnchored, AnchorOk;
    var t := s.(anchors := s.anchors[batchId := a]);
    forall b | b in t.inFlight ensures FlightOk(t, b) {
      assert FlightOk(s, b);
    }
    forall i | 0 <= i < |s.rows| ensures EventOk(t, s.rows[i]) {
      assert EventOk(s, s.rows[i]);
    }
  }

  lemma {:induction false} SuspendKeepsInv(sys: Settings, s: State, batchId: string, flush: Flush)
    requires Inv(sys, s) && FlightOk(s.(inFlight := s.inFlight[batchId := flush]), batchId)
    ensures Inv(sys, s.(inFlight := s.inFlight[batchId := flush]))
  {
    hide Frontier, Numbered, PrefixAnchored, AnchorOk;
    var t := s.(inFlight := s.inFlight[batchId := flush]);
    forall b | b in t.inFlight ensures FlightOk(t, b) {
      assert b != batchId ==> FlightOk(s, b);
    }
    forall i | 0 <= i < |s.rows| ensures EventOk(t, s.rows[i]) {
      assert EventOk(s, s.rows[i]);
    }
  }

  lemma {:induction false} SnapshotIsOk(sys: Settings, s: State, now: real)
    requires Inv(sys, s) && Pending(sys, s.rows) != []
    ensures
      var flush := Snapshot(sys.f, Pending(sys, s.rows));
      && AnchorOk(sys.f, s.rows, PendingAnchor(flush, now)) && flush.first == Frontier(s.rows) + 1
  {
    hide Frontier, Numbered, PrefixAnchored, RootEvm, LeavesOf, FlightOk, EventOk;
    PendingIsNext(sys, s.rows);
  }

  lemma {:induction false} BeginKeepsInv(sys: Settings, s: State, batchId: string, force: bool, refused: bool, now: real)
    requires Inv(sys, s) && batchId !in s.anchors && batchId !in s.chain
    ensures Inv(sys, Begin(sys, s, batchId, force, refused, now).0)
    ensures Begin(sys, s, batchId, force, refused, now).0.rows == s.rows
  {
    hide Frontier, TooSoon, Inv, AnchorOk, Pending, Snapshot;
    if Pending(sys, s.rows) != [] {
      var flush := Snapshot(sys.f, Pending(sys, s.rows));
      SnapshotIsOk(sys, s, now);
      ListKeepsInv(sys, s, batchId, PendingAnchor(flush, now));
      SuspendKeepsInv(sys, s.(anchors := s.anchors[batchId := PendingAnchor(flush, now)]), batchId, flush);
    }
  }

  lemma {:induction false} CommitKeepsInv(sys: Settings, s: State, batchId: string)
    requires Inv(sys, s) && batchId in s.inFlight
    ensures Inv(sys, s.(chain := s.chain[batchId := s.inFlight[batchId].onchainRoot]))
  {
    hide Frontier, AnchorOk, Numbered, PrefixAnchored;
    var t := s.(chain := s.chain[batchId := s.inFlight[batchId].onchainRoot]);
    assert FlightOk(s, batchId);
    forall b | b in t.inFlight ensures FlightOk(t, b) {
      assert FlightOk(s, b);
    }
    forall i | 0 <= i < |s.rows| ensures EventOk(t, s.rows[i]) {
      assert EventOk(s, s.rows[i]);
    }
  }

  lemma {:induction false} StatusKeepsInv(sys: Settings, s: State, batchId: string, update: Update)
    requires Inv(sys, s)
    ensures Inv(sys, s.(anchors := UpdateRow(s.anchors, batchId, update)))
  {
    hide Frontier, Numbered, PrefixAnchored, RootEvm, LeavesOf;
    var t := s.(anchors := UpdateRow(s.anchors, batchId, update));
    forall b | b in t.anchors ensures AnchorOk(sys.f, s.rows, t.anchors[b]) {
      assert AnchorOk(sys.f, s.rows, s.anchors[b]);
    }
    forall b | b in t.inFlight ensures FlightOk(t, b) {
      assert FlightOk(s, b);
    }
    forall i | 0 <= i < |s.rows| ensures EventOk(t, s.rows[i]) {
      assert EventOk(s, s.rows[i]);
    }
  }

  lemma {:induction false} ResumeKeepsInv(sys: Settings, s: State, batchId: string)
    requires Inv(sys, s)
    ensures Inv(sys, s.(inFlight := s.inFlight - {batchId}))
  {
    hide Frontier, Numbered, PrefixAnchored, AnchorOk;
    var t := s.(inFlight := s.inFlight - {batchId});
    forall b | b in t.inFlight ensures FlightOk(t, b) {
      assert FlightOk(s, b);
    }
    forall i | 0 <= i < |s.rows| ensures EventOk(t, s.rows[i]) {
      assert EventOk(s, s.rows[i]);
    }
  }

  lemma {:induction false} MarkKeepsInv(sys: Settings, s: State, batchId: string)
    requires Inv(sys, s) && batchId in s.inFlight && batchId in s.chain
    ensures
      var flush := s.inFlight[batchId];
      Inv(sys, s.(rows := Mark(s.rows, flush.first, flush.last, batchId)))
      && Evolves(s.rows, Mark(s.rows, flush.first, flush.last, batchId))
  {
    hide Frontier, PrefixAnchored, RootEvm, LeavesOf, Evolves;
    var flush := s.inFlight[batchId];
    assert FlightOk(s, batchId) && AnchorOk(sys.f, s.rows, s.anchors[batchId]);
    MarkEvolves(s.rows, flush.first, flush.last, batchId);
    var marked := Mark(s.rows, flush.first, flush.last, batchId);
    forall i | 0 <= i < |marked| ensures EventOk(s, marked[i]) {
      assert EventOk(s, s.rows[i]);
    }
    RowsGrow(sys, s, marked);
  }

  lemma {:induction false} CompleteKeepsInv(sys: Settings, s: State, batchId: string, receipt: Receipt, event: Option<CanonicalJson.Json>)
    requires Inv(sys, s) && batchId in s.inFlight && batchId in s.chain
    ensures Inv(sys, Complete(sys, s, batchId, receipt, event))
    ensures Evolves(s.rows, Complete(sys, s, batchId, receipt, event).rows)
  {
    hide Inv, Evolves, Mark, NewRow;
    var flush := s.inFlight[batchId];
    MarkKeepsInv(sys, s, batchId);
    var t := s.(rows := Mark(s.rows, flush.first, flush.last, batchId));
    StatusKeepsInv(sys, t, batchId, Confirm(receipt));
    ResumeKeepsInv(sys, t.(anchors := UpdateRow(t.anchors, batchId, Confirm(receipt))), batchId);
    var u := t.(anchors := UpdateRow(t.anchors, batchId, Confirm(receipt)), inFlight := t.inFlight - {batchId});
    if event.Some? {
      RecordKeepsInv(sys, u, "ANCHOR_COMMITTED", event.value, "system:anchor_service");
      EvolvesTransitive(s.rows, u.rows, Complete(sys, s, batchId, receipt, event).rows);
    }
  }

  lemma {:induction false} EvolvesReflexive(rows: seq<Row>)
    ensures Evolves(rows, rows)
  {
  }

  lemma {:induction false} StepKeepsInv(sys: Settings, s: State, a: Action)
    requires Inv(sys, s) && Enabled(s, a)
    ensures Inv(sys, Step(sys, s, a)) && Evolves(s.rows, Step(sys, s, a).rows)
  {
    hide Inv, Evolves, Begin, Complete, NewRow;
    EvolvesReflexive(s.rows);
    match a {
      case RecordEvent(eventType, payload, userId) => RecordKeepsInv(sys, s, eventType, payload, userId);
      case BeginFlush(batchId, force, refused, now) => BeginKeepsInv(sys, s, batchId, force, refused, now);
      case CommitBatch(batchId) => CommitKeepsInv(sys, s, batchId);
      case FinishCommitted(batchId, receipt, event) => CompleteKeepsInv(sys, s, batchId, receipt, event);
      case FinishFailed(batchId) =>
        StatusKeepsInv(sys, s, batchId, Fail);
        ResumeKeepsInv(sys, s.(anchors := UpdateRow(s.anchors, batchId, Fail)), batchId);
      case Cancelled(batchId) => ResumeKeepsInv(sys, s, batchId);
    }
  }

  /** Every reachable state keeps the invariant, and no run ever changes a mark or a recorded event. */
  lemma {:induction false} RunKeepsInv(sys: Settings, s: State, actions: seq<Action>)
    requires Inv(sys, s)
    ensures Inv(sys, Run(sys, s, actions)) && Evolves(s.rows, Run(sys, s, actions).rows)
  {
    hide Inv, Evolves, Step;
    if actions == [] {
      EvolvesReflexive(s.rows);
    } else {
      var before, last := Run(sys, s, actions[..|actions| - 1]), actions[|actions| - 1];
      RunKeepsInv(sys, s, actions[..|actions| - 1]);
      if Enabled(before, last) {
        StepKeepsInv(sys, before, last);
        EvolvesTransitive(s.rows, before.rows, Step(sys, before, last).rows);
      }
    }
  }
}
