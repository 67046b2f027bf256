/**
 The public check of a title by its number: look up the anchor of the newest
 matching TITLE_ISSUED event, look up the number of the first one, build its
 proof and ask the chain. Both lookups fall back from the title number to the
 parcel. The two patterns are predicates on ledger rows; `LikeEscape` says
 what they match.
 */
module TitleVerification {
  import opened Hashing
  import opened Ledger
  import opened EvmMerkle
  import opened AnchorProtocol
  import opened AnchorEvidence
  import CanonicalJson

  type Matcher = Row -> bool

  /** `ORDER BY seq DESC LIMIT 1`. */
  function LastMatch(rows: seq<Row>, m: Matcher): (r: Option<nat>)
    ensures r.None? ==> forall j :: 0 <= j < |rows| ==> !m(rows[j])
    ensures r.Some? ==> r.value < |rows| && m(rows[r.value]) && forall j :: r.value < j < |rows| ==> !m(rows[j])
  {
    if rows == [] then None
    else if m(rows[|rows| - 1]) then Some(|rows| - 1)
    else LastMatch(rows[..|rows| - 1], m)
  }

  /** `fetchone` without an order: the first row of the (tenant_id, seq) index. */
  function FirstMatch(rows: seq<Row>, m: Matcher): (r: Option<nat>)
    ensures r.None? ==> forall j :: 0 <= j < |rows| ==> !m(rows[j])
    ensures r.Some? ==> r.value < |rows| && m(rows[r.value]) && forall j :: 0 <= j < r.value ==> !m(rows[j])
  {
    if rows == [] then None
    else
      var before := FirstMatch(rows[..|rows| - 1], m);
      if before.Some? then before else if m(rows[|rows| - 1]) then Some(|rows| - 1) else None
  }

  function BatchOfNewest(s: State, m: Matcher): Option<string> {
    match LastMatch(s.rows, m)
    case None => None
    case Some(q) =>
      var batch := s.rows[q].anchoredIn;
      if batch.Some? && batch.value in s.anchors then batch else None
  }

  /** `_read_anchor_for_title`. */
  function ReadAnchor(s: State, byTitle: Matcher, byParcel: Matcher): Option<string> {
    var batch := BatchOfNewest(s, byTitle);
    if batch.Some? then batch else BatchOfNewest(s, byParcel)
  }

  /** `_read_event_seq_for_title`. */
  function ReadSeq(s: State, byTitle: Matcher, byParcel: Matcher): Option<int> {
    var p := FirstMatch(s.rows, byTitle);
    var q := if p.Some? then p else FirstMatch(s.rows, byParcel);
    if q.None? then None else Some(s.rows[q.value].seqNo)
  }

  /** `shown` is the batch in the response, `proved` the one that the proof is about, `leafSeq` the event that is proved. */
  datatype Reply =
    | PendingAnchor
    | EventMissing
    | ProofUnavailable
    | Verdict(shown: string, proved: string, leafSeq: int, valid: Option<bool>)
    | Crash

  /** The online mode of `verify_title`, for a title that exists. */
  function VerifyTitle(f: Format, s: State, byTitle: Matcher, byParcel: Matcher): Reply {
    var batch := ReadAnchor(s, byTitle, byParcel);
    if batch.None? then PendingAnchor
    else
      var seqNo := ReadSeq(s, byTitle, byParcel);
      if seqNo.None? then EventMissing
      else
        match ProofFor(f, s, seqNo.value)
        case Absent => ProofUnavailable
        case Crashed => Crash
        case Built(p) => Verdict(batch.value, p.batchId, seqNo.value, ChainAccepts(f, s.chain, p.batchId, p.leaf, p.siblings))
  }

  /** Position of the newest event that either pattern is answered from, the title number first. */
  function Newest(rows: seq<Row>, byTitle: Matcher, byParcel: Matcher): Option<nat> {
    if LastMatch(rows, byTitle).Some? then LastMatch(rows, byTitle) else LastMatch(rows, byParcel)
  }

  function First(rows: seq<Row>, byTitle: Matcher, byParcel: Matcher): Option<nat> {
    if FirstMatch(rows, byTitle).Some? then FirstMatch(rows, byTitle) else FirstMatch(rows, byParcel)
  }

  lemma {:induction false} FirstBeforeNewest(rows: seq<Row>, byTitle: Matcher, byParcel: Matcher)
    ensures First(rows, byTitle, byParcel).Some? <==> Newest(rows, byTitle, byParcel).Some?
    ensures First(rows, byTitle, byParcel).Some? ==>
              First(rows, byTitle, byParcel).value <= Newest(rows, byTitle, byParcel).value < |rows|
  {
    hide LastMatch, FirstMatch;
    var p, q := FirstMatch(rows, byTitle), LastMatch(rows, byTitle);
    var u, v := FirstMatch(rows, byParcel), LastMatch(rows, byParcel);
    if p.Some? {
      assert byTitle(rows[p.value]);
    }
    if q.Some? {
      assert byTitle(rows[q.value]);
    }
    if u.Some? {
      assert byParcel(rows[u.value]);
    }
    if v.Some? {
      assert byParcel(rows[v.value]);
    }
  }

  /** With anchored events a prefix, the fallback never finds an anchor that the title's own event does not have yet. */
  lemma {:induction false} AnchorIsOfNewest(s: State, byTitle: Matcher, byParcel: Matcher)
    requires PrefixAnchored(s.rows) && forall i :: 0 <= i < |s.rows| ==> EventOk(s, s.rows[i])
    requires forall i :: 0 <= i < |s.rows| && byTitle(s.rows[i]) ==> byParcel(s.rows[i])
    ensures
      var q := Newest(s.rows, byTitle, byParcel);
      ReadAnchor(s, byTitle, byParcel) == if q.None? then None else s.rows[q.value].anchoredIn
  {
    hide LastMatch, Frontier;
    var q, v := LastMatch(s.rows, byTitle), LastMatch(s.rows, byParcel);
    if q.Some? {
      assert EventOk(s, s.rows[q.value]);
      assert byParcel(s.rows[q.value]);
    }
    if v.Some? {
      assert EventOk(s, s.rows[v.value]);
    }
    if q.Some? && s.rows[q.value].anchoredIn.None? {
      assert q.value >= Frontier(s.rows);
      assert v.Some? && v.value >= q.value;
      assert s.rows[v.value].anchoredIn.None?;
    }
  }

  /**
   In every reachable state the check of a title answers PENDING_ANCHOR until
   the newest matching event is anchored, and from then on it is valid: the
   proof exists and the chain accepts it. The batch it shows is that of the
   newest matching event, the batch it proves that of the first.
   */
  lemma {:induction false} TitleIsValidOnceAnchored(sys: Settings, actions: seq<Action>, byTitle: Matcher, byParcel: Matcher)
    requires Lawful(sys.f)
    requires forall i :: 0 <= i < |Run(sys, START, actions).rows| ==>
               byTitle(Run(sys, START, actions).rows[i]) ==> byParcel(Run(sys, START, actions).rows[i])
    ensures
      var s := Run(sys, START, actions);
      var p, q := First(s.rows, byTitle, byParcel), Newest(s.rows, byTitle, byParcel);
      if q.None? || s.rows[q.value].anchoredIn.None? then VerifyTitle(sys.f, s, byTitle, byParcel) == PendingAnchor
      else
        && p.Some? && p.value <= q.value && s.rows[p.value].anchoredIn.Some?
        && VerifyTitle(sys.f, s, byTitle, byParcel)
           == Verdict(s.rows[q.value].anchoredIn.value, s.rows[p.value].anchoredIn.value, p.value + 1, Some(true))
  {
    hide Run, Lawful, ProofFor, ChainAccepts, AnchorOk, FlightOk, EventOk, Frontier, LastMatch, FirstMatch, ReadAnchor;
    var s := Run(sys, START, actions);
    StartIsOk(sys);
    RunKeepsInv(sys, START, actions);
    AnchorIsOfNewest(s, byTitle, byParcel);
    FirstBeforeNewest(s.rows, byTitle, byParcel);
    var p, q := First(s.rows, byTitle, byParcel), Newest(s.rows, byTitle, byParcel);
    if q.Some? && s.rows[q.value].anchoredIn.Some? {
      assert q.value < Frontier(s.rows);
      ProofIsAccepted(sys, actions, s.rows[p.value].seqNo);
      assert s.rows[p.value].seqNo == p.value + 1;
    }
  }

  predicate SomeMatch(rows: seq<Row>, m: Matcher) {
    exists i | 0 <= i < |rows| :: m(rows[i])
  }

  /**
   What a valid answer is about. It proves an event of the title itself
   exactly when the title number matches a row; otherwise it proves the first
   event of the parcel, which issued another title. And it shows the batch
   that it proves exactly when the first and the newest match were anchored
   together.
   */
  lemma {:induction false} ValidIsAboutTheTitleIff(sys: Settings, actions: seq<Action>, byTitle: Matcher, byParcel: Matcher)
    requires Lawful(sys.f)
    requires forall i :: 0 <= i < |Run(sys, START, actions).rows| ==>
               byTitle(Run(sys, START, actions).rows[i]) ==> byParcel(Run(sys, START, actions).rows[i])
    requires VerifyTitle(sys.f, Run(sys, START, actions), byTitle, byParcel).Verdict?
    ensures
      var s := Run(sys, START, actions);
      var v := VerifyTitle(sys.f, s, byTitle, byParcel);
      var p, q := First(s.rows, byTitle, byParcel), Newest(s.rows, byTitle, byParcel);
      && v.valid == Some(true) && 1 <= v.leafSeq <= |s.rows| && byParcel(s.rows[v.leafSeq - 1])
      && (byTitle(s.rows[v.leafSeq - 1]) <==> SomeMatch(s.rows, byTitle))
      && p.Some? && q.Some?
      && (v.shown == v.proved <==> s.rows[p.value].anchoredIn == s.rows[q.value].anchoredIn)
  {
    hide Run, Lawful, VerifyTitle, FirstMatch, LastMatch;
    TitleIsValidOnceAnchored(sys, actions, byTitle, byParcel);
    var rows := Run(sys, START, actions).rows;
    FirstBeforeNewest(rows, byTitle, byParcel);
    var p := FirstMatch(rows, byTitle);
    if p.Some? {
      assert byTitle(rows[p.value]);
    }
  }

  // ---- two titles of one parcel, and a third whose event was never recorded

  lemma {:induction false} RunInParts(sys: Settings, s: State, a: seq<Action>, b: seq<Action>)
    ensures Run(sys, s, a + b) == Run(sys, Run(sys, s, a), b)
  {
    hide Enabled, Step;
    if b == [] {
      assert a + b == a;
    } else {
      assert (a + b)[..|a + b| - 1] == a + b[..|b| - 1];
      RunInParts(sys, s, a, b[..|b| - 1]);
    }
  }

  const RECEIPT := Receipt("0x", Some(1), Some(0.0), "CONFIRMED")

  /** An event, and a flush of its own whose ANCHOR_COMMITTED append fails. */
  function EventThenFlush(eventType: string, payload: CanonicalJson.Json, batchId: string): seq<Action> {
    [RecordEvent(eventType, payload, "registrar"), BeginFlush(batchId, true, false, 0.0), CommitBatch(batchId),
     FinishCommitted(batchId, RECEIPT, None)]
  }

  lemma {:induction false} PendingIsTheNewEvent(sys: Settings, rows: seq<Row>, row: Row)
    requires Numbered(rows + [row]) && PrefixAnchored(rows + [row]) && Frontier(rows + [row]) == |rows| && sys.batchSize >= 1
    ensures
      && Pending(sys, rows + [row]) == [row]
      && Snapshot(sys.f, [row]).first == |rows| + 1 && Snapshot(sys.f, [row]).last == |rows| + 1
  {
    hide RootEvm, Frontier, PrefixAnchored;
    PendingIsNext(sys, rows + [row]);
    assert (rows + [row])[|rows|..|rows| + 1] == [row];
  }

  /** The tables after a flush without interruption whose event is not recorded. */
  lemma {:induction false} SilentFlush(sys: Settings, s: State, batchId: string)
    requires batchId !in s.anchors && batchId !in s.chain && Pending(sys, s.rows) != []
    ensures
      var t := Run(sys, s, [BeginFlush(batchId, true, false, 0.0), CommitBatch(batchId), FinishCommitted(batchId, RECEIPT, None)]);
      var flush := Snapshot(sys.f, Pending(sys, s.rows));
      && t.rows == Mark(s.rows, flush.first, flush.last, batchId)
      && t.anchors.Keys == s.anchors.Keys + {batchId} && t.chain.Keys == s.chain.Keys + {batchId}
  {
    hide Pending, Snapshot, Mark, Run;
    RunThree(sys, s, BeginFlush(batchId, true, false, 0.0), CommitBatch(batchId), FinishCommitted(batchId, RECEIPT, None));
  }

  lemma {:induction false} EventIsAnchoredAlone(sys: Settings, s: State, eventType: string, payload: CanonicalJson.Json, batchId: string)
    requires Inv(sys, s) && Frontier(s.rows) == |s.rows| && sys.batchSize >= 1
    requires batchId !in s.anchors && batchId !in s.chain
    ensures
      var t := Run(sys, s, EventThenFlush(eventType, payload, batchId));
      && Inv(sys, t) && Frontier(t.rows) == |t.rows|
      && t.rows == s.rows + [NewRow(sys.c, s.rows, eventType, payload, "registrar").(anchoredIn := Some(batchId))]
      && t.anchors.Keys == s.anchors.Keys + {batchId} && t.chain.Keys == s.chain.Keys + {batchId}
  {
    hide RootEvm, Frontier, PrefixAnchored, AnchorOk, EventOk, FlightOk, Pending, Snapshot, Evolves, NewRow, Inv, Run, Mark, Begin;
    var row := NewRow(sys.c, s.rows, eventType, payload, "registrar");
    var record := RecordEvent(eventType, payload, "registrar");
    var s1 := Step(sys, s, record);
    RunKeepsInv(sys, s, EventThenFlush(eventType, payload, batchId));
    assert EventThenFlush(eventType, payload, batchId)
        == [record] + [BeginFlush(batchId, true, false, 0.0), CommitBatch(batchId), FinishCommitted(batchId, RECEIPT, None)];
    RunInParts(sys, s, [record], [BeginFlush(batchId, true, false, 0.0), CommitBatch(batchId), FinishCommitted(batchId, RECEIPT, None)]);
    RunOfOne(sys, s, record);
    NumberedRows(sys, s);
    AppendEvolves(sys.c, s.rows, eventType, payload, "registrar");
    PendingIsTheNewEvent(sys, s.rows, row);
    SilentFlush(sys, s1, batchId);
    MarkOfLast(s.rows, row, batchId);
    MarkEvolves(s1.rows, |s.rows| + 1, |s.rows| + 1, batchId);
  }

  lemma {:induction false} RunOfOne(sys: Settings, s: State, a: Action)
    requires Enabled(s, a)
    ensures Run(sys, s, [a]) == Step(sys, s, a)
  {
    hide Enabled, Step;
    assert [a][..0] == [];
    assert Run(sys, s, []) == s;
  }

  lemma {:induction false} NumberedRows(sys: Settings, s: State)
    requires Inv(sys, s)
    ensures Numbered(s.rows) && PrefixAnchored(s.rows)
  {
  }

  lemma {:induction false} MarkOfLast(rows: seq<Row>, row: Row, batchId: string)
    requires Numbered(rows + [row]) && row.anchoredIn.None?
    ensures Mark(rows + [row], |rows| + 1, |rows| + 1, batchId) == rows + [row.(anchoredIn := Some(batchId))]
  {
    assert (rows + [row])[|rows|] == row;
    forall i | 0 <= i < |rows| ensures rows[i].seqNo == i + 1 {
      assert (rows + [row])[i] == rows[i];
    }
  }

  /** Matches nothing, like the number of a title whose TITLE_ISSUED append failed. */
  function Unrecorded(): Matcher {
    (row: Row) => false
  }

  /** The parcel's events. */
  function Issued(): Matcher {
    (row: Row) => row.eventType == "TITLE_ISSUED"
  }

  /** The check of the third title is valid, proves the issuance of the first, and shows the batch of the second. */
  lemma {:induction false} OtherTitleIsProved(sys: Settings, first: CanonicalJson.Json, second: CanonicalJson.Json)
    requires Lawful(sys.f) && sys.batchSize >= 1
    ensures
      var actions := EventThenFlush("TITLE_ISSUED", first, "b1") + EventThenFlush("TITLE_ISSUED", second, "b2");
      VerifyTitle(sys.f, Run(sys, START, actions), Unrecorded(), Issued()) == Verdict("b2", "b1", 1, Some(true))
  {
    hide Lawful, VerifyTitle, Run, Inv, Frontier, EventThenFlush;
    var one, two := EventThenFlush("TITLE_ISSUED", first, "b1"), EventThenFlush("TITLE_ISSUED", second, "b2");
    StartIsOk(sys);
    var s := Run(sys, START, one);
    EventIsAnchoredAlone(sys, START, "TITLE_ISSUED", first, "b1");
    EventIsAnchoredAlone(sys, s, "TITLE_ISSUED", second, "b2");
    RunInParts(sys, START, one, two);
    var rows := Run(sys, START, one + two).rows;
    assert |rows| == 2 && rows[0].anchoredIn == Some("b1") && rows[1].anchoredIn == Some("b2");
    assert Issued()(rows[0]) && Issued()(rows[1]);
    assert FirstMatch(rows, Unrecorded()).None? && LastMatch(rows, Unrecorded()).None?;
    assert FirstMatch(rows, Issued()) == Some(0) && LastMatch(rows, Issued()) == Some(1);
    TitleIsValidOnceAnchored(sys, one + two, Unrecorded(), Issued());
  }
}
