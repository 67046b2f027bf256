/** The paged walk that re-derives every hash of a tenant's chain. */
module Verifier {
  import opened Hashing
  import opened Ledger
  import CanonicalJson
  import JsonCanonical

  datatype Verdict = Fine | PayloadHashMismatch | RowHashChainBreak

  datatype Report = Report(totalEvents: nat, verified: bool, firstCorruptSeq: Option<int>, reason: Verdict)

  /** `Raised` is the JSONDecodeError of a stored payload that does not parse. */
  datatype Outcome = Raised | Reported(report: Report)

  predicate Parses(c: Codec, row: Row) {
    c.loads(row.payloadText).Some?
  }

  /** The canonical text of what the stored payload says. */
  function Recanonical(c: Codec, row: Row): string {
    match c.loads(row.payloadText)
    case None => ""
    case Some(payload) => c.dumps(payload)
  }

  /** What the walk finds wrong with a row that follows `prevHash`. */
  function CheckRow(c: Codec, prevHash: string, row: Row): Verdict {
    if !Parses(c, row) then Fine
    else if c.h.sha256(Recanonical(c, row)) != row.payloadHash then PayloadHashMismatch
    else if c.h.sha256(prevHash + row.payloadHash) != row.rowHash then RowHashChainBreak
    else Fine
  }

  function VerdictAt(c: Codec, rows: seq<Row>, i: nat): Verdict
    requires i < |rows|
  {
    CheckRow(c, LastHash(rows[..i]), rows[i])
  }

  /** Index of the first corrupt row, or the number of rows. */
  function FirstCorrupt(c: Codec, rows: seq<Row>, from: nat): (k: nat)
    requires from <= |rows|
    ensures from <= k <= |rows|
    ensures forall i :: from <= i < k ==> VerdictAt(c, rows, i) == Fine
    ensures k < |rows| ==> VerdictAt(c, rows, k) != Fine
    decreases |rows| - from
  {
    if from == |rows| || VerdictAt(c, rows, from) != Fine then from else FirstCorrupt(c, rows, from + 1)
  }

  /** Index of the first row whose payload does not parse, or the number of rows. */
  function FirstMalformed(c: Codec, rows: seq<Row>, from: nat): (k: nat)
    requires from <= |rows|
    ensures from <= k <= |rows|
    ensures forall i :: from <= i < k ==> Parses(c, rows[i])
    ensures k < |rows| ==> !Parses(c, rows[k])
    decreases |rows| - from
  {
    if from == |rows| || !Parses(c, rows[from]) then from else FirstMalformed(c, rows, from + 1)
  }

  /**
   The answer in closed form. A page is decoded before its rows are checked,
   so a malformed row hides the corrupt rows of its own page.
   */
  function WalkResult(c: Codec, rows: seq<Row>, batch: nat, total: nat): Outcome
    requires batch >= 1
  {
    var bad, malformed := FirstCorrupt(c, rows, 0), FirstMalformed(c, rows, 0);
    if malformed < |rows| && bad >= PageStart(malformed, batch) then Raised
    else if bad < |rows| then Reported(Report(total, false, Some(rows[bad].seqNo), VerdictAt(c, rows, bad)))
    else Reported(Report(|rows|, true, None, Fine))
  }

  /** The rows that pages of `batch` rows visit, from a cursor on. */
  function Visited(rows: seq<Row>, cursor: int, batch: nat): seq<Row>
    requires batch >= 1
    decreases |After(rows, cursor)|
  {
    var page := Take(After(rows, cursor), batch);
    if page == [] then []
    else
      AfterShrinks(rows, cursor, page[|page| - 1]);
      page + Visited(rows, page[|page| - 1].seqNo, batch)
  }

  lemma {:induction false} AfterShrinks(rows: seq<Row>, cursor: int, row: Row)
    requires row in After(rows, cursor)
    ensures |After(rows, row.seqNo)| < |After(rows, cursor)|
  {
    if rows[0].seqNo > cursor {
      if row in After(rows[1..], cursor) {
        AfterShrinks(rows[1..], cursor, row);
      } else {
        AfterMonotone(rows[1..], cursor, row.seqNo);
      }
    } else {
      AfterShrinks(rows[1..], cursor, row);
    }
  }

  lemma {:induction false} AfterMonotone(rows: seq<Row>, low: int, high: int)
    requires low <= high
    ensures |After(rows, high)| <= |After(rows, low)|
  {
    if rows != [] {
      AfterMonotone(rows[1..], low, high);
    }
  }

  // ---- pages start at multiples of the batch size

  predicate IsPageStart(i: nat, batch: nat)
    requires batch >= 1
  {
    i == 0 || (i >= batch && IsPageStart(i - batch, batch))
  }

  /** The largest multiple of `batch` up to `i`. */
  function PageStart(i: nat, batch: nat): (start: nat)
    requires batch >= 1
    ensures start <= i < start + batch && IsPageStart(start, batch)
  {
    if i < batch then 0 else batch + PageStart(i - batch, batch)
  }

  lemma {:induction false} PageStartOf(start: nat, i: nat, batch: nat)
    requires batch >= 1 && IsPageStart(start, batch) && start <= i
    ensures PageStart(i, batch) >= start
    ensures i < start + batch ==> PageStart(i, batch) == start
    ensures i >= start + batch ==> PageStart(i, batch) >= start + batch
  {
    if start > 0 {
      PageStartOf(start - batch, i - batch, batch);
    }
  }

  // ---- the walk

  lemma {:induction false} PageOfVisited(rows: seq<Row>, cursor: int, batch: nat)
    requires batch >= 1
    ensures
      var page := Take(After(rows, cursor), batch);
      Visited(rows, cursor, batch) == if page == [] then [] else page + Visited(rows, page[|page| - 1].seqNo, batch)
  {
  }

  /** In an ordered table a short page is the last one. */
  lemma {:induction false} ShortPageIsLast(rows: seq<Row>, cursor: int, batch: nat)
    requires batch >= 1 && Ordered(rows)
    ensures
      var page := Take(After(rows, cursor), batch);
      page != [] && |page| < batch ==> After(rows, page[|page| - 1].seqNo) == []
  {
    var rest := After(rows, cursor);
    if 0 < |rest| < batch {
      LastIsLargest(rows, cursor);
      NothingAfter(rows, rest[|rest| - 1].seqNo);
    }
  }

  lemma {:induction false} LastIsLargest(rows: seq<Row>, cursor: int)
    requires Ordered(rows) && After(rows, cursor) != []
    ensures After(rows, cursor)[|After(rows, cursor)| - 1] == rows[|rows| - 1]
  {
    if After(rows[1..], cursor) != [] {
      LastIsLargest(rows[1..], cursor);
    } else if |rows| > 1 {
      assert rows[1..] != [] && rows[0].seqNo <= rows[1].seqNo;
      NothingAfterHead(rows[1..], cursor);
    }
  }

  lemma {:induction false} NothingAfterHead(rows: seq<Row>, cursor: int)
    requires rows != [] && After(rows, cursor) == []
    ensures rows[0].seqNo <= cursor
  {
  }

  lemma {:induction false} NothingAfter(rows: seq<Row>, cursor: int)
    requires forall i :: 0 <= i < |rows| ==> rows[i].seqNo <= cursor
    ensures After(rows, cursor) == []
  {
    if rows != [] {
      NothingAfter(rows[1..], cursor);
    }
  }

  /** Everything before `n` parses and is fine. */
  ghost predicate FineUpTo(c: Codec, rows: seq<Row>, n: nat) {
    n <= |rows| && forall i :: 0 <= i < n ==> Parses(c, rows[i]) && VerdictAt(c, rows, i) == Fine
  }

  /** `page` is what the walk reads next after `start` rows. */
  ghost predicate IsPage(all: seq<Row>, start: nat, page: seq<Row>, batch: nat)
    requires batch >= 1
  {
    && IsPageStart(start, batch)
    && start + |page| <= |all| && page == all[start..start + |page|]
    && (|page| == batch || (|page| < batch && start + |page| == |all|))
  }

  lemma {:induction false} RaisedOnPage(c: Codec, all: seq<Row>, start: nat, page: seq<Row>, k: nat, batch: nat, total: nat)
    requires batch >= 1 && IsPage(all, start, page, batch) && k < |page|
    requires FineUpTo(c, all, start)
    requires !Parses(c, page[k])
    ensures WalkResult(c, all, batch, total) == Raised
  {
    hide VerdictAt, Parses, PageStart, IsPageStart;
    assert page[k] == all[start + k];
    PageStartOf(start, FirstMalformed(c, all, 0), batch);
  }

  lemma {:induction false} CorruptOnPage(c: Codec, all: seq<Row>, start: nat, page: seq<Row>, k: nat, batch: nat, total: nat)
    requires batch >= 1 && IsPage(all, start, page, batch) && k < |page|
    requires FineUpTo(c, all, start + k) && VerdictAt(c, all, start + k) != Fine
    requires forall i :: 0 <= i < |page| ==> Parses(c, page[i])
    ensures WalkResult(c, all, batch, total)
         == Reported(Report(total, false, Some(page[k].seqNo), VerdictAt(c, all, start + k)))
  {
    hide VerdictAt, Parses, PageStart, IsPageStart;
    var malformed := FirstMalformed(c, all, 0);
    assert forall i :: start <= i < start + |page| ==> all[i] == page[i - start];
    if malformed < |all| {
      PageStartOf(start, malformed, batch);
    }
  }

  lemma {:induction false} NothingWrong(c: Codec, all: seq<Row>, batch: nat, total: nat)
    requires batch >= 1 && FineUpTo(c, all, |all|)
    ensures WalkResult(c, all, batch, total) == Reported(Report(|all|, true, None, Fine))
  {
  }

  /** Decodes the payloads of a page; `false` when one of them raises. */
  method DecodePage(c: Codec, page: seq<Row>) returns (ok: bool, ghost k: nat)
    ensures ok ==> forall i :: 0 <= i < |page| ==> Parses(c, page[i])
    ensures !ok ==> k < |page| && !Parses(c, page[k])
  {
    k := 0;
    for i := 0 to |page|
      invariant forall j :: 0 <= j < i ==> Parses(c, page[j])
    {
      if c.loads(page[i].payloadText).None? {
        return false, i;
      }
    }
    return true, 0;
  }

  /** `verify_chain`: pages of `batch` rows behind a moving cursor. */
  method VerifyChain(ledger: AuditLedger, tenant: string, batch: nat) returns (outcome: Outcome)
    requires batch >= 1 && ledger.Valid()
    ensures var rows := RowsOf(ledger.table, tenant);
            outcome == WalkResult(ledger.c, Visited(rows, 0, batch), batch, |rows|)
  {
    hide WalkResult, FineUpTo, VerdictAt, Visited, Parses, After, LastHash, Ordered, IsPageStart;
    var c := ledger.c;
    ghost var rows := RowsOf(ledger.table, tenant);
    ghost var all := Visited(rows, 0, batch);
    var total := ledger.Count(tenant);
    var prevHash, cursor, seen: nat := GENESIS_HASH, 0, 0;
    AtTheStart(c, all, batch);
    RowsAreOrdered(ledger.table, tenant);
    while true
      invariant seen <= |all| && all[seen..] == Visited(rows, cursor, batch)
      invariant prevHash == LastHash(all[..seen])
      invariant FineUpTo(c, all, seen)
      invariant IsPageStart(seen, batch) || Visited(rows, cursor, batch) == []
      decreases |After(rows, cursor)|
    {
      var page, from := ledger.Select(tenant, cursor, batch);
      VisitPage(rows, all, seen, cursor, batch);
      if page == [] {
        break;
      }
      var decoded, malformed := DecodePage(c, page);
      if !decoded {
        RaisedOnPage(c, all, seen, page, malformed, batch, total);
        return Raised;
      }
      var verdict, checked, lastHash := CheckPage(c, page, all, seen, prevHash);
      if verdict != Fine {
        CorruptOnPage(c, all, seen, page, checked, batch, total);
        return Reported(Report(total, false, Some(page[checked].seqNo), verdict));
      }
      prevHash := lastHash;
      seen := seen + |page|;
      cursor := page[|page| - 1].seqNo;
    }
    assert seen == |all| by { assert all[seen..] == []; }
    NothingWrong(c, all, batch, total);
    return Reported(Report(seen, true, None, Fine));
  }

  /** One turn of the outer loop, seen from the list of visited rows. */
  lemma {:induction false} VisitPage(rows: seq<Row>, all: seq<Row>, seen: nat, cursor: int, batch: nat)
    requires batch >= 1 && Ordered(rows)
    requires seen <= |all| && all[seen..] == Visited(rows, cursor, batch)
    requires IsPageStart(seen, batch) || Visited(rows, cursor, batch) == []
    ensures
      var page := Take(After(rows, cursor), batch);
      && (page == [] ==> Visited(rows, cursor, batch) == [])
      && (page != [] ==>
            var last := page[|page| - 1].seqNo;
            && IsPage(all, seen, page, batch)
            && all[seen + |page|..] == Visited(rows, last, batch)
            && |After(rows, last)| < |After(rows, cursor)|
            && (IsPageStart(seen + |page|, batch) || Visited(rows, last, batch) == []))
  {
    hide After, Ordered, Visited;
    var page := Take(After(rows, cursor), batch);
    PageOfVisited(rows, cursor, batch);
    if page != [] {
      var last := page[|page| - 1].seqNo;
      ShortPageIsLast(rows, cursor, batch);
      PageOfVisited(rows, last, batch);
      AfterShrinks(rows, cursor, page[|page| - 1]);
      SplitAt(all, seen, page, Visited(rows, last, batch));
    }
  }

  lemma {:induction false} SplitAt(all: seq<Row>, start: nat, page: seq<Row>, rest: seq<Row>)
    requires start <= |all| && all[start..] == page + rest
    ensures start + |page| <= |all|
    ensures all[start..start + |page|] == page && all[start + |page|..] == rest
  {
    assert all[start..][..|page|] == all[start..start + |page|];
    assert all[start..][|page|..] == all[start + |page|..];
  }

  lemma {:induction false} AtTheStart(c: Codec, all: seq<Row>, batch: nat)
    requires batch >= 1
    ensures LastHash(all[..0]) == GENESIS_HASH && FineUpTo(c, all, 0) && IsPageStart(0, batch)
  {
  }

  lemma {:induction false} RowsAreOrdered(table: Table, tenant: string)
    requires forall t :: t in table ==> Ordered(table[t])
    ensures Ordered(RowsOf(table, tenant))
  {
  }

  lemma {:induction false} OneMoreFine(c: Codec, all: seq<Row>, n: nat)
    requires n < |all|
    ensures VerdictAt(c, all, n) == CheckRow(c, LastHash(all[..n]), all[n])
    ensures LastHash(all[..n + 1]) == all[n].rowHash
    ensures FineUpTo(c, all, n) && Parses(c, all[n]) && VerdictAt(c, all, n) == Fine ==> FineUpTo(c, all, n + 1)
  {
    assert all[..n + 1][n] == all[n];
  }

  /** The inner loop: stops at the first row that is not fine. */
  method CheckPage(c: Codec, page: seq<Row>, ghost all: seq<Row>, ghost start: nat, prevHash: string)
    returns (verdict: Verdict, checked: nat, lastHash: string)
    requires start + |page| <= |all| && page == all[start..start + |page|]
    requires forall i :: 0 <= i < |page| ==> Parses(c, page[i])
    requires FineUpTo(c, all, start) && prevHash == LastHash(all[..start])
    ensures FineUpTo(c, all, start + checked)
    ensures verdict == Fine ==> checked == |page| && lastHash == LastHash(all[..start + |page|])
    ensures verdict != Fine ==> checked < |page| && verdict == VerdictAt(c, all, start + checked)
  {
    hide FineUpTo, VerdictAt, LastHash, Parses, CheckRow;
    lastHash := prevHash;
    for k := 0 to |page|
      invariant lastHash == LastHash(all[..start + k])
      invariant FineUpTo(c, all, start + k)
    {
      OneMoreFine(c, all, start + k);
      verdict := Check(c, lastHash, page[k]);
      if verdict != Fine {
        return verdict, k, lastHash;
      }
      lastHash := page[k].rowHash;
    }
    return Fine, |page|, lastHash;
  }

  /** The checks on one decoded row. */
  method Check(c: Codec, prevHash: string, row: Row) returns (verdict: Verdict)
    requires Parses(c, row)
    ensures verdict == CheckRow(c, prevHash, row)
  {
    var canonical := Recanonical(c, row);
    if c.h.sha256(canonical) != row.payloadHash {
      return PayloadHashMismatch;
    }
    if c.h.sha256(prevHash + row.payloadHash) != row.rowHash {
      return RowHashChainBreak;
    }
    return Fine;
  }
}
