/** What a report of the chain verifier is worth: paging, tamper evidence, and honest histories. */
module ChainEvidence {
  import opened Hashing
  import opened Ledger
  import opened Verifier
  import CanonicalJson
  import JsonCanonical
  import ShaMerkle

  // ---- paging loses nothing exactly when no tie straddles two pages

  lemma {:induction false} AfterTwice(rows: seq<Row>, low: int, high: int)
    requires low <= high
    ensures After(After(rows, low), high) == After(rows, high)
  {
    if rows != [] {
      AfterTwice(rows[1..], low, high);
      if rows[0].seqNo > low {
        assert After(rows, low)[1..] == After(rows[1..], low);
      }
    }
  }

  lemma {:induction false} AfterKeepsOrder(rows: seq<Row>, low: int)
    requires Ordered(rows)
    ensures Ordered(After(rows, low))
  {
    if rows != [] {
      assert Ordered(rows[1..]);
      AfterKeepsOrder(rows[1..], low);
      forall i | 0 <= i < |After(rows[1..], low)| ensures rows[0].seqNo <= After(rows[1..], low)[i].seqNo {
        AfterIsPart(rows[1..], low, i);
      }
    }
  }

  lemma {:induction false} AfterIsPart(rows: seq<Row>, low: int, i: nat)
    requires i < |After(rows, low)|
    ensures After(rows, low)[i] in rows
  {
    if rows[0].seqNo > low {
      if i > 0 {
        AfterIsPart(rows[1..], low, i - 1);
      }
    } else {
      AfterIsPart(rows[1..], low, i);
    }
  }

  lemma {:induction false} AfterSkips(rows: seq<Row>, k: nat, low: int)
    requires k <= |rows| && forall i :: 0 <= i < k ==> rows[i].seqNo <= low
    ensures After(rows, low) == After(rows[k..], low)
  {
    if k > 0 {
      AfterSkips(rows[1..], k - 1, low);
      assert rows[1..][k - 1..] == rows[k..];
    } else {
      assert rows[0..] == rows;
    }
  }

  lemma {:induction false} AfterAll(rows: seq<Row>, low: int)
    requires forall i :: 0 <= i < |rows| ==> rows[i].seqNo > low
    ensures After(rows, low) == rows
  {
    if rows != [] {
      AfterAll(rows[1..], low);
    }
  }

  /** The cursor after a page leaves exactly the later rows that do not tie with the page's last one. */
  lemma {:induction false} AfterPage(rows: seq<Row>, cursor: int, k: nat)
    requires Ordered(rows) && 0 < k <= |After(rows, cursor)|
    ensures
      var s := After(rows, cursor);
      && After(rows, s[k - 1].seqNo) == After(s[k..], s[k - 1].seqNo)
      && (k < |s| && s[k - 1].seqNo < s[k].seqNo ==> After(rows, s[k - 1].seqNo) == s[k..])
  {
    var s := After(rows, cursor);
    AfterKeepsOrder(rows, cursor);
    AfterTwice(rows, cursor, s[k - 1].seqNo);
    AfterSkips(s, k, s[k - 1].seqNo);
    if k < |s| && s[k - 1].seqNo < s[k].seqNo {
      AfterAll(s[k..], s[k - 1].seqNo);
    }
  }

  lemma {:induction false} VisitedIsNoLonger(rows: seq<Row>, cursor: int, batch: nat)
    requires batch >= 1 && Ordered(rows)
    ensures |Visited(rows, cursor, batch)| <= |After(rows, cursor)|
    decreases |After(rows, cursor)|
  {
    var s := After(rows, cursor);
    var page := Take(s, batch);
    if page != [] {
      AfterPage(rows, cursor, |page|);
      AfterShrinks(rows, cursor, page[|page| - 1]);
      VisitedIsNoLonger(rows, page[|page| - 1].seqNo, batch);
    }
  }

  /** No two rows with equal `seq` meet across a page boundary. */
  predicate NoTieAcrossPages(s: seq<Row>, batch: nat)
    requires batch >= 1
  {
    |s| <= batch || (s[batch - 1].seqNo < s[batch].seqNo && NoTieAcrossPages(s[batch..], batch))
  }

  /** The first page and what the cursor then leaves, with and without a tie at its end. */
  lemma {:induction false} VisitStep(rows: seq<Row>, cursor: int, batch: nat)
    requires batch >= 1 && Ordered(rows)
    ensures
      var s := After(rows, cursor);
      && (|s| <= batch ==> Visited(rows, cursor, batch) == s)
      && (|s| > batch ==>
            var last := s[batch - 1].seqNo;
            && Visited(rows, cursor, batch) == s[..batch] + Visited(rows, last, batch)
            && |After(rows, last)| < |s|
            && (last < s[batch].seqNo ==> After(rows, last) == s[batch..])
            && (last >= s[batch].seqNo ==> |Visited(rows, last, batch)| < |s| - batch))
  {
    hide After, Ordered, Visited;
    var s := After(rows, cursor);
    var page := Take(s, batch);
    PageOfVisited(rows, cursor, batch);
    if page != [] {
      var last := page[|page| - 1].seqNo;
      AfterPage(rows, cursor, |page|);
      AfterShrinks(rows, cursor, page[|page| - 1]);
      VisitedIsNoLonger(rows, last, batch);
      if |s| <= batch {
        assert After(rows, last) == [] by { assert s[|s|..] == []; }
        PageOfVisited(rows, last, batch);
      } else if last >= s[batch].seqNo {
        AfterSkips(s[batch..], 1, last);
      }
    }
  }

  lemma {:induction false} VisitedAllIffNoTie(rows: seq<Row>, cursor: int, batch: nat)
    requires batch >= 1 && Ordered(rows)
    ensures Visited(rows, cursor, batch) == After(rows, cursor) <==> NoTieAcrossPages(After(rows, cursor), batch)
    decreases |After(rows, cursor)|
  {
    hide After, Ordered, Visited;
    var s := After(rows, cursor);
    VisitStep(rows, cursor, batch);
    if |s| > batch {
      VisitedAllIffNoTie(rows, s[batch - 1].seqNo, batch);
      var rest := Visited(rows, s[batch - 1].seqNo, batch);
      assert (s[..batch] + rest)[batch..] == rest;
      assert s == s[..batch] + s[batch..];
    }
  }

  /** The walk sees the whole table exactly when the numbers are positive and no tie straddles two pages. */
  lemma {:induction false} PagingIsExactIff(rows: seq<Row>, batch: nat)
    requires batch >= 1 && Ordered(rows)
    ensures Visited(rows, 0, batch) == rows
       <==> (rows == [] || rows[0].seqNo > 0) && NoTieAcrossPages(rows, batch)
  {
    VisitedAllIffNoTie(rows, 0, batch);
    VisitedIsNoLonger(rows, 0, batch);
    if rows == [] || rows[0].seqNo > 0 {
      AfterAll(rows, 0);
    } else {
      AfterSkips(rows, 1, 0);
    }
  }

  /**
   On a table that paging covers, a batch size gives the report of a single
   pass unless a corrupt row sits on a page before the first unparsable one.
   */
  lemma {:induction false} SameReportAsOnePassIff(c: Codec, rows: seq<Row>, batch: nat)
    requires batch >= 1
    ensures WalkResult(c, rows, batch, |rows|) == WalkResult(c, rows, |rows| + 1, |rows|)
       <==> FirstMalformed(c, rows, 0) == |rows| || FirstCorrupt(c, rows, 0) >= PageStart(FirstMalformed(c, rows, 0), batch)
  {
    assert PageStart(FirstMalformed(c, rows, 0), |rows| + 1) == 0;
  }

  // ---- tamper evidence

  /** The walk finds nothing wrong: every payload parses, prints to its hash, and is chained onto the row before. */
  predicate Accepted(c: Codec, rows: seq<Row>) {
    rows == []
    || (var before, last := rows[..|rows| - 1], rows[|rows| - 1];
        && Accepted(c, before)
        && Parses(c, last) && CheckRow(c, LastHash(before), last) == Fine)
  }

  lemma {:induction false} AcceptedIsFine(c: Codec, rows: seq<Row>)
    ensures Accepted(c, rows) <==> FineUpTo(c, rows, |rows|)
  {
    hide CheckRow, Parses, LastHash;
    if rows != [] {
      var before := rows[..|rows| - 1];
      AcceptedIsFine(c, before);
      forall i | 0 <= i < |before| ensures VerdictAt(c, before, i) == VerdictAt(c, rows, i) {
        assert before[..i] == rows[..i];
      }
      if FineUpTo(c, before, |before|) {
        assert forall i :: 0 <= i < |before| ==> before[i] == rows[i];
        assert VerdictAt(c, rows, |rows| - 1) == CheckRow(c, LastHash(before), rows[|rows| - 1]);
      }
      if FineUpTo(c, rows, |rows|) {
        assert forall i :: 0 <= i < |before| ==> before[i] == rows[i];
        assert VerdictAt(c, rows, |rows| - 1) == CheckRow(c, LastHash(before), rows[|rows| - 1]);
      }
    }
  }

  lemma {:induction false} AcceptedIffReportedVerified(c: Codec, rows: seq<Row>, batch: nat, total: nat)
    requires batch >= 1
    ensures Accepted(c, rows) <==> WalkResult(c, rows, batch, total) == Reported(Report(|rows|, true, None, Fine))
  {
    hide VerdictAt, Parses, PageStart, Accepted;
    AcceptedIsFine(c, rows);
    if Accepted(c, rows) {
      NothingWrong(c, rows, batch, total);
    }
  }

  // ---- what a report says about the columns

  /** The row_hash that row `k` has to be hashed onto: that of the row before, or 64 zeros. */
  function HashBefore(rows: seq<Row>, k: nat): string
    requires k < |rows|
  {
    if k == 0 then seq(64, _ => '0') else rows[k - 1].rowHash
  }

  lemma {:induction false} ZerosAre(n: nat)
    ensures Zeros(n) == seq(n, _ => '0')
  {
    if n > 0 {
      ZerosAre(n - 1);
    }
  }

  lemma {:induction false} HashBeforeIsLast(rows: seq<Row>, k: nat)
    requires k < |rows|
    ensures LastHash(rows[..k]) == HashBefore(rows, k)
  {
    ZerosAre(64);
  }

  /** A report of corruption names the first faulty row behind nothing but good ones, and its reason is the column that is wrong. */
  lemma {:induction false} ReportNamesTheFault(c: Codec, rows: seq<Row>, batch: nat, total: nat) returns (k: nat)
    requires batch >= 1 && WalkResult(c, rows, batch, total).Reported? && !WalkResult(c, rows, batch, total).report.verified
    ensures k < |rows|
    ensures
      var report := WalkResult(c, rows, batch, total).report;
      var payload := c.loads(rows[k].payloadText);
      var hashes := payload.Some? && c.h.sha256(c.dumps(payload.value)) == rows[k].payloadHash;
      var chains := c.h.sha256(HashBefore(rows, k) + rows[k].payloadHash) == rows[k].rowHash;
      && report.totalEvents == total && report.firstCorruptSeq == Some(rows[k].seqNo)
      && payload.Some? && !(hashes && chains)
      && (report.reason == PayloadHashMismatch <==> !hashes)
      && (report.reason == RowHashChainBreak <==> hashes && !chains)
    ensures forall i :: 0 <= i < k && c.loads(rows[i].payloadText).Some? ==>
              && c.h.sha256(c.dumps(c.loads(rows[i].payloadText).value)) == rows[i].payloadHash
              && c.h.sha256(HashBefore(rows, i) + rows[i].payloadHash) == rows[i].rowHash
  {
    hide PageStart;
    k := FirstCorrupt(c, rows, 0);
    HashBeforeIsLast(rows, k);
    forall i | 0 <= i < k && c.loads(rows[i].payloadText).Some?
      ensures c.h.sha256(c.dumps(c.loads(rows[i].payloadText).value)) == rows[i].payloadHash
      ensures c.h.sha256(HashBefore(rows, i) + rows[i].payloadHash) == rows[i].rowHash
    {
      HashBeforeIsLast(rows, i);
      assert VerdictAt(c, rows, i) == Fine;
    }
  }

  /** A table is reported verified exactly when every row parses, hashes its payload and is hashed onto the row before. */
  lemma {:induction false} VerifiedIffColumnsAgree(c: Codec, rows: seq<Row>, batch: nat, total: nat)
    requires batch >= 1
    ensures WalkResult(c, rows, batch, total) == Reported(Report(|rows|, true, None, Fine))
       <==> forall i :: 0 <= i < |rows| ==>
              var payload := c.loads(rows[i].payloadText);
              && payload.Some? && c.h.sha256(c.dumps(payload.value)) == rows[i].payloadHash
              && c.h.sha256(HashBefore(rows, i) + rows[i].payloadHash) == rows[i].rowHash
  {
    hide PageStart, Accepted, WalkResult;
    AcceptedIsFine(c, rows);
    AcceptedIffReportedVerified(c, rows, batch, total);
    forall i | 0 <= i < |rows|
      ensures Parses(c, rows[i]) && VerdictAt(c, rows, i) == Fine <==>
              var payload := c.loads(rows[i].payloadText);
              && payload.Some? && c.h.sha256(c.dumps(payload.value)) == rows[i].payloadHash
              && c.h.sha256(HashBefore(rows, i) + rows[i].payloadHash) == rows[i].rowHash
    {
      HashBeforeIsLast(rows, i);
    }
  }

  /** Every string hashed while an accepted chain is walked. */
  function ChainInputs(c: Codec, rows: seq<Row>): set<string>
  {
    if rows == [] then {}
    else
      var before, last := rows[..|rows| - 1], rows[|rows| - 1];
      ChainInputs(c, before) + {Recanonical(c, last), LastHash(before) + last.payloadHash}
  }

  /** The digests of the inputs have 64 characters, and none of them is the genesis hash. */
  ghost predicate WellHashed(sha256: string -> string, inputs: set<string>) {
    forall x {:trigger sha256(x)} :: x in inputs ==> |sha256(x)| == 64 && sha256(x) != GENESIS_HASH
  }

  lemma {:induction false} AcceptedPrefix(c: Codec, rows: seq<Row>, k: nat)
    requires Accepted(c, rows) && k <= |rows|
    ensures Accepted(c, rows[..k])
  {
    hide CheckRow, Parses, LastHash;
    if k == |rows| {
      assert rows[..k] == rows;
    } else {
      AcceptedPrefix(c, rows[..|rows| - 1], k);
      assert rows[..|rows| - 1][..k] == rows[..k];
    }
  }

  lemma {:induction false} LastInputs(c: Codec, rows: seq<Row>)
    requires rows != []
    ensures
      var before, last := rows[..|rows| - 1], rows[|rows| - 1];
      && ChainInputs(c, before) <= ChainInputs(c, rows)
      && Recanonical(c, last) in ChainInputs(c, rows)
      && LastHash(before) + last.payloadHash in ChainInputs(c, rows)
  {
  }

  lemma {:induction false} FewerHashed(sha256: string -> string, all: set<string>, some: set<string>)
    requires WellHashed(sha256, all) && some <= all
    ensures WellHashed(sha256, some)
  {
  }

  /** The hash an accepted chain ends with. */
  lemma {:induction false} LastHashOfAccepted(c: Codec, rows: seq<Row>)
    requires Accepted(c, rows) && WellHashed(c.h.sha256, ChainInputs(c, rows))
    ensures |LastHash(rows)| == 64
    ensures rows != [] ==>
      var before, last := rows[..|rows| - 1], rows[|rows| - 1];
      && Accepted(c, before)
      && last.payloadHash == c.h.sha256(Recanonical(c, last))
      && |last.payloadHash| == 64
      && last.rowHash == c.h.sha256(LastHash(before) + last.payloadHash)
  {
    if rows != [] {
      LastInputs(c, rows);
    }
  }

  /** Equal last hashes pass back through one row. */
  lemma {:induction false} SameHeadSameLastRow(c: Codec, a: seq<Row>, b: seq<Row>)
    requires WellHashed(c.h.sha256, ChainInputs(c, a) + ChainInputs(c, b))
    requires Accepted(c, a) && Accepted(c, b)
    requires LastHash(a) == LastHash(b)
    requires NoCollision(c.h.sha256, ChainInputs(c, a) + ChainInputs(c, b))
    ensures a == [] <==> b == []
    ensures a != [] ==>
      var p, x, q, y := a[..|a| - 1], a[|a| - 1], b[..|b| - 1], b[|b| - 1];
      && LastHash(p) == LastHash(q)
      && Recanonical(c, x) == Recanonical(c, y) && x.payloadHash == y.payloadHash && x.rowHash == y.rowHash
      && ChainInputs(c, p) <= ChainInputs(c, a) && ChainInputs(c, q) <= ChainInputs(c, b)
  {
    hide WellHashed, NoCollision, ChainInputs, LastHash, Recanonical, Accepted;
    FewerHashed(c.h.sha256, ChainInputs(c, a) + ChainInputs(c, b), ChainInputs(c, a));
    FewerHashed(c.h.sha256, ChainInputs(c, a) + ChainInputs(c, b), ChainInputs(c, b));
    LastHashOfAccepted(c, a);
    LastHashOfAccepted(c, b);
    EmptyEndsInGenesis(a);
    EmptyEndsInGenesis(b);
    var inputs := ChainInputs(c, a) + ChainInputs(c, b);
    if a != [] {
      LastInputs(c, a);
    }
    if b != [] {
      LastInputs(c, b);
    }
    if a != [] && b != [] {
      var p, x := a[..|a| - 1], a[|a| - 1];
      var q, y := b[..|b| - 1], b[|b| - 1];
      FewerHashed(c.h.sha256, ChainInputs(c, a), ChainInputs(c, p));
      FewerHashed(c.h.sha256, ChainInputs(c, b), ChainInputs(c, q));
      LastHashOfAccepted(c, p);
      LastHashOfAccepted(c, q);
      SameInput(c.h.sha256, inputs, LastHash(p) + x.payloadHash, LastHash(q) + y.payloadHash);
      ShaMerkle.SplitPair(LastHash(p), x.payloadHash, LastHash(q), y.payloadHash);
      SameInput(c.h.sha256, inputs, Recanonical(c, x), Recanonical(c, y));
    }
  }

  lemma {:induction false} EmptyEndsInGenesis(rows: seq<Row>)
    ensures LastHash(rows) == if rows == [] then GENESIS_HASH else rows[|rows| - 1].rowHash
  {
  }

  /**
   Two accepted chains that end in the same row hash tell the same story:
   equally many rows, with the same canonical payloads in the same order.
   */
  lemma {:induction false} SameHeadSameHistory(c: Codec, a: seq<Row>, b: seq<Row>)
    requires WellHashed(c.h.sha256, ChainInputs(c, a) + ChainInputs(c, b))
    requires Accepted(c, a) && Accepted(c, b)
    requires LastHash(a) == LastHash(b)
    requires NoCollision(c.h.sha256, ChainInputs(c, a) + ChainInputs(c, b))
    ensures |a| == |b|
    ensures forall i :: 0 <= i < |a| ==>
              && Recanonical(c, a[i]) == Recanonical(c, b[i])
              && a[i].payloadHash == b[i].payloadHash && a[i].rowHash == b[i].rowHash
    decreases |a|
  {
    hide WellHashed, NoCollision, Recanonical, Accepted, ChainInputs, LastHash;
    SameHeadSameLastRow(c, a, b);
    if a != [] {
      AcceptedPrefix(c, a, |a| - 1);
      AcceptedPrefix(c, b, |b| - 1);
      FewerInputs(c.h.sha256, ChainInputs(c, a) + ChainInputs(c, b), ChainInputs(c, a[..|a| - 1]) + ChainInputs(c, b[..|b| - 1]));
      FewerHashed(c.h.sha256, ChainInputs(c, a) + ChainInputs(c, b), ChainInputs(c, a[..|a| - 1]) + ChainInputs(c, b[..|b| - 1]));
      SameHeadSameHistory(c, a[..|a| - 1], b[..|b| - 1]);
    }
  }

  /** With the ledger's own encoding: a reader of the two histories is told the same values. */
  lemma {:induction false} SameHeadSamePayloads(h: Hashes, a: seq<Row>, b: seq<Row>, i: nat)
    requires WellHashed(h.sha256, ChainInputs(PythonJson(h), a) + ChainInputs(PythonJson(h), b))
    requires Accepted(PythonJson(h), a) && Accepted(PythonJson(h), b) && i < |a|
    requires LastHash(a) == LastHash(b)
    requires NoCollision(h.sha256, ChainInputs(PythonJson(h), a) + ChainInputs(PythonJson(h), b))
    ensures i < |b|
    ensures Parses(PythonJson(h), a[i]) && Parses(PythonJson(h), b[i])
    ensures JsonCanonical.Seen(CanonicalJson.Loads(a[i].payloadText).value)
         == JsonCanonical.Seen(CanonicalJson.Loads(b[i].payloadText).value)
  {
    hide CanonicalJson.Loads, CanonicalJson.Dumps, CanonicalJson.Printable, JsonCanonical.Seen, VerdictAt, ChainInputs, NoCollision, Accepted, WellHashed, LastHash;
    SameHeadSameHistory(PythonJson(h), a, b);
    AcceptedIsFine(PythonJson(h), a);
    AcceptedIsFine(PythonJson(h), b);
    var p, q := CanonicalJson.Loads(a[i].payloadText), CanonicalJson.Loads(b[i].payloadText);
    assert Parses(PythonJson(h), a[i]) && Parses(PythonJson(h), b[i]);
    assert Recanonical(PythonJson(h), a[i]) == Recanonical(PythonJson(h), b[i]);
    JsonCanonical.LoadedIsPrintable(a[i].payloadText);
    JsonCanonical.LoadedIsPrintable(b[i].payloadText);
    JsonCanonical.SameTextIffSameSeen(false, p.value, q.value);
  }

  // ---- what the walk does not see

  /** A chain cut off at the end is accepted like the whole chain. */
  lemma {:induction false} TruncationIsInvisible(c: Codec, rows: seq<Row>, k: nat, batch: nat)
    requires batch >= 1 && k <= |rows|
    requires WalkResult(c, rows, batch, |rows|) == Reported(Report(|rows|, true, None, Fine))
    ensures WalkResult(c, rows[..k], batch, k) == Reported(Report(k, true, None, Fine))
  {
    AcceptedIffReportedVerified(c, rows, batch, |rows|);
    AcceptedPrefix(c, rows, k);
    AcceptedIffReportedVerified(c, rows[..k], batch, k);
  }

  /** Rows that agree on payload text, payload hash and row hash are judged alike, whatever the other columns say. */
  lemma {:induction false} OtherColumnsAreInvisible(c: Codec, a: seq<Row>, b: seq<Row>)
    requires |a| == |b|
    requires forall i :: 0 <= i < |a| ==>
      && a[i].payloadText == b[i].payloadText
      && a[i].payloadHash == b[i].payloadHash && a[i].rowHash == b[i].rowHash
    ensures Accepted(c, a) <==> Accepted(c, b)
  {
    if a != [] {
      OtherColumnsAreInvisible(c, a[..|a| - 1], b[..|b| - 1]);
      var x, y := a[|a| - 1], b[|b| - 1];
      assert LastHash(a[..|a| - 1]) == LastHash(b[..|b| - 1]);
      assert Recanonical(c, x) == Recanonical(c, y);
    }
  }

  // ---- honest histories

  datatype Action =
    | Append(tenant: string, eventType: string, payload: CanonicalJson.Json, userId: string)
    | MarkRange(tenant: string, first: int, last: int, batch: string)

  function Apply(c: Codec, table: Table, action: Action): Table {
    var rows := RowsOf(table, action.tenant);
    match action
    case Append(tenant, eventType, payload, userId) => table[tenant := rows + [NewRow(c, rows, eventType, payload, userId)]]
    case MarkRange(tenant, first, last, batch) => table[tenant := Mark(rows, first, last, batch)]
  }

  /** The table after any interleaving of appends and anchoring marks, from an empty one. */
  function Run(c: Codec, actions: seq<Action>): Table {
    if actions == [] then map[] else Apply(c, Run(c, actions[..|actions| - 1]), actions[|actions| - 1])
  }

  /** The payloads a tenant's chain was given, in order. */
  function PayloadsFor(actions: seq<Action>, tenant: string): seq<CanonicalJson.Json> {
    if actions == [] then []
    else
      var before, last := PayloadsFor(actions[..|actions| - 1], tenant), actions[|actions| - 1];
      if last.Append? && last.tenant == tenant then before + [last.payload] else before
  }

  /** Every run leaves every tenant with a chain that stores exactly the payloads it was given. */
  lemma {:induction false} RunIsChained(c: Codec, actions: seq<Action>, tenant: string)
    ensures
      var rows, payloads := RowsOf(Run(c, actions), tenant), PayloadsFor(actions, tenant);
      && Chained(c, rows)
      && |rows| == |payloads|
      && forall i :: 0 <= i < |rows| ==> rows[i].payloadText == c.dumps(payloads[i])
  {
    if actions != [] {
      var before, last := actions[..|actions| - 1], actions[|actions| - 1];
      RunIsChained(c, before, tenant);
      var rows := RowsOf(Run(c, before), tenant);
      if last.tenant == tenant {
        match last
        case Append(_, eventType, payload, userId) => AppendKeepsChain(c, rows, eventType, payload, userId);
        case MarkRange(_, first, finish, batch) => MarkKeepsChain(c, rows, first, finish, batch);
      }
    }
  }

  /** What a payload becomes when it is stored and checked. */
  function Redump(c: Codec, p: CanonicalJson.Json): Option<string> {
    match c.loads(c.dumps(p))
    case None => None
    case Some(q) => Some(c.dumps(q))
  }

  /** The texts whose digests the walk of an honest chain compares. */
  function Texts(c: Codec, payloads: seq<CanonicalJson.Json>): set<string> {
    (set i | 0 <= i < |payloads| :: c.dumps(payloads[i]))
    + (set i | 0 <= i < |payloads| && Redump(c, payloads[i]).Some? :: Redump(c, payloads[i]).value)
  }

  /** One row of an honest chain is fine exactly when its payload dumps back alike. */
  lemma {:induction false} HonestRowFineIff(c: Codec, rows: seq<Row>, payloads: seq<CanonicalJson.Json>, i: nat)
    requires Chained(c, rows) && |rows| == |payloads| && i < |rows|
    requires rows[i].payloadText == c.dumps(payloads[i])
    requires Redump(c, payloads[i]).Some?
    requires NoCollision(c.h.sha256, Texts(c, payloads))
    ensures Parses(c, rows[i])
    ensures VerdictAt(c, rows, i) == Fine <==> Redump(c, payloads[i]) == Some(c.dumps(payloads[i]))
  {
    assert c.dumps(payloads[i]) in Texts(c, payloads);
    assert Redump(c, payloads[i]).value in Texts(c, payloads);
  }

  /**
   Any interleaving of appends across tenants and of anchoring marks leaves a
   tenant's chain verified, with as many events as were appended, exactly when
   every payload appended for that tenant dumps back alike.
   */
  lemma {:induction false} HonestRunVerifiesIff(c: Codec, actions: seq<Action>, tenant: string, batch: nat)
    requires batch >= 1
    requires forall p :: p in PayloadsFor(actions, tenant) ==> Redump(c, p).Some?
    requires NoCollision(c.h.sha256, Texts(c, PayloadsFor(actions, tenant)))
    ensures
      var rows, payloads := RowsOf(Run(c, actions), tenant), PayloadsFor(actions, tenant);
      && Visited(rows, 0, batch) == rows
      && (WalkResult(c, Visited(rows, 0, batch), batch, |rows|) == Reported(Report(|payloads|, true, None, Fine))
          <==> forall p :: p in payloads ==> Redump(c, p) == Some(c.dumps(p)))
  {
    hide Run, PayloadsFor, VerdictAt, WalkResult, Parses, Chained, Ordered, NoCollision, Texts, Visited, NoTieAcrossPages, Redump, Accepted;
    var rows, payloads := RowsOf(Run(c, actions), tenant), PayloadsFor(actions, tenant);
    RunIsChained(c, actions, tenant);
    ChainedIsCovered(c, rows, batch);
    AcceptedIffReportedVerified(c, rows, batch, |rows|);
    AcceptedIsFine(c, rows);
    forall i | 0 <= i < |rows|
      ensures Parses(c, rows[i]) && (VerdictAt(c, rows, i) == Fine <==> Redump(c, payloads[i]) == Some(c.dumps(payloads[i])))
    {
      assert payloads[i] in payloads;
      HonestRowFineIff(c, rows, payloads, i);
    }
    if forall p :: p in payloads ==> Redump(c, p) == Some(c.dumps(p)) {
      assert forall i :: 0 <= i < |rows| ==> payloads[i] in payloads;
      assert Accepted(c, rows);
    }
    if Accepted(c, rows) {
      forall p | p in payloads ensures Redump(c, p) == Some(c.dumps(p)) {
        var i :| 0 <= i < |payloads| && payloads[i] == p;
        assert VerdictAt(c, rows, i) == Fine;
      }
    }
  }

  /** For the ledger's own encoding, dumping back alike is the condition on keys. */
  lemma {:induction false} PythonRedumpIff(h: Hashes, p: CanonicalJson.Json)
    requires CanonicalJson.IsDict(p) && CanonicalJson.Printable(p)
    ensures Redump(PythonJson(h), p).Some?
    ensures Redump(PythonJson(h), p) == Some(PythonJson(h).dumps(p)) <==> CanonicalJson.Strict(JsonCanonical.Seen(p))
  {
    hide CanonicalJson.Loads, CanonicalJson.Dumps, CanonicalJson.Strict, JsonCanonical.Seen;
    JsonCanonical.RedumpRepeatsIffStrict(false, p);
  }

  lemma {:induction false} ChainedIsCovered(c: Codec, rows: seq<Row>, batch: nat)
    requires batch >= 1 && Chained(c, rows)
    ensures Visited(rows, 0, batch) == rows
  {
    ChainedIsOrdered(c, rows);
    ChainedHasNoTie(rows, batch, 0);
    assert rows[0..] == rows;
    PagingIsExactIff(rows, batch);
  }

  lemma {:induction false} ChainedHasNoTie(rows: seq<Row>, batch: nat, from: nat)
    requires batch >= 1 && from <= |rows|
    requires forall i :: 0 <= i < |rows| ==> rows[i].seqNo == i + 1
    ensures NoTieAcrossPages(rows[from..], batch)
    decreases |rows| - from
  {
    if |rows| - from > batch {
      ChainedHasNoTie(rows, batch, from + batch);
      assert rows[from..][batch..] == rows[from + batch..];
    }
  }

  /** What `append` stores says who did what, and is read back as the payload seen through the encoding. */
  lemma {:induction false} AppendedIsReadBack(h: Hashes, rows: seq<Row>, eventType: string, payload: CanonicalJson.Json, userId: string)
    requires CanonicalJson.Printable(payload)
    ensures
      var row := NewRow(PythonJson(h), rows, eventType, payload, userId);
      && row.eventType == eventType && row.userId == userId && row.anchoredIn == None
      && row.seqNo == (if rows == [] then 1 else rows[|rows| - 1].seqNo + 1)
      && CanonicalJson.Loads(row.payloadText) == Some(CanonicalJson.ToDict(JsonCanonical.Seen(payload)))
  {
    JsonCanonical.LoadsOfDumps(false, payload);
  }
}
