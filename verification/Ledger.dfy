/** The hash-chained audit ledger: one append-only chain of rows per tenant. */
module Ledger {
  import opened Hashing
  import CanonicalJson
  import ShaMerkle
  import MerkleTree

  function Zeros(n: nat): (s: string)
    ensures |s| == n
  {
    if n == 0 then "" else ['0'] + Zeros(n - 1)
  }

  /** What the first row of a chain points back to. */
  const GENESIS_HASH := Zeros(64)

  /** A row of `audit_events`. `payloadText` is the stored `payload_json`. */
  datatype Row = Row(
    eventType: string,
    userId: string,
    payloadText: string,
    seqNo: int,
    prevHash: string,
    payloadHash: string,
    rowHash: string,
    anchoredIn: Option<string>)

  /** The hash, and the JSON encoding that payloads go through. `PythonJson` is the one the ledger uses. */
  datatype Codec = Codec(
    h: Hashes,
    dumps: CanonicalJson.Json -> string,
    loads: string -> Option<CanonicalJson.Json>)

  /** `json.dumps(payload, sort_keys=True, default=str)` and `json.loads`. */
  function PythonJson(h: Hashes): Codec {
    Codec(h, v => CanonicalJson.Dumps(false, v), CanonicalJson.Loads)
  }

  function LastHash(rows: seq<Row>): string {
    if rows == [] then GENESIS_HASH else rows[|rows| - 1].rowHash
  }

  function LastSeq(rows: seq<Row>): int {
    if rows == [] then 0 else rows[|rows| - 1].seqNo
  }

  /** The row that `append` inserts behind `rows`. */
  function NewRow(c: Codec, rows: seq<Row>, eventType: string, payload: CanonicalJson.Json, userId: string): Row {
    var text := c.dumps(payload);
    Row(eventType, userId, text, LastSeq(rows) + 1, LastHash(rows), c.h.sha256(text),
        c.h.sha256(LastHash(rows) + c.h.sha256(text)), None)
  }

  /** `seq > since`, in table order. */
  function After(rows: seq<Row>, since: int): (r: seq<Row>)
    ensures |r| <= |rows|
    ensures forall i :: 0 <= i < |r| ==> r[i].seqNo > since
  {
    if rows == [] then []
    else if rows[0].seqNo > since then [rows[0]] + After(rows[1..], since)
    else After(rows[1..], since)
  }

  function Take<T>(rows: seq<T>, limit: nat): (r: seq<T>)
    ensures |r| == if |rows| <= limit then |rows| else limit
    ensures r == rows[..|r|]
  {
    if |rows| <= limit then rows else rows[..limit]
  }

  /** `anchored_in IS NULL`. */
  function Unanchored(rows: seq<Row>): seq<Row> {
    if rows == [] then []
    else if rows[0].anchoredIn.None? then [rows[0]] + Unanchored(rows[1..])
    else Unanchored(rows[1..])
  }

  /** `UPDATE ... SET anchored_in = ? WHERE seq BETWEEN ? AND ? AND anchored_in IS NULL`. */
  function Marked(row: Row, first: int, last: int, batch: string): Row {
    if first <= row.seqNo <= last && row.anchoredIn.None? then row.(anchoredIn := Some(batch)) else row
  }

  function Mark(rows: seq<Row>, first: int, last: int, batch: string): (r: seq<Row>)
    ensures |r| == |rows|
    ensures forall i :: 0 <= i < |r| ==> r[i] == Marked(rows[i], first, last, batch)
  {
    seq(|rows|, i requires 0 <= i < |rows| => Marked(rows[i], first, last, batch))
  }

  /** Number of rows an update touched. */
  function MarkCount(rows: seq<Row>, first: int, last: int): nat {
    if rows == [] then 0
    else (if first <= rows[0].seqNo <= last && rows[0].anchoredIn.None? then 1 else 0) + MarkCount(rows[1..], first, last)
  }

  function Between(rows: seq<Row>, first: int, last: int): seq<Row> {
    if rows == [] then []
    else if first <= rows[0].seqNo <= last then [rows[0]] + Between(rows[1..], first, last)
    else Between(rows[1..], first, last)
  }

  function PayloadHashes(rows: seq<Row>): (r: seq<string>)
    ensures |r| == |rows|
    ensures forall i :: 0 <= i < |r| ==> r[i] == rows[i].payloadHash
  {
    seq(|rows|, i requires 0 <= i < |rows| => rows[i].payloadHash)
  }

  /** `ORDER BY seq`. */
  predicate Ordered(rows: seq<Row>) {
    forall i, j :: 0 <= i < j < |rows| ==> rows[i].seqNo <= rows[j].seqNo
  }

  /** What `append` builds: consecutive numbers, each row hashed onto the one before. */
  predicate Chained(c: Codec, rows: seq<Row>) {
    forall i :: 0 <= i < |rows| ==>
      && rows[i].seqNo == i + 1
      && rows[i].prevHash == LastHash(rows[..i])
      && rows[i].payloadHash == c.h.sha256(rows[i].payloadText)
      && rows[i].rowHash == c.h.sha256(rows[i].prevHash + rows[i].payloadHash)
  }

  lemma {:induction false} AppendKeepsChain(c: Codec, rows: seq<Row>, eventType: string, payload: CanonicalJson.Json, userId: string)
    requires Chained(c, rows)
    ensures Chained(c, rows + [NewRow(c, rows, eventType, payload, userId)])
  {
    var row := NewRow(c, rows, eventType, payload, userId);
    forall i | 0 <= i <= |rows| ensures (rows + [row])[..i] == rows[..i] {
    }
    assert rows[..|rows|] == rows;
  }

  lemma {:induction false} MarkKeepsChain(c: Codec, rows: seq<Row>, first: int, last: int, batch: string)
    requires Chained(c, rows)
    ensures Chained(c, Mark(rows, first, last, batch))
  {
    hide Marked;
    var marked := Mark(rows, first, last, batch);
    forall i | 0 <= i < |rows| ensures marked[i] == rows[i].(anchoredIn := marked[i].anchoredIn) {
      MarkedKeepsRest(rows[i], first, last, batch);
    }
    forall i | 0 <= i < |rows| ensures LastHash(marked[..i]) == LastHash(rows[..i]) {
      if i > 0 {
        assert marked[..i][i - 1] == marked[i - 1] && rows[..i][i - 1] == rows[i - 1];
      }
    }
  }

  lemma {:induction false} MarkedKeepsRest(row: Row, first: int, last: int, batch: string)
    ensures Marked(row, first, last, batch) == row.(anchoredIn := Marked(row, first, last, batch).anchoredIn)
  {
  }

  lemma {:induction false} ChainedIsOrdered(c: Codec, rows: seq<Row>)
    requires Chained(c, rows)
    ensures Ordered(rows)
  {
  }

  // ---- what the queries return

  /** `page` is the next `limit` rows behind the cursor: it starts right behind the last row that is not, and skips none. */
  predicate IsNextPage(rows: seq<Row>, since: int, limit: nat, from: nat, page: seq<Row>) {
    && from + |page| <= |rows| && page == rows[from..from + |page|]
    && (forall j :: 0 <= j < from ==> rows[j].seqNo <= since)
    && (forall j :: from <= j < |rows| ==> rows[j].seqNo > since)
    && |page| <= limit && (|page| < limit ==> from + |page| == |rows|)
  }

  lemma {:induction false} PageIsNext(rows: seq<Row>, since: int, limit: nat) returns (from: nat)
    requires Ordered(rows)
    ensures IsNextPage(rows, since, limit, from, Take(After(rows, since), limit))
  {
    from := AfterIsTail(rows, since);
    assert rows[from..][..|Take(After(rows, since), limit)|] == rows[from..from + |Take(After(rows, since), limit)|];
  }

  lemma {:induction false} AfterIsTail(rows: seq<Row>, since: int) returns (from: nat)
    requires Ordered(rows)
    ensures from <= |rows| && After(rows, since) == rows[from..]
    ensures forall j :: 0 <= j < from ==> rows[j].seqNo <= since
    ensures forall j :: from <= j < |rows| ==> rows[j].seqNo > since
  {
    if rows == [] {
      from := 0;
    } else {
      var tail := rows[1..];
      assert forall j :: 0 <= j < |tail| ==> tail[j] == rows[j + 1];
      var k := AfterIsTail(tail, since);
      if rows[0].seqNo > since {
        assert tail != [] ==> tail[0].seqNo > since;
        from := 0;
        assert [rows[0]] + tail == rows;
      } else {
        from := k + 1;
        assert tail[k..] == rows[k + 1..];
      }
    }
  }

  predicate Increasing(at: seq<nat>) {
    forall i, j :: 0 <= i < j < |at| ==> at[i] < at[j]
  }

  /** `found` are, in order, the rows at the positions `at`: unanchored ones, and no unanchored one before the last of them is left out. */
  predicate AreFirstUnanchored(rows: seq<Row>, limit: nat, at: seq<nat>, found: seq<Row>) {
    && |at| == |found| && Increasing(at)
    && (forall i :: 0 <= i < |at| ==> at[i] < |rows| && found[i] == rows[at[i]] && found[i].anchoredIn.None?)
    && |found| <= limit
    && (forall j: nat :: j < |rows| && rows[j].anchoredIn.None? && j !in at ==> |found| == limit && (at == [] || j > at[|at| - 1]))
  }

  /** Positions of the unanchored rows. */
  function UnanchoredAt(rows: seq<Row>): (at: seq<nat>)
    ensures forall i :: 0 <= i < |at| ==> at[i] < |rows|
  {
    if rows == [] then []
    else UnanchoredAt(rows[..|rows| - 1]) + if rows[|rows| - 1].anchoredIn.None? then [|rows| - 1] else []
  }

  lemma {:induction false} UnanchoredSnoc(rows: seq<Row>, row: Row)
    ensures Unanchored(rows + [row]) == Unanchored(rows) + if row.anchoredIn.None? then [row] else []
  {
    if rows == [] {
      assert rows + [row] == [row];
    } else {
      assert (rows + [row])[1..] == rows[1..] + [row];
      UnanchoredSnoc(rows[1..], row);
    }
  }

  lemma {:induction false} UnanchoredPositions(rows: seq<Row>)
    ensures
      var at := UnanchoredAt(rows);
      && Increasing(at) && |Unanchored(rows)| == |at|
      && (forall i :: 0 <= i < |at| ==> Unanchored(rows)[i] == rows[at[i]] && rows[at[i]].anchoredIn.None?)
      && (forall j: nat :: j < |rows| && rows[j].anchoredIn.None? ==> j in at)
  {
    if rows != [] {
      var before, last := rows[..|rows| - 1], rows[|rows| - 1];
      UnanchoredPositions(before);
      assert rows == before + [last];
      UnanchoredSnoc(before, last);
    }
  }

  lemma {:induction false} FirstUnanchored(rows: seq<Row>, limit: nat) returns (at: seq<nat>)
    ensures AreFirstUnanchored(rows, limit, at, Take(Unanchored(rows), limit))
  {
    hide Unanchored, UnanchoredAt;
    UnanchoredPositions(rows);
    at := Take(UnanchoredAt(rows), limit);
    forall j: nat | j < |rows| && rows[j].anchoredIn.None? && j !in at ensures |at| == limit && (at == [] || j > at[|at| - 1]) {
      var all := UnanchoredAt(rows);
      var i :| 0 <= i < |all| && all[i] == j;
      assert forall k :: 0 <= k < |at| ==> at[k] == all[k] && at[k] != j;
    }
  }

  /** What a mark counts is what it takes from the unanchored rows. */
  lemma {:induction false} MarkTakesItsCount(rows: seq<Row>, first: int, last: int, batch: string)
    ensures |Unanchored(Mark(rows, first, last, batch))| + MarkCount(rows, first, last) == |Unanchored(rows)|
  {
    if rows != [] {
      MarkTakesItsCount(rows[1..], first, last, batch);
      assert Mark(rows, first, last, batch)[1..] == Mark(rows[1..], first, last, batch);
    }
  }

  type Table = map<string, seq<Row>>

  function RowsOf(table: Table, tenant: string): seq<Row> {
    if tenant in table then table[tenant] else []
  }

  /** The `audit_events` table, read through its (tenant_id, seq) index. */
  class AuditLedger {
    const c: Codec
    var table: Table

    /** The index keeps every tenant's rows in `seq` order. */
    ghost predicate Valid()
      reads this
    {
      forall t :: t in table ==> Ordered(table[t])
    }

    constructor (c: Codec)
      ensures this.c == c && table == map[] && Valid()
    {
      this.c := c;
      table := map[];
    }

    method LastSeqAndHash(tenant: string) returns (seqNo: int, hash: string)
      ensures seqNo == LastSeq(RowsOf(table, tenant)) && hash == LastHash(RowsOf(table, tenant))
    {
      if tenant !in table || table[tenant] == [] {
        return 0, GENESIS_HASH;
      }
      var row := table[tenant][|table[tenant]| - 1];
      return row.seqNo, row.rowHash;
    }

    method Append(eventType: string, payload: CanonicalJson.Json, tenant: string, userId: string) returns (row: Row)
      requires Valid()
      modifies this
      ensures Valid()
      ensures row == NewRow(c, RowsOf(old(table), tenant), eventType, payload, userId)
      ensures table == old(table)[tenant := RowsOf(old(table), tenant) + [row]]
    {
      var prevSeq, prevHash := LastSeqAndHash(tenant);
      var canonical := c.dumps(payload);
      var payloadHash := c.h.sha256(canonical);
      var rowHash := c.h.sha256(prevHash + payloadHash);
      row := Row(eventType, userId, canonical, prevSeq + 1, prevHash, payloadHash, rowHash, None);
      var rows := RowsOf(table, tenant);
      table := table[tenant := rows + [row]];
    }

    method Count(tenant: string) returns (n: nat)
      ensures n == |RowsOf(table, tenant)|
    {
      n := |RowsOf(table, tenant)|;
    }

    /** The rows of a page; the caller decodes the payloads. */
    method Select(tenant: string, sinceSeq: int, limit: nat) returns (rows: seq<Row>, ghost from: nat)
      requires Valid()
      ensures rows == Take(After(RowsOf(table, tenant), sinceSeq), limit)
      ensures IsNextPage(RowsOf(table, tenant), sinceSeq, limit, from, rows)
    {
      from := PageIsNext(RowsOf(table, tenant), sinceSeq, limit);
      rows := Take(After(RowsOf(table, tenant), sinceSeq), limit);
    }

    method SelectUnanchored(tenant: string, limit: nat) returns (rows: seq<Row>, ghost at: seq<nat>)
      ensures rows == Take(Unanchored(RowsOf(table, tenant)), limit)
      ensures AreFirstUnanchored(RowsOf(table, tenant), limit, at, rows)
    {
      at := FirstUnanchored(RowsOf(table, tenant), limit);
      rows := Take(Unanchored(RowsOf(table, tenant)), limit);
    }

    method MarkAnchored(tenant: string, first: int, last: int, batch: string) returns (count: nat)
      requires Valid()
      modifies this
      ensures Valid()
      ensures count == MarkCount(RowsOf(old(table), tenant), first, last)
      ensures RowsOf(table, tenant) == Mark(RowsOf(old(table), tenant), first, last, batch)
      ensures forall t :: t != tenant ==> RowsOf(table, t) == RowsOf(old(table), t)
    {
      var rows := RowsOf(table, tenant);
      count := MarkCount(rows, first, last);
      table := table[tenant := Mark(rows, first, last, batch)];
    }

    /** The SHA-256 root of a range of the chain. */
    method AnchorRange(first: int, last: int, tenant: string) returns (leafCount: nat, root: string)
      ensures var leaves := PayloadHashes(Between(RowsOf(table, tenant), first, last));
              && leafCount == |leaves|
              && root == if leaves == [] then "" else MerkleTree.Root(ShaMerkle.PairHash(c.h), leaves)
    {
      var leaves := PayloadHashes(Between(RowsOf(table, tenant), first, last));
      leafCount := |leaves|;
      root := ShaMerkle.ComputeMerkleRoot(c.h, leaves);
    }
  }
}
