/**
 The public check of a title from one end to the other: what `append` stored
 for its event, what the pattern of the query finds, and what the chain says.
 */
module TitleLookup {
  import opened Hashing
  import opened Ledger
  import opened EvmMerkle
  import opened AnchorProtocol
  import opened AnchorEvidence
  import opened TitleVerification
  import opened CanonicalJson
  import opened JsonText
  import opened LikeEscape

  /** The rows that the query for a title number returns. */
  function NamesTitle(titleNo: string): Matcher {
    (row: Row) => row.eventType == "TITLE_ISSUED" && Like(TitlePattern(titleNo), row.payloadText)
  }

  /** A payload that holds the title number. */
  predicate HoldsTitle(m: Members, titleNo: string) {
    IsDictMembers(m) && AsText("title_no") in Keys(m) && Lookup(m, AsText("title_no")) == Str(AsText(titleNo))
  }

  /** The run that records the event somewhere. */
  function Recording(before: seq<Action>, m: Members, userId: string, later: seq<Action>): seq<Action> {
    before + [RecordEvent("TITLE_ISSUED", Obj(m), userId)] + later
  }

  /** However the run goes on, the row that was recorded is found under its title number. */
  lemma {:induction false} RecordedTitleIsNamed(
    sys: Settings, h: Hashes, before: seq<Action>, m: Members, titleNo: string, userId: string, later: seq<Action>)
    requires sys.c == PythonJson(h) && HoldsTitle(m, titleNo) && AllPlain(titleNo)
    ensures
      var i, rows := |Run(sys, START, before).rows|, Run(sys, START, Recording(before, m, userId, later)).rows;
      i < |rows| && NamesTitle(titleNo)(rows[i])
  {
    hide Run, Like, TitlePattern, NewRow, Dumps, Keys;
    var s, record := Run(sys, START, before), RecordEvent("TITLE_ISSUED", Obj(m), userId);
    var recorded := before + [record];
    RunInParts(sys, START, before, [record]);
    RunOfOne(sys, s, record);
    RunInParts(sys, START, recorded, later);
    assert recorded + later == Recording(before, m, userId, later);
    MarksAreFinal(sys, recorded, later, |s.rows|);
    RecordedTitleIsFound(h, s.rows, m, titleNo, userId);
    NewRowIsTitle(sys.c, s.rows, Obj(m), userId);
  }

  lemma {:induction false} NewRowIsTitle(c: Codec, rows: seq<Row>, payload: Json, userId: string)
    ensures NewRow(c, rows, "TITLE_ISSUED", payload, userId).eventType == "TITLE_ISSUED"
  {
  }

  /**
   The check of a title whose event was recorded is pending until the newest
   event that names it is anchored, and valid from then on; what it proves is
   an event of this very title.
   */
  lemma {:induction false} RecordedTitleIsChecked(
    sys: Settings, h: Hashes, before: seq<Action>, m: Members, titleNo: string, userId: string, later: seq<Action>, byParcel: Matcher)
    requires sys.c == PythonJson(h) && Lawful(sys.f) && HoldsTitle(m, titleNo) && AllPlain(titleNo)
    requires
      var rows := Run(sys, START, Recording(before, m, userId, later)).rows;
      forall i :: 0 <= i < |rows| && NamesTitle(titleNo)(rows[i]) ==> byParcel(rows[i])
    ensures
      var s := Run(sys, START, Recording(before, m, userId, later));
      var reply := VerifyTitle(sys.f, s, NamesTitle(titleNo), byParcel);
      reply == PendingAnchor || (
        && reply.Verdict? && reply.valid == Some(true)
        && 1 <= reply.leafSeq <= |s.rows| && NamesTitle(titleNo)(s.rows[reply.leafSeq - 1]))
  {
    hide Run, Lawful, VerifyTitle, NamesTitle, HoldsTitle, Newest, First;
    var actions := Recording(before, m, userId, later);
    var s := Run(sys, START, actions);
    RecordedTitleIsNamed(sys, h, before, m, titleNo, userId, later);
    TitleIsValidOnceAnchored(sys, actions, NamesTitle(titleNo), byParcel);
    assert SomeMatch(s.rows, NamesTitle(titleNo));
    if VerifyTitle(sys.f, s, NamesTitle(titleNo), byParcel) != PendingAnchor {
      ValidIsAboutTheTitleIff(sys, actions, NamesTitle(titleNo), byParcel);
    }
  }
}
