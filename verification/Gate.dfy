/**
 The fail-closed fraud gate over whole runs: what a completed transfer has
 been through, and why a transfer scored BLOCK stays blocked until the scorer
 itself changes.
 */
module Gate {
  import opened Hashing
  import opened Registry
  import opened RegistryFrames

  /** Scores are kept in the order of their versions and of their times. */
  predicate RowsOk(rows: seq<Score>, version: nat, clock: real) {
    && (forall i, j :: 0 <= i < j < |rows| ==> rows[i].version < rows[j].version && rows[i].at <= rows[j].at)
    && (forall i :: 0 <= i < |rows| ==> rows[i].version <= version && rows[i].at <= clock)
  }

  ghost predicate ScoresOk(scores: map<string, seq<Score>>, version: nat, clock: real) {
    forall id :: id in scores ==> RowsOk(scores[id], version, clock)
  }

  /** The foreign key of `transfers.parcel_id`. */
  ghost predicate Contexts(s: State) {
    forall id :: id in s.transfers ==> s.transfers[id].parcel in s.parcels
  }

  predicate Clear(rows: seq<Score>) {
    exists i | 0 <= i < |rows| :: rows[i].recommended != BLOCK
  }

  ghost predicate CompletedAreClear(s: State) {
    forall id :: id in s.transfers && s.transfers[id].status == COMPLETED ==> Clear(ScoresOf(s.scores, id))
  }

  ghost predicate GateInv(s: State) {
    ScoresOk(s.scores, s.version, s.clock) && Contexts(s) && CompletedAreClear(s)
  }

  /** No score row is ever dropped or changed. */
  ghost predicate ScoresGrow(old_: map<string, seq<Score>>, new_: map<string, seq<Score>>) {
    forall id :: ScoresOf(old_, id) <= ScoresOf(new_, id)
  }

  // ---- one transfer's scores

  lemma {:induction false} LatestIsLast(rows: seq<Score>, version: nat, clock: real)
    requires RowsOk(rows, version, clock)
    ensures Latest(rows) == if rows == [] then None else Some(rows[|rows| - 1])
  {
    if |rows| > 1 {
      LatestIsLast(rows[..|rows| - 1], version, clock);
    }
  }

  lemma {:induction false} NothingReplaced(rows: seq<Score>, version: nat)
    requires forall i :: 0 <= i < |rows| ==> rows[i].version != version
    ensures OtherVersions(rows, version) == rows
  {
    if rows != [] {
      NothingReplaced(rows[1..], version);
    }
  }

  /** A score is persisted only at a version that the transfer has no score for, so `INSERT OR REPLACE` never replaces. */
  lemma {:induction false} PersistAppends(s: State, id: string, recommended: Recommended, now: real)
    requires RowsOk(ScoresOf(s.scores, id), s.version, now) && !UpToDate(s, id)
    ensures
      var rows, t := ScoresOf(s.scores, id), Persist(s, id, recommended, now);
      && t.scores == s.scores[id := rows + [Score(s.version, recommended, now)]]
      && RowsOk(ScoresOf(t.scores, id), s.version, now)
      && Latest(ScoresOf(t.scores, id)) == Some(Score(s.version, recommended, now))
  {
    hide Latest, OtherVersions;
    var rows := ScoresOf(s.scores, id);
    LatestIsLast(rows, s.version, now);
    NothingReplaced(rows, s.version);
    LatestIsLast(rows + [Score(s.version, recommended, now)], s.version, now);
  }

  /** What a scoring attempt does to the scores, and what it returns. */
  lemma {:induction false} ScoringEffect(s: State, logged: bool, id: string, scoring: Scoring, now: real)
    requires RowsOk(ScoresOf(s.scores, id), s.version, now)
    ensures
      var (t, result) := ScoreNow(s, logged, id, scoring, now);
      && (UpToDate(s, id) ==> t == s && result == Got(Latest(ScoresOf(s.scores, id)).value))
      && (!HasContext(s, id) || (!UpToDate(s, id) && scoring.ScorerRaises?) ==> t.scores == s.scores)
      && (HasContext(s, id) && !UpToDate(s, id) && !scoring.ScorerRaises? ==>
            && t.scores == s.scores[id := ScoresOf(s.scores, id) + [Score(s.version, scoring.recommended, now)]]
            && (result == Threw || result == Got(Score(s.version, scoring.recommended, now))))
      && (HasContext(s, id) && !UpToDate(s, id) && !scoring.Scores? ==> result == Threw)
      && (HasContext(s, id) ==> result != NoScore)
      && (result.Got? && HasContext(s, id) ==>
            Latest(ScoresOf(t.scores, id)) == Some(result.score) && result.score.version == s.version)
  {
    hide Latest, OtherVersions, ActOnScore, RowsOk, Persist;
    if !UpToDate(s, id) && !scoring.ScorerRaises? {
      PersistAppends(s, id, scoring.recommended, now);
    }
  }

  /** Scoring one transfer keeps everybody's scores in order, and only adds. */
  lemma {:induction false} ScoringKeepsScores(s: State, logged: bool, id: string, scoring: Scoring, now: real)
    requires ScoresOk(s.scores, s.version, now)
    ensures
      var t := ScoreNow(s, logged, id, scoring, now).0;
      ScoresOk(t.scores, s.version, now) && ScoresGrow(s.scores, t.scores)
  {
    hide ScoreNow, Latest, UpToDate, HasContext, RowsOk;
    EmptyRowsOk(s.version, now);
    ScoringEffect(s, logged, id, scoring, now);
    if HasContext(s, id) && !UpToDate(s, id) && !scoring.ScorerRaises? {
      PersistAppends(s, id, scoring.recommended, now);
    }
  }

  lemma {:induction false} EmptyRowsOk(version: nat, clock: real)
    ensures RowsOk([], version, clock)
  {
  }

  lemma {:induction false} AttemptKeepsScores(s: State, logged: bool, i: nat, scoring: Scoring, now: real)
    requires ScoresOk(s.scores, s.version, now)
    ensures
      var t := Attempt(s, logged, i, scoring, now);
      ScoresOk(t.scores, s.version, now) && ScoresGrow(s.scores, t.scores)
  {
    hide ScoreNow, Settle, RowsOk, ScoresOf;
    if i < |s.jobs| {
      ScoringKeepsScores(s, logged, s.jobs[i].transfer, scoring, now);
    }
  }

  lemma {:induction false} AttemptsKeepScores(s: State, logged: bool, picks: seq<nat>, scorings: seq<Scoring>, n: nat, now: real)
    requires ScoresOk(s.scores, s.version, now) && n <= |picks| <= |scorings|
    ensures
      var t := Attempts(s, logged, picks, scorings, n, now);
      ScoresOk(t.scores, s.version, now) && ScoresGrow(s.scores, t.scores)
  {
    hide Attempt, ScoresOk, ScoresOf;
    if n > 0 {
      var before := Attempts(s, logged, picks, scorings, n - 1, now);
      AttemptsKeepScores(s, logged, picks, scorings, n - 1, now);
      AttemptsOnlyScore(s, logged, picks, scorings, n - 1, now);
      AttemptKeepsScores(before, logged, picks[n - 1], scorings[n - 1], now);
      GrowsTransitive(s.scores, before.scores, Attempts(s, logged, picks, scorings, n, now).scores);
    }
  }

  lemma {:induction false} GrowsTransitive(a: map<string, seq<Score>>, b: map<string, seq<Score>>, c: map<string, seq<Score>>)
    requires ScoresGrow(a, b) && ScoresGrow(b, c)
    ensures ScoresGrow(a, c)
  {
    forall id ensures ScoresOf(a, id) <= ScoresOf(c, id) {
      assert ScoresOf(a, id) <= ScoresOf(b, id) <= ScoresOf(c, id);
    }
  }

  lemma {:induction false} ScoresAge(scores: map<string, seq<Score>>, version: nat, clock: real, laterVersion: nat, later: real)
    requires ScoresOk(scores, version, clock) && version <= laterVersion && clock <= later
    ensures ScoresOk(scores, laterVersion, later)
  {
    forall id | id in scores ensures RowsOk(scores[id], laterVersion, later) {
      assert RowsOk(scores[id], version, clock);
    }
  }

  // ---- every step

  lemma {:induction false} ApproveKeepsScores(s: State, logged: bool, id: string, scoring: Scoring, now: real)
    requires ScoresOk(s.scores, s.version, now)
    ensures
      var t := ApproveTransfer(s, logged, id, scoring, now).0;
      ScoresOk(t.scores, s.version, now) && ScoresGrow(s.scores, t.scores)
  {
    hide ScoreNow, ScoresOk, ScoresOf, Emit, Handover;
    ScoringKeepsScores(s, logged, id, scoring, now);
  }

  lemma {:induction false} WorkKeepsScores(s: State, c: Call, w: Work)
    requires w.SweepOutbox? ==> w.limit <= |w.scorings|
    requires ScoresOk(s.scores, s.version, c.now)
    ensures
      var t := DoWork(s, c, w);
      && s.version <= t.version && ScoresOk(t.scores, t.version, c.now) && ScoresGrow(s.scores, t.scores)
  {
    hide ScoreNow, Attempts, Escalate, ScoresOk, ScoresOf;
    match w {
      case Stream(id, locked, scoring) => ScoringKeepsScores(s, c.logged, id, scoring, c.now);
      case SweepOutbox(limit, scorings) =>
        AttemptsKeepScores(s, c.logged, Picks(s, limit, c.now), scorings, |Picks(s, limit, c.now)|, c.now);
        AttemptsOnlyScore(s, c.logged, Picks(s, limit, c.now), scorings, |Picks(s, limit, c.now)|, c.now);
      case EscalateReviews(order) => EscalateOnlyMarks(s, c.logged, order, c.now);
      case Upgrade => ScoresAge(s.scores, s.version, c.now, s.version + 1, c.now);
    }
  }

  lemma {:induction false} StepKeepsScores(sys: Settings, s: State, c: Call)
    requires Enabled(s, c) && ScoresOk(s.scores, s.version, s.clock)
    ensures
      var t := Step(sys, s, c);
      && s.version <= t.version && ScoresOk(t.scores, t.version, t.clock) && ScoresGrow(s.scores, t.scores)
  {
    hide DoRegister, DoTransfer, DoReview, DoDispute, DoWork, HasRole, Allowed, ScoresOk, ScoresOf;
    ScoresAge(s.scores, s.version, s.clock, s.version, c.now);
    StepIsFramed(sys, s, c);
    match c.action {
      case OnTransfer(a) => TransferKeepsScores(s, c, a);
      case Background(w) => WorkKeepsScores(s, c, w);
      case _ =>
    }
  }

  lemma {:induction false} TransferKeepsScores(s: State, c: Call, a: Transferring)
    requires ScoresOk(s.scores, s.version, c.now)
    ensures
      var t := DoTransfer(s, c, a).0;
      ScoresOk(t.scores, s.version, c.now) && ScoresGrow(s.scores, t.scores)
  {
    hide CreateTransfer, RejectTransfer, ApproveTransfer, ScoresOk, ScoresOf;
    if a.Approve? {
      ApproveKeepsScores(s, c.logged, a.id, a.scoring, c.now);
    }
  }

  // ---- parcels of transfers

  lemma {:induction false} StepKeepsContexts(sys: Settings, s: State, c: Call)
    requires Enabled(s, c) && Contexts(s)
    ensures Contexts(Step(sys, s, c)) && s.parcels.Keys <= Step(sys, s, c).parcels.Keys
  {
    hide DoRegister, DoTransfer, DoReview, DoDispute, DoWork, HasRole, Allowed;
    StepIsFramed(sys, s, c);
    match c.action {
      case Register(a) => RegisterKeepsParcels(sys, s, c, a);
      case OnTransfer(a) => TransferKeepsContexts(s, c, a);
      case OnReview(a) => ReviewKeepsParcels(sys, s, c, a);
      case OnDispute(a) => DisputeKeepsParcels(s, c, a);
      case Background(w) =>
    }
  }

  lemma {:induction false} RegisterKeepsParcels(sys: Settings, s: State, c: Call, a: Registration)
    ensures s.parcels.Keys <= DoRegister(sys, s, c, a).0.parcels.Keys
  {
    hide Emit, TitleTaken, NextTitleNo;
  }

  lemma {:induction false} ReviewKeepsParcels(sys: Settings, s: State, c: Call, a: Reviewing)
    ensures s.parcels.Keys <= DoReview(sys, s, c, a).0.parcels.Keys
  {
    hide Emit, OpenDispute, FreezeTarget, ReliefTarget, Reviewed;
  }

  lemma {:induction false} DisputeKeepsParcels(s: State, c: Call, a: Disputing)
    ensures s.parcels.Keys <= DoDispute(s, c, a).0.parcels.Keys
  {
    hide Emit;
  }

  lemma {:induction false} TransferKeepsContexts(s: State, c: Call, a: Transferring)
    requires Contexts(s)
    ensures Contexts(DoTransfer(s, c, a).0) && s.parcels.Keys <= DoTransfer(s, c, a).0.parcels.Keys
  {
    hide ApproveTransfer, Emit, Seller;
    if a.Approve? {
      ApproveEffect(s, c.logged, a.id, a.scoring, c.now);
    }
  }

  // ---- the gate

  /** The current scorer has looked at the transfer and does not block it. */
  predicate Cleared(s: State, id: string) {
    UpToDate(s, id) && Latest(ScoresOf(s.scores, id)).value.recommended != BLOCK
  }

  predicate Blocked(s: State, id: string) {
    UpToDate(s, id) && Latest(ScoresOf(s.scores, id)).value.recommended == BLOCK
  }

  /** Every reply of the gate, from what a caller can see before and what the scorer does. */
  lemma {:induction false} GateReply(s: State, logged: bool, id: string, scoring: Scoring, now: real)
    requires ScoresOk(s.scores, s.version, now) && Contexts(s)
    ensures
      var (t, reply) := ApproveTransfer(s, logged, id, scoring, now);
      && (reply == NotFound <==> id !in s.transfers)
      && (reply == Ok ==> Cleared(t, id) && t.transfers[id].status == COMPLETED)
      && (Cleared(s, id) && id in s.transfers ==> reply == Ok)
      && (Blocked(s, id) && id in s.transfers ==> reply == Conflict && t == s)
      && (reply == Conflict ==> Blocked(t, id))
      && (id in s.transfers && !UpToDate(s, id) && !scoring.Scores? ==> reply == Raised)
      && reply != Unavailable
  {
    hide ScoreNow, Latest, RowsOk, Emit, Handover;
    EmptyRowsOk(s.version, now);
    if id in s.transfers {
      ScoringEffect(s, logged, id, scoring, now);
    }
  }

  /** Acting on a score goes through: nothing to do, a review that is already queued, or an id for the new one. */
  predicate ActsOn(s: State, transfer: string, recommended: Recommended, reviewId: string) {
    recommended == NONE || Queued(s.reviews, transfer, s.version) || reviewId !in s.reviews
  }

  /** What the gate asks for: a current score that does not block, or a scorer that now gives one and is able to act on it. */
  predicate GateOpens(s: State, id: string, scoring: Scoring) {
    && id in s.transfers
    && if UpToDate(s, id) then Latest(ScoresOf(s.scores, id)).value.recommended != BLOCK
       else scoring.Scores? && scoring.recommended != BLOCK && ActsOn(s, id, scoring.recommended, scoring.reviewId)
  }

  lemma {:induction false} ActingRaisesIff(s: State, logged: bool, transfer: string, recommended: Recommended, reviewId: string, now: real)
    requires transfer in s.transfers
    ensures ActOnScore(s, logged, transfer, recommended, reviewId, now).1 <==> !ActsOn(s, transfer, recommended, reviewId)
  {
    hide Emit, Queued;
  }

  /** An approval goes through exactly when the gate opens. */
  lemma {:induction false} ApprovedIffGateOpens(s: State, logged: bool, id: string, scoring: Scoring, now: real)
    requires ScoresOk(s.scores, s.version, now) && Contexts(s)
    ensures ApproveTransfer(s, logged, id, scoring, now).1 == Ok <==> GateOpens(s, id, scoring)
  {
    hide Latest, RowsOk, Emit, Handover, ActOnScore, Persist, Queued;
    EmptyRowsOk(s.version, now);
    if id in s.transfers {
      ScoringEffect(s, logged, id, scoring, now);
      if scoring.Scores? && !UpToDate(s, id) {
        ActingRaisesIff(Persist(s, id, scoring.recommended, now), logged, id, scoring.recommended, scoring.reviewId, now);
      }
    }
  }

  predicate Completed(s: State, id: string) {
    id in s.transfers && s.transfers[id].status == COMPLETED
  }

  /** A transfer becomes COMPLETED only through the gate, cleared by the scorer of that moment. */
  lemma {:induction false} OnlyTheGateCompletes(sys: Settings, s: State, c: Call, id: string)
    requires Enabled(s, c) && ScoresOk(s.scores, s.version, s.clock) && Contexts(s)
    requires !Completed(s, id) && Completed(Step(sys, s, c), id)
    ensures c.action.OnTransfer? && c.action.transferring.Approve? && c.action.transferring.id == id
    ensures HasRole(c.user, {REGISTRAR, LAND_OFFICER})
    ensures Cleared(Step(sys, s, c), id)
  {
    hide DoRegister, DoTransfer, DoReview, DoDispute, DoWork, HasRole, ScoresOk, Contexts, Latest, Step;
    StepIsFramed(sys, s, c);
    StepIsTransfer(sys, s, c);
    ScoresAge(s.scores, s.version, s.clock, s.version, c.now);
    TransferCompletes(s, c, c.action.transferring, id);
  }

  lemma {:induction false} StepIsTransfer(sys: Settings, s: State, c: Call)
    requires Enabled(s, c)
    ensures c.action.OnTransfer? ==>
              Step(sys, s, c) == (if HasRole(c.user, Allowed(c.action)) then DoTransfer(s, c, c.action.transferring).0 else s).(clock := c.now)
  {
    hide DoTransfer, HasRole, Allowed;
  }

  lemma {:induction false} TransferCompletes(s: State, c: Call, a: Transferring, id: string)
    requires ScoresOk(s.scores, s.version, c.now) && Contexts(s) && !Completed(s, id) && Completed(DoTransfer(s, c, a).0, id)
    ensures a.Approve? && a.id == id && Cleared(DoTransfer(s, c, a).0, id)
  {
    hide ApproveTransfer, ScoresOk, Contexts, Latest, Emit;
    if a.Approve? {
      ApproveEffect(s, c.logged, a.id, a.scoring, c.now);
      GateReply(s, c.logged, a.id, a.scoring, c.now);
    }
  }

  lemma {:induction false} ClearedIsClear(s: State, id: string)
    requires Cleared(s, id) && ScoresOk(s.scores, s.version, s.clock)
    ensures Clear(ScoresOf(s.scores, id))
  {
    hide Latest;
    EmptyRowsOk(s.version, s.clock);
    var rows := ScoresOf(s.scores, id);
    LatestIsLast(rows, s.version, s.clock);
    assert rows[|rows| - 1].recommended != BLOCK;
  }

  lemma {:induction false} StillClear(s: State, t: State, id: string)
    requires ScoresGrow(s.scores, t.scores) && Clear(ScoresOf(s.scores, id))
    ensures Clear(ScoresOf(t.scores, id))
  {
    var rows, more := ScoresOf(s.scores, id), ScoresOf(t.scores, id);
    assert rows <= more;
    var i :| 0 <= i < |rows| && rows[i].recommended != BLOCK;
    assert more[i] == rows[i];
  }

  lemma {:induction false} StepKeepsGate(sys: Settings, s: State, c: Call)
    requires Enabled(s, c) && GateInv(s)
    ensures GateInv(Step(sys, s, c)) && ScoresGrow(s.scores, Step(sys, s, c).scores) && s.version <= Step(sys, s, c).version
  {
    hide Step, ScoresOk, Contexts, ScoresGrow, Cleared, Clear;
    StepKeepsScores(sys, s, c);
    StepKeepsContexts(sys, s, c);
    var t := Step(sys, s, c);
    forall id | Completed(t, id) ensures Clear(ScoresOf(t.scores, id)) {
      if Completed(s, id) {
        StillClear(s, t, id);
      } else {
        OnlyTheGateCompletes(sys, s, c, id);
        ClearedIsClear(t, id);
      }
    }
  }

  lemma {:induction false} EmptyKeepsGate()
    ensures GateInv(EMPTY)
  {
  }

  lemma {:induction false} RunKeepsGate(sys: Settings, s: State, calls: seq<Call>)
    requires GateInv(s)
    ensures GateInv(Run(sys, s, calls)) && ScoresGrow(s.scores, Run(sys, s, calls).scores) && s.version <= Run(sys, s, calls).version
  {
    hide Step, GateInv, ScoresGrow, Enabled;
    if calls == [] {
      GrowsReflexive(s.scores);
    } else {
      var before := Run(sys, s, calls[..|calls| - 1]);
      RunKeepsGate(sys, s, calls[..|calls| - 1]);
      if Enabled(before, calls[|calls| - 1]) {
        StepKeepsGate(sys, before, calls[|calls| - 1]);
        GrowsTransitive(s.scores, before.scores, Run(sys, s, calls).scores);
      }
    }
  }

  lemma {:induction false} GrowsReflexive(scores: map<string, seq<Score>>)
    ensures ScoresGrow(scores, scores)
  {
  }

  /** In every reachable state a completed transfer carries a score that does not block it. */
  lemma {:induction false} NothingCompletesBlind(sys: Settings, calls: seq<Call>, id: string)
    requires Completed(Run(sys, EMPTY, calls), id)
    ensures Clear(ScoresOf(Run(sys, EMPTY, calls).scores, id))
  {
    hide Run, ScoresOk, Contexts, Clear;
    EmptyKeepsGate();
    RunKeepsGate(sys, EMPTY, calls);
  }

  /** A completed transfer was, in the state that its completion left, cleared by the scorer version then in force. */
  lemma {:induction false} CompletedWasCleared(sys: Settings, calls: seq<Call>, id: string) returns (k: nat)
    requires Completed(Run(sys, EMPTY, calls), id)
    ensures 0 < k <= |calls|
    ensures !Completed(Run(sys, EMPTY, calls[..k - 1]), id)
    ensures Completed(Run(sys, EMPTY, calls[..k]), id) && Cleared(Run(sys, EMPTY, calls[..k]), id)
  {
    hide Step, Enabled, Cleared, ScoresOk, Contexts, CompletedAreClear, ScoresGrow;
    var before, c := calls[..|calls| - 1], calls[|calls| - 1];
    var s := Run(sys, EMPTY, before);
    EmptyKeepsGate();
    RunKeepsGate(sys, EMPTY, before);
    if Completed(s, id) {
      k := CompletedWasCleared(sys, before, id);
      assert before[..k] == calls[..k] && before[..k - 1] == calls[..k - 1];
    } else {
      k := |calls|;
      assert calls[..k] == calls;
      OnlyTheGateCompletes(sys, s, c, id);
    }
  }

  /** A row of the current version is the last one. */
  lemma {:induction false} NothingNewer(rows: seq<Score>, version: nat, clock: real, i: nat)
    requires RowsOk(rows, version, clock) && i < |rows| && rows[i].version == version
    ensures i == |rows| - 1
  {
    var last := rows[|rows| - 1];
    assert last.version <= version;
  }

  /** A score that is current stays current until the version moves. */
  lemma {:induction false} StaysUpToDate(s: State, t: State, id: string, earlier: real, later: real)
    requires ScoresOk(s.scores, s.version, earlier) && ScoresOk(t.scores, t.version, later)
    requires ScoresGrow(s.scores, t.scores) && t.version == s.version && UpToDate(s, id)
    ensures UpToDate(t, id)
  {
    VerdictIsFinal(s.(clock := earlier), t.(clock := later), id);
  }

  /** At one scorer version the verdict on a transfer is final. */
  lemma {:induction false} VerdictIsFinal(s: State, t: State, id: string)
    requires ScoresOk(s.scores, s.version, s.clock) && ScoresOk(t.scores, t.version, t.clock)
    requires ScoresGrow(s.scores, t.scores) && t.version == s.version && UpToDate(s, id)
    ensures ScoresOf(t.scores, id) == ScoresOf(s.scores, id)
  {
    hide Latest;
    EmptyRowsOk(s.version, s.clock);
    EmptyRowsOk(t.version, t.clock);
    var rows, more := ScoresOf(s.scores, id), ScoresOf(t.scores, id);
    LatestIsLast(rows, s.version, s.clock);
    assert rows <= more;
    var last := more[|rows| - 1];
    assert last.version == s.version;
    NothingNewer(more, t.version, t.clock, |rows| - 1);
  }

  /**
   Once scored BLOCK, a transfer is not completed by any later review,
   dispute, appeal, approval or job, as long as the scorer is not upgraded.
   Resolving the FRAUD dispute, which the refusal asks for, does not help.
   */
  lemma {:induction false} BlockedStaysBlocked(sys: Settings, calls: seq<Call>, more: seq<Call>, id: string)
    requires Blocked(Run(sys, EMPTY, calls), id) && !Completed(Run(sys, EMPTY, calls), id)
    requires Run(sys, Run(sys, EMPTY, calls), more).version == Run(sys, EMPTY, calls).version
    ensures Blocked(Run(sys, Run(sys, EMPTY, calls), more), id) && !Completed(Run(sys, Run(sys, EMPTY, calls), more), id)
    decreases |more|
  {
    hide Enabled, Step, ScoresOk, Contexts, CompletedAreClear, ScoresGrow, Latest;
    var s := Run(sys, EMPTY, calls);
    EmptyKeepsGate();
    RunKeepsGate(sys, EMPTY, calls);
    if more != [] {
      var before, c := Run(sys, s, more[..|more| - 1]), more[|more| - 1];
      RunKeepsGate(sys, s, more[..|more| - 1]);
      RunKeepsGate(sys, s, more);
      if Enabled(before, c) {
        StepKeepsGate(sys, before, c);
        BlockedStaysBlocked(sys, calls, more[..|more| - 1], id);
        var t := Step(sys, before, c);
        VerdictIsFinal(before, t, id);
        if Completed(t, id) {
          OnlyTheGateCompletes(sys, before, c, id);
        }
      } else {
        BlockedStaysBlocked(sys, calls, more[..|more| - 1], id);
      }
    }
  }
}
