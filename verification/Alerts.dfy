/**
 What a fraud review rests on: a score of its transfer with the same
 recommendation, and no second review waiting beside it.
 */
module Alerts {
  import opened Hashing
  import opened Registry
  import opened RegistryFrames
  import opened Custody
  import opened Gate
  import opened Effects

  /** A score of the review's transfer, at its version, recommends the same. */
  predicate IsBacked(scores: map<string, seq<Score>>, r: Review) {
    var rows := ScoresOf(scores, r.transfer);
    r.recommended != NONE && exists i | 0 <= i < |rows| :: rows[i].version == r.version && rows[i].recommended == r.recommended
  }

  predicate SameWait(a: Review, b: Review) {
    a.state == b.state == PENDING_REVIEW && a.transfer == b.transfer && a.version == b.version
  }

  /** Every review is backed, and of those that wait no two are about the same transfer and version. */
  ghost predicate AlertsInv(s: State) {
    && (forall id :: id in s.reviews ==> IsBacked(s.scores, s.reviews[id]))
    && (forall a, b :: a in s.reviews && b in s.reviews && a != b ==> !SameWait(s.reviews[a], s.reviews[b]))
  }

  lemma {:induction false} StaysBacked(old_: map<string, seq<Score>>, new_: map<string, seq<Score>>, r: Review)
    requires ScoresGrow(old_, new_) && IsBacked(old_, r)
    ensures IsBacked(new_, r)
  {
    var rows, more := ScoresOf(old_, r.transfer), ScoresOf(new_, r.transfer);
    assert rows <= more;
    var i :| 0 <= i < |rows| && rows[i].version == r.version && rows[i].recommended == r.recommended;
    assert more[i] == rows[i];
  }

  /** Reviews that are the same but for decision and escalation, over grown scores. */
  lemma {:induction false} SameReviewsKeep(s: State, t: State)
    requires AlertsInv(s) && ScoresGrow(s.scores, t.scores)
    requires forall id :: id in t.reviews ==> id in s.reviews && SameAlert(s.reviews[id], t.reviews[id])
    ensures AlertsInv(t)
  {
    hide ScoresGrow;
    forall id | id in t.reviews ensures IsBacked(t.scores, t.reviews[id]) {
      StaysBacked(s.scores, t.scores, s.reviews[id]);
    }
  }

  predicate SameAlert(old_: Review, new_: Review) {
    && new_.transfer == old_.transfer && new_.version == old_.version && new_.recommended == old_.recommended
    && (new_.state == PENDING_REVIEW ==> old_.state == PENDING_REVIEW)
  }

  /** What acting on a score adds: nothing when nothing is recommended or a review of this version waits, otherwise one review with the recommendation. */
  lemma {:induction false} ActingQueues(s: State, logged: bool, transfer: string, recommended: Recommended, reviewId: string, now: real)
    ensures
      var (t, raised) := ActOnScore(s, logged, transfer, recommended, reviewId, now);
      && (t.reviews == s.reviews || (
            && reviewId !in s.reviews && !Queued(s.reviews, transfer, s.version) && recommended != NONE
            && t.reviews == s.reviews[reviewId := t.reviews[reviewId]]
            && t.reviews[reviewId].transfer == transfer && t.reviews[reviewId].version == s.version
            && t.reviews[reviewId].recommended == recommended && t.reviews[reviewId].state == PENDING_REVIEW))
      && (recommended != NONE && transfer in s.transfers && !raised ==> Queued(t.reviews, transfer, s.version))
  {
    hide Emit;
  }

  lemma {:induction false} ScoringKeepsAlerts(s: State, logged: bool, id: string, scoring: Scoring, now: real)
    requires AlertsInv(s) && ScoresOk(s.scores, s.version, now)
    ensures AlertsInv(ScoreNow(s, logged, id, scoring, now).0)
  {
    hide UpToDate, HasContext, Latest, RowsOk, ActOnScore, Persist, ScoresGrow, IsBacked;
    EmptyRowsOk(s.version, now);
    ScoringKeepsScores(s, logged, id, scoring, now);
    if !UpToDate(s, id) && HasContext(s, id) && !scoring.ScorerRaises? {
      PersistAppends(s, id, scoring.recommended, now);
      var persisted := Persist(s, id, scoring.recommended, now);
      assert persisted == s.(scores := persisted.scores);
      PersistGrows(s, id, scoring.recommended, now);
      SameReviewsKeep(s, persisted);
      if scoring.Scores? {
        ActingQueues(persisted, logged, id, scoring.recommended, scoring.reviewId, now);
        OneMoreAlert(persisted, ScoreNow(s, logged, id, scoring, now).0, id, scoring.recommended, scoring.reviewId);
      }
    }
  }

  lemma {:induction false} PersistGrows(s: State, id: string, recommended: Recommended, now: real)
    requires RowsOk(ScoresOf(s.scores, id), s.version, now) && !UpToDate(s, id)
    ensures
      var t := Persist(s, id, recommended, now);
      && ScoresGrow(s.scores, t.scores) && |ScoresOf(t.scores, id)| > 0
      && ScoresOf(t.scores, id)[|ScoresOf(t.scores, id)| - 1] == Score(s.version, recommended, now)
  {
    hide Latest, Persist, RowsOk;
    PersistAppends(s, id, recommended, now);
  }

  lemma {:induction false} OneMoreAlert(s: State, t: State, transfer: string, recommended: Recommended, reviewId: string)
    requires AlertsInv(s) && t == s.(reviews := t.reviews, ledger := t.ledger)
    requires |ScoresOf(s.scores, transfer)| > 0
    requires
      var last := ScoresOf(s.scores, transfer)[|ScoresOf(s.scores, transfer)| - 1];
      last.version == s.version && last.recommended == recommended
    requires t.reviews == s.reviews || (
            && reviewId !in s.reviews && !Queued(s.reviews, transfer, s.version) && recommended != NONE && reviewId in t.reviews
            && t.reviews == s.reviews[reviewId := t.reviews[reviewId]]
            && t.reviews[reviewId].transfer == transfer && t.reviews[reviewId].version == s.version
            && t.reviews[reviewId].recommended == recommended && t.reviews[reviewId].state == PENDING_REVIEW)
    ensures AlertsInv(t)
  {
    if t.reviews != s.reviews {
      assert IsBacked(s.scores, t.reviews[reviewId]);
      forall b | b in s.reviews && s.reviews[b].state == PENDING_REVIEW && s.reviews[b].transfer == transfer
        ensures s.reviews[b].version != s.version
      {
      }
    }
  }

  lemma {:induction false} AttemptsKeepAlerts(s: State, logged: bool, picks: seq<nat>, scorings: seq<Scoring>, n: nat, now: real)
    requires AlertsInv(s) && ScoresOk(s.scores, s.version, now) && n <= |picks| <= |scorings|
    ensures AlertsInv(Attempts(s, logged, picks, scorings, n, now))
  {
    hide ScoreNow, Settle, AlertsInv, ScoresOk, ScoresGrow;
    if n > 0 {
      var before := Attempts(s, logged, picks, scorings, n - 1, now);
      AttemptsKeepAlerts(s, logged, picks, scorings, n - 1, now);
      AttemptsKeepScores(s, logged, picks, scorings, n - 1, now);
      AttemptsOnlyScore(s, logged, picks, scorings, n - 1, now);
      if picks[n - 1] < |before.jobs| {
        var id := before.jobs[picks[n - 1]].transfer;
        ScoringKeepsAlerts(before, logged, id, scorings[n - 1], now);
        SameTablesSameAlerts(ScoreNow(before, logged, id, scorings[n - 1], now).0, Attempts(s, logged, picks, scorings, n, now));
      }
    }
  }

  lemma {:induction false} SameTablesSameAlerts(s: State, t: State)
    requires AlertsInv(s) && t.reviews == s.reviews && t.scores == s.scores
    ensures AlertsInv(t)
  {
  }

  lemma {:induction false} ApproveKeepsAlerts(s: State, logged: bool, id: string, scoring: Scoring, now: real)
    requires AlertsInv(s) && ScoresOk(s.scores, s.version, now)
    ensures AlertsInv(ApproveTransfer(s, logged, id, scoring, now).0)
  {
    hide ScoreNow, AlertsInv, ScoresOk, Emit, Handover;
    ScoringKeepsAlerts(s, logged, id, scoring, now);
    if id in s.transfers {
      SameTablesSameAlerts(ScoreNow(s, logged, id, scoring, now).0, ApproveTransfer(s, logged, id, scoring, now).0);
    }
  }

  lemma {:induction false} WorkKeepsAlerts(s: State, c: Call, w: Work)
    requires AlertsInv(s) && ScoresOk(s.scores, s.version, c.now) && Enabled(s, c) && c.action == Background(w)
    ensures AlertsInv(DoWork(s, c, w))
  {
    hide ScoreNow, Attempts, Escalate, AlertsInv, ScoresOk;
    match w {
      case Stream(id, locked, scoring) => ScoringKeepsAlerts(s, c.logged, id, scoring, c.now);
      case SweepOutbox(limit, scorings) =>
        AttemptsKeepAlerts(s, c.logged, Picks(s, limit, c.now), scorings, |Picks(s, limit, c.now)|, c.now);
      case EscalateReviews(order) =>
        EscalationMarks(s, c.logged, order, c.now);
        EscalateOnlyMarks(s, c.logged, order, c.now);
        SameAlertsAfter(s, DoWork(s, c, w));
      case Upgrade => SameTablesSameAlerts(s, DoWork(s, c, w));
    }
  }

  lemma {:induction false} SameAlertsAfter(s: State, t: State)
    requires AlertsInv(s) && t.scores == s.scores
    requires forall id :: id in t.reviews ==> id in s.reviews && SameAlert(s.reviews[id], t.reviews[id])
    ensures AlertsInv(t)
  {
    hide AlertsInv, SameAlert;
    GrowsReflexive(s.scores);
    SameReviewsKeep(s, t);
  }

  lemma {:induction false} StepKeepsAlerts(sys: Settings, s: State, c: Call)
    requires Enabled(s, c) && AlertsInv(s) && ScoresOk(s.scores, s.version, s.clock)
    ensures AlertsInv(Step(sys, s, c))
  {
    hide DoRegister, ApproveTransfer, CreateTransfer, RejectTransfer, DoReview, DoDispute, DoWork, HasRole, Allowed, AlertsInv, ScoresOk;
    var t := Step(sys, s, c);
    ScoresAge(s.scores, s.version, s.clock, s.version, c.now);
    StepIsFramed(sys, s, c);
    if !MayWriteReviews(c.action) || !HasRole(c.user, Allowed(c.action)) {
      SameTablesSameAlerts(s, t);
    } else {
      match c.action {
        case OnTransfer(Approve(id, scoring)) =>
          ApproveKeepsAlerts(s, c.logged, id, scoring, c.now);
          SameTablesSameAlerts(ApproveTransfer(s, c.logged, id, scoring, c.now).0, t);
        case OnReview(a) =>
          ReviewsAreCaused(sys, s, c);
          DecidedAlerts(s, c, t);
          SameAlertsAfter(s, t);
        case Background(w) =>
          WorkKeepsAlerts(s, c, w);
          SameTablesSameAlerts(DoWork(s, c, w), t);
      }
    }
  }

  lemma {:induction false} DecidedAlerts(s: State, c: Call, t: State)
    requires c.action.OnReview? && forall id :: id in t.reviews ==> ReviewCaused(s, c, id, t.reviews[id])
    ensures forall id :: id in t.reviews ==> id in s.reviews && SameAlert(s.reviews[id], t.reviews[id])
  {
  }

  lemma {:induction false} RunKeepsAlerts(sys: Settings, calls: seq<Call>)
    ensures AlertsInv(Run(sys, EMPTY, calls))
  {
    hide Step, Enabled, GateInv;
    if calls != [] {
      var before := calls[..|calls| - 1];
      RunKeepsAlerts(sys, before);
      EmptyKeepsGate();
      RunKeepsGate(sys, EMPTY, before);
      GateHasScores(Run(sys, EMPTY, before));
      if Enabled(Run(sys, EMPTY, before), calls[|calls| - 1]) {
        StepKeepsAlerts(sys, Run(sys, EMPTY, before), calls[|calls| - 1]);
      }
    }
  }

  lemma {:induction false} GateHasScores(s: State)
    requires GateInv(s)
    ensures ScoresOk(s.scores, s.version, s.clock)
  {
  }

  /** In every reachable state a review recommends what a score of its transfer and version recommends, and waits alone. */
  lemma {:induction false} ReviewsSayWhatScoresSay(sys: Settings, calls: seq<Call>)
    ensures
      var s := Run(sys, EMPTY, calls);
      && (forall id :: id in s.reviews ==> IsBacked(s.scores, s.reviews[id]))
      && (forall a, b :: a in s.reviews && b in s.reviews && a != b ==> !SameWait(s.reviews[a], s.reviews[b]))
  {
    hide Run;
    RunKeepsAlerts(sys, calls);
  }

  /** A frozen parcel was scored BLOCK in one of its transfers: a FLAG, or nothing, never leads to a freeze. */
  lemma {:induction false} FrozenWasScoredBlock(sys: Settings, calls: seq<Call>, parcel: string) returns (transfer: string, i: nat)
    requires IsFrozen(Run(sys, EMPTY, calls), parcel)
    ensures
      var s := Run(sys, EMPTY, calls);
      && transfer in s.transfers && s.transfers[transfer].parcel == parcel
      && i < |ScoresOf(s.scores, transfer)| && ScoresOf(s.scores, transfer)[i].recommended == BLOCK
  {
    hide Run;
    var s := Run(sys, EMPTY, calls);
    FrozenWasAffirmed(sys, calls, parcel);
    RunKeepsAlerts(sys, calls);
    var r :| r in s.reviews && s.reviews[r].recommended == BLOCK && s.reviews[r].transfer in s.transfers
             && s.transfers[s.reviews[r].transfer].parcel == parcel;
    transfer := s.reviews[r].transfer;
    var rows := ScoresOf(s.scores, transfer);
    i :| 0 <= i < |rows| && rows[i].version == s.reviews[r].version && rows[i].recommended == s.reviews[r].recommended;
  }
}
