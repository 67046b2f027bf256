/** Which step writes which table, and what no step ever takes back. */
module RegistryFrames {
  import opened Hashing
  import opened Registry

  // ---- the loops of the background jobs

  lemma {:induction false} AttemptsOnlyScore(s: State, logged: bool, picks: seq<nat>, scorings: seq<Scoring>, n: nat, now: real)
    requires n <= |picks| <= |scorings|
    ensures
      var t := Attempts(s, logged, picks, scorings, n, now);
      OnlyScores(s.(jobs := t.jobs), t) && |t.jobs| == |s.jobs|
  {
    hide Attempt;
    if n > 0 {
      AttemptsOnlyScore(s, logged, picks, scorings, n - 1, now);
    }
  }

  lemma {:induction false} StreamOnlyScores(s: State, logged: bool, transfer: string, locked: bool, scoring: Scoring, now: real)
    ensures OnlyScores(s, StreamScore(s, logged, transfer, locked, scoring, now))
  {
    hide ScoreNow;
  }

  lemma {:induction false} EscalateOneMarks(s: State, logged: bool, id: string, now: real)
    ensures
      var t := EscalateOne(s, logged, id, now);
      && t.reviews.Keys == s.reviews.Keys
      && forall r :: r in s.reviews ==> t.reviews[r].(escalatedAt := None) == s.reviews[r].(escalatedAt := None)
  {
  }

  lemma {:induction false} EscalateOnlyMarks(s: State, logged: bool, order: seq<string>, now: real)
    ensures
      var t := Escalate(s, logged, order, now);
      && t == s.(reviews := t.reviews, ledger := t.ledger)
      && t.reviews.Keys == s.reviews.Keys
      && forall r :: r in s.reviews ==> t.reviews[r].(escalatedAt := None) == s.reviews[r].(escalatedAt := None)
  {
    hide EscalateOne;
    if order != [] {
      EscalateOnlyMarks(s, logged, order[..|order| - 1], now);
      EscalateOneMarks(Escalate(s, logged, order[..|order| - 1], now), logged, order[|order| - 1], now);
    }
  }

  // ---- who writes what

  predicate MayWriteParcels(a: Action) {
    match a
    case Register(r) => r.NewParcel? || r.NewTitle?
    case OnTransfer(t) => t.Approve?
    case OnReview(r) => r.Affirm? || r.DecideAppeal?
    case OnDispute(d) => d.NewDispute? || d.Decide?
    case Background(_) => false
  }

  predicate MayWriteDisputes(a: Action) {
    a.OnDispute? || (a.OnReview? && a.reviewing.Affirm?)
  }

  predicate MayScore(a: Action) {
    (a.OnTransfer? && a.transferring.Approve?) || (a.Background? && (a.work.Stream? || a.work.SweepOutbox?))
  }

  predicate MayWriteReviews(a: Action) {
    MayScore(a) || (a.OnReview? && (a.reviewing.Affirm? || a.reviewing.Dismiss?)) || (a.Background? && a.work.EscalateReviews?)
  }

  predicate MayWriteJobs(a: Action) {
    (a.OnTransfer? && a.transferring.NewTransfer?) || (a.Background? && a.work.SweepOutbox?)
  }

  ghost predicate Framed(s: State, a: Action, t: State) {
    && (!MayWriteParcels(a) ==> t.parcels == s.parcels)
    && (!MayWriteDisputes(a) ==> t.disputes == s.disputes)
    && (!a.OnTransfer? ==> t.transfers == s.transfers)
    && (!MayScore(a) ==> t.scores == s.scores)
    && (!MayWriteReviews(a) ==> t.reviews == s.reviews)
    && (!MayWriteJobs(a) ==> t.jobs == s.jobs)
    && (!a.Register? ==> t.titles == s.titles && t.owners == s.owners)
    && (!a.Background? ==> t.version == s.version)
    && (!a.OnReview? ==> t.appeals == s.appeals)
  }

  lemma {:induction false} RegisterIsFramed(sys: Settings, s: State, c: Call, a: Registration)
    ensures Framed(s, Register(a), DoRegister(sys, s, c, a).0)
  {
    hide RegisterOwner, SetKyc, CreateParcel, IssueTitle;
  }

  lemma {:induction false} TransferIsFramed(s: State, c: Call, a: Transferring)
    ensures Framed(s, OnTransfer(a), DoTransfer(s, c, a).0)
  {
    hide CreateTransfer, ApproveTransfer, RejectTransfer;
  }

  lemma {:induction false} ReviewIsFramed(sys: Settings, s: State, c: Call, a: Reviewing)
    ensures Framed(s, OnReview(a), DoReview(sys, s, c, a).0)
  {
    hide AffirmReview, DismissReview, FileAppeal, ResolveAppeal;
  }

  lemma {:induction false} DisputeIsFramed(s: State, c: Call, a: Disputing)
    ensures Framed(s, OnDispute(a), DoDispute(s, c, a).0)
  {
    hide FileDispute, ReviewDispute, ResolveDispute;
  }

  lemma {:induction false} WorkIsFramed(s: State, c: Call, w: Work)
    requires w.SweepOutbox? ==> w.limit <= |w.scorings|
    ensures Framed(s, Background(w), DoWork(s, c, w))
  {
    hide StreamScore, Attempts, Escalate;
    match w {
      case Stream(id, locked, scoring) => StreamOnlyScores(s, c.logged, id, locked, scoring, c.now);
      case SweepOutbox(limit, scorings) =>
        AttemptsOnlyScore(s, c.logged, Picks(s, limit, c.now), scorings, |Picks(s, limit, c.now)|, c.now);
      case EscalateReviews(order) => EscalateOnlyMarks(s, c.logged, order, c.now);
      case Upgrade =>
    }
  }

  /** What a step may write, by the kind of the request. */
  lemma {:induction false} StepIsFramed(sys: Settings, s: State, c: Call)
    requires Enabled(s, c)
    ensures Framed(s, c.action, Step(sys, s, c))
  {
    hide DoRegister, DoTransfer, DoReview, DoDispute, DoWork, HasRole, Allowed;
    match c.action {
      case Register(a) => RegisterIsFramed(sys, s, c, a);
      case OnTransfer(a) => TransferIsFramed(s, c, a);
      case OnReview(a) => ReviewIsFramed(sys, s, c, a);
      case OnDispute(a) => DisputeIsFramed(s, c, a);
      case Background(w) => WorkIsFramed(s, c, w);
    }
  }

  // ---- what no step takes back

  /** Reviews keep their subject and, once decided, their decision. */
  ghost predicate ReviewsKept(old_: map<string, Review>, new_: map<string, Review>) {
    forall r :: r in old_ ==>
      && r in new_
      && new_[r].transfer == old_[r].transfer && new_[r].recommended == old_[r].recommended && new_[r].version == old_[r].version
      && (old_[r].state != PENDING_REVIEW ==> new_[r].state == old_[r].state && new_[r].reviewedBy == old_[r].reviewedBy)
  }

  /** What jobs do to reviews: old ones change at most their escalation mark, new ones wait for a human. */
  ghost predicate ReviewsGrow(old_: map<string, Review>, new_: map<string, Review>) {
    && (forall r :: r in old_ ==> r in new_ && new_[r].(escalatedAt := None) == old_[r].(escalatedAt := None))
    && (forall r :: r in new_ && r !in old_ ==> new_[r].state == PENDING_REVIEW)
  }

  /** Transfers keep everything but their status; a new one is PENDING. */
  ghost predicate TransfersKept(old_: map<string, Transfer>, new_: map<string, Transfer>) {
    && (forall id :: id in old_ ==> id in new_ && new_[id].(status := PENDING) == old_[id].(status := PENDING))
    && (forall id :: id in new_ && id !in old_ ==> new_[id].status == PENDING)
  }

  ghost predicate Kept(s: State, t: State) {
    ReviewsKept(s.reviews, t.reviews) && TransfersKept(s.transfers, t.transfers)
  }

  lemma {:induction false} GrowingKeeps(a: map<string, Review>, b: map<string, Review>)
    requires ReviewsGrow(a, b)
    ensures ReviewsKept(a, b)
  {
    forall r | r in a ensures b[r].(escalatedAt := None) == a[r].(escalatedAt := None) {
    }
  }

  lemma {:induction false} GrowTransitive(a: map<string, Review>, b: map<string, Review>, c: map<string, Review>)
    requires ReviewsGrow(a, b) && ReviewsGrow(b, c)
    ensures ReviewsGrow(a, c)
  {
    forall r | r in c && r !in a ensures c[r].state == PENDING_REVIEW {
      if r in b {
        assert c[r].(escalatedAt := None) == b[r].(escalatedAt := None);
      }
    }
  }

  lemma {:induction false} GrowReflexive(reviews: map<string, Review>)
    ensures ReviewsGrow(reviews, reviews)
  {
  }

  lemma {:induction false} NewReviewGrows(reviews: map<string, Review>, id: string, r: Review)
    requires id !in reviews && r.state == PENDING_REVIEW
    ensures ReviewsGrow(reviews, reviews[id := r])
  {
  }

  lemma {:induction false} ActingGrows(s: State, logged: bool, transfer: string, recommended: Recommended, reviewId: string, now: real)
    ensures ReviewsGrow(s.reviews, ActOnScore(s, logged, transfer, recommended, reviewId, now).0.reviews)
  {
    hide Emit, Queued, ReviewsGrow;
    GrowReflexive(s.reviews);
    if transfer in s.transfers && reviewId !in s.reviews {
      NewReviewGrows(s.reviews, reviewId,
                     Review(transfer, s.transfers[transfer].district, recommended, s.version, PENDING_REVIEW, now, None, None));
    }
  }

  lemma {:induction false} ScoringGrows(s: State, logged: bool, transfer: string, scoring: Scoring, now: real)
    ensures ReviewsGrow(s.reviews, ScoreNow(s, logged, transfer, scoring, now).0.reviews)
  {
    hide ActOnScore, Persist, UpToDate, ReviewsGrow;
    GrowReflexive(s.reviews);
    if scoring.Scores? {
      ActingGrows(Persist(s, transfer, scoring.recommended, now), logged, transfer, scoring.recommended, scoring.reviewId, now);
    }
  }

  lemma {:induction false} AttemptsGrow(s: State, logged: bool, picks: seq<nat>, scorings: seq<Scoring>, n: nat, now: real)
    requires n <= |picks| <= |scorings|
    ensures ReviewsGrow(s.reviews, Attempts(s, logged, picks, scorings, n, now).reviews)
  {
    hide ScoreNow, ReviewsGrow;
    if n == 0 {
      GrowReflexive(s.reviews);
    } else {
      var before := Attempts(s, logged, picks, scorings, n - 1, now);
      AttemptsGrow(s, logged, picks, scorings, n - 1, now);
      if picks[n - 1] < |before.jobs| {
        ScoringGrows(before, logged, before.jobs[picks[n - 1]].transfer, scorings[n - 1], now);
        GrowTransitive(s.reviews, before.reviews, Attempt(before, logged, picks[n - 1], scorings[n - 1], now).reviews);
      }
    }
  }

  lemma {:induction false} EscalationGrows(s: State, logged: bool, order: seq<string>, now: real)
    ensures ReviewsGrow(s.reviews, Escalate(s, logged, order, now).reviews)
  {
    hide Escalate;
    EscalateOnlyMarks(s, logged, order, now);
  }

  lemma {:induction false} WorkGrows(s: State, c: Call, w: Work)
    requires w.SweepOutbox? ==> w.limit <= |w.scorings|
    ensures ReviewsGrow(s.reviews, DoWork(s, c, w).reviews)
  {
    hide ScoreNow, Attempts, Escalate, ReviewsGrow;
    GrowReflexive(s.reviews);
    match w {
      case Stream(id, locked, scoring) => ScoringGrows(s, c.logged, id, scoring, c.now);
      case SweepOutbox(limit, scorings) => AttemptsGrow(s, c.logged, Picks(s, limit, c.now), scorings, |Picks(s, limit, c.now)|, c.now);
      case EscalateReviews(order) => EscalationGrows(s, c.logged, order, c.now);
      case Upgrade =>
    }
  }

  lemma {:induction false} ApproveEffect(s: State, logged: bool, id: string, scoring: Scoring, now: real)
    ensures
      var (t, reply) := ApproveTransfer(s, logged, id, scoring, now);
      && t.disputes == s.disputes
      && t.reviews == (if id in s.transfers then ScoreNow(s, logged, id, scoring, now).0.reviews else s.reviews)
      && (reply != Ok ==> t.parcels == s.parcels && t.transfers == s.transfers)
      && (reply == Ok ==>
            && id in s.transfers
            && t.transfers == s.transfers[id := s.transfers[id].(status := COMPLETED)]
            && t.parcels == Handover(s.parcels, s.transfers[id]))
  {
    hide ScoreNow, Emit, Handover;
  }

  lemma {:induction false} TransferKeepsReviews(s: State, c: Call, a: Transferring)
    ensures ReviewsGrow(s.reviews, DoTransfer(s, c, a).0.reviews)
  {
    hide ApproveTransfer, RejectTransfer, CreateTransfer, ScoreNow, ReviewsGrow;
    GrowReflexive(s.reviews);
    if a.Approve? {
      ScoringGrows(s, c.logged, a.id, a.scoring, c.now);
      ApproveEffect(s, c.logged, a.id, a.scoring, c.now);
    }
  }

  lemma {:induction false} NewStatusIsKept(transfers: map<string, Transfer>, id: string, status: TransferStatus)
    ensures TransfersKept(transfers, transfers)
    ensures id in transfers ==> TransfersKept(transfers, transfers[id := transfers[id].(status := status)])
  {
  }

  lemma {:induction false} NewTransferIsKept(transfers: map<string, Transfer>, id: string, t: Transfer)
    requires id !in transfers && t.status == PENDING
    ensures TransfersKept(transfers, transfers[id := t])
  {
  }

  lemma {:induction false} TransferKeepsTransfers(s: State, c: Call, a: Transferring)
    ensures TransfersKept(s.transfers, DoTransfer(s, c, a).0.transfers)
  {
    hide ApproveTransfer, Emit, TransfersKept;
    match a {
      case NewTransfer(id, parcel, from, to) =>
        NewStatusIsKept(s.transfers, id, PENDING);
        if id !in s.transfers && parcel in s.parcels {
          NewTransferIsKept(s.transfers, id, Transfer(parcel, Seller(from, s.parcels[parcel].owner), to, PENDING, s.parcels[parcel].district));
        }
      case Approve(id, scoring) =>
        NewStatusIsKept(s.transfers, id, COMPLETED);
        ApproveEffect(s, c.logged, id, scoring, c.now);
      case Reject(id) => NewStatusIsKept(s.transfers, id, REJECTED);
    }
  }

  /** Deciding a pending review. */
  lemma {:induction false} ReviewedIsKept(s: State, id: string, state: ReviewState, reviewer: string)
    requires id in s.reviews && s.reviews[id].state == PENDING_REVIEW
    ensures ReviewsKept(s.reviews, Reviewed(s, id, state, reviewer))
  {
  }

  lemma {:induction false} AffirmKeeps(sys: Settings, s: State, user: User, logged: bool, id: string, disputeId: string)
    ensures ReviewsKept(s.reviews, AffirmReview(sys, s, user, logged, id, disputeId).0.reviews)
  {
    hide Emit, WithStatus, OpenDispute, FreezeTarget, Reviewed, ReviewsKept, ReviewsGrow;
    GrowReflexive(s.reviews);
    GrowingKeeps(s.reviews, s.reviews);
    if id in s.reviews && s.reviews[id].state == PENDING_REVIEW {
      ReviewedIsKept(s, id, HUMAN_AFFIRMED, user.id);
    }
  }

  lemma {:induction false} DismissKeeps(s: State, user: User, logged: bool, id: string)
    ensures ReviewsKept(s.reviews, DismissReview(s, user, logged, id).0.reviews)
  {
    hide Emit, Reviewed, ReviewsKept, ReviewsGrow;
    GrowReflexive(s.reviews);
    GrowingKeeps(s.reviews, s.reviews);
    if id in s.reviews && s.reviews[id].state == PENDING_REVIEW {
      ReviewedIsKept(s, id, HUMAN_DISMISSED, user.id);
    }
  }

  lemma {:induction false} ReviewKeeps(sys: Settings, s: State, c: Call, a: Reviewing)
    ensures ReviewsKept(s.reviews, DoReview(sys, s, c, a).0.reviews)
  {
    hide AffirmReview, DismissReview, FileAppeal, ResolveAppeal;
    match a {
      case Affirm(id, disputeId) => AffirmKeeps(sys, s, c.user, c.logged, id, disputeId);
      case Dismiss(id) => DismissKeeps(s, c.user, c.logged, id);
      case _ =>
    }
  }

  /** No step undoes a decision about a review or moves a transfer to another parcel or buyer. */
  lemma {:induction false} StepKeeps(sys: Settings, s: State, c: Call)
    requires Enabled(s, c)
    ensures Kept(s, Step(sys, s, c))
  {
    hide DoRegister, DoTransfer, DoReview, DoDispute, DoWork, HasRole, Allowed, ReviewsKept, ReviewsGrow;
    StepIsFramed(sys, s, c);
    GrowReflexive(s.reviews);
    GrowingKeeps(s.reviews, s.reviews);
    match c.action {
      case Register(a) => RegisterIsFramed(sys, s, c, a);
      case OnTransfer(a) =>
        TransferKeepsReviews(s, c, a);
        TransferKeepsTransfers(s, c, a);
        GrowingKeeps(s.reviews, DoTransfer(s, c, a).0.reviews);
      case OnReview(a) => ReviewKeeps(sys, s, c, a);
      case OnDispute(a) => DisputeIsFramed(s, c, a);
      case Background(w) =>
        WorkGrows(s, c, w);
        GrowingKeeps(s.reviews, DoWork(s, c, w).reviews);
    }
  }

  /**
   The machine never decides: scoring, sweeps, escalation and upgrades leave
   every parcel, title, transfer, dispute and appeal alone and every review
   in its state; a review they add waits for a human.
   */
  lemma {:induction false} MachineNeverDecides(sys: Settings, s: State, c: Call)
    requires Enabled(s, c) && c.action.Background?
    ensures
      var t := Step(sys, s, c);
      && t.parcels == s.parcels && t.titles == s.titles && t.transfers == s.transfers
      && t.disputes == s.disputes && t.appeals == s.appeals
      && (forall r :: r in s.reviews ==> r in t.reviews && t.reviews[r].state == s.reviews[r].state)
      && (forall r :: r in t.reviews && r !in s.reviews ==> t.reviews[r].state == PENDING_REVIEW)
  {
    hide DoWork, HasRole, Allowed;
    WorkIsFramed(s, c, c.action.work);
    WorkGrows(s, c, c.action.work);
    GrowReflexive(s.reviews);
    forall r | r in s.reviews ensures r in Step(sys, s, c).reviews && Step(sys, s, c).reviews[r].state == s.reviews[r].state {
      var t := Step(sys, s, c);
      assert t.reviews[r].(escalatedAt := None) == s.reviews[r].(escalatedAt := None);
    }
  }
}
