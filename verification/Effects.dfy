/**
 Behind every change of a row there is one request, made by a role that has
 it, and the row says what the request said; and a request that is answered
 Ok has had its effect. Said table by table, for every step.
 */
module Effects {
  import opened Hashing
  import opened Registry
  import opened RegistryFrames
  import opened Gate
  import opened Custody
  import opened Authority

  /** Whose hand it takes to make the request. */
  lemma {:induction false} Signed(user: User, a: Action)
    requires HasRole(user, Allowed(a))
    ensures a.OnReview? && a.reviewing.DecideAppeal? ==> user.role in {AUDITOR, REGISTRAR, ADMIN}
    ensures a.OnReview? && (a.reviewing.Affirm? || a.reviewing.Dismiss?) ==> user.role in {LAND_OFFICER, REGISTRAR, ADMIN}
    ensures a.OnDispute? && a.disputing.TakeUp? ==> user.role in {LAND_OFFICER, REGISTRAR, ADMIN}
    ensures a.OnDispute? && a.disputing.Decide? ==> user.role in {REGISTRAR, ADMIN}
    ensures a.OnTransfer? && a.transferring.NewTransfer? ==> user.role in {LAND_OFFICER, CITIZEN, ADMIN}
    ensures a.OnTransfer? && !a.transferring.NewTransfer? ==> user.role in {LAND_OFFICER, REGISTRAR, ADMIN}
    ensures a.Register? && a.registration.NewParcel? ==> user.role in {SURVEYOR, REGISTRAR, ADMIN}
    ensures a.Register? && a.registration.NewTitle? ==> user.role in {REGISTRAR, ADMIN}
    ensures a.Register? && (a.registration.NewOwner? || a.registration.Kyc?) ==> user.role in {LAND_OFFICER, REGISTRAR, ADMIN}
  {
  }

  // ---- appeals

  predicate AppealCaused(s: State, c: Call, id: string, new_: Appeal) {
    if id !in s.appeals then
      && c.action.OnReview? && c.action.reviewing.NewAppeal? && c.action.reviewing.id == id
      && new_ == Appeal(c.action.reviewing.review, c.action.reviewing.subjectType, c.action.reviewing.subject, c.user.id, OPEN)
    else
      || new_ == s.appeals[id]
      || (&& c.action.OnReview? && c.action.reviewing.DecideAppeal? && c.action.reviewing.id == id
          && c.user.role in {AUDITOR, REGISTRAR, ADMIN}
          && s.appeals[id].state == OPEN
          && new_ == s.appeals[id].(state := if c.action.reviewing.upheld then UPHELD else DENIED))
  }

  lemma {:induction false} FileOnAppeals(s: State, c: Call)
    requires c.action.OnReview? && c.action.reviewing.NewAppeal?
    ensures
      var a := c.action.reviewing;
      var t := FileAppeal(s, c.user, c.logged, a.id, a.review, a.subjectType, a.subject).0;
      s.appeals.Keys <= t.appeals.Keys && forall id :: id in t.appeals ==> AppealCaused(s, c, id, t.appeals[id])
  {
    hide Emit;
  }

  lemma {:induction false} DecideOnAppeals(s: State, c: Call)
    requires HasRole(c.user, Allowed(c.action)) && c.action.OnReview? && c.action.reviewing.DecideAppeal?
    ensures
      var a := c.action.reviewing;
      var t := ResolveAppeal(s, c.user, c.logged, a.id, a.upheld).0;
      s.appeals.Keys <= t.appeals.Keys && forall id :: id in t.appeals ==> AppealCaused(s, c, id, t.appeals[id])
  {
    hide HasRole, Allowed, Emit, Unfreeze, ReliefTarget;
    Signed(c.user, c.action);
  }

  /** An appeal is entered as its appellant filed it, and decided once, as the auditor or registrar said. */
  lemma {:induction false} AppealsAreCaused(sys: Settings, s: State, c: Call)
    requires Enabled(s, c)
    ensures
      var t := Step(sys, s, c);
      s.appeals.Keys <= t.appeals.Keys && forall id :: id in t.appeals ==> AppealCaused(s, c, id, t.appeals[id])
  {
    hide DoRegister, DoTransfer, DoDispute, DoWork, AffirmReview, DismissReview, FileAppeal, ResolveAppeal, HasRole, Allowed, AppealCaused;
    StepIsFramed(sys, s, c);
    UnchangedAppeals(s, c);
    if HasRole(c.user, Allowed(c.action)) {
      match c.action {
        case OnReview(NewAppeal(_, _, _, _)) => FileOnAppeals(s, c);
        case OnReview(DecideAppeal(_, _)) => DecideOnAppeals(s, c);
        case _ =>
      }
    }
  }

  lemma {:induction false} UnchangedAppeals(s: State, c: Call)
    ensures forall id :: id in s.appeals ==> AppealCaused(s, c, id, s.appeals[id])
  {
  }

  // ---- disputes

  predicate DisputeCaused(s: State, c: Call, id: string, new_: Dispute) {
    if id !in s.disputes then
      || (&& c.action.OnDispute? && c.action.disputing.NewDispute? && c.action.disputing.id == id
          && c.action.disputing.parcel in s.parcels && c.user.id in s.owners
          && new_ == Dispute(c.action.disputing.parcel, c.user.id, c.action.disputing.kind, FILED, s.parcels[c.action.disputing.parcel].district))
      || (&& c.action.OnReview? && c.action.reviewing.Affirm? && c.action.reviewing.disputeId == id
          && c.user.role in {LAND_OFFICER, REGISTRAR, ADMIN} && c.user.id in s.owners
          && c.action.reviewing.id in s.reviews
          && var r := s.reviews[c.action.reviewing.id];
             && r.state == PENDING_REVIEW && r.recommended == BLOCK && r.transfer in s.transfers
             && new_ == Dispute(s.transfers[r.transfer].parcel, c.user.id, FRAUD, UNDER_REVIEW, r.district))
    else
      || new_ == s.disputes[id]
      || (&& c.action.OnDispute? && c.action.disputing.TakeUp? && c.action.disputing.id == id
          && c.user.role in {LAND_OFFICER, REGISTRAR, ADMIN}
          && new_ == s.disputes[id].(state := UNDER_REVIEW))
      || (&& c.action.OnDispute? && c.action.disputing.Decide? && c.action.disputing.id == id
          && c.user.role in {REGISTRAR, ADMIN}
          && c.action.disputing.outcome in {RESOLVED, DISMISSED, ESCALATED_COURT}
          && new_ == s.disputes[id].(state := c.action.disputing.outcome))
  }

  lemma {:induction false} AffirmOnDisputes(sys: Settings, s: State, c: Call, id: string, disputeId: string)
    requires HasRole(c.user, Allowed(c.action)) && c.action == OnReview(Affirm(id, disputeId))
    ensures
      var t := AffirmReview(sys, s, c.user, c.logged, id, disputeId).0;
      s.disputes.Keys <= t.disputes.Keys && forall d :: d in t.disputes ==> DisputeCaused(s, c, d, t.disputes[d])
  {
    hide HasRole, Allowed, Emit, WithStatus, OpenDispute, Reviewed;
    Signed(c.user, c.action);
  }

  lemma {:induction false} FileOnDisputes(s: State, c: Call)
    requires c.action.OnDispute? && c.action.disputing.NewDispute?
    ensures
      var a := c.action.disputing;
      var t := FileDispute(s, c.user, c.logged, a.id, a.parcel, a.respondent, a.kind).0;
      s.disputes.Keys <= t.disputes.Keys && forall d :: d in t.disputes ==> DisputeCaused(s, c, d, t.disputes[d])
  {
    hide Emit, WithStatus;
  }

  lemma {:induction false} SettleOnDisputes(s: State, c: Call, a: Disputing)
    requires Enabled(s, c) && HasRole(c.user, Allowed(c.action)) && c.action == OnDispute(a) && !a.NewDispute?
    ensures
      var t := if a.TakeUp? then ReviewDispute(s, c.logged, a.id).0 else ResolveDispute(s, c.logged, a.id, a.outcome).0;
      s.disputes.Keys <= t.disputes.Keys && forall d :: d in t.disputes ==> DisputeCaused(s, c, d, t.disputes[d])
  {
    hide HasRole, Allowed, Emit, Unfreeze;
    Signed(c.user, c.action);
  }

  lemma {:induction false} RequestsOnDisputes(s: State, c: Call, a: Disputing)
    requires Enabled(s, c) && HasRole(c.user, Allowed(c.action)) && c.action == OnDispute(a)
    ensures
      var t := DoDispute(s, c, a).0;
      s.disputes.Keys <= t.disputes.Keys && forall d :: d in t.disputes ==> DisputeCaused(s, c, d, t.disputes[d])
  {
    hide HasRole, Allowed, FileDispute, ReviewDispute, ResolveDispute, DisputeCaused, Enabled;
    if a.NewDispute? {
      FileOnDisputes(s, c);
    } else {
      SettleOnDisputes(s, c, a);
    }
  }

  /** A dispute is entered as its claimant filed it, or by an affirmation that freezes; later only its state changes, as the officer or registrar said. */
  lemma {:induction false} DisputesAreCaused(sys: Settings, s: State, c: Call)
    requires Enabled(s, c)
    ensures
      var t := Step(sys, s, c);
      s.disputes.Keys <= t.disputes.Keys && forall id :: id in t.disputes ==> DisputeCaused(s, c, id, t.disputes[id])
  {
    hide DoRegister, DoTransfer, DoDispute, DoWork, AffirmReview, DismissReview, FileAppeal, ResolveAppeal, HasRole, Allowed, DisputeCaused;
    StepIsFramed(sys, s, c);
    UnchangedDisputes(s, c);
    if HasRole(c.user, Allowed(c.action)) {
      match c.action {
        case OnDispute(a) => RequestsOnDisputes(s, c, a);
        case OnReview(Affirm(id, disputeId)) => AffirmOnDisputes(sys, s, c, id, disputeId);
        case _ =>
      }
    }
  }

  lemma {:induction false} UnchangedDisputes(s: State, c: Call)
    ensures forall id :: id in s.disputes ==> DisputeCaused(s, c, id, s.disputes[id])
  {
  }

  // ---- reviews

  predicate ReviewCaused(s: State, c: Call, id: string, new_: Review) {
    if id !in s.reviews then
      && MayScore(c.action) && new_.transfer in s.transfers && new_.recommended != NONE
      && new_ == Review(new_.transfer, s.transfers[new_.transfer].district, new_.recommended, s.version, PENDING_REVIEW, c.now, None, None)
    else
      || new_ == s.reviews[id]
      || (&& c.action.OnReview? && c.action.reviewing.Affirm? && c.action.reviewing.id == id
          && c.user.role in {LAND_OFFICER, REGISTRAR, ADMIN}
          && s.reviews[id].state == PENDING_REVIEW
          && new_ == s.reviews[id].(state := HUMAN_AFFIRMED, reviewedBy := Some(c.user.id)))
      || (&& c.action.OnReview? && c.action.reviewing.Dismiss? && c.action.reviewing.id == id
          && c.user.role in {LAND_OFFICER, REGISTRAR, ADMIN}
          && s.reviews[id].state == PENDING_REVIEW
          && new_ == s.reviews[id].(state := HUMAN_DISMISSED, reviewedBy := Some(c.user.id)))
      || (&& c.action.Background? && c.action.work.EscalateReviews?
          && s.reviews[id].state == PENDING_REVIEW && s.reviews[id].escalatedAt.None? && c.now - s.reviews[id].createdAt > 86400.0
          && new_ == s.reviews[id].(escalatedAt := Some(c.now)))
  }

  /** What scoring one transfer, or several, adds to the reviews. */
  predicate OnlyQueued(s: State, now: real, t: State) {
    && t.version == s.version && t.transfers == s.transfers
    && (forall id :: id in s.reviews ==> id in t.reviews && t.reviews[id] == s.reviews[id])
    && (forall id :: id in t.reviews && id !in s.reviews ==>
          var r := t.reviews[id];
          && r.transfer in s.transfers && r.recommended != NONE
          && r == Review(r.transfer, s.transfers[r.transfer].district, r.recommended, s.version, PENDING_REVIEW, now, None, None))
  }

  lemma {:induction false} ActingOnlyQueues(s: State, logged: bool, transfer: string, recommended: Recommended, reviewId: string, now: real)
    ensures OnlyQueued(s, now, ActOnScore(s, logged, transfer, recommended, reviewId, now).0)
  {
    hide Emit, Queued;
  }

  lemma {:induction false} SameQueued(s: State, persisted: State, now: real, t: State)
    requires OnlyQueued(persisted, now, t) && persisted == s.(scores := persisted.scores)
    ensures OnlyQueued(s, now, t)
  {
  }

  lemma {:induction false} ScoringQueues(s: State, logged: bool, transfer: string, scoring: Scoring, now: real)
    ensures OnlyQueued(s, now, ScoreNow(s, logged, transfer, scoring, now).0)
  {
    hide ActOnScore, Persist, Latest, UpToDate, HasContext;
    if scoring.Scores? {
      var persisted := Persist(s, transfer, scoring.recommended, now);
      ActingOnlyQueues(persisted, logged, transfer, scoring.recommended, scoring.reviewId, now);
      SameQueued(s, persisted, now, ActOnScore(persisted, logged, transfer, scoring.recommended, scoring.reviewId, now).0);
    }
  }

  lemma {:induction false} AttemptsQueue(s: State, logged: bool, picks: seq<nat>, scorings: seq<Scoring>, n: nat, now: real)
    requires n <= |picks| <= |scorings|
    ensures OnlyQueued(s, now, Attempts(s, logged, picks, scorings, n, now))
  {
    hide ScoreNow, Settle;
    if n > 0 {
      var before := Attempts(s, logged, picks, scorings, n - 1, now);
      AttemptsQueue(s, logged, picks, scorings, n - 1, now);
      if picks[n - 1] < |before.jobs| {
        ScoringQueues(before, logged, before.jobs[picks[n - 1]].transfer, scorings[n - 1], now);
      }
    }
  }

  lemma {:induction false} ApproveQueues(s: State, logged: bool, id: string, scoring: Scoring, now: real)
    ensures OnlyQueued(s, now, ApproveTransfer(s, logged, id, scoring, now).0.(transfers := s.transfers))
  {
    hide ScoreNow, Emit, Handover;
    ScoringQueues(s, logged, id, scoring, now);
  }

  /** An escalation marks exactly the reviews it lists, and nothing but their escalation. */
  lemma {:induction false} EscalationMarks(s: State, logged: bool, order: seq<string>, now: real)
    requires forall i :: 0 <= i < |order| ==> order[i] in s.reviews
    ensures
      var t := Escalate(s, logged, order, now);
      && t.reviews.Keys == s.reviews.Keys
      && forall id :: id in s.reviews ==>
           t.reviews[id] == if id in order then s.reviews[id].(escalatedAt := Some(now)) else s.reviews[id]
  {
    hide Emit;
    if order != [] {
      EscalationMarks(s, logged, order[..|order| - 1], now);
      assert order == order[..|order| - 1] + [order[|order| - 1]];
    }
  }

  lemma {:induction false} WorkOnReviews(sys: Settings, s: State, c: Call, w: Work)
    requires Enabled(s, c) && c.action == Background(w)
    ensures
      var t := DoWork(s, c, w);
      s.reviews.Keys <= t.reviews.Keys && forall id :: id in t.reviews ==> ReviewCaused(s, c, id, t.reviews[id])
  {
    hide ScoreNow, Attempts, Escalate;
    match w {
      case Stream(id, locked, scoring) => ScoringQueues(s, c.logged, id, scoring, c.now);
      case SweepOutbox(limit, scorings) =>
        AttemptsQueue(s, c.logged, Picks(s, limit, c.now), scorings, |Picks(s, limit, c.now)|, c.now);
      case EscalateReviews(order) => EscalationMarks(s, c.logged, order, c.now);
      case Upgrade =>
    }
  }

  lemma {:induction false} AffirmedRow(sys: Settings, s: State, user: User, logged: bool, id: string, disputeId: string)
    ensures
      var t := AffirmReview(sys, s, user, logged, id, disputeId).0;
      || t.reviews == s.reviews
      || (&& id in s.reviews && s.reviews[id].state == PENDING_REVIEW
          && t.reviews == s.reviews[id := s.reviews[id].(state := HUMAN_AFFIRMED, reviewedBy := Some(user.id))])
  {
    hide Emit, WithStatus, OpenDispute, FreezeTarget;
  }

  lemma {:induction false} AffirmOnReviews(sys: Settings, s: State, c: Call, id: string, disputeId: string)
    requires HasRole(c.user, Allowed(c.action)) && c.action == OnReview(Affirm(id, disputeId))
    ensures
      var t := AffirmReview(sys, s, c.user, c.logged, id, disputeId).0;
      s.reviews.Keys <= t.reviews.Keys && forall r :: r in t.reviews ==> ReviewCaused(s, c, r, t.reviews[r])
  {
    hide HasRole, Allowed, AffirmReview, MayScore;
    Signed(c.user, c.action);
    AffirmedRow(sys, s, c.user, c.logged, id, disputeId);
  }

  lemma {:induction false} DismissOnReviews(s: State, c: Call, id: string)
    requires HasRole(c.user, Allowed(c.action)) && c.action == OnReview(Dismiss(id))
    ensures
      var t := DismissReview(s, c.user, c.logged, id).0;
      s.reviews.Keys <= t.reviews.Keys && forall r :: r in t.reviews ==> ReviewCaused(s, c, r, t.reviews[r])
  {
    hide HasRole, Allowed, Emit, MayScore;
    Signed(c.user, c.action);
  }

  /**
   A review is entered by scoring, waiting; it is affirmed or dismissed once,
   in the name of the officer or registrar who does it; and it is escalated
   once, when it has waited for more than a day.
   */
  lemma {:induction false} ReviewsAreCaused(sys: Settings, s: State, c: Call)
    requires Enabled(s, c)
    ensures
      var t := Step(sys, s, c);
      s.reviews.Keys <= t.reviews.Keys && forall id :: id in t.reviews ==> ReviewCaused(s, c, id, t.reviews[id])
  {
    hide DoRegister, DoTransfer, DoDispute, DoWork, AffirmReview, DismissReview, FileAppeal, ResolveAppeal, HasRole, Allowed, ReviewCaused;
    StepIsFramed(sys, s, c);
    UnchangedIsCaused(s, c);
    if HasRole(c.user, Allowed(c.action)) {
      match c.action {
        case OnTransfer(a) => TransfersOnReviews(s, c, a);
        case OnReview(Affirm(id, disputeId)) => AffirmOnReviews(sys, s, c, id, disputeId);
        case OnReview(Dismiss(id)) => DismissOnReviews(s, c, id);
        case Background(w) => WorkOnReviews(sys, s, c, w);
        case _ =>
      }
    }
  }

  lemma {:induction false} UnchangedIsCaused(s: State, c: Call)
    ensures forall id :: id in s.reviews ==> ReviewCaused(s, c, id, s.reviews[id])
  {
  }

  lemma {:induction false} TransfersOnReviews(s: State, c: Call, a: Transferring)
    requires c.action == OnTransfer(a)
    ensures
      var t := DoTransfer(s, c, a).0;
      s.reviews.Keys <= t.reviews.Keys && forall id :: id in t.reviews ==> ReviewCaused(s, c, id, t.reviews[id])
  {
    hide ApproveTransfer, CreateTransfer, RejectTransfer;
    if a.Approve? {
      ApproveQueues(s, c.logged, a.id, a.scoring, c.now);
    }
  }

  predicate IsHeld(s: State, parcel: string) {
    parcel in s.parcels && (s.parcels[parcel].status == FROZEN || s.parcels[parcel].status == DISPUTED)
  }

  // ---- transfers

  predicate TransferCaused(s: State, c: Call, id: string, new_: Transfer) {
    if id !in s.transfers then
      && c.action.OnTransfer? && c.action.transferring.NewTransfer? && c.action.transferring.id == id
      && c.user.role in {LAND_OFFICER, CITIZEN, ADMIN}
      && var a := c.action.transferring;
         && a.parcel in s.parcels && s.parcels[a.parcel].status != FROZEN && s.parcels[a.parcel].status != DISPUTED && a.to in s.owners
         && new_ == Transfer(a.parcel, new_.fromOwner, a.to, PENDING, s.parcels[a.parcel].district)
         && (a.from.Some? && a.from.value != "" ==> new_.fromOwner == a.from)
         && (a.from == None || a.from == Some("") ==> new_.fromOwner == s.parcels[a.parcel].owner)
         && (new_.fromOwner.Some? ==> new_.fromOwner.value in s.owners)
    else
      || new_ == s.transfers[id]
      || (&& c.action.OnTransfer? && c.user.role in {LAND_OFFICER, REGISTRAR, ADMIN} && c.action.transferring.id == id
          && !c.action.transferring.NewTransfer?
          && new_ == s.transfers[id].(status := if c.action.transferring.Approve? then COMPLETED else REJECTED))
  }

  lemma {:induction false} CreateOnTransfers(s: State, c: Call)
    requires HasRole(c.user, Allowed(c.action)) && c.action.OnTransfer? && c.action.transferring.NewTransfer?
    ensures
      var a := c.action.transferring;
      var t := CreateTransfer(s, c.logged, a.id, a.parcel, a.from, a.to).0;
      s.transfers.Keys <= t.transfers.Keys && forall id :: id in t.transfers ==> TransferCaused(s, c, id, t.transfers[id])
  {
    hide HasRole, Allowed, Emit;
    Signed(c.user, c.action);
  }

  lemma {:induction false} SettleOnTransfers(s: State, c: Call, a: Transferring)
    requires HasRole(c.user, Allowed(c.action)) && c.action == OnTransfer(a) && !a.NewTransfer?
    ensures
      var t := DoTransfer(s, c, a).0;
      s.transfers.Keys <= t.transfers.Keys && forall id :: id in t.transfers ==> TransferCaused(s, c, id, t.transfers[id])
  {
    hide HasRole, Allowed, Emit, ApproveTransfer, CreateTransfer;
    Signed(c.user, c.action);
    if a.Approve? {
      ApproveEffect(s, c.logged, a.id, a.scoring, c.now);
    }
  }

  /**
   A transfer is entered as it was requested, from the named seller or else
   the current owner, and only on a parcel that is neither frozen nor
   disputed; later it is only completed or rejected by an officer.
   */
  lemma {:induction false} TransfersAreCaused(sys: Settings, s: State, c: Call)
    requires Enabled(s, c)
    ensures
      var t := Step(sys, s, c);
      s.transfers.Keys <= t.transfers.Keys && forall id :: id in t.transfers ==> TransferCaused(s, c, id, t.transfers[id])
  {
    hide DoRegister, CreateTransfer, ApproveTransfer, RejectTransfer, DoReview, DoDispute, DoWork, HasRole, Allowed, TransferCaused;
    StepIsFramed(sys, s, c);
    UnchangedTransfers(s, c);
    if c.action.OnTransfer? && HasRole(c.user, Allowed(c.action)) {
      if c.action.transferring.NewTransfer? {
        CreateOnTransfers(s, c);
      } else {
        SettleOnTransfers(s, c, c.action.transferring);
      }
    }
  }

  lemma {:induction false} UnchangedTransfers(s: State, c: Call)
    ensures forall id :: id in s.transfers ==> TransferCaused(s, c, id, s.transfers[id])
  {
  }

  // ---- parcels

  predicate ParcelCaused(s: State, c: Call, p: string, new_: Parcel) {
    match c.action
    case Register(NewParcel(id, district, owner)) =>
      if p in s.parcels then new_ == s.parcels[p]
      else p == id && c.user.role in {SURVEYOR, REGISTRAR, ADMIN} && new_ == Parcel(district, owner, ACTIVE) && (owner.Some? ==> owner.value in s.owners)
    case Register(NewTitle(parcel, to, _)) =>
      p in s.parcels && (new_ == s.parcels[p]
        || (&& p == parcel && c.user.role in {REGISTRAR, ADMIN} && s.parcels[p].status != FROZEN && s.parcels[p].status != DISPUTED
            && to in s.owners && s.owners[to] && new_ == s.parcels[p].(owner := Some(to), status := ACTIVE)))
    case OnTransfer(Approve(id, _)) =>
      p in s.parcels && (new_ == s.parcels[p]
        || (&& c.user.role in {LAND_OFFICER, REGISTRAR, ADMIN} && id in s.transfers && p == s.transfers[id].parcel
            && new_ == s.parcels[p].(owner := Some(s.transfers[id].toOwner), status := TRANSFERRED)))
    case OnReview(Affirm(id, _)) =>
      p in s.parcels && (new_ == s.parcels[p]
        || (&& c.user.role in {LAND_OFFICER, REGISTRAR, ADMIN} && id in s.reviews && s.reviews[id].state == PENDING_REVIEW
            && s.reviews[id].recommended == BLOCK && s.reviews[id].transfer in s.transfers
            && p == s.transfers[s.reviews[id].transfer].parcel && new_ == s.parcels[p].(status := FROZEN)))
    case OnReview(DecideAppeal(id, upheld)) =>
      p in s.parcels && (new_ == s.parcels[p]
        || (&& upheld && c.user.role in {AUDITOR, REGISTRAR, ADMIN} && id in s.appeals && s.appeals[id].state == OPEN
            && s.appeals[id].subjectType == SubjectType.TRANSFER && s.appeals[id].subject in s.transfers
            && p == s.transfers[s.appeals[id].subject].parcel
            && s.parcels[p].status in {DISPUTED, FROZEN} && new_ == s.parcels[p].(status := ACTIVE)))
    case OnDispute(NewDispute(_, parcel, _, kind)) =>
      p in s.parcels && (new_ == s.parcels[p]
        || (p == parcel && c.user.id in s.owners && kind in {FRAUD, OVERLAP, OWNERSHIP} && new_ == s.parcels[p].(status := DISPUTED)))
    case OnDispute(Decide(id, outcome)) =>
      p in s.parcels && (new_ == s.parcels[p]
        || (&& c.user.role in {REGISTRAR, ADMIN} && id in s.disputes && p == s.disputes[id].parcel && outcome in {RESOLVED, DISMISSED}
            && s.parcels[p].status in {DISPUTED, FROZEN} && new_ == s.parcels[p].(status := ACTIVE)))
    case _ => p in s.parcels && new_ == s.parcels[p]
  }

  lemma {:induction false} TitleOnParcels(s: State, c: Call)
    requires HasRole(c.user, Allowed(c.action)) && c.action.Register? && c.action.registration.NewTitle?
    ensures
      var a := c.action.registration;
      var t := IssueTitle(s, c.logged, a.parcel, a.to, a.year).0;
      s.parcels.Keys <= t.parcels.Keys && forall p :: p in t.parcels ==> ParcelCaused(s, c, p, t.parcels[p])
  {
    hide HasRole, Allowed, Emit, TitleTaken, NextTitleNo;
    Signed(c.user, c.action);
  }

  lemma {:induction false} NewOnParcels(sys: Settings, s: State, c: Call)
    requires HasRole(c.user, Allowed(c.action)) && c.action.Register? && c.action.registration.NewParcel?
    ensures
      var a := c.action.registration;
      var t := CreateParcel(sys, s, c.logged, a.id, a.district, a.owner).0;
      s.parcels.Keys <= t.parcels.Keys && forall p :: p in t.parcels ==> ParcelCaused(s, c, p, t.parcels[p])
  {
    hide HasRole, Allowed, Emit;
    Signed(c.user, c.action);
  }

  lemma {:induction false} RegisterOnParcels(sys: Settings, s: State, c: Call, a: Registration)
    requires HasRole(c.user, Allowed(c.action)) && c.action == Register(a)
    ensures
      var t := DoRegister(sys, s, c, a).0;
      s.parcels.Keys <= t.parcels.Keys && forall p :: p in t.parcels ==> ParcelCaused(s, c, p, t.parcels[p])
  {
    hide HasRole, Allowed, IssueTitle, CreateParcel, ParcelCaused;
    UnchangedParcels(s, c);
    match a {
      case NewTitle(_, _, _) => TitleOnParcels(s, c);
      case NewParcel(_, _, _) => NewOnParcels(sys, s, c);
      case _ =>
    }
  }

  lemma {:induction false} TransferOnParcels(s: State, c: Call, a: Transferring)
    requires HasRole(c.user, Allowed(c.action)) && c.action == OnTransfer(a)
    ensures
      var t := DoTransfer(s, c, a).0;
      s.parcels.Keys <= t.parcels.Keys && forall p :: p in t.parcels ==> ParcelCaused(s, c, p, t.parcels[p])
  {
    hide HasRole, Allowed, ApproveTransfer, CreateTransfer, RejectTransfer;
    Signed(c.user, c.action);
    if a.Approve? {
      ApproveEffect(s, c.logged, a.id, a.scoring, c.now);
    }
  }

  lemma {:induction false} AffirmOnParcels(sys: Settings, s: State, c: Call, id: string, disputeId: string)
    requires HasRole(c.user, Allowed(c.action)) && c.action == OnReview(Affirm(id, disputeId))
    ensures
      var t := AffirmReview(sys, s, c.user, c.logged, id, disputeId).0;
      s.parcels.Keys <= t.parcels.Keys && forall p :: p in t.parcels ==> ParcelCaused(s, c, p, t.parcels[p])
  {
    hide HasRole, Allowed, AffirmReview, OpenDispute;
    Signed(c.user, c.action);
    AffirmEffect(sys, s, c.user, c.logged, id, disputeId);
  }

  lemma {:induction false} DecideOnParcels(s: State, c: Call, id: string, upheld: bool)
    requires HasRole(c.user, Allowed(c.action)) && c.action == OnReview(DecideAppeal(id, upheld))
    ensures
      var t := ResolveAppeal(s, c.user, c.logged, id, upheld).0;
      s.parcels.Keys <= t.parcels.Keys && forall p :: p in t.parcels ==> ParcelCaused(s, c, p, t.parcels[p])
  {
    hide HasRole, Allowed, ResolveAppeal;
    Signed(c.user, c.action);
    AppealEffect(s, c.user, c.logged, id, upheld);
  }

  lemma {:induction false} DisputeOnParcels(s: State, c: Call, a: Disputing)
    requires HasRole(c.user, Allowed(c.action)) && c.action == OnDispute(a)
    ensures
      var t := DoDispute(s, c, a).0;
      s.parcels.Keys <= t.parcels.Keys && forall p :: p in t.parcels ==> ParcelCaused(s, c, p, t.parcels[p])
  {
    hide HasRole, Allowed, Emit;
    Signed(c.user, c.action);
  }

  /**
   Whatever happens to a parcel is a registration, a title, a completed
   transfer, a freeze, a custodial dispute, an upheld appeal or the end of a
   dispute; each by its role, on its condition, with its result.
   */
  lemma {:induction false} ParcelsAreCaused(sys: Settings, s: State, c: Call)
    requires Enabled(s, c)
    ensures
      var t := Step(sys, s, c);
      s.parcels.Keys <= t.parcels.Keys && forall p :: p in t.parcels ==> ParcelCaused(s, c, p, t.parcels[p])
  {
    hide DoRegister, DoTransfer, AffirmReview, DismissReview, FileAppeal, ResolveAppeal, DoDispute, DoWork, HasRole, Allowed, ParcelCaused;
    StepIsFramed(sys, s, c);
    UnchangedParcels(s, c);
    if HasRole(c.user, Allowed(c.action)) {
      match c.action {
        case Register(a) => RegisterOnParcels(sys, s, c, a);
        case OnTransfer(a) => TransferOnParcels(s, c, a);
        case OnReview(Affirm(id, disputeId)) => AffirmOnParcels(sys, s, c, id, disputeId);
        case OnReview(DecideAppeal(id, upheld)) => DecideOnParcels(s, c, id, upheld);
        case OnDispute(a) => DisputeOnParcels(s, c, a);
        case _ =>
      }
    }
  }

  lemma {:induction false} UnchangedParcels(s: State, c: Call)
    ensures forall p :: p in s.parcels ==> ParcelCaused(s, c, p, s.parcels[p])
  {
  }

  // ---- titles and owners

  /** `new_` is one more title, of the parcel that was asked for and under a number that is free. */
  predicate OneMoreTitle(s: State, a: Registration, new_: seq<Title>)
    requires a.NewTitle?
  {
    && a.parcel in s.parcels && !IsHeld(s, a.parcel) && |new_| == |s.titles| + 1 && new_[..|s.titles|] == s.titles
    && new_[|s.titles|].parcel == a.parcel && new_[|s.titles|].district == s.parcels[a.parcel].district
    && new_[|s.titles|].titleNo == NextTitleNo(s, s.parcels[a.parcel].district, a.year)
    && forall i :: 0 <= i < |s.titles| ==> s.titles[i].titleNo != new_[|s.titles|].titleNo
  }

  lemma {:induction false} IssueAddsOne(s: State, logged: bool, a: Registration)
    requires a.NewTitle?
    ensures
      var t := IssueTitle(s, logged, a.parcel, a.to, a.year).0;
      t.titles == s.titles || OneMoreTitle(s, a, t.titles)
  {
    hide Emit, TitleCount, DistrictCode;
  }

  predicate OwnersCaused(s: State, a: Registration, new_: map<string, bool>) {
    match a
    case NewOwner(id) => id !in s.owners && new_ == s.owners[id := false]
    case Kyc(id, verified) => id in s.owners && new_ == s.owners[id := verified]
    case _ => false
  }

  lemma {:induction false} RegisterOnOwners(sys: Settings, s: State, c: Call, a: Registration)
    ensures
      var t := DoRegister(sys, s, c, a).0;
      t.owners == s.owners || OwnersCaused(s, a, t.owners)
  {
    hide CreateParcel, IssueTitle;
  }

  lemma {:induction false} RegisterOnTitles(sys: Settings, s: State, c: Call, a: Registration)
    ensures
      var t := DoRegister(sys, s, c, a).0;
      t.titles == s.titles || (a.NewTitle? && OneMoreTitle(s, a, t.titles))
  {
    hide CreateParcel, IssueTitle, RegisterOwner, SetKyc, OneMoreTitle;
    if a.NewTitle? {
      IssueAddsOne(s, c.logged, a);
    }
  }

  /** Titles are only added, one by one, for the parcel that was asked for; owners are added unverified, and their KYC flag is what the officer's check said. */
  lemma {:induction false} TitlesAndOwnersAreCaused(sys: Settings, s: State, c: Call)
    requires Enabled(s, c)
    ensures
      var t := Step(sys, s, c);
      && (t.titles != s.titles ==>
            && c.action.Register? && c.action.registration.NewTitle? && c.user.role in {REGISTRAR, ADMIN}
            && OneMoreTitle(s, c.action.registration, t.titles))
      && (t.owners != s.owners ==>
            && c.action.Register? && c.user.role in {LAND_OFFICER, REGISTRAR, ADMIN}
            && OwnersCaused(s, c.action.registration, t.owners))
  {
    hide DoRegister, DoTransfer, DoReview, DoDispute, DoWork, HasRole, Allowed, OneMoreTitle;
    StepIsFramed(sys, s, c);
    if c.action.Register? && HasRole(c.user, Allowed(c.action)) {
      Signed(c.user, c.action);
      RegisterOnTitles(sys, s, c, c.action.registration);
      RegisterOnOwners(sys, s, c, c.action.registration);
    }
  }

  // ---- Ok means done

  /** What an Ok tells the caller about the tables. */
  predicate Done(s: State, c: Call, t: State) {
    match c.action
    case Register(NewOwner(id)) => id !in s.owners && id in t.owners && !t.owners[id]
    case Register(Kyc(id, verified)) => id in s.owners && id in t.owners && t.owners[id] == verified
    case Register(NewParcel(id, _, _)) => id !in s.parcels && id in t.parcels
    case Register(NewTitle(parcel, to, _)) =>
      |t.titles| == |s.titles| + 1 && parcel in t.parcels && t.parcels[parcel].owner == Some(to) && t.parcels[parcel].status == ACTIVE
    case OnTransfer(NewTransfer(id, _, _, _)) =>
      id !in s.transfers && id in t.transfers && t.jobs == s.jobs + [Job(id, Waiting, 0, None)]
    case OnTransfer(Approve(id, _)) =>
      && id in s.transfers && id in t.transfers && t.transfers[id].status == COMPLETED
      && (t.transfers[id].parcel in s.parcels ==>
            t.transfers[id].parcel in t.parcels && t.parcels[t.transfers[id].parcel].owner == Some(t.transfers[id].toOwner))
    case OnTransfer(Reject(id)) => id in s.transfers && id in t.transfers && t.transfers[id].status == REJECTED
    case OnReview(Affirm(id, _)) =>
      && id in s.reviews && s.reviews[id].state == PENDING_REVIEW && id in t.reviews && t.reviews[id].state == HUMAN_AFFIRMED
      && (s.reviews[id].recommended == BLOCK && s.reviews[id].transfer in s.transfers && s.transfers[s.reviews[id].transfer].parcel in s.parcels ==>
            IsFrozen(t, s.transfers[s.reviews[id].transfer].parcel))
    case OnReview(Dismiss(id)) =>
      id in s.reviews && s.reviews[id].state == PENDING_REVIEW && id in t.reviews && t.reviews[id].state == HUMAN_DISMISSED
    case OnReview(NewAppeal(id, _, _, _)) => id !in s.appeals && id in t.appeals
    case OnReview(DecideAppeal(id, upheld)) =>
      id in s.appeals && s.appeals[id].state == OPEN && id in t.appeals && t.appeals[id].state == if upheld then UPHELD else DENIED
    case OnDispute(NewDispute(id, parcel, _, kind)) =>
      && id !in s.disputes && id in t.disputes
      && (kind in {FRAUD, OVERLAP, OWNERSHIP} ==> parcel in t.parcels && t.parcels[parcel].status == DISPUTED)
    case OnDispute(TakeUp(id)) => id in s.disputes && id in t.disputes && t.disputes[id].state == UNDER_REVIEW
    case OnDispute(Decide(id, outcome)) =>
      && id in s.disputes && id in t.disputes && t.disputes[id].state == outcome
      && (outcome in {RESOLVED, DISMISSED} && s.disputes[id].parcel in s.parcels ==>
            s.disputes[id].parcel in t.parcels && t.parcels[s.disputes[id].parcel].status in {ACTIVE, TRANSFERRED})
    case Background(_) => true
  }

  /** What a reply other than Ok may leave behind: the score of an approval that did not go through, and what a failing affirmation has committed. */
  predicate NothingDone(sys: Settings, s: State, c: Call, t: State) {
    || t == s
    || (c.action.OnTransfer? && c.action.transferring.Approve? && OnlyScores(s, t))
    || (c.action.OnReview? && c.action.reviewing.Affirm? && sys.autocommit && t == s.(reviews := t.reviews, parcels := t.parcels))
  }

  lemma {:induction false} OkRegistered(sys: Settings, s: State, c: Call, a: Registration)
    requires c.action == Register(a)
    ensures
      var (t, reply) := DoRegister(sys, s, c, a);
      if reply == Ok then Done(s, c, t) else t == s
  {
    hide Emit, TitleTaken, NextTitleNo;
  }

  lemma {:induction false} OkTransferred(s: State, c: Call, a: Transferring)
    requires c.action == OnTransfer(a)
    ensures
      var (t, reply) := DoTransfer(s, c, a);
      if reply == Ok then Done(s, c, t) else t == s || (a.Approve? && OnlyScores(s, t))
  {
    hide Emit, ScoreNow;
  }

  lemma {:induction false} OkAffirmed(sys: Settings, s: State, c: Call, id: string, disputeId: string)
    requires c.action == OnReview(Affirm(id, disputeId))
    ensures
      var (t, reply) := AffirmReview(sys, s, c.user, c.logged, id, disputeId);
      if reply == Ok then Done(s, c, t) else NothingDone(sys, s, c, t)
  {
    hide Emit, OpenDispute;
  }

  lemma {:induction false} OkReviewed(sys: Settings, s: State, c: Call, a: Reviewing)
    requires c.action == OnReview(a)
    ensures
      var (t, reply) := DoReview(sys, s, c, a);
      if reply == Ok then Done(s, c, t) else NothingDone(sys, s, c, t)
  {
    hide Emit, AffirmReview, ReliefTarget, Unfreeze;
    if a.Affirm? {
      OkAffirmed(sys, s, c, a.id, a.disputeId);
    }
  }

  lemma {:induction false} OkDisputed(s: State, c: Call, a: Disputing)
    requires c.action == OnDispute(a)
    ensures
      var (t, reply) := DoDispute(s, c, a);
      if reply == Ok then Done(s, c, t) else t == s
  {
    hide Emit;
    match a {
      case NewDispute(id, parcel, respondent, kind) =>
        assert kind in {FRAUD, OVERLAP, OWNERSHIP} <==> kind in CUSTODIAL;
      case TakeUp(id) =>
      case Decide(id, outcome) =>
        if id in s.disputes {
          UnfreezeReleases(s.parcels, s.disputes[id].parcel);
        }
    }
  }

  lemma {:induction false} UnfreezeReleases(parcels: Parcels, parcel: string)
    ensures parcel in parcels ==>
      parcel in Unfreeze(parcels, parcel) && Unfreeze(parcels, parcel)[parcel].status in {ACTIVE, TRANSFERRED}
  {
    if parcel in parcels {
      match parcels[parcel].status {
        case ACTIVE => case DISPUTED => case FROZEN => case TRANSFERRED =>
      }
    }
  }

  /** Every Ok has had its effect, and every other reply, the two exceptions apart, has had none. */
  lemma {:induction false} OkMeansDone(sys: Settings, s: State, c: Call)
    requires Enabled(s, c)
    ensures
      var (t, reply) := Handle(sys, s, c);
      if reply == Ok then Done(s, c, t) else NothingDone(sys, s, c, t)
  {
    hide DoRegister, DoTransfer, DoReview, DoDispute, DoWork, HasRole, Allowed, Done, OnlyScores;
    match c.action {
      case Register(a) => OkRegistered(sys, s, c, a);
      case OnTransfer(a) => OkTransferred(s, c, a);
      case OnReview(a) => OkReviewed(sys, s, c, a);
      case OnDispute(a) => OkDisputed(s, c, a);
      case Background(_) => JobsAreDone(s, c);
    }
  }

  lemma {:induction false} JobsAreDone(s: State, c: Call)
    requires c.action.Background?
    ensures forall t :: Done(s, c, t)
  {
  }

  // ---- what goes through

  /** A row that the request names and that the handler looks up is not there. */
  predicate NamesMissing(s: State, a: Action) {
    match a
    case Register(Kyc(id, _)) => id !in s.owners
    case Register(NewTitle(parcel, to, _)) => parcel !in s.parcels || to !in s.owners
    case OnTransfer(NewTransfer(_, parcel, _, to)) => parcel !in s.parcels || to !in s.owners
    case OnTransfer(Approve(id, _)) => id !in s.transfers
    case OnTransfer(Reject(id)) => id !in s.transfers
    case OnReview(Affirm(id, _)) => id !in s.reviews
    case OnReview(Dismiss(id)) => id !in s.reviews
    case OnReview(DecideAppeal(id, _)) => id !in s.appeals
    case OnDispute(NewDispute(_, parcel, _, _)) => parcel !in s.parcels
    case OnDispute(TakeUp(id)) => id !in s.disputes
    case OnDispute(Decide(id, _)) => id !in s.disputes
    case _ => false
  }

  /** A row is there that must not be, or it is in a state that the request does not start from. */
  predicate MeetsWrongState(s: State, a: Action) {
    match a
    case Register(NewOwner(id)) => id in s.owners
    case Register(NewParcel(id, _, _)) => id in s.parcels
    case Register(NewTitle(parcel, to, _)) => IsHeld(s, parcel) || (to in s.owners && !s.owners[to])
    case OnTransfer(NewTransfer(_, parcel, _, _)) => IsHeld(s, parcel)
    case OnReview(Affirm(id, _)) => id in s.reviews && s.reviews[id].state != PENDING_REVIEW
    case OnReview(Dismiss(id)) => id in s.reviews && s.reviews[id].state != PENDING_REVIEW
    case OnReview(DecideAppeal(id, _)) => id in s.appeals && s.appeals[id].state != OPEN
    case _ => false
  }

  /** An insert would break a key, a foreign key or a unique number of the schema. */
  predicate BreaksSchema(sys: Settings, s: State, c: Call) {
    match c.action
    case Register(NewParcel(_, district, owner)) => district !in sys.districts || (owner.Some? && owner.value !in s.owners)
    case Register(NewTitle(parcel, _, year)) =>
      parcel in s.parcels && exists i | 0 <= i < |s.titles| :: s.titles[i].titleNo == NextTitleNo(s, s.parcels[parcel].district, year)
    case OnTransfer(NewTransfer(id, parcel, from, _)) =>
      || id in s.transfers
      || (var seller := if from.Some? && from.value != "" then from else if parcel in s.parcels then s.parcels[parcel].owner else None;
          seller.Some? && seller.value !in s.owners)
    case OnReview(Affirm(id, disputeId)) =>
      && id in s.reviews && s.reviews[id].recommended == BLOCK && s.reviews[id].transfer in s.transfers
      && !OpenDispute(s.disputes, s.transfers[s.reviews[id].transfer].parcel, {FRAUD})
      && (disputeId in s.disputes || c.user.id !in s.owners)
    case OnReview(NewAppeal(id, review, _, _)) => id in s.appeals || (review.Some? && review.value !in s.reviews)
    case OnDispute(NewDispute(id, _, respondent, _)) =>
      id in s.disputes || c.user.id !in s.owners || (respondent.Some? && respondent.value !in s.owners)
    case _ => false
  }

  predicate RepliesFit(sys: Settings, s: State, c: Call, reply: Reply) {
    && (reply == Ok <==> !NamesMissing(s, c.action) && !MeetsWrongState(s, c.action) && !BreaksSchema(sys, s, c))
    && (reply == NotFound ==> NamesMissing(s, c.action))
    && (reply == Conflict ==> MeetsWrongState(s, c.action))
    && (reply == Raised ==> BreaksSchema(sys, s, c))
    && reply != Unavailable
  }

  lemma {:induction false} RegistrationReplies(sys: Settings, s: State, c: Call, a: Registration)
    requires c.action == Register(a)
    ensures RepliesFit(sys, s, c, DoRegister(sys, s, c, a).1)
  {
    hide Emit, NextTitleNo;
  }

  lemma {:induction false} TransferReplies(sys: Settings, s: State, c: Call, a: Transferring)
    requires c.action == OnTransfer(a) && !a.Approve?
    ensures RepliesFit(sys, s, c, DoTransfer(s, c, a).1)
  {
    hide Emit;
  }

  lemma {:induction false} ReviewReplies(sys: Settings, s: State, c: Call, a: Reviewing)
    requires c.action == OnReview(a)
    ensures RepliesFit(sys, s, c, DoReview(sys, s, c, a).1)
  {
    hide Emit, OpenDispute, Unfreeze, WithStatus, Reviewed;
  }

  lemma {:induction false} DisputeReplies(sys: Settings, s: State, c: Call, a: Disputing)
    requires c.action == OnDispute(a)
    ensures RepliesFit(sys, s, c, DoDispute(s, c, a).1)
  {
    hide Emit, Unfreeze, WithStatus;
  }

  /**
   A request, approvals apart, goes through exactly when its role has it, the
   rows it names are there and in a state it starts from, and its inserts
   break no key; and the reply names one of these as its reason.
   */
  lemma {:induction false} GoesThroughIff(sys: Settings, s: State, c: Call)
    requires Enabled(s, c) && !c.action.Background? && !(c.action.OnTransfer? && c.action.transferring.Approve?)
    ensures
      var reply := Handle(sys, s, c).1;
      && (reply == Forbidden <==> !MayAsk(c.user.role, c.action))
      && (reply != Forbidden ==> RepliesFit(sys, s, c, reply))
  {
    hide DoRegister, DoTransfer, DoReview, DoDispute, DoWork, HasRole, Allowed, RepliesFit, MayAsk;
    ForbiddenIff(sys, s, c);
    match c.action {
      case Register(a) => RegistrationReplies(sys, s, c, a);
      case OnTransfer(a) => TransferReplies(sys, s, c, a);
      case OnReview(a) => ReviewReplies(sys, s, c, a);
      case OnDispute(a) => DisputeReplies(sys, s, c, a);
    }
  }

  /** Nothing starts on a frozen or disputed parcel: no transfer is entered and no title issued. */
  lemma {:induction false} HeldParcelsStartNothing(sys: Settings, s: State, c: Call, parcel: string)
    requires Enabled(s, c) && IsHeld(s, parcel)
    ensures
      var t := Step(sys, s, c);
      && (forall id :: id in t.transfers && t.transfers[id].parcel == parcel ==> id in s.transfers)
      && (forall i :: 0 <= i < |t.titles| && t.titles[i].parcel == parcel ==> i < |s.titles| && t.titles[i] == s.titles[i])
  {
    hide Step, Enabled, OwnersCaused;
    TransfersAreCaused(sys, s, c);
    TitlesAndOwnersAreCaused(sys, s, c);
  }

  // ---- what the ledger is told

  /** The event of a request that went through, and the district whose ledger it goes to. */
  predicate IsToldOf(s: State, c: Call, district: int, event: Event) {
    match c.action
    case Register(NewParcel(id, d, _)) => district == d && event == Other("PARCEL_REGISTERED", id)
    case Register(NewTitle(parcel, to, _)) =>
      parcel in s.parcels && district == s.parcels[parcel].district && event == TitleIssued(parcel, to)
    case OnTransfer(NewTransfer(id, parcel, _, _)) =>
      parcel in s.parcels && district == s.parcels[parcel].district && event == Other("TRANSFER_INITIATED", id)
    case OnTransfer(Reject(id)) => id in s.transfers && district == s.transfers[id].district && event == Other("TRANSFER_REJECTED", id)
    case OnReview(Affirm(id, _)) => id in s.reviews && district == s.reviews[id].district && event == Other("FRAUD_HUMAN_AFFIRMED", id)
    case OnReview(Dismiss(id)) => id in s.reviews && district == s.reviews[id].district && event == Other("FRAUD_HUMAN_DISMISSED", id)
    case OnReview(NewAppeal(id, _, _, _)) => district == (if c.user.district.Some? then c.user.district.value else 0) && event == Other("FRAUD_APPEAL_FILED", id)
    case OnReview(DecideAppeal(id, _)) => district == (if c.user.district.Some? then c.user.district.value else 0) && event == Other("FRAUD_APPEAL_RESOLVED", id)
    case OnDispute(NewDispute(id, parcel, _, _)) =>
      parcel in s.parcels && district == s.parcels[parcel].district && event == Other("DISPUTE_FILED", id)
    case OnDispute(TakeUp(id)) => id in s.disputes && district == s.disputes[id].district && event == Other("DISPUTE_REVIEWED", id)
    case OnDispute(Decide(id, _)) => id in s.disputes && district == s.disputes[id].district && event == Other("DISPUTE_RESOLVED", id)
    case _ => false
  }

  /** One event more in one ledger, and every other ledger as it was. */
  ghost predicate OneMoreEvent(s: State, c: Call, t: State) {
    exists district, event ::
      && IsToldOf(s, c, district, event)
      && EventsOf(t.ledger, district) == EventsOf(s.ledger, district) + [event]
      && forall d :: d != district ==> EventsOf(t.ledger, d) == EventsOf(s.ledger, d)
  }

  lemma {:induction false} EmitAddsOne(s: State, c: Call, t: State, district: int, event: Event)
    requires IsToldOf(s, c, district, event) && t.ledger == Emit(s.ledger, true, district, event)
    ensures OneMoreEvent(s, c, t)
  {
    hide IsToldOf;
  }

  lemma {:induction false} RegisterIsTold(sys: Settings, s: State, c: Call, a: Registration)
    requires c.action == Register(a) && (a.NewParcel? || a.NewTitle?)
    ensures
      var (t, reply) := DoRegister(sys, s, c, a);
      if reply == Ok && c.logged then OneMoreEvent(s, c, t) else t.ledger == s.ledger
  {
    hide Emit, TitleTaken, NextTitleNo, OneMoreEvent;
    NotToldNotChanged(s.ledger);
    var (t, reply) := DoRegister(sys, s, c, a);
    if reply == Ok && c.logged {
      match a {
        case NewParcel(id, d, _) => EmitAddsOne(s, c, t, d, Other("PARCEL_REGISTERED", id));
        case NewTitle(parcel, to, _) => EmitAddsOne(s, c, t, s.parcels[parcel].district, TitleIssued(parcel, to));
      }
    }
  }

  lemma {:induction false} NotToldNotChanged(ledger: Ledger)
    ensures forall d, event {:trigger Emit(ledger, false, d, event)} :: Emit(ledger, false, d, event) == ledger
  {
  }

  lemma {:induction false} TransferIsTold(s: State, c: Call, a: Transferring)
    requires c.action == OnTransfer(a) && !a.Approve?
    ensures
      var (t, reply) := DoTransfer(s, c, a);
      if reply == Ok && c.logged then OneMoreEvent(s, c, t) else t.ledger == s.ledger
  {
    hide Emit, OneMoreEvent;
    NotToldNotChanged(s.ledger);
    var (t, reply) := DoTransfer(s, c, a);
    if reply == Ok && c.logged {
      match a {
        case NewTransfer(id, parcel, _, _) => EmitAddsOne(s, c, t, s.parcels[parcel].district, Other("TRANSFER_INITIATED", id));
        case Reject(id) => EmitAddsOne(s, c, t, s.transfers[id].district, Other("TRANSFER_REJECTED", id));
      }
    }
  }

  lemma {:induction false} AffirmIsTold(sys: Settings, s: State, c: Call, id: string, disputeId: string)
    requires c.action == OnReview(Affirm(id, disputeId))
    ensures
      var (t, reply) := AffirmReview(sys, s, c.user, c.logged, id, disputeId);
      if reply == Ok && c.logged then OneMoreEvent(s, c, t) else t.ledger == s.ledger
  {
    hide Emit, OneMoreEvent, OpenDispute, WithStatus, FreezeTarget, Reviewed;
    NotToldNotChanged(s.ledger);
    var (t, reply) := AffirmReview(sys, s, c.user, c.logged, id, disputeId);
    if reply == Ok && c.logged {
      EmitAddsOne(s, c, t, s.reviews[id].district, Other("FRAUD_HUMAN_AFFIRMED", id));
    }
  }

  lemma {:induction false} ReviewIsTold(sys: Settings, s: State, c: Call, a: Reviewing)
    requires c.action == OnReview(a)
    ensures
      var (t, reply) := DoReview(sys, s, c, a);
      if reply == Ok && c.logged then OneMoreEvent(s, c, t) else t.ledger == s.ledger
  {
    hide Emit, OneMoreEvent, AffirmReview, Unfreeze, ReliefTarget, Reviewed;
    NotToldNotChanged(s.ledger);
    var (t, reply) := DoReview(sys, s, c, a);
    match a {
      case Affirm(id, disputeId) => AffirmIsTold(sys, s, c, id, disputeId);
      case Dismiss(id) =>
        if reply == Ok && c.logged {
          EmitAddsOne(s, c, t, s.reviews[id].district, Other("FRAUD_HUMAN_DISMISSED", id));
        }
      case NewAppeal(id, _, _, _) =>
        if reply == Ok && c.logged {
          EmitAddsOne(s, c, t, UserDistrict(c.user), Other("FRAUD_APPEAL_FILED", id));
        }
      case DecideAppeal(id, _) =>
        if reply == Ok && c.logged {
          EmitAddsOne(s, c, t, UserDistrict(c.user), Other("FRAUD_APPEAL_RESOLVED", id));
        }
    }
  }

  lemma {:induction false} DisputeIsTold(s: State, c: Call, a: Disputing)
    requires c.action == OnDispute(a)
    ensures
      var (t, reply) := DoDispute(s, c, a);
      if reply == Ok && c.logged then OneMoreEvent(s, c, t) else t.ledger == s.ledger
  {
    hide Emit, OneMoreEvent, WithStatus, Unfreeze;
    NotToldNotChanged(s.ledger);
    var (t, reply) := DoDispute(s, c, a);
    if reply == Ok && c.logged {
      match a {
        case NewDispute(id, parcel, _, _) => EmitAddsOne(s, c, t, s.parcels[parcel].district, Other("DISPUTE_FILED", id));
        case TakeUp(id) => EmitAddsOne(s, c, t, s.disputes[id].district, Other("DISPUTE_REVIEWED", id));
        case Decide(id, _) => EmitAddsOne(s, c, t, s.disputes[id].district, Other("DISPUTE_RESOLVED", id));
      }
    }
  }

  /** A request that goes through, approvals apart, adds exactly one event, its own, to its district's ledger, if the append does not fail; any other adds none. */
  lemma {:induction false} OkIsTold(sys: Settings, s: State, c: Call)
    requires Enabled(s, c) && !c.action.Background?
    requires !(c.action.OnTransfer? && c.action.transferring.Approve?)
    requires !(c.action.Register? && (c.action.registration.NewOwner? || c.action.registration.Kyc?))
    ensures
      var (t, reply) := Handle(sys, s, c);
      if reply == Ok && c.logged then OneMoreEvent(s, c, t) else t.ledger == s.ledger
  {
    hide DoRegister, DoTransfer, DoReview, DoDispute, DoWork, HasRole, Allowed, OneMoreEvent;
    match c.action {
      case Register(a) => RegisterIsTold(sys, s, c, a);
      case OnTransfer(a) => TransferIsTold(s, c, a);
      case OnReview(a) => ReviewIsTold(sys, s, c, a);
      case OnDispute(a) => DisputeIsTold(s, c, a);
    }
  }

  /** An escalation run stamps a review exactly when it waits, was not stamped before, and is more than a day old. */
  lemma {:induction false} EscalatedIff(sys: Settings, s: State, c: Call, id: string)
    requires Enabled(s, c) && c.action.Background? && c.action.work.EscalateReviews? && id in s.reviews
    ensures
      var t := Step(sys, s, c);
      && id in t.reviews
      && (t.reviews[id] != s.reviews[id] <==>
            s.reviews[id].state == PENDING_REVIEW && s.reviews[id].escalatedAt.None? && c.now - s.reviews[id].createdAt > 86400.0)
      && (t.reviews[id] != s.reviews[id] ==> t.reviews[id].escalatedAt == Some(c.now))
  {
    hide Escalate;
    EscalationMarks(s, c.logged, c.action.work.order, c.now);
  }

  /** Acting on a score tells the transfer's district once, unless nothing is recommended, the transfer is unknown or the insert fails. */
  lemma {:induction false} ActingIsTold(s: State, logged: bool, transfer: string, recommended: Recommended, reviewId: string, now: real)
    ensures
      var (t, raised) := ActOnScore(s, logged, transfer, recommended, reviewId, now);
      && (raised <==> recommended != NONE && transfer in s.transfers && reviewId in s.reviews
                      && forall r :: r in s.reviews && s.reviews[r].transfer == transfer && s.reviews[r].version == s.version ==>
                           s.reviews[r].state != PENDING_REVIEW)
      && (!logged || raised || recommended == NONE || transfer !in s.transfers ==> t.ledger == s.ledger)
      && (logged && !raised && recommended != NONE && transfer in s.transfers ==>
            var district := s.transfers[transfer].district;
            && EventsOf(t.ledger, district) == EventsOf(s.ledger, district) + [Other("FRAUD_REVIEW_QUEUED", transfer)]
            && forall d :: d != district ==> EventsOf(t.ledger, d) == EventsOf(s.ledger, d))
  {
  }

  /** So does the escalation of one review. */
  lemma {:induction false} EscalationIsTold(s: State, logged: bool, id: string, now: real)
    requires id in s.reviews
    ensures
      var t, district := EscalateOne(s, logged, id, now), s.reviews[id].district;
      && EventsOf(t.ledger, district) == EventsOf(s.ledger, district) + (if logged then [Other("FRAUD_REVIEW_ESCALATED", id)] else [])
      && forall d :: d != district ==> EventsOf(t.ledger, d) == EventsOf(s.ledger, d)
  {
  }
}
