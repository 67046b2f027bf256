/**
 Custody: who can freeze a parcel, what releases it, and whether a frozen or
 disputed parcel always has the open dispute that the citizen can contest.
 */
module Custody {
  import opened Hashing
  import opened Registry
  import opened RegistryFrames
  import opened Gate

  predicate IsFrozen(s: State, parcel: string) {
    parcel in s.parcels && s.parcels[parcel].status == FROZEN
  }

  // ---- what each writer does to the parcels and the disputes

  /** The affirmation cannot insert its dispute. */
  predicate InsertFails(s: State, user: User, disputeId: string) {
    disputeId in s.disputes || user.id !in s.owners
  }

  predicate AffirmsBlock(s: State, id: string) {
    id in s.reviews && s.reviews[id].state == PENDING_REVIEW && FreezeTarget(s, s.reviews[id]).Some?
  }

  lemma {:induction false} AffirmEffect(sys: Settings, s: State, user: User, logged: bool, id: string, disputeId: string)
    ensures
      var t := AffirmReview(sys, s, user, logged, id, disputeId).0;
      if !AffirmsBlock(s, id) then t.parcels == s.parcels && t.disputes == s.disputes
      else
        var parcel := FreezeTarget(s, s.reviews[id]).value;
        if OpenDispute(s.disputes, parcel, {FRAUD}) then t.parcels == WithStatus(s.parcels, parcel, FROZEN) && t.disputes == s.disputes
        else if InsertFails(s, user, disputeId)
        then t.parcels == (if sys.autocommit then WithStatus(s.parcels, parcel, FROZEN) else s.parcels) && t.disputes == s.disputes
        else
          && t.parcels == WithStatus(s.parcels, parcel, FROZEN)
          && t.disputes == s.disputes[disputeId := Dispute(parcel, user.id, FRAUD, UNDER_REVIEW, s.reviews[id].district)]
  {
    hide OpenDispute, Emit, FreezeTarget, Reviewed, WithStatus;
  }

  predicate GrantsRelief(s: State, id: string, upheld: bool) {
    upheld && id in s.appeals && s.appeals[id].state == OPEN && ReliefTarget(s, s.appeals[id]).Some?
  }

  lemma {:induction false} AppealEffect(s: State, user: User, logged: bool, id: string, upheld: bool)
    ensures
      var t := ResolveAppeal(s, user, logged, id, upheld).0;
      && t.disputes == s.disputes
      && t.parcels == if GrantsRelief(s, id, upheld) then Unfreeze(s.parcels, ReliefTarget(s, s.appeals[id]).value) else s.parcels
  {
    hide Emit, ReliefTarget, Unfreeze;
  }

  predicate Files(s: State, user: User, id: string, parcel: string, respondent: Option<string>) {
    parcel in s.parcels && !InsertFails(s, user, id) && (respondent.Some? ==> respondent.value in s.owners)
  }

  lemma {:induction false} FileEffect(s: State, user: User, logged: bool, id: string, parcel: string, respondent: Option<string>, kind: DisputeKind)
    ensures
      var t := FileDispute(s, user, logged, id, parcel, respondent, kind).0;
      if !Files(s, user, id, parcel, respondent) then t.parcels == s.parcels && t.disputes == s.disputes
      else
        && t.parcels == (if kind in CUSTODIAL then WithStatus(s.parcels, parcel, DISPUTED) else s.parcels)
        && t.disputes == s.disputes[id := Dispute(parcel, user.id, kind, FILED, s.parcels[parcel].district)]
  {
    hide Emit, WithStatus;
  }

  lemma {:induction false} DecideEffect(s: State, logged: bool, id: string, outcome: DisputeState)
    ensures
      var t := ResolveDispute(s, logged, id, outcome).0;
      if id !in s.disputes then t.parcels == s.parcels && t.disputes == s.disputes
      else
        && t.parcels == (if outcome in {RESOLVED, DISMISSED} then Unfreeze(s.parcels, s.disputes[id].parcel) else s.parcels)
        && t.disputes == s.disputes[id := s.disputes[id].(state := outcome)]
  {
    hide Emit, Unfreeze;
  }

  /** Parcels are only added or set to a status that needs no dispute. */
  ghost predicate Released(old_: Parcels, new_: Parcels) {
    forall p :: p in new_ ==> new_[p].status in {ACTIVE, TRANSFERRED} || (p in old_ && new_[p].status == old_[p].status)
  }

  lemma {:induction false} RegisterReleases(sys: Settings, s: State, c: Call, a: Registration)
    ensures Released(s.parcels, DoRegister(sys, s, c, a).0.parcels)
  {
    hide Emit, TitleTaken, NextTitleNo, SetKyc, RegisterOwner;
  }

  // ---- the ways into FROZEN

  /** A human who may affirm affirms a pending BLOCK review of a transfer of `parcel`, and the step is not rolled back. */
  predicate Freezes(sys: Settings, s: State, c: Call, parcel: string) {
    && c.action.OnReview? && c.action.reviewing.Affirm?
    && HasRole(c.user, {LAND_OFFICER, REGISTRAR})
    && AffirmsBlock(s, c.action.reviewing.id)
    && FreezeTarget(s, s.reviews[c.action.reviewing.id]) == Some(parcel)
    && parcel in s.parcels
    && (sys.autocommit || OpenDispute(s.disputes, parcel, {FRAUD}) || !InsertFails(s, c.user, c.action.reviewing.disputeId))
  }

  lemma {:induction false} RegisterDoesNotFreeze(sys: Settings, s: State, c: Call, a: Registration, parcel: string)
    ensures IsFrozen(DoRegister(sys, s, c, a).0, parcel) ==> IsFrozen(s, parcel)
  {
    hide DoRegister;
    RegisterReleases(sys, s, c, a);
  }

  lemma {:induction false} TransferDoesNotFreeze(s: State, c: Call, a: Transferring, parcel: string)
    ensures IsFrozen(DoTransfer(s, c, a).0, parcel) ==> IsFrozen(s, parcel)
  {
    hide CreateTransfer, RejectTransfer, ApproveTransfer;
    if a.Approve? {
      ApproveEffect(s, c.logged, a.id, a.scoring, c.now);
    }
  }

  lemma {:induction false} DisputeDoesNotFreeze(s: State, c: Call, a: Disputing, parcel: string)
    ensures IsFrozen(DoDispute(s, c, a).0, parcel) ==> IsFrozen(s, parcel)
  {
    hide FileDispute, ReviewDispute, ResolveDispute;
    match a {
      case NewDispute(id, p, respondent, kind) => FileEffect(s, c.user, c.logged, id, p, respondent, kind);
      case Decide(id, outcome) => DecideEffect(s, c.logged, id, outcome);
      case TakeUp(_) =>
    }
  }

  lemma {:induction false} ReviewFreezesIff(sys: Settings, s: State, c: Call, a: Reviewing, parcel: string)
    requires c.action == OnReview(a) && HasRole(c.user, Allowed(c.action))
    ensures !IsFrozen(s, parcel) ==> (IsFrozen(DoReview(sys, s, c, a).0, parcel) <==> Freezes(sys, s, c, parcel))
  {
    hide AffirmReview, DismissReview, FileAppeal, ResolveAppeal, OpenDispute, FreezeTarget, ReliefTarget, HasRole;
    match a {
      case Affirm(id, disputeId) => AffirmEffect(sys, s, c.user, c.logged, id, disputeId);
      case DecideAppeal(id, upheld) => AppealEffect(s, c.user, c.logged, id, upheld);
      case _ =>
    }
  }

  /** A parcel becomes FROZEN exactly when a human affirms a pending BLOCK review of a transfer of it. */
  lemma {:induction false} OnlyAffirmingFreezes(sys: Settings, s: State, c: Call, parcel: string)
    requires Enabled(s, c) && !IsFrozen(s, parcel)
    ensures IsFrozen(Step(sys, s, c), parcel) <==> Freezes(sys, s, c, parcel)
  {
    hide DoRegister, DoTransfer, DoReview, DoDispute, DoWork, HasRole, OpenDispute, FreezeTarget, AffirmsBlock;
    match c.action {
      case Register(a) => RegisterDoesNotFreeze(sys, s, c, a, parcel);
      case OnTransfer(a) => TransferDoesNotFreeze(s, c, a, parcel);
      case OnReview(a) =>
        if HasRole(c.user, Allowed(c.action)) {
          ReviewFreezesIff(sys, s, c, a, parcel);
        }
      case OnDispute(a) => DisputeDoesNotFreeze(s, c, a, parcel);
      case Background(w) => WorkIsFramed(s, c, w);
    }
  }

  // ---- the ways out of FROZEN

  /** What releases a frozen parcel: the end of any dispute about it, an upheld appeal, a completed transfer, a further custodial dispute. */
  predicate Releases(s: State, c: Call, parcel: string) {
    match c.action
    case OnDispute(Decide(id, outcome)) =>
      HasRole(c.user, {REGISTRAR}) && id in s.disputes && s.disputes[id].parcel == parcel && outcome in {RESOLVED, DISMISSED}
    case OnDispute(NewDispute(id, p, respondent, kind)) => Files(s, c.user, id, p, respondent) && p == parcel && kind in CUSTODIAL
    case OnReview(DecideAppeal(id, upheld)) =>
      HasRole(c.user, {AUDITOR, REGISTRAR}) && GrantsRelief(s, id, upheld) && ReliefTarget(s, s.appeals[id]) == Some(parcel)
    case OnTransfer(Approve(id, scoring)) =>
      HasRole(c.user, {REGISTRAR, LAND_OFFICER}) && GateOpens(s, id, scoring) && s.transfers[id].parcel == parcel
    case _ => false
  }

  lemma {:induction false} AnyoneMayDispute(user: User)
    ensures HasRole(user, ANYONE)
  {
  }

  lemma {:induction false} RegisterKeepsFrozen(sys: Settings, s: State, c: Call, a: Registration, parcel: string)
    requires IsFrozen(s, parcel)
    ensures IsFrozen(DoRegister(sys, s, c, a).0, parcel)
  {
    hide Emit, TitleTaken, NextTitleNo, SetKyc, RegisterOwner;
  }

  lemma {:induction false} TransferReleasesIff(s: State, c: Call, a: Transferring, parcel: string)
    requires ScoresOk(s.scores, s.version, c.now) && Contexts(s)
    requires c.action == OnTransfer(a) && HasRole(c.user, Allowed(c.action)) && IsFrozen(s, parcel)
    ensures !IsFrozen(DoTransfer(s, c, a).0, parcel) <==> Releases(s, c, parcel)
  {
    hide CreateTransfer, RejectTransfer, ApproveTransfer, HasRole, GateOpens, ScoresOk;
    if a.Approve? {
      ApproveEffect(s, c.logged, a.id, a.scoring, c.now);
      ApprovedIffGateOpens(s, c.logged, a.id, a.scoring, c.now);
      OpenGateHasTransfer(s, a.id, a.scoring);
    }
  }

  lemma {:induction false} OpenGateHasTransfer(s: State, id: string, scoring: Scoring)
    ensures GateOpens(s, id, scoring) ==> id in s.transfers
  {
  }

  lemma {:induction false} ReviewReleasesIff(sys: Settings, s: State, c: Call, a: Reviewing, parcel: string)
    requires Enabled(s, c) && c.action == OnReview(a) && HasRole(c.user, Allowed(c.action)) && IsFrozen(s, parcel)
    ensures !IsFrozen(DoReview(sys, s, c, a).0, parcel) <==> Releases(s, c, parcel)
  {
    hide AffirmReview, DismissReview, FileAppeal, ResolveAppeal, OpenDispute, FreezeTarget, ReliefTarget, HasRole;
    match a {
      case Affirm(id, disputeId) => AffirmEffect(sys, s, c.user, c.logged, id, disputeId);
      case DecideAppeal(id, upheld) => AppealEffect(s, c.user, c.logged, id, upheld);
      case _ =>
    }
  }

  lemma {:induction false} DisputeReleasesIff(sys: Settings, s: State, c: Call, a: Disputing, parcel: string)
    requires Enabled(s, c) && c.action == OnDispute(a) && HasRole(c.user, Allowed(c.action)) && IsFrozen(s, parcel)
    ensures !IsFrozen(DoDispute(s, c, a).0, parcel) <==> Releases(s, c, parcel)
  {
    hide FileDispute, ReviewDispute, ResolveDispute, HasRole, InsertFails;
    match a {
      case NewDispute(id, p, respondent, kind) => FileEffect(s, c.user, c.logged, id, p, respondent, kind);
      case Decide(id, outcome) => DecideEffect(s, c.logged, id, outcome);
      case TakeUp(_) =>
    }
  }

  lemma {:induction false} StepReleasesIff(sys: Settings, s: State, c: Call, parcel: string)
    requires ScoresOk(s.scores, s.version, s.clock) && Contexts(s)
    requires Enabled(s, c) && IsFrozen(s, parcel)
    ensures !IsFrozen(Step(sys, s, c), parcel) <==> Releases(s, c, parcel)
  {
    hide DoRegister, DoTransfer, DoReview, DoDispute, DoWork, HasRole, OpenDispute, ReliefTarget, GateOpens, ScoresOk;
    AnyoneMayDispute(c.user);
    ScoresAge(s.scores, s.version, s.clock, s.version, c.now);
    match c.action {
      case Register(a) => RegisterKeepsFrozen(sys, s, c, a, parcel);
      case OnTransfer(a) =>
        if HasRole(c.user, Allowed(c.action)) {
          TransferReleasesIff(s, c, a, parcel);
        }
      case OnReview(a) =>
        if HasRole(c.user, Allowed(c.action)) {
          ReviewReleasesIff(sys, s, c, a, parcel);
        }
      case OnDispute(a) =>
        if HasRole(c.user, Allowed(c.action)) {
          DisputeReleasesIff(sys, s, c, a, parcel);
        }
      case Background(w) => WorkIsFramed(s, c, w);
    }
  }

  /** In every reachable state, a frozen parcel is released exactly in these four ways. */
  lemma {:induction false} ReleasedIff(sys: Settings, calls: seq<Call>, c: Call, parcel: string)
    requires Enabled(Run(sys, EMPTY, calls), c) && IsFrozen(Run(sys, EMPTY, calls), parcel)
    ensures
      var s := Run(sys, EMPTY, calls);
      !IsFrozen(Step(sys, s, c), parcel) <==> Releases(s, c, parcel)
  {
    hide Run, Step, Enabled, IsFrozen, Releases, ScoresOk, Contexts;
    EmptyKeepsGate();
    RunKeepsGate(sys, EMPTY, calls);
    StepReleasesIff(sys, Run(sys, EMPTY, calls), c, parcel);
  }

  // ---- every held parcel has an open dispute

  predicate Held(parcels: Parcels, disputes: map<string, Dispute>, p: string)
    requires p in parcels
  {
    && (parcels[p].status == FROZEN ==> OpenDispute(disputes, p, {FRAUD}))
    && (parcels[p].status == DISPUTED ==> OpenDispute(disputes, p, CUSTODIAL))
  }

  ghost predicate Contestable(s: State) {
    forall p :: p in s.parcels ==> Held(s.parcels, s.disputes, p)
  }

  /** The one step that breaks it: the parcel is frozen, and then the dispute cannot be inserted. */
  predicate FreezesAlone(sys: Settings, s: State, c: Call) {
    && sys.autocommit
    && c.action.OnReview? && c.action.reviewing.Affirm?
    && HasRole(c.user, {LAND_OFFICER, REGISTRAR})
    && AffirmsBlock(s, c.action.reviewing.id)
    && var parcel := FreezeTarget(s, s.reviews[c.action.reviewing.id]).value;
       parcel in s.parcels && !OpenDispute(s.disputes, parcel, {FRAUD}) && InsertFails(s, c.user, c.action.reviewing.disputeId)
  }

  /** More disputes, or disputes that stay open, keep what is open. */
  lemma {:induction false} StillOpen(old_: map<string, Dispute>, new_: map<string, Dispute>, p: string, kinds: set<DisputeKind>)
    requires OpenDispute(old_, p, kinds)
    requires forall d :: d in old_ && old_[d].parcel == p && IsOpen(old_[d]) ==>
               d in new_ && new_[d].parcel == p && new_[d].kind == old_[d].kind && IsOpen(new_[d])
    ensures OpenDispute(new_, p, kinds)
  {
  }

  lemma {:induction false} ReleasedStaysContestable(s: State, t: State)
    requires Contestable(s) && Released(s.parcels, t.parcels) && t.disputes == s.disputes
    ensures Contestable(t)
  {
    hide OpenDispute;
    forall p | p in t.parcels ensures Held(t.parcels, t.disputes, p) {
      if p in s.parcels {
        assert Held(s.parcels, s.disputes, p);
      }
    }
  }

  lemma {:induction false} RegisterStaysContestable(sys: Settings, s: State, c: Call, a: Registration)
    requires Contestable(s)
    ensures Contestable(DoRegister(sys, s, c, a).0)
  {
    hide DoRegister, Contestable;
    RegisterReleases(sys, s, c, a);
    RegisterIsFramed(sys, s, c, a);
    ReleasedStaysContestable(s, DoRegister(sys, s, c, a).0);
  }

  lemma {:induction false} TransferStaysContestable(s: State, c: Call, a: Transferring)
    requires Contestable(s)
    ensures Contestable(DoTransfer(s, c, a).0)
  {
    hide CreateTransfer, RejectTransfer, ApproveTransfer, Contestable;
    TransferIsFramed(s, c, a);
    if a.Approve? {
      ApproveEffect(s, c.logged, a.id, a.scoring, c.now);
    }
    ReleasedStaysContestable(s, DoTransfer(s, c, a).0);
  }

  /** Adding disputes, and setting a status that one of them justifies. */
  lemma {:induction false} HoldingIsContestable(s: State, t: State, parcel: string, status: ParcelStatus)
    requires Contestable(s)
    requires forall d :: d in s.disputes ==> d in t.disputes && t.disputes[d] == s.disputes[d]
    requires t.parcels == s.parcels
          || (t.parcels == WithStatus(s.parcels, parcel, status)
              && (status == FROZEN ==> OpenDispute(t.disputes, parcel, {FRAUD}))
              && (status == DISPUTED ==> OpenDispute(t.disputes, parcel, CUSTODIAL)))
    ensures Contestable(t)
  {
    hide OpenDispute;
    forall p | p in t.parcels ensures Held(t.parcels, t.disputes, p) {
      assert Held(s.parcels, s.disputes, p);
      if OpenDispute(s.disputes, p, {FRAUD}) {
        StillOpen(s.disputes, t.disputes, p, {FRAUD});
      }
      if OpenDispute(s.disputes, p, CUSTODIAL) {
        StillOpen(s.disputes, t.disputes, p, CUSTODIAL);
      }
    }
  }

  lemma {:induction false} AffirmContestableIff(sys: Settings, s: State, c: Call, id: string, disputeId: string)
    requires Contestable(s) && c.action == OnReview(Affirm(id, disputeId)) && HasRole(c.user, {LAND_OFFICER, REGISTRAR})
    ensures Contestable(AffirmReview(sys, s, c.user, c.logged, id, disputeId).0) <==> !FreezesAlone(sys, s, c)
  {
    hide AffirmReview, Contestable, FreezeTarget, HasRole;
    AffirmEffect(sys, s, c.user, c.logged, id, disputeId);
    var t := AffirmReview(sys, s, c.user, c.logged, id, disputeId).0;
    if FreezesAlone(sys, s, c) {
      FrozenAlone(t, FreezeTarget(s, s.reviews[id]).value);
    } else if t.parcels == s.parcels && t.disputes == s.disputes {
      ReleasedStaysContestable(s, t);
    } else {
      var parcel := FreezeTarget(s, s.reviews[id]).value;
      assert !OpenDispute(s.disputes, parcel, {FRAUD}) && disputeId in t.disputes ==> IsOpen(t.disputes[disputeId]);
      HoldingIsContestable(s, t, parcel, FROZEN);
    }
  }

  lemma {:induction false} FrozenAlone(t: State, parcel: string)
    requires parcel in t.parcels && t.parcels[parcel].status == FROZEN && !OpenDispute(t.disputes, parcel, {FRAUD})
    ensures !Contestable(t)
  {
    assert !Held(t.parcels, t.disputes, parcel);
  }

  lemma {:induction false} ReviewContestableIff(sys: Settings, s: State, c: Call, a: Reviewing)
    requires Contestable(s) && c.action == OnReview(a) && HasRole(c.user, Allowed(c.action))
    ensures Contestable(DoReview(sys, s, c, a).0) <==> !FreezesAlone(sys, s, c)
  {
    hide AffirmReview, DismissReview, FileAppeal, ResolveAppeal, Contestable, HasRole, OpenDispute, FreezeTarget, ReliefTarget;
    match a {
      case Affirm(id, disputeId) => AffirmContestableIff(sys, s, c, id, disputeId);
      case DecideAppeal(id, upheld) =>
        AppealEffect(s, c.user, c.logged, id, upheld);
        ReleasedStaysContestable(s, DoReview(sys, s, c, a).0);
      case _ => ReleasedStaysContestable(s, DoReview(sys, s, c, a).0);
    }
  }

  lemma {:induction false} NewDisputeIsOpen(disputes: map<string, Dispute>, id: string, d: Dispute, kinds: set<DisputeKind>)
    requires d.state == FILED && d.kind in kinds
    ensures OpenDispute(disputes[id := d], d.parcel, kinds)
  {
    var more := disputes[id := d];
    assert id in more && more[id].parcel == d.parcel && more[id].kind in kinds && IsOpen(more[id]);
  }

  lemma {:induction false} FileStaysContestable(s: State, user: User, logged: bool, id: string, parcel: string, respondent: Option<string>, kind: DisputeKind)
    requires Contestable(s)
    ensures Contestable(FileDispute(s, user, logged, id, parcel, respondent, kind).0)
  {
    hide FileDispute, Contestable, OpenDispute, WithStatus;
    FileEffect(s, user, logged, id, parcel, respondent, kind);
    if Files(s, user, id, parcel, respondent) && kind in CUSTODIAL {
      NewDisputeIsOpen(s.disputes, id, Dispute(parcel, user.id, kind, FILED, s.parcels[parcel].district), CUSTODIAL);
    }
    HoldingIsContestable(s, FileDispute(s, user, logged, id, parcel, respondent, kind).0, parcel, DISPUTED);
  }

  /** Changing the state of one dispute, either to an open one or together with the release of its parcel. */
  lemma {:induction false} DecisionIsContestable(s: State, t: State, id: string, state: DisputeState)
    requires Contestable(s) && id in s.disputes && t.disputes == s.disputes[id := s.disputes[id].(state := state)]
    requires
      if state in {RESOLVED, DISMISSED} then t.parcels == Unfreeze(s.parcels, s.disputes[id].parcel)
      else t.parcels == s.parcels
    ensures Contestable(t)
  {
    hide OpenDispute;
    forall p | p in t.parcels ensures Held(t.parcels, t.disputes, p) {
      assert Held(s.parcels, s.disputes, p);
      if state !in {RESOLVED, DISMISSED} || p != s.disputes[id].parcel {
        if OpenDispute(s.disputes, p, {FRAUD}) {
          StillOpen(s.disputes, t.disputes, p, {FRAUD});
        }
        if OpenDispute(s.disputes, p, CUSTODIAL) {
          StillOpen(s.disputes, t.disputes, p, CUSTODIAL);
        }
      }
    }
  }

  lemma {:induction false} DisputeStaysContestable(s: State, c: Call, a: Disputing)
    requires Contestable(s) && (a.Decide? ==> a.outcome in {RESOLVED, DISMISSED, ESCALATED_COURT})
    ensures Contestable(DoDispute(s, c, a).0)
  {
    hide FileDispute, ResolveDispute, Contestable, Unfreeze, Emit;
    match a {
      case NewDispute(id, p, respondent, kind) => FileStaysContestable(s, c.user, c.logged, id, p, respondent, kind);
      case Decide(id, outcome) =>
        DecideEffect(s, c.logged, id, outcome);
        if id in s.disputes {
          DecisionIsContestable(s, DoDispute(s, c, a).0, id, outcome);
        } else {
          ReleasedStaysContestable(s, DoDispute(s, c, a).0);
        }
      case TakeUp(id) =>
        if id in s.disputes {
          DecisionIsContestable(s, DoDispute(s, c, a).0, id, UNDER_REVIEW);
        }
    }
  }

  lemma {:induction false} SameTables(s: State, t: State)
    requires Contestable(s) && t.parcels == s.parcels && t.disputes == s.disputes
    ensures Contestable(t)
  {
    hide OpenDispute;
    forall p | p in t.parcels ensures Held(t.parcels, t.disputes, p) {
      assert Held(s.parcels, s.disputes, p);
    }
  }

  /** One step keeps every held parcel contestable exactly when it is not a freeze whose dispute cannot be inserted. */
  lemma {:induction false} StepContestableIff(sys: Settings, s: State, c: Call)
    requires Contestable(s) && Enabled(s, c)
    ensures Contestable(Step(sys, s, c)) <==> !FreezesAlone(sys, s, c)
  {
    hide DoRegister, DoTransfer, DoReview, DoDispute, DoWork, HasRole, OpenDispute, Contestable, FreezeTarget, AffirmsBlock;
    var after := Handle(sys, s, c).0;
    if HasRole(c.user, Allowed(c.action)) {
      match c.action {
        case Register(a) => RegisterStaysContestable(sys, s, c, a);
        case OnTransfer(a) => TransferStaysContestable(s, c, a);
        case OnReview(a) => ReviewContestableIff(sys, s, c, a);
        case OnDispute(a) => DisputeStaysContestable(s, c, a);
        case Background(w) =>
          WorkIsFramed(s, c, w);
          SameTables(s, after);
      }
    }
    if Contestable(after) {
      SameTables(after, Step(sys, s, c));
    }
    if Contestable(Step(sys, s, c)) {
      SameTables(Step(sys, s, c), after);
    }
  }

  /** Every state of the run is contestable. */
  ghost predicate AlwaysContestable(sys: Settings, calls: seq<Call>) {
    Contestable(Run(sys, EMPTY, calls)) && (calls == [] || AlwaysContestable(sys, calls[..|calls| - 1]))
  }

  predicate SomeFreezesAlone(sys: Settings, calls: seq<Call>) {
    && calls != []
    && var s, c := Run(sys, EMPTY, calls[..|calls| - 1]), calls[|calls| - 1];
       SomeFreezesAlone(sys, calls[..|calls| - 1]) || (Enabled(s, c) && FreezesAlone(sys, s, c))
  }

  /** Over whole runs: a frozen parcel always has an open FRAUD dispute, and a disputed one an open custodial dispute, exactly when no step freezes alone. */
  lemma {:induction false} RunContestableIff(sys: Settings, calls: seq<Call>)
    ensures AlwaysContestable(sys, calls) <==> !SomeFreezesAlone(sys, calls)
  {
    hide FreezesAlone, Enabled, Step, Contestable;
    if calls == [] {
      EmptyIsContestable();
    } else {
      var before, c := calls[..|calls| - 1], calls[|calls| - 1];
      RunContestableIff(sys, before);
      var s := Run(sys, EMPTY, before);
      if AlwaysContestable(sys, before) && Enabled(s, c) {
        StepContestableIff(sys, s, c);
      }
    }
  }

  lemma {:induction false} EmptyIsContestable()
    ensures Contestable(EMPTY)
  {
  }

  /** With transactions that roll back it is unconditional. */
  lemma {:induction false} TransactionsAreContestable(sys: Settings, calls: seq<Call>)
    requires !sys.autocommit
    ensures AlwaysContestable(sys, calls) && Contestable(Run(sys, EMPTY, calls))
  {
    hide Run, Contestable;
    TransactionsFreezeNothingAlone(sys, calls);
    RunContestableIff(sys, calls);
  }

  lemma {:induction false} TransactionsFreezeNothingAlone(sys: Settings, calls: seq<Call>)
    requires !sys.autocommit
    ensures !SomeFreezesAlone(sys, calls)
  {
    hide Run, Enabled;
    if calls != [] {
      TransactionsFreezeNothingAlone(sys, calls[..|calls| - 1]);
    }
  }

  // ---- behind every frozen parcel stands a recorded human decision

  predicate AffirmedFor(s: State, parcel: string) {
    exists r | r in s.reviews ::
      && s.reviews[r].state == HUMAN_AFFIRMED && s.reviews[r].recommended == BLOCK && s.reviews[r].reviewedBy.Some?
      && s.reviews[r].transfer in s.transfers && s.transfers[s.reviews[r].transfer].parcel == parcel
  }

  lemma {:induction false} AffirmedStays(s: State, t: State, parcel: string)
    requires Kept(s, t) && AffirmedFor(s, parcel)
    ensures AffirmedFor(t, parcel)
  {
  }

  lemma {:induction false} FreezingRecords(sys: Settings, s: State, c: Call, parcel: string)
    requires Enabled(s, c) && Freezes(sys, s, c, parcel)
    ensures AffirmedFor(Step(sys, s, c), parcel)
  {
    hide OpenDispute, WithStatus, Emit;
    var t, id := Step(sys, s, c), c.action.reviewing.id;
    assert id in t.reviews && t.reviews[id].state == HUMAN_AFFIRMED && t.reviews[id].transfer == s.reviews[id].transfer;
  }

  /** In every reachable state, a frozen parcel has an affirmed BLOCK review that names its reviewer. */
  lemma {:induction false} FrozenWasAffirmed(sys: Settings, calls: seq<Call>, parcel: string)
    ensures IsFrozen(Run(sys, EMPTY, calls), parcel) ==> AffirmedFor(Run(sys, EMPTY, calls), parcel)
  {
    hide AffirmedFor, Enabled, Step, Freezes, Kept;
    if calls != [] {
      var before, c := calls[..|calls| - 1], calls[|calls| - 1];
      FrozenWasAffirmed(sys, before, parcel);
      var s := Run(sys, EMPTY, before);
      if Enabled(s, c) {
        if IsFrozen(s, parcel) {
          StepKeeps(sys, s, c);
          AffirmedStays(s, Step(sys, s, c), parcel);
        } else {
          OnlyAffirmingFreezes(sys, s, c, parcel);
          if Freezes(sys, s, c, parcel) {
            FreezingRecords(sys, s, c, parcel);
          }
        }
      }
    }
  }

  // ---- the run that freezes alone

  const OFFICER := User("officer", LAND_OFFICER, Some(1))

  const SURVEY := Call(User("surveyor", SURVEYOR, Some(1)), 0.0, true, Register(NewParcel("plot", 1, None)))
  const BUYER := Call(User("clerk", REGISTRAR, Some(1)), 0.0, true, Register(NewOwner("buyer")))
  const SALE := Call(OFFICER, 0.0, true, OnTransfer(NewTransfer("sale", "plot", None, "buyer")))
  const ALERT := Call(OFFICER, 0.0, true, Background(Stream("sale", true, Scores(BLOCK, "alert"))))
  const FREEZE := Call(OFFICER, 0.0, true, OnReview(Affirm("alert", "case")))

  lemma {:induction false} RunOne(sys: Settings, s: State, calls: seq<Call>, c: Call)
    requires Enabled(Run(sys, s, calls), c)
    ensures Run(sys, s, calls + [c]) == Step(sys, Run(sys, s, calls), c)
  {
    hide Enabled, Step;
    assert (calls + [c])[..|calls|] == calls;
  }

  const SURVEYED := EMPTY.(
    parcels := map["plot" := Parcel(1, None, ACTIVE)],
    ledger := map[1 := [Other("PARCEL_REGISTERED", "plot")]])

  const LISTED := SURVEYED.(owners := map["buyer" := false])

  const SOLD := LISTED.(
    transfers := map["sale" := Transfer("plot", None, "buyer", PENDING, 1)],
    jobs := [Job("sale", Waiting, 0, None)],
    ledger := map[1 := [Other("PARCEL_REGISTERED", "plot"), Other("TRANSFER_INITIATED", "sale")]])

  /** What the registry holds when the officer looks at the alert. */
  const ALERTED := SOLD.(
    scores := map["sale" := [Score(0, BLOCK, 0.0)]],
    reviews := map["alert" := Review("sale", 1, BLOCK, 0, PENDING_REVIEW, 0.0, None, None)],
    ledger := map[1 := [Other("PARCEL_REGISTERED", "plot"), Other("TRANSFER_INITIATED", "sale"), Other("FRAUD_REVIEW_QUEUED", "sale")]])

  lemma {:induction false} SurveyStep(sys: Settings)
    requires 1 in sys.districts
    ensures Enabled(EMPTY, SURVEY) && Step(sys, EMPTY, SURVEY) == SURVEYED
  {
    var t := Step(sys, EMPTY, SURVEY);
    assert t.parcels == SURVEYED.parcels;
    assert EventsOf(EMPTY.ledger, 1) + [Other("PARCEL_REGISTERED", "plot")] == EventsOf(SURVEYED.ledger, 1);
    assert t.ledger == SURVEYED.ledger;
  }

  lemma {:induction false} BuyerStep(sys: Settings)
    ensures Enabled(SURVEYED, BUYER) && Step(sys, SURVEYED, BUYER) == LISTED
  {
    assert Step(sys, SURVEYED, BUYER).owners == LISTED.owners;
  }

  lemma {:induction false} SaleStep(sys: Settings)
    ensures Enabled(LISTED, SALE) && Step(sys, LISTED, SALE) == SOLD
  {
    var t := Step(sys, LISTED, SALE);
    assert t.transfers == SOLD.transfers;
    assert t.jobs == SOLD.jobs;
    assert EventsOf(LISTED.ledger, 1) + [Other("TRANSFER_INITIATED", "sale")] == EventsOf(SOLD.ledger, 1);
    assert t.ledger == SOLD.ledger;
  }

  lemma {:induction false} AlertStep(sys: Settings)
    ensures Enabled(SOLD, ALERT) && Step(sys, SOLD, ALERT) == ALERTED
  {
    var t := Step(sys, SOLD, ALERT);
    assert !UpToDate(SOLD, "sale") && HasContext(SOLD, "sale");
    assert t.scores == ALERTED.scores;
    assert t.reviews == ALERTED.reviews;
    assert EventsOf(SOLD.ledger, 1) + [Other("FRAUD_REVIEW_QUEUED", "sale")] == EventsOf(ALERTED.ledger, 1);
    assert t.ledger == ALERTED.ledger;
  }

  /** A reviewer who is not a registered land owner, on a connection that commits every statement: the parcel stays frozen and there is no dispute to contest. */
  lemma {:induction false} UnlistedReviewerFreezesAlone(sys: Settings)
    requires sys.autocommit && 1 in sys.districts
    ensures
      var t := Run(sys, EMPTY, [SURVEY, BUYER, SALE, ALERT, FREEZE]);
      IsFrozen(t, "plot") && t.disputes == map[]
  {
    hide Step;
    RunOne(sys, EMPTY, [], SURVEY);
    assert [] + [SURVEY] == [SURVEY];
    SurveyStep(sys);
    BuyerStep(sys);
    RunOne(sys, EMPTY, [SURVEY], BUYER);
    assert [SURVEY] + [BUYER] == [SURVEY, BUYER];
    SaleStep(sys);
    RunOne(sys, EMPTY, [SURVEY, BUYER], SALE);
    assert [SURVEY, BUYER] + [SALE] == [SURVEY, BUYER, SALE];
    AlertStep(sys);
    RunOne(sys, EMPTY, [SURVEY, BUYER, SALE], ALERT);
    assert [SURVEY, BUYER, SALE] + [ALERT] == [SURVEY, BUYER, SALE, ALERT];
    FreezeStep(sys);
    RunOne(sys, EMPTY, [SURVEY, BUYER, SALE, ALERT], FREEZE);
    assert [SURVEY, BUYER, SALE, ALERT] + [FREEZE] == [SURVEY, BUYER, SALE, ALERT, FREEZE];
  }

  lemma {:induction false} FreezeStep(sys: Settings)
    requires sys.autocommit
    ensures Enabled(ALERTED, FREEZE)
    ensures var t := Step(sys, ALERTED, FREEZE); IsFrozen(t, "plot") && t.disputes == map[]
  {
    hide AffirmReview;
    AffirmEffect(sys, ALERTED, OFFICER, true, "alert", "case");
    assert "plot" in ALERTED.parcels;
  }
}
