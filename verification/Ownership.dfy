/** The register can be rebuilt from the ledger: replaying a district's events gives the current owners. */
module Ownership {
  import opened Hashing
  import opened Registry
  import opened RegistryFrames
  import opened Gate
  import Custody

  predicate Moves(e: Event, parcel: string) {
    !e.Other? && e.parcel == parcel
  }

  /** The owner after the events, starting from the owner the parcel was registered with. */
  function Replay(events: seq<Event>, parcel: string, first: Option<string>): Option<string> {
    if events == [] then first
    else if Moves(events[|events| - 1], parcel) then Some(events[|events| - 1].owner)
    else Replay(events[..|events| - 1], parcel, first)
  }

  lemma {:induction false} ReplayAppend(events: seq<Event>, e: Event, parcel: string, first: Option<string>)
    ensures Replay(events + [e], parcel, first) == if Moves(e, parcel) then Some(e.owner) else Replay(events, parcel, first)
  {
    assert (events + [e])[..|events|] == events;
  }

  // ---- ledgers to which only other events are added

  predicate OthersAdded(old_: seq<Event>, new_: seq<Event>) {
    old_ <= new_ && forall i :: |old_| <= i < |new_| ==> new_[i].Other?
  }

  ghost predicate OnlyOthers(old_: Ledger, new_: Ledger) {
    forall d :: OthersAdded(EventsOf(old_, d), EventsOf(new_, d))
  }

  lemma {:induction false} ReplayIgnoresOthers(old_: seq<Event>, new_: seq<Event>, parcel: string, first: Option<string>)
    requires OthersAdded(old_, new_)
    ensures Replay(new_, parcel, first) == Replay(old_, parcel, first)
  {
    if |new_| > |old_| {
      ReplayIgnoresOthers(old_, new_[..|new_| - 1], parcel, first);
    } else {
      assert new_ == old_;
    }
  }

  lemma {:induction false} EmitsOther(ledger: Ledger, logged: bool, district: int, kind: string, subject: string)
    ensures OnlyOthers(ledger, ledger)
    ensures OnlyOthers(ledger, Emit(ledger, logged, district, Other(kind, subject)))
  {
  }

  lemma {:induction false} OthersTransitive(a: Ledger, b: Ledger, c: Ledger)
    requires OnlyOthers(a, b) && OnlyOthers(b, c)
    ensures OnlyOthers(a, c)
  {
    forall d ensures OthersAdded(EventsOf(a, d), EventsOf(c, d)) {
      assert OthersAdded(EventsOf(a, d), EventsOf(b, d)) && OthersAdded(EventsOf(b, d), EventsOf(c, d));
    }
  }

  lemma {:induction false} ScoringLedger(s: State, logged: bool, id: string, scoring: Scoring, now: real)
    ensures OnlyOthers(s.ledger, ScoreNow(s, logged, id, scoring, now).0.ledger)
  {
    hide OnlyOthers, Emit, Latest, OtherVersions, UpToDate, Queued;
    if id in s.transfers {
      EmitsOther(s.ledger, logged, s.transfers[id].district, "FRAUD_REVIEW_QUEUED", id);
    }
    EmitsOther(s.ledger, logged, 0, "", "");
  }

  lemma {:induction false} AttemptsLedger(s: State, logged: bool, picks: seq<nat>, scorings: seq<Scoring>, n: nat, now: real)
    requires n <= |picks| <= |scorings|
    ensures OnlyOthers(s.ledger, Attempts(s, logged, picks, scorings, n, now).ledger)
  {
    hide ScoreNow, OnlyOthers, Settle;
    if n == 0 {
      EmitsOther(s.ledger, logged, 0, "", "");
    } else {
      var before := Attempts(s, logged, picks, scorings, n - 1, now);
      AttemptsLedger(s, logged, picks, scorings, n - 1, now);
      if picks[n - 1] < |before.jobs| {
        ScoringLedger(before, logged, before.jobs[picks[n - 1]].transfer, scorings[n - 1], now);
        OthersTransitive(s.ledger, before.ledger, Attempt(before, logged, picks[n - 1], scorings[n - 1], now).ledger);
      }
    }
  }

  lemma {:induction false} EscalateLedger(s: State, logged: bool, order: seq<string>, now: real)
    ensures OnlyOthers(s.ledger, Escalate(s, logged, order, now).ledger)
  {
    hide OnlyOthers, Emit;
    if order == [] {
      EmitsOther(s.ledger, logged, 0, "", "");
    } else {
      var before, id := Escalate(s, logged, order[..|order| - 1], now), order[|order| - 1];
      EscalateLedger(s, logged, order[..|order| - 1], now);
      if id in before.reviews {
        EmitsOther(before.ledger, logged, before.reviews[id].district, "FRAUD_REVIEW_ESCALATED", id);
        OthersTransitive(s.ledger, before.ledger, Escalate(s, logged, order, now).ledger);
      }
    }
  }

  lemma {:induction false} WorkLedger(s: State, c: Call, w: Work)
    requires w.SweepOutbox? ==> w.limit <= |w.scorings|
    ensures OnlyOthers(s.ledger, DoWork(s, c, w).ledger)
  {
    hide ScoreNow, Attempts, Escalate, OnlyOthers;
    EmitsOther(s.ledger, c.logged, 0, "", "");
    match w {
      case Stream(id, locked, scoring) => ScoringLedger(s, c.logged, id, scoring, c.now);
      case SweepOutbox(limit, scorings) => AttemptsLedger(s, c.logged, Picks(s, limit, c.now), scorings, |Picks(s, limit, c.now)|, c.now);
      case EscalateReviews(order) => EscalateLedger(s, c.logged, order, c.now);
      case Upgrade =>
    }
  }

  lemma {:induction false} ReviewLedger(sys: Settings, s: State, c: Call, a: Reviewing)
    ensures OnlyOthers(s.ledger, DoReview(sys, s, c, a).0.ledger)
  {
    hide OnlyOthers, Emit, WithStatus, Unfreeze, OpenDispute, FreezeTarget, ReliefTarget, Reviewed;
    EmitsOther(s.ledger, c.logged, 0, "", "");
    match a {
      case Affirm(id, _) =>
        if id in s.reviews {
          EmitsOther(s.ledger, c.logged, s.reviews[id].district, "FRAUD_HUMAN_AFFIRMED", id);
        }
      case Dismiss(id) =>
        if id in s.reviews {
          EmitsOther(s.ledger, c.logged, s.reviews[id].district, "FRAUD_HUMAN_DISMISSED", id);
        }
      case NewAppeal(id, _, _, _) => EmitsOther(s.ledger, c.logged, UserDistrict(c.user), "FRAUD_APPEAL_FILED", id);
      case DecideAppeal(id, _) => EmitsOther(s.ledger, c.logged, UserDistrict(c.user), "FRAUD_APPEAL_RESOLVED", id);
    }
  }

  lemma {:induction false} DisputeLedger(s: State, c: Call, a: Disputing)
    ensures OnlyOthers(s.ledger, DoDispute(s, c, a).0.ledger)
  {
    hide OnlyOthers, Emit, WithStatus, Unfreeze;
    EmitsOther(s.ledger, c.logged, 0, "", "");
    match a {
      case NewDispute(id, parcel, _, _) =>
        if parcel in s.parcels {
          EmitsOther(s.ledger, c.logged, s.parcels[parcel].district, "DISPUTE_FILED", id);
        }
      case TakeUp(id) =>
        if id in s.disputes {
          EmitsOther(s.ledger, c.logged, s.disputes[id].district, "DISPUTE_REVIEWED", id);
        }
      case Decide(id, _) =>
        if id in s.disputes {
          EmitsOther(s.ledger, c.logged, s.disputes[id].district, "DISPUTE_RESOLVED", id);
        }
    }
  }

  // ---- the two steps that move ownership

  /** The checks of `issue_title`. */
  predicate TitleIssues(s: State, parcel: string, owner: string, year: int) {
    && parcel in s.parcels && s.parcels[parcel].status in {ACTIVE, TRANSFERRED}
    && owner in s.owners && s.owners[owner]
    && !TitleTaken(s.titles, NextTitleNo(s, s.parcels[parcel].district, year))
  }

  /** The ownership event of a step, from what can be checked before it. */
  function MoveOf(s: State, c: Call): Option<Event> {
    match c.action
    case Register(NewTitle(parcel, to, year)) =>
      if HasRole(c.user, {REGISTRAR}) && TitleIssues(s, parcel, to, year) then Some(TitleIssued(parcel, to)) else None
    case OnTransfer(Approve(id, scoring)) =>
      if HasRole(c.user, {REGISTRAR, LAND_OFFICER}) && GateOpens(s, id, scoring)
      then Some(TransferCompleted(id, s.transfers[id].parcel, s.transfers[id].toOwner)) else None
    case _ => None
  }

  lemma {:induction false} IssuesIff(s: State, logged: bool, parcel: string, owner: string, year: int)
    ensures IssueTitle(s, logged, parcel, owner, year).1 == Ok <==> TitleIssues(s, parcel, owner, year)
  {
    hide Emit, TitleTaken, NextTitleNo;
  }

  /** Existing parcels keep their district, and their owner. */
  ghost predicate OwnersKept(old_: Parcels, new_: Parcels) {
    forall p :: p in old_ ==> p in new_ && new_[p].owner == old_[p].owner && new_[p].district == old_[p].district
  }

  /** The parcel of the event gets the event's owner, the others keep theirs, and the event is appended if the append succeeds. */
  ghost predicate Moved(s: State, t: State, logged: bool, e: Event)
    requires !e.Other?
  {
    && e.parcel in s.parcels && e.parcel in t.parcels
    && t.parcels.Keys == s.parcels.Keys
    && (forall p :: p in s.parcels ==>
          && t.parcels[p].district == s.parcels[p].district
          && t.parcels[p].owner == if p == e.parcel then Some(e.owner) else s.parcels[p].owner)
    && LedgerMoved(s.ledger, t.ledger, logged, s.parcels[e.parcel].district, e)
  }

  ghost predicate LedgerMoved(old_: Ledger, new_: Ledger, logged: bool, district: int, e: Event) {
    exists mid :: OnlyOthers(old_, mid) && new_ == Emit(mid, logged, district, e)
  }

  ghost predicate DistrictsOk(s: State) {
    forall id :: id in s.transfers ==>
      s.transfers[id].parcel in s.parcels && s.transfers[id].district == s.parcels[s.transfers[id].parcel].district
  }

  lemma {:induction false} TitleMoves(sys: Settings, s: State, c: Call, parcel: string, to: string, year: int)
    requires IssueTitle(s, c.logged, parcel, to, year).1 == Ok
    ensures Moved(s, IssueTitle(s, c.logged, parcel, to, year).0, c.logged, TitleIssued(parcel, to))
  {
    hide Emit, TitleTaken, NextTitleNo, OnlyOthers;
    EmitsOther(s.ledger, c.logged, 0, "", "");
    assert OnlyOthers(s.ledger, s.ledger);
  }

  lemma {:induction false} ApprovalLedger(s: State, logged: bool, id: string, scoring: Scoring, now: real)
    ensures
      var (t, reply) := ApproveTransfer(s, logged, id, scoring, now);
      && (reply == Ok ==>
            && id in s.transfers
            && t.ledger == Emit(ScoreNow(s, logged, id, scoring, now).0.ledger, logged, s.transfers[id].district,
                                TransferCompleted(id, s.transfers[id].parcel, s.transfers[id].toOwner)))
      && (reply != Ok ==> t.ledger == if id in s.transfers then ScoreNow(s, logged, id, scoring, now).0.ledger else s.ledger)
  {
    hide ScoreNow, Emit, Handover;
  }

  lemma {:induction false} ApprovalMoves(s: State, logged: bool, id: string, scoring: Scoring, now: real)
    requires ApproveTransfer(s, logged, id, scoring, now).1 == Ok && DistrictsOk(s)
    ensures
      && id in s.transfers
      && Moved(s, ApproveTransfer(s, logged, id, scoring, now).0, logged,
               TransferCompleted(id, s.transfers[id].parcel, s.transfers[id].toOwner))
  {
    hide ApproveTransfer, ScoreNow, Emit, OnlyOthers;
    ApproveEffect(s, logged, id, scoring, now);
    ApprovalLedger(s, logged, id, scoring, now);
    ScoringLedger(s, logged, id, scoring, now);
    assert OnlyOthers(s.ledger, ScoreNow(s, logged, id, scoring, now).0.ledger);
  }

  // ---- every step

  lemma {:induction false} RegisterSettles(sys: Settings, s: State, c: Call, a: Registration)
    requires !(a.NewTitle? && DoRegister(sys, s, c, a).1 == Ok)
    ensures OnlyOthers(s.ledger, DoRegister(sys, s, c, a).0.ledger) && OwnersKept(s.parcels, DoRegister(sys, s, c, a).0.parcels)
  {
    hide Emit, TitleTaken, NextTitleNo, OnlyOthers;
    EmitsOther(s.ledger, c.logged, 0, "", "");
    if a.NewParcel? {
      EmitsOther(s.ledger, c.logged, a.district, "PARCEL_REGISTERED", a.id);
    }
  }

  lemma {:induction false} TransferSettles(s: State, c: Call, a: Transferring)
    requires !(a.Approve? && DoTransfer(s, c, a).1 == Ok)
    ensures OnlyOthers(s.ledger, DoTransfer(s, c, a).0.ledger) && OwnersKept(s.parcels, DoTransfer(s, c, a).0.parcels)
  {
    hide ApproveTransfer, ScoreNow, Emit, OnlyOthers, Seller;
    EmitsOther(s.ledger, c.logged, 0, "", "");
    match a {
      case NewTransfer(id, parcel, _, _) =>
        if parcel in s.parcels {
          EmitsOther(s.ledger, c.logged, s.parcels[parcel].district, "TRANSFER_INITIATED", id);
        }
      case Approve(id, scoring) =>
        ApproveEffect(s, c.logged, id, scoring, c.now);
        ApprovalLedger(s, c.logged, id, scoring, c.now);
        ScoringLedger(s, c.logged, id, scoring, c.now);
      case Reject(id) =>
        if id in s.transfers {
          EmitsOther(s.ledger, c.logged, s.transfers[id].district, "TRANSFER_REJECTED", id);
        }
    }
  }

  lemma {:induction false} StatusKeepsOwners(parcels: Parcels, parcel: string, status: ParcelStatus)
    ensures OwnersKept(parcels, parcels)
    ensures OwnersKept(parcels, WithStatus(parcels, parcel, status)) && OwnersKept(parcels, Unfreeze(parcels, parcel))
  {
  }

  lemma {:induction false} ReviewSettles(sys: Settings, s: State, c: Call, a: Reviewing)
    ensures OwnersKept(s.parcels, DoReview(sys, s, c, a).0.parcels)
  {
    hide AffirmReview, DismissReview, FileAppeal, ResolveAppeal, FreezeTarget, ReliefTarget, OpenDispute, WithStatus, Unfreeze, OwnersKept;
    StatusKeepsOwners(s.parcels, "", ACTIVE);
    match a {
      case Affirm(id, disputeId) =>
        Custody.AffirmEffect(sys, s, c.user, c.logged, id, disputeId);
        if Custody.AffirmsBlock(s, id) {
          StatusKeepsOwners(s.parcels, FreezeTarget(s, s.reviews[id]).value, FROZEN);
        }
      case DecideAppeal(id, upheld) =>
        Custody.AppealEffect(s, c.user, c.logged, id, upheld);
        if Custody.GrantsRelief(s, id, upheld) {
          StatusKeepsOwners(s.parcels, ReliefTarget(s, s.appeals[id]).value, ACTIVE);
        }
      case _ =>
    }
  }

  lemma {:induction false} DisputeSettles(s: State, c: Call, a: Disputing)
    ensures OwnersKept(s.parcels, DoDispute(s, c, a).0.parcels)
  {
    hide Emit;
  }

  ghost predicate TransfersOk(s: State) {
    DistrictsOk(s) && ScoresOk(s.scores, s.version, s.clock)
  }

  lemma {:induction false} DistrictsGiveContexts(s: State)
    requires DistrictsOk(s)
    ensures Contexts(s)
  {
  }

  /** Every step either moves one parcel's ownership together with its event, or moves none. */
  lemma {:induction false} StepMovesOrNot(sys: Settings, s: State, c: Call)
    requires Enabled(s, c) && TransfersOk(s)
    ensures
      var t := Step(sys, s, c);
      match MoveOf(s, c)
      case None => OnlyOthers(s.ledger, t.ledger) && OwnersKept(s.parcels, t.parcels)
      case Some(e) => Moved(s, t, c.logged, e)
  {
    hide DoReview, DoDispute, DoWork, IssueTitle, RegisterOwner, SetKyc, CreateParcel, CreateTransfer, ApproveTransfer, RejectTransfer,
         HasRole, OnlyOthers, DistrictsOk, Emit, TitleIssues, GateOpens, ScoresOk, Contexts;
    EmitsOther(s.ledger, c.logged, 0, "", "");
    ScoresAge(s.scores, s.version, s.clock, s.version, c.now);
    DistrictsGiveContexts(s);
    if HasRole(c.user, Allowed(c.action)) {
      match c.action {
        case Register(a) =>
          if a.NewTitle? {
            IssuesIff(s, c.logged, a.parcel, a.to, a.year);
          }
          if a.NewTitle? && DoRegister(sys, s, c, a).1 == Ok {
            TitleMoves(sys, s, c, a.parcel, a.to, a.year);
          } else {
            RegisterSettles(sys, s, c, a);
          }
        case OnTransfer(a) =>
          if a.Approve? {
            ApprovedIffGateOpens(s, c.logged, a.id, a.scoring, c.now);
          }
          if a.Approve? && DoTransfer(s, c, a).1 == Ok {
            ApprovalMoves(s, c.logged, a.id, a.scoring, c.now);
          } else {
            TransferSettles(s, c, a);
          }
        case OnReview(a) =>
          ReviewLedger(sys, s, c, a);
          ReviewSettles(sys, s, c, a);
        case OnDispute(a) =>
          DisputeLedger(s, c, a);
          DisputeSettles(s, c, a);
        case Background(w) =>
          WorkLedger(s, c, w);
          WorkIsFramed(s, c, w);
      }
    }
  }

  // ---- the invariant

  /** Ownership events are only about registered parcels. */
  ghost predicate EventsOk(s: State) {
    forall d, i :: 0 <= i < |EventsOf(s.ledger, d)| ==> EventsOf(s.ledger, d)[i].Other? || EventsOf(s.ledger, d)[i].parcel in s.parcels
  }

  ghost predicate RegisterInv(s: State) {
    TransfersOk(s) && EventsOk(s)
  }

  lemma {:induction false} StepKeepsDistricts(sys: Settings, s: State, c: Call)
    requires Enabled(s, c) && TransfersOk(s)
    ensures DistrictsOk(Step(sys, s, c))
  {
    hide Step, Moved, OnlyOthers, MoveOf, ScoresOk;
    StepMovesOrNot(sys, s, c);
    StepKeeps(sys, s, c);
    StepKeepsParcels(sys, s, c);
    NewTransferDistrict(sys, s, c);
    var t := Step(sys, s, c);
    forall id | id in t.transfers
      ensures t.transfers[id].parcel in t.parcels && t.transfers[id].district == t.parcels[t.transfers[id].parcel].district
    {
      if id in s.transfers {
        assert t.transfers[id].(status := PENDING) == s.transfers[id].(status := PENDING);
      }
    }
  }

  lemma {:induction false} StepKeepsParcels(sys: Settings, s: State, c: Call)
    requires Enabled(s, c) && TransfersOk(s)
    ensures forall p :: p in s.parcels ==> p in Step(sys, s, c).parcels && Step(sys, s, c).parcels[p].district == s.parcels[p].district
  {
    hide Step, OnlyOthers, LedgerMoved, TransfersOk, MoveOf;
    MoveIsOwnership(s, c);
    StepMovesOrNot(sys, s, c);
  }

  lemma {:induction false} NewTransferDistrict(sys: Settings, s: State, c: Call)
    requires Enabled(s, c)
    ensures
      var t := Step(sys, s, c);
      forall id :: id in t.transfers && id !in s.transfers ==>
        t.transfers[id].parcel in s.parcels && t.transfers[id].district == s.parcels[t.transfers[id].parcel].district
  {
    hide DoRegister, ApproveTransfer, RejectTransfer, DoReview, DoDispute, DoWork, HasRole, Allowed, Emit, Seller;
    StepIsFramed(sys, s, c);
    match c.action {
      case OnTransfer(Approve(id, scoring)) => ApproveEffect(s, c.logged, id, scoring, c.now);
      case OnTransfer(Reject(id)) => RejectKeepsKeys(s, c.logged, id);
      case _ =>
    }
  }

  lemma {:induction false} RejectKeepsKeys(s: State, logged: bool, id: string)
    ensures RejectTransfer(s, logged, id).0.transfers.Keys == s.transfers.Keys
  {
    hide Emit;
  }

  lemma {:induction false} EventsStayOk(s: State, t: State, d: int, i: nat)
    requires EventsOk(s) && (forall p :: p in s.parcels ==> p in t.parcels)
    requires OthersAdded(EventsOf(s.ledger, d), EventsOf(t.ledger, d)) && i < |EventsOf(t.ledger, d)|
    ensures EventsOf(t.ledger, d)[i].Other? || EventsOf(t.ledger, d)[i].parcel in t.parcels
  {
    if i < |EventsOf(s.ledger, d)| {
      assert EventsOf(t.ledger, d)[i] == EventsOf(s.ledger, d)[i];
    }
  }

  lemma {:induction false} SettledEventsOk(s: State, t: State)
    requires EventsOk(s) && OnlyOthers(s.ledger, t.ledger) && OwnersKept(s.parcels, t.parcels)
    ensures EventsOk(t)
  {
    hide EventsOf;
    forall d, i | 0 <= i < |EventsOf(t.ledger, d)|
      ensures EventsOf(t.ledger, d)[i].Other? || EventsOf(t.ledger, d)[i].parcel in t.parcels
    {
      EventsStayOk(s, t, d, i);
    }
  }

  lemma {:induction false} MovedEventsOk(s: State, t: State, logged: bool, e: Event)
    requires EventsOk(s) && !e.Other? && Moved(s, t, logged, e)
    ensures EventsOk(t)
  {
    hide OnlyOthers, EventsOk;
    var mid :| OnlyOthers(s.ledger, mid) && t.ledger == Emit(mid, logged, s.parcels[e.parcel].district, e);
    var u := t.(ledger := mid, parcels := s.parcels);
    SettledEventsOk(s, u);
    EmittedEventsOk(u, t, logged, s.parcels[e.parcel].district, e);
  }

  lemma {:induction false} EmittedEventsOk(u: State, t: State, logged: bool, district: int, e: Event)
    requires EventsOk(u) && !e.Other? && e.parcel in u.parcels && t.parcels.Keys == u.parcels.Keys
    requires t.ledger == Emit(u.ledger, logged, district, e)
    ensures EventsOk(t)
  {
    forall d, i | 0 <= i < |EventsOf(t.ledger, d)|
      ensures EventsOf(t.ledger, d)[i].Other? || EventsOf(t.ledger, d)[i].parcel in t.parcels
    {
      if i < |EventsOf(u.ledger, d)| {
        assert EventsOf(t.ledger, d)[i] == EventsOf(u.ledger, d)[i];
      }
    }
  }

  lemma {:induction false} StepKeepsRegister(sys: Settings, s: State, c: Call)
    requires Enabled(s, c) && RegisterInv(s)
    ensures RegisterInv(Step(sys, s, c))
  {
    hide Step, OnlyOthers, Moved, OwnersKept, EventsOk, DistrictsOk, MoveOf, ScoresOk, ScoresGrow;
    StepMovesOrNot(sys, s, c);
    StepKeepsDistricts(sys, s, c);
    StepKeepsScores(sys, s, c);
    match MoveOf(s, c) {
      case None => SettledEventsOk(s, Step(sys, s, c));
      case Some(e) =>
        MoveIsOwnership(s, c);
        MovedEventsOk(s, Step(sys, s, c), c.logged, e);
    }
  }

  lemma {:induction false} MoveIsOwnership(s: State, c: Call)
    ensures MoveOf(s, c).Some? ==> !MoveOf(s, c).value.Other?
  {
    hide HasRole, TitleIssues;
  }

  // ---- replay

  /** The replay of the district's ledger gives the current owner. */
  predicate Rebuilt(s: State, parcel: string, first: Option<string>) {
    parcel in s.parcels ==> s.parcels[parcel].owner == Replay(EventsOf(s.ledger, s.parcels[parcel].district), parcel, first)
  }

  /** An ownership change of the parcel whose event is dropped. */
  predicate LosesMove(s: State, c: Call, parcel: string) {
    var m := MoveOf(s, c);
    && m.Some? && Moves(m.value, parcel) && !c.logged
    && parcel in s.parcels && s.parcels[parcel].owner != Some(m.value.owner)
  }

  lemma {:induction false} SettledIsRebuilt(s: State, t: State, parcel: string, first: Option<string>)
    requires OnlyOthers(s.ledger, t.ledger) && OwnersKept(s.parcels, t.parcels) && parcel in s.parcels && Rebuilt(s, parcel, first)
    ensures Rebuilt(t, parcel, first)
  {
    hide EventsOf;
    var d := s.parcels[parcel].district;
    assert OthersAdded(EventsOf(s.ledger, d), EventsOf(t.ledger, d));
    ReplayIgnoresOthers(EventsOf(s.ledger, d), EventsOf(t.ledger, d), parcel, first);
  }

  /** The ledger of a district after an ownership event. */
  lemma {:induction false} ReplayEmitted(mid: Ledger, logged: bool, district: int, e: Event, d: int, parcel: string, first: Option<string>)
    requires Moves(e, parcel) ==> d == district
    ensures
      Replay(EventsOf(Emit(mid, logged, district, e), d), parcel, first)
      == if logged && Moves(e, parcel) then Some(e.owner) else Replay(EventsOf(mid, d), parcel, first)
  {
    ReplayAppend(EventsOf(mid, district), e, parcel, first);
  }

  lemma {:induction false} MovedIsRebuiltIff(s: State, t: State, logged: bool, e: Event, parcel: string, first: Option<string>)
    requires !e.Other? && Moved(s, t, logged, e) && parcel in s.parcels && Rebuilt(s, parcel, first)
    ensures Rebuilt(t, parcel, first) <==> !(Moves(e, parcel) && !logged && s.parcels[parcel].owner != Some(e.owner))
  {
    hide OnlyOthers, EventsOf, Emit, Replay;
    var mid :| OnlyOthers(s.ledger, mid) && t.ledger == Emit(mid, logged, s.parcels[e.parcel].district, e);
    var u := s.(ledger := mid);
    StatusKeepsOwners(s.parcels, "", ACTIVE);
    SettledIsRebuilt(s, u, parcel, first);
    ReplayEmitted(mid, logged, s.parcels[e.parcel].district, e, s.parcels[parcel].district, parcel, first);
  }

  /** A step keeps the replay right exactly when it does not lose an ownership change. */
  lemma {:induction false} StepRebuiltIff(sys: Settings, s: State, c: Call, parcel: string, first: Option<string>)
    requires Enabled(s, c) && RegisterInv(s) && parcel in s.parcels && Rebuilt(s, parcel, first)
    ensures Rebuilt(Step(sys, s, c), parcel, first) <==> !LosesMove(s, c, parcel)
  {
    hide Step, OnlyOthers, Moved, OwnersKept, EventsOk, DistrictsOk, MoveOf, Rebuilt, ScoresOk;
    StepMovesOrNot(sys, s, c);
    match MoveOf(s, c) {
      case None => SettledIsRebuilt(s, Step(sys, s, c), parcel, first);
      case Some(e) =>
        MoveIsOwnership(s, c);
        MovedIsRebuiltIff(s, Step(sys, s, c), c.logged, e, parcel, first);
    }
  }

  lemma {:induction false} NoEventsYet(events: seq<Event>, parcels: Parcels, parcel: string, first: Option<string>)
    requires parcel !in parcels && forall i :: 0 <= i < |events| ==> events[i].Other? || events[i].parcel in parcels
    ensures Replay(events, parcel, first) == first
  {
    if events != [] {
      NoEventsYet(events[..|events| - 1], parcels, parcel, first);
    }
  }

  /** A parcel that is being registered has no past in any ledger. */
  lemma {:induction false} RegisteredIsRebuilt(sys: Settings, s: State, c: Call, parcel: string)
    requires Enabled(s, c) && RegisterInv(s) && parcel !in s.parcels && parcel in Step(sys, s, c).parcels
    ensures Rebuilt(Step(sys, s, c), parcel, Step(sys, s, c).parcels[parcel].owner)
  {
    hide Step, EventsOf, DistrictsOk, MoveOf, LedgerMoved, ScoresOk;
    StepMovesOrNot(sys, s, c);
    MoveIsOwnership(s, c);
    var t := Step(sys, s, c);
    var d := t.parcels[parcel].district;
    NoEventsYet(EventsOf(s.ledger, d), s.parcels, parcel, t.parcels[parcel].owner);
    assert OthersAdded(EventsOf(s.ledger, d), EventsOf(t.ledger, d));
    ReplayIgnoresOthers(EventsOf(s.ledger, d), EventsOf(t.ledger, d), parcel, t.parcels[parcel].owner);
  }

  // ---- runs

  lemma {:induction false} RunKeepsRegister(sys: Settings, calls: seq<Call>)
    ensures RegisterInv(Run(sys, EMPTY, calls))
  {
    hide Step, Enabled;
    if calls != [] {
      RunKeepsRegister(sys, calls[..|calls| - 1]);
      var s := Run(sys, EMPTY, calls[..|calls| - 1]);
      if Enabled(s, calls[|calls| - 1]) {
        StepKeepsRegister(sys, s, calls[|calls| - 1]);
      }
    }
  }

  /** The owner a parcel was registered with. */
  function FirstOwner(sys: Settings, calls: seq<Call>, parcel: string): Option<string> {
    if calls == [] then None
    else
      var before, after := Run(sys, EMPTY, calls[..|calls| - 1]), Run(sys, EMPTY, calls);
      if parcel in before.parcels then FirstOwner(sys, calls[..|calls| - 1], parcel)
      else if parcel in after.parcels then after.parcels[parcel].owner else None
  }

  /** Every state of the run can be rebuilt. */
  predicate AlwaysRebuilt(sys: Settings, calls: seq<Call>, parcel: string) {
    && Rebuilt(Run(sys, EMPTY, calls), parcel, FirstOwner(sys, calls, parcel))
    && (calls == [] || AlwaysRebuilt(sys, calls[..|calls| - 1], parcel))
  }

  predicate SomeMoveIsLost(sys: Settings, calls: seq<Call>, parcel: string) {
    && calls != []
    && var s, c := Run(sys, EMPTY, calls[..|calls| - 1]), calls[|calls| - 1];
       SomeMoveIsLost(sys, calls[..|calls| - 1], parcel) || (Enabled(s, c) && LosesMove(s, c, parcel))
  }

  /** Over whole runs, the owner is the replay of the ledger exactly when no append of an ownership change was lost. */
  lemma {:induction false} OwnerIsReplayIff(sys: Settings, calls: seq<Call>, parcel: string)
    ensures AlwaysRebuilt(sys, calls, parcel) <==> !SomeMoveIsLost(sys, calls, parcel)
  {
    hide Step, Enabled, Rebuilt, LosesMove, TransfersOk, EventsOk;
    if calls == [] {
      NothingToRebuild(parcel);
    } else {
      var before, c := calls[..|calls| - 1], calls[|calls| - 1];
      OwnerIsReplayIff(sys, before, parcel);
      RunKeepsRegister(sys, before);
      var s := Run(sys, EMPTY, before);
      if parcel in s.parcels {
        if Enabled(s, c) && Rebuilt(s, parcel, FirstOwner(sys, before, parcel)) {
          StepKeepsParcels(sys, s, c);
          StepRebuiltIff(sys, s, c, parcel, FirstOwner(sys, before, parcel));
        }
      } else {
        NotLostYet(s, c, parcel);
        if parcel in Run(sys, EMPTY, calls).parcels {
          RegisteredIsRebuilt(sys, s, c, parcel);
        } else {
          UnregisteredIsRebuilt(Run(sys, EMPTY, calls), parcel);
        }
      }
    }
  }

  lemma {:induction false} NothingToRebuild(parcel: string)
    ensures Rebuilt(EMPTY, parcel, None)
  {
  }

  lemma {:induction false} UnregisteredIsRebuilt(s: State, parcel: string)
    requires parcel !in s.parcels
    ensures Rebuilt(s, parcel, None)
  {
  }

  lemma {:induction false} NotLostYet(s: State, c: Call, parcel: string)
    requires parcel !in s.parcels
    ensures !LosesMove(s, c, parcel)
  {
    hide MoveOf;
  }

  /** When every append succeeds, the register equals the replay. */
  lemma {:induction false} LoggedRunsReplay(sys: Settings, calls: seq<Call>, parcel: string)
    requires forall i :: 0 <= i < |calls| ==> calls[i].logged
    ensures AlwaysRebuilt(sys, calls, parcel)
  {
    hide Run, Rebuilt;
    NothingLost(sys, calls, parcel);
    OwnerIsReplayIff(sys, calls, parcel);
  }

  lemma {:induction false} NothingLost(sys: Settings, calls: seq<Call>, parcel: string)
    requires forall i :: 0 <= i < |calls| ==> calls[i].logged
    ensures !SomeMoveIsLost(sys, calls, parcel)
  {
    hide Run, MoveOf, Enabled;
    if calls != [] {
      NothingLost(sys, calls[..|calls| - 1], parcel);
    }
  }
}
