/**
 The handlers and jobs as they change the tables. `Serve` is the way in: it
 checks the role, calls the handler and records the call, so that a database
 is always in the state that its history leads to; what is proved about runs
 is then true of every database.
 */
module RegistryService {
  import opened Hashing
  import opened Registry
  import opened RegistryFrames
  import opened Custody
  import opened Gate
  import opened Outbox
  import opened Ownership

  lemma {:induction false} RunSnoc(sys: Settings, calls: seq<Call>, c: Call)
    requires Enabled(Run(sys, EMPTY, calls), c)
    ensures Run(sys, EMPTY, calls + [c]) == Step(sys, Run(sys, EMPTY, calls), c)
  {
    hide Enabled, Step;
    assert (calls + [c])[..|calls|] == calls;
  }

  /** How many of the jobs at these positions are DONE. */
  function DoneAmong(jobs: seq<Job>, at: seq<nat>): nat
    requires forall k :: 0 <= k < |at| ==> at[k] < |jobs|
  {
    if at == [] then 0
    else DoneAmong(jobs, at[..|at| - 1]) + if jobs[at[|at| - 1]].state == Done then 1 else 0
  }

  lemma {:induction false} DoneAmongOthers(old_: seq<Job>, new_: seq<Job>, at: seq<nat>, i: nat)
    requires |old_| == |new_| && i !in at && forall k :: 0 <= k < |at| ==> at[k] < |old_|
    requires forall j :: 0 <= j < |old_| && j != i ==> new_[j] == old_[j]
    ensures DoneAmong(new_, at) == DoneAmong(old_, at)
  {
    if at != [] {
      DoneAmongOthers(old_, new_, at[..|at| - 1], i);
      assert at[|at| - 1] in at;
    }
  }

  class Database {
    const sys: Settings
    var owners: map<string, bool>
    var parcels: Parcels
    var titles: seq<Title>
    var transfers: map<string, Transfer>
    var scores: map<string, seq<Score>>
    var reviews: map<string, Review>
    var disputes: map<string, Dispute>
    var appeals: map<string, Appeal>
    var jobs: seq<Job>
    var ledger: Ledger
    var version: nat
    ghost var clock: real
    ghost var calls: seq<Call>

    constructor (sys: Settings)
      ensures Valid() && calls == [] && this.sys == sys
    {
      this.sys := sys;
      owners, parcels, titles, transfers, scores := map[], map[], [], map[], map[];
      reviews, disputes, appeals, jobs, ledger, version := map[], map[], map[], [], map[], 0;
      clock, calls := 0.0, [];
    }

    ghost function Now(): State
      reads this
    {
      State(owners, parcels, titles, transfers, scores, reviews, disputes, appeals, jobs, ledger, version, clock)
    }

    /** The tables are what the history of calls makes of empty ones. */
    ghost predicate Valid()
      reads this
    {
      Now() == Run(sys, EMPTY, calls)
    }

    // ---- the way in

    /** A request, let in by its role, or a job: takes the step of the history's next call. */
    method Serve(c: Call) returns (reply: Reply)
      requires Valid() && Enabled(Now(), c)
      modifies this
      ensures Valid() && calls == old(calls) + [c]
      ensures Now() == Step(sys, old(Now()), c) && reply == Handle(sys, old(Now()), c).1
    {
      hide Run, Enabled, HasRole, Allowed, DoRegister, DoTransfer, DoReview, DoDispute, DoWork;
      RunSnoc(sys, calls, c);
      ClockOfEnabled(Now(), c);
      reply := Route(c);
      calls := calls + [c];
      clock := c.now;
    }

    method Route(c: Call) returns (reply: Reply)
      requires Enabled(Now(), c)
      modifies this`owners, this`parcels, this`titles, this`transfers, this`scores, this`reviews, this`disputes, this`appeals,
        this`jobs, this`ledger, this`version
      ensures (Now(), reply) == Handle(sys, old(Now()), c)
    {
      hide HasRole, Allowed, DoRegister, DoTransfer, DoReview, DoDispute, DoWork;
      if !HasRole(c.user, Allowed(c.action)) {
        return Forbidden;
      }
      match c.action {
        case Register(a) => reply := RouteRegistration(c, a);
        case OnTransfer(a) => reply := RouteTransfer(c, a);
        case OnReview(a) => reply := RouteReview(c, a);
        case OnDispute(a) => reply := RouteDispute(c, a);
        case Background(w) =>
          RunJob(c, w);
          return Ok;
      }
    }

    method RouteRegistration(c: Call, a: Registration) returns (reply: Reply)
      modifies this`owners, this`parcels, this`titles, this`ledger
      ensures (Now(), reply) == DoRegister(sys, old(Now()), c, a)
    {
      hide Registry.RegisterOwner, Registry.SetKyc, Registry.CreateParcel, Registry.IssueTitle;
      match a {
        case NewOwner(id) => reply := RegisterOwner(id);
        case Kyc(id, verified) => reply := SetKyc(id, verified);
        case NewParcel(id, district, owner) => reply := CreateParcel(c.logged, id, district, owner);
        case NewTitle(parcel, to, year) => reply := IssueTitle(c.logged, parcel, to, year);
      }
    }

    method RouteTransfer(c: Call, a: Transferring) returns (reply: Reply)
      modifies this`parcels, this`transfers, this`scores, this`reviews, this`jobs, this`ledger
      ensures (Now(), reply) == DoTransfer(old(Now()), c, a)
    {
      hide Registry.CreateTransfer, Registry.ApproveTransfer, Registry.RejectTransfer;
      match a {
        case NewTransfer(id, parcel, from, to) => reply := CreateTransfer(c.logged, id, parcel, from, to);
        case Approve(id, scoring) => reply := ApproveTransfer(c.logged, id, scoring, c.now);
        case Reject(id) => reply := RejectTransfer(c.logged, id);
      }
    }

    method RouteReview(c: Call, a: Reviewing) returns (reply: Reply)
      modifies this`parcels, this`reviews, this`disputes, this`appeals, this`ledger
      ensures (Now(), reply) == DoReview(sys, old(Now()), c, a)
    {
      hide Registry.AffirmReview, Registry.DismissReview, Registry.FileAppeal, Registry.ResolveAppeal;
      match a {
        case Affirm(id, disputeId) => reply := AffirmReview(c.user, c.logged, id, disputeId);
        case Dismiss(id) => reply := DismissReview(c.user, c.logged, id);
        case NewAppeal(id, review, subjectType, subject) => reply := FileAppeal(c.user, c.logged, id, review, subjectType, subject);
        case DecideAppeal(id, upheld) => reply := ResolveAppeal(c.user, c.logged, id, upheld);
      }
    }

    method RouteDispute(c: Call, a: Disputing) returns (reply: Reply)
      requires a.Decide? ==> a.outcome in {RESOLVED, DISMISSED, ESCALATED_COURT}
      modifies this`parcels, this`disputes, this`ledger
      ensures (Now(), reply) == DoDispute(old(Now()), c, a)
    {
      hide Registry.FileDispute, Registry.ReviewDispute, Registry.ResolveDispute;
      match a {
        case NewDispute(id, parcel, respondent, kind) => reply := FileDispute(c.user, c.logged, id, parcel, respondent, kind);
        case TakeUp(id) => reply := ReviewDispute(c.logged, id);
        case Decide(id, outcome) => reply := ResolveDispute(c.logged, id, outcome);
      }
    }

    method RunJob(c: Call, w: Work)
      requires w.SweepOutbox? ==> w.limit <= |w.scorings|
      requires w.EscalateReviews? ==> ListsOverdue(Now(), w.order, c.now)
      modifies this`scores, this`reviews, this`jobs, this`ledger, this`version
      ensures Now() == DoWork(old(Now()), c, w)
    {
      hide StreamScore, Sweep, Escalate, ListsOverdue;
      match w {
        case Stream(id, locked, scoring) => ScoreOnce(c.logged, id, locked, scoring, c.now);
        case SweepOutbox(limit, scorings) =>
          var processed := SweepScoringOutbox(c.logged, limit, scorings, c.now);
        case EscalateReviews(order) =>
          var escalated := EscalatePending(c.logged, order, c.now);
        case Upgrade => version := version + 1;
      }
    }

    // ---- owners

    method RegisterOwner(id: string) returns (reply: Reply)
      modifies this`owners
      ensures (Now(), reply) == Registry.RegisterOwner(old(Now()), id)
    {
      if id in owners {
        return Conflict;
      }
      owners := owners[id := false];
      return Ok;
    }

    method SetKyc(id: string, verified: bool) returns (reply: Reply)
      modifies this`owners
      ensures (Now(), reply) == Registry.SetKyc(old(Now()), id, verified)
    {
      if id !in owners {
        return NotFound;
      }
      owners := owners[id := verified];
      return Ok;
    }

    method AuditEmit(logged: bool, district: int, event: Event)
      modifies this`ledger
      ensures ledger == Emit(old(ledger), logged, district, event)
    {
      if logged {
        ledger := ledger[district := EventsOf(ledger, district) + [event]];
      }
    }

    method SetStatus(parcel: string, status: ParcelStatus)
      modifies this`parcels
      ensures parcels == WithStatus(old(parcels), parcel, status)
    {
      if parcel in parcels {
        parcels := parcels[parcel := parcels[parcel].(status := status)];
      }
    }

    method Release(parcel: string)
      modifies this`parcels
      ensures parcels == Unfreeze(old(parcels), parcel)
    {
      if parcel in parcels && (parcels[parcel].status == DISPUTED || parcels[parcel].status == FROZEN) {
        SetStatus(parcel, ACTIVE);
      }
    }

    // ---- routers/parcels.py, routers/titles.py

    method CreateParcel(logged: bool, id: string, district: int, owner: Option<string>) returns (reply: Reply)
      modifies this`parcels, this`ledger
      ensures (Now(), reply) == Registry.CreateParcel(sys, old(Now()), logged, id, district, owner)
    {
      if id in parcels {
        return Conflict;
      }
      if district !in sys.districts || (owner.Some? && owner.value !in owners) {
        return Raised;
      }
      parcels := parcels[id := Parcel(district, owner, ACTIVE)];
      AuditEmit(logged, district, Other("PARCEL_REGISTERED", id));
      return Ok;
    }

    method IssueTitle(logged: bool, parcel: string, owner: string, year: int) returns (reply: Reply)
      modifies this`parcels, this`titles, this`ledger
      ensures (Now(), reply) == Registry.IssueTitle(old(Now()), logged, parcel, owner, year)
    {
      if parcel !in parcels {
        return NotFound;
      }
      if parcels[parcel].status != ACTIVE && parcels[parcel].status != TRANSFERRED {
        return Conflict;
      }
      if owner !in owners {
        return NotFound;
      }
      if !owners[owner] {
        return Conflict;
      }
      var district := parcels[parcel].district;
      var no := TitleNo(DistrictCode(district), TitleCount(titles, district) + 1, year);
      if TitleTaken(titles, no) {
        return Raised;
      }
      titles := titles + [Title(no, parcel, district)];
      parcels := parcels[parcel := Parcel(district, Some(owner), ACTIVE)];
      AuditEmit(logged, district, TitleIssued(parcel, owner));
      return Ok;
    }

    // ---- routers/transfers.py

    method CreateTransfer(logged: bool, id: string, parcel: string, from: Option<string>, to: string) returns (reply: Reply)
      modifies this`transfers, this`jobs, this`ledger
      ensures (Now(), reply) == Registry.CreateTransfer(old(Now()), logged, id, parcel, from, to)
    {
      hide Emit;
      if parcel !in parcels {
        return NotFound;
      }
      var p := parcels[parcel];
      if p.status != ACTIVE && p.status != TRANSFERRED {
        return Conflict;
      }
      if to !in owners {
        return NotFound;
      }
      var seller := if from.Some? && from.value != "" then from else p.owner;
      if id in transfers || (seller.Some? && seller.value !in owners) {
        return Raised;
      }
      transfers := transfers[id := Transfer(parcel, seller, to, PENDING, p.district)];
      jobs := jobs + [Job(id, Waiting, 0, None)];
      AuditEmit(logged, p.district, Other("TRANSFER_INITIATED", id));
      return Ok;
    }

    method ApproveTransfer(logged: bool, id: string, scoring: Scoring, now: real) returns (reply: Reply)
      modifies this`parcels, this`transfers, this`scores, this`reviews, this`ledger
      ensures (Now(), reply) == Registry.ApproveTransfer(old(Now()), logged, id, scoring, now)
    {
      hide Registry.ScoreNow, Latest, Emit;
      if id !in transfers {
        return NotFound;
      }
      var t := transfers[id];
      var result := ScoreNow(logged, id, scoring, now);
      match result {
        case Threw => return Raised;
        case NoScore => return Unavailable;
        case Got(score) =>
          if score.recommended == BLOCK {
            return Conflict;
          }
      }
      transfers := transfers[id := t.(status := COMPLETED)];
      if t.parcel in parcels {
        parcels := parcels[t.parcel := parcels[t.parcel].(owner := Some(t.toOwner), status := TRANSFERRED)];
      }
      AuditEmit(logged, t.district, TransferCompleted(id, t.parcel, t.toOwner));
      return Ok;
    }

    method RejectTransfer(logged: bool, id: string) returns (reply: Reply)
      modifies this`transfers, this`ledger
      ensures (Now(), reply) == Registry.RejectTransfer(old(Now()), logged, id)
    {
      if id !in transfers {
        return NotFound;
      }
      transfers := transfers[id := transfers[id].(status := REJECTED)];
      AuditEmit(logged, transfers[id].district, Other("TRANSFER_REJECTED", id));
      return Ok;
    }

    // ---- fraud/scorer.py, fraud/worker.py

    method LatestScore(transfer: string) returns (score: Option<Score>)
      ensures score == Latest(ScoresOf(scores, transfer))
    {
      var rows := ScoresOf(scores, transfer);
      score := None;
      for i := 0 to |rows|
        invariant score == Latest(rows[..i])
      {
        assert rows[..i + 1][..i] == rows[..i];
        if score.None? || rows[i].at >= score.value.at {
          score := Some(rows[i]);
        }
      }
      assert rows[..|rows|] == rows;
    }

    method PersistScore(transfer: string, recommended: Recommended, now: real)
      modifies this`scores
      ensures Now() == Persist(old(Now()), transfer, recommended, now)
    {
      var kept := OtherVersions(ScoresOf(scores, transfer), version);
      scores := scores[transfer := kept + [Score(version, recommended, now)]];
    }

    method ActOnScore(logged: bool, transfer: string, recommended: Recommended, reviewId: string, now: real) returns (raised: bool)
      modifies this`reviews, this`ledger
      ensures (Now(), raised) == Registry.ActOnScore(old(Now()), logged, transfer, recommended, reviewId, now)
    {
      hide Queued;
      if recommended == NONE || transfer !in transfers {
        return false;
      }
      var district := transfers[transfer].district;
      if !Queued(reviews, transfer, version) {
        if reviewId in reviews {
          return true;
        }
        reviews := reviews[reviewId := Review(transfer, district, recommended, version, PENDING_REVIEW, now, None, None)];
      }
      AuditEmit(logged, district, Other("FRAUD_REVIEW_QUEUED", transfer));
      return false;
    }

    method ScoreNow(logged: bool, transfer: string, scoring: Scoring, now: real) returns (result: Scored)
      modifies this`scores, this`reviews, this`ledger
      ensures (Now(), result) == Registry.ScoreNow(old(Now()), logged, transfer, scoring, now)
    {
      hide Latest, Persist, Registry.ActOnScore;
      var prior := LatestScore(transfer);
      if prior.Some? && prior.value.version == version {
        return Got(prior.value);
      }
      if transfer !in transfers || transfers[transfer].parcel !in parcels {
        return FromOption(prior);
      }
      if scoring.ScorerRaises? {
        return Threw;
      }
      PersistScore(transfer, scoring.recommended, now);
      if scoring.RaisesOncePersisted? {
        return Threw;
      }
      var raised := ActOnScore(logged, transfer, scoring.recommended, scoring.reviewId, now);
      if raised {
        return Threw;
      }
      var score := LatestScore(transfer);
      return FromOption(score);
    }

    method ScoreOnce(logged: bool, transfer: string, locked: bool, scoring: Scoring, now: real)
      modifies this`scores, this`reviews, this`ledger
      ensures Now() == StreamScore(old(Now()), logged, transfer, locked, scoring, now)
    {
      hide Registry.ScoreNow;
      if locked {
        var result := ScoreNow(logged, transfer, scoring, now);
      }
    }

    method FinishJob(i: nat, job: Job)
      requires i < |jobs|
      modifies this`jobs
      ensures jobs == old(jobs)[i := job]
    {
      jobs := jobs[i := job];
    }

    /** One turn of the sweep's loop. */
    method AttemptJob(logged: bool, i: nat, scoring: Scoring, now: real) returns (done: bool)
      requires i < |jobs|
      modifies this`scores, this`reviews, this`jobs, this`ledger
      ensures Now() == Attempt(old(Now()), logged, i, scoring, now)
      ensures done == (jobs[i].state == Done)
      ensures |jobs| == |old(jobs)| && forall j :: 0 <= j < |jobs| && j != i ==> jobs[j] == old(jobs)[j]
    {
      hide Registry.ScoreNow, Backoff;
      var job := jobs[i];
      var result := ScoreNow(logged, job.transfer, scoring, now);
      if !result.Threw? {
        FinishJob(i, job.(state := Done, nextAttemptAt := None));
        return true;
      }
      var attempts := job.attempts + 1;
      if attempts >= MAX_ATTEMPTS {
        FinishJob(i, Job(job.transfer, Failed, attempts, None));
      } else {
        FinishJob(i, Job(job.transfer, Waiting, attempts, Some(now + Backoff(attempts))));
      }
      return false;
    }

    method SweepScoringOutbox(logged: bool, limit: nat, scorings: seq<Scoring>, now: real) returns (processed: nat)
      requires limit <= |scorings|
      modifies this`scores, this`reviews, this`jobs, this`ledger
      ensures Now() == Sweep(old(Now()), logged, limit, scorings, now)
      ensures |jobs| == |old(jobs)| && processed == DoneAmong(jobs, Picks(old(Now()), limit, now))
    {
      hide Attempt;
      var picks := DueJobs(jobs, 0, now, limit);
      processed := 0;
      for n := 0 to |picks|
        invariant Now() == Attempts(old(Now()), logged, picks, scorings, n, now)
        invariant |jobs| == |old(jobs)|
        invariant processed == DoneAmong(jobs, picks[..n])
      {
        ghost var before := jobs;
        var done := AttemptJob(logged, picks[n], scorings[n], now);
        assert picks[n] !in picks[..n];
        DoneAmongOthers(before, jobs, picks[..n], picks[n]);
        assert picks[..n + 1][..n] == picks[..n];
        if done {
          processed := processed + 1;
        }
      }
      assert picks[..|picks|] == picks;
    }

    // ---- jobs/escalation.py

    method EscalatePending(logged: bool, order: seq<string>, now: real) returns (escalated: nat)
      requires ListsOverdue(Now(), order, now)
      modifies this`reviews, this`ledger
      ensures Now() == Escalate(old(Now()), logged, order, now)
      ensures escalated == |order|
    {
      hide EscalateOne;
      escalated := 0;
      for n := 0 to |order|
        invariant Now() == Escalate(old(Now()), logged, order[..n], now)
        invariant escalated == n
      {
        assert order[..n + 1][..n] == order[..n];
        EscalateReview(logged, order[n], now);
        escalated := escalated + 1;
      }
      assert order[..|order|] == order;
    }

    method EscalateReview(logged: bool, id: string, now: real)
      modifies this`reviews, this`ledger
      ensures Now() == EscalateOne(old(Now()), logged, id, now)
    {
      if id in reviews {
        reviews := reviews[id := reviews[id].(escalatedAt := Some(now))];
        AuditEmit(logged, reviews[id].district, Other("FRAUD_REVIEW_ESCALATED", id));
      }
    }

    // ---- routers/fraud.py

    /** The parcel-level effect of an affirmed BLOCK: freeze, then file the FRAUD dispute unless one is open. */
    method FreezeAndFile(user: User, parcel: string, disputeId: string, district: int) returns (raised: bool)
      modifies this`parcels, this`disputes
      ensures parcels == WithStatus(old(parcels), parcel, FROZEN)
      ensures raised == (!OpenDispute(old(disputes), parcel, {FRAUD}) && (disputeId in old(disputes) || user.id !in owners))
      ensures disputes == if raised || OpenDispute(old(disputes), parcel, {FRAUD}) then old(disputes)
                          else old(disputes)[disputeId := Dispute(parcel, user.id, FRAUD, UNDER_REVIEW, district)]
    {
      hide OpenDispute, WithStatus;
      SetStatus(parcel, FROZEN);
      if !OpenDispute(disputes, parcel, {FRAUD}) {
        if disputeId in disputes || user.id !in owners {
          return true;
        }
        disputes := disputes[disputeId := Dispute(parcel, user.id, FRAUD, UNDER_REVIEW, district)];
      }
      return false;
    }

    method AffirmReview(user: User, logged: bool, id: string, disputeId: string) returns (reply: Reply)
      modifies this`parcels, this`reviews, this`disputes, this`ledger
      ensures (Now(), reply) == Registry.AffirmReview(sys, old(Now()), user, logged, id, disputeId)
    {
      hide OpenDispute, WithStatus, Emit;
      if id !in reviews {
        return NotFound;
      }
      var r := reviews[id];
      if r.state != PENDING_REVIEW {
        return Conflict;
      }
      var savedReviews, savedParcels := reviews, parcels;
      reviews := reviews[id := r.(state := HUMAN_AFFIRMED, reviewedBy := Some(user.id))];
      if r.recommended == BLOCK && r.transfer in transfers {
        var raised := FreezeAndFile(user, transfers[r.transfer].parcel, disputeId, r.district);
        if raised {
          if !sys.autocommit {
            reviews, parcels := savedReviews, savedParcels;  // rollback
          }
          return Raised;
        }
      }
      AuditEmit(logged, r.district, Other("FRAUD_HUMAN_AFFIRMED", id));
      return Ok;
    }

    method DismissReview(user: User, logged: bool, id: string) returns (reply: Reply)
      modifies this`reviews, this`ledger
      ensures (Now(), reply) == Registry.DismissReview(old(Now()), user, logged, id)
    {
      if id !in reviews {
        return NotFound;
      }
      if reviews[id].state != PENDING_REVIEW {
        return Conflict;
      }
      reviews := reviews[id := reviews[id].(state := HUMAN_DISMISSED, reviewedBy := Some(user.id))];
      AuditEmit(logged, reviews[id].district, Other("FRAUD_HUMAN_DISMISSED", id));
      return Ok;
    }

    method FileAppeal(user: User, logged: bool, id: string, review: Option<string>, subjectType: SubjectType, subject: string)
      returns (reply: Reply)
      modifies this`appeals, this`ledger
      ensures (Now(), reply) == Registry.FileAppeal(old(Now()), user, logged, id, review, subjectType, subject)
    {
      if id in appeals || (review.Some? && review.value !in reviews) {
        return Raised;
      }
      appeals := appeals[id := Appeal(review, subjectType, subject, user.id, OPEN)];
      AuditEmit(logged, UserDistrict(user), Other("FRAUD_APPEAL_FILED", id));
      return Ok;
    }

    method ResolveAppeal(user: User, logged: bool, id: string, upheld: bool) returns (reply: Reply)
      modifies this`parcels, this`appeals, this`ledger
      ensures (Now(), reply) == Registry.ResolveAppeal(old(Now()), user, logged, id, upheld)
    {
      hide Unfreeze, Emit;
      if id !in appeals {
        return NotFound;
      }
      var a := appeals[id];
      if a.state != OPEN {
        return Conflict;
      }
      appeals := appeals[id := a.(state := if upheld then UPHELD else DENIED)];
      if upheld && a.subjectType == TRANSFER && a.subject in transfers {
        Release(transfers[a.subject].parcel);
      }
      AuditEmit(logged, UserDistrict(user), Other("FRAUD_APPEAL_RESOLVED", id));
      return Ok;
    }

    // ---- routers/disputes.py

    method FileDispute(user: User, logged: bool, id: string, parcel: string, respondent: Option<string>, kind: DisputeKind)
      returns (reply: Reply)
      modifies this`parcels, this`disputes, this`ledger
      ensures (Now(), reply) == Registry.FileDispute(old(Now()), user, logged, id, parcel, respondent, kind)
    {
      hide WithStatus, Emit;
      if parcel !in parcels {
        return NotFound;
      }
      var district := parcels[parcel].district;
      if id in disputes || user.id !in owners || (respondent.Some? && respondent.value !in owners) {
        return Raised;
      }
      disputes := disputes[id := Dispute(parcel, user.id, kind, FILED, district)];
      if kind == FRAUD || kind == OVERLAP || kind == OWNERSHIP {
        SetStatus(parcel, DISPUTED);
      }
      AuditEmit(logged, district, Other("DISPUTE_FILED", id));
      return Ok;
    }

    method ReviewDispute(logged: bool, id: string) returns (reply: Reply)
      modifies this`disputes, this`ledger
      ensures (Now(), reply) == Registry.ReviewDispute(old(Now()), logged, id)
    {
      if id !in disputes {
        return NotFound;
      }
      disputes := disputes[id := disputes[id].(state := UNDER_REVIEW)];
      AuditEmit(logged, disputes[id].district, Other("DISPUTE_REVIEWED", id));
      return Ok;
    }

    method ResolveDispute(logged: bool, id: string, outcome: DisputeState) returns (reply: Reply)
      requires outcome in {RESOLVED, DISMISSED, ESCALATED_COURT}
      modifies this`parcels, this`disputes, this`ledger
      ensures (Now(), reply) == Registry.ResolveDispute(old(Now()), logged, id, outcome)
    {
      hide Unfreeze, Emit;
      if id !in disputes {
        return NotFound;
      }
      var d := disputes[id];
      disputes := disputes[id := d.(state := outcome)];
      if outcome == RESOLVED || outcome == DISMISSED {
        Release(d.parcel);
      }
      AuditEmit(logged, d.district, Other("DISPUTE_RESOLVED", id));
      return Ok;
    }
  }

  // ---- what is true of every database

  /** Custody: a frozen parcel was frozen by a named reviewer; with transactions that roll back it can always be contested. */
  lemma {:induction false} DatabaseCustody(db: Database, parcel: string)
    requires db.Valid()
    ensures IsFrozen(db.Now(), parcel) ==> AffirmedFor(db.Now(), parcel)
    ensures !db.sys.autocommit || !SomeFreezesAlone(db.sys, db.calls) ==> Contestable(db.Now())
  {
    hide Run, Contestable, AffirmedFor, IsFrozen, SomeFreezesAlone;
    FrozenWasAffirmed(db.sys, db.calls, parcel);
    RunContestableIff(db.sys, db.calls);
    if !db.sys.autocommit {
      TransactionsAreContestable(db.sys, db.calls);
    }
  }

  /** The gate and the outbox: nothing was completed blind, and every transfer has exactly one job in order. */
  lemma {:induction false} DatabaseScoring(db: Database, id: string)
    requires db.Valid()
    ensures Completed(db.Now(), id) ==> Clear(ScoresOf(db.scores, id))
    ensures OneJobEach(db.Now())
    ensures forall i :: 0 <= i < |db.jobs| ==>
              && (db.jobs[i].state == Waiting ==> db.jobs[i].attempts < 5)
              && (db.jobs[i].state == Failed ==> db.jobs[i].attempts == 5)
              && (db.jobs[i].state == Done ==> ScoresOf(db.scores, db.jobs[i].transfer) != [])
  {
    hide Run, Clear, OneJobEach, ScoresOf;
    if Completed(db.Now(), id) {
      NothingCompletesBlind(db.sys, db.calls, id);
    }
    ReachableOutbox(db.sys, db.calls);
  }

  /** The register can be rebuilt from the ledger, unless the append of an ownership change was lost. */
  lemma {:induction false} DatabaseOwnership(db: Database, parcel: string)
    requires db.Valid() && !SomeMoveIsLost(db.sys, db.calls, parcel) && parcel in db.parcels
    ensures db.parcels[parcel].owner
         == Replay(EventsOf(db.ledger, db.parcels[parcel].district), parcel, FirstOwner(db.sys, db.calls, parcel))
  {
    hide Run, SomeMoveIsLost, Replay, EventsOf, FirstOwner;
    OwnerIsReplayIff(db.sys, db.calls, parcel);
  }
}
