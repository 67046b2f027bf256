/**
 The human-in-the-loop workflow as a state machine over the shared tables:
 parcels, titles, transfers, fraud scores, reviews, disputes, appeals, the
 scoring outbox and the district ledgers. Every request handler and every
 background job is one atomic step; a step may fail, and what a failing step
 leaves behind is part of the model.
 */
module Registry {
  import opened Hashing

  // ---- people

  datatype Role = CITIZEN | SURVEYOR | LAND_OFFICER | REGISTRAR | AUDITOR | PUBLIC_VERIFIER | ADMIN

  datatype User = User(id: string, role: Role, district: Option<int>)

  /** `has_role`: ADMIN passes every check. */
  predicate HasRole(user: User, allowed: set<Role>) {
    user.role == ADMIN || user.role in allowed
  }

  // ---- rows

  datatype ParcelStatus = ACTIVE | DISPUTED | FROZEN | TRANSFERRED

  datatype Parcel = Parcel(district: int, owner: Option<string>, status: ParcelStatus)

  datatype TitleNo = TitleNo(code: string, sequence: nat, year: int)

  datatype Title = Title(titleNo: TitleNo, parcel: string, district: int)

  datatype TransferStatus = PENDING | COMPLETED | REJECTED

  datatype Transfer = Transfer(parcel: string, fromOwner: Option<string>, toOwner: string, status: TransferStatus, district: int)

  datatype Recommended = NONE | FLAG | BLOCK

  /** A row of `fraud_scores`; only transfers are ever scored. */
  datatype Score = Score(version: nat, recommended: Recommended, at: real)

  datatype ReviewState = PENDING_REVIEW | HUMAN_AFFIRMED | HUMAN_DISMISSED

  /** A row of `fraud_review_queue`, about a transfer. */
  datatype Review = Review(
    transfer: string, district: int, recommended: Recommended, version: nat, state: ReviewState,
    createdAt: real, reviewedBy: Option<string>, escalatedAt: Option<real>)

  datatype DisputeKind = OVERLAP | OWNERSHIP | BOUNDARY | FRAUD | ENCROACHMENT

  datatype DisputeState = FILED | UNDER_REVIEW | RESOLVED | DISMISSED | ESCALATED_COURT

  datatype Dispute = Dispute(parcel: string, claimant: string, kind: DisputeKind, state: DisputeState, district: int)

  datatype SubjectType = TRANSFER | TITLE | OWNER | PARCEL

  datatype AppealState = OPEN | UPHELD | DENIED

  datatype Appeal = Appeal(review: Option<string>, subjectType: SubjectType, subject: string, appellant: string, state: AppealState)

  datatype JobState = Waiting | Done | Failed

  /** A row of `fraud_scoring_jobs`, in `created_at` order. */
  datatype Job = Job(transfer: string, state: JobState, attempts: nat, nextAttemptAt: Option<real>)

  /** What the ledger of a district records; `Other` is any event that does not move ownership. */
  datatype Event =
    | TitleIssued(parcel: string, owner: string)
    | TransferCompleted(transfer: string, parcel: string, owner: string)
    | Other(kind: string, subject: string)

  datatype State = State(
    owners: map<string, bool>,  // true: KYC is VERIFIED
    parcels: Parcels,
    titles: seq<Title>,
    transfers: map<string, Transfer>,
    scores: map<string, seq<Score>>,
    reviews: map<string, Review>,
    disputes: map<string, Dispute>,
    appeals: map<string, Appeal>,
    jobs: seq<Job>,
    ledger: Ledger,
    version: nat,  // SCORER_VERSION
    clock: real)

  const EMPTY := State(map[], map[], [], map[], map[], map[], map[], map[], [], map[], 0, 0.0)

  /** `autocommit` tells SQLite's connection, where every statement is its own transaction, from one that rolls back. */
  datatype Settings = Settings(autocommit: bool, districts: set<int>)

  datatype Reply = Ok | Forbidden | NotFound | Conflict | Unavailable | Raised

  // ---- updates of one table

  type Parcels = map<string, Parcel>

  type Ledger = map<int, seq<Event>>

  function WithStatus(parcels: Parcels, parcel: string, status: ParcelStatus): Parcels {
    if parcel in parcels then parcels[parcel := parcels[parcel].(status := status)] else parcels
  }

  /** `SET status = 'ACTIVE' WHERE ... status IN ('FROZEN','DISPUTED')`. */
  function Unfreeze(parcels: Parcels, parcel: string): Parcels {
    if parcel in parcels && parcels[parcel].status in {DISPUTED, FROZEN} then WithStatus(parcels, parcel, ACTIVE) else parcels
  }

  function EventsOf(ledger: Ledger, district: int): seq<Event> {
    if district in ledger then ledger[district] else []
  }

  /** `audit_emit`, which swallows a failing append. */
  function Emit(ledger: Ledger, logged: bool, district: int, event: Event): Ledger {
    if logged then ledger[district := EventsOf(ledger, district) + [event]] else ledger
  }

  predicate IsOpen(d: Dispute) {
    d.state !in {RESOLVED, DISMISSED}
  }

  predicate OpenDispute(disputes: map<string, Dispute>, parcel: string, kinds: set<DisputeKind>) {
    exists d | d in disputes :: disputes[d].parcel == parcel && disputes[d].kind in kinds && IsOpen(disputes[d])
  }

  const CUSTODIAL: set<DisputeKind> := {FRAUD, OVERLAP, OWNERSHIP}

  // ---- registration

  function RegisterOwner(s: State, id: string): (r: (State, Reply))
    ensures r.0 == s.(owners := r.0.owners)
  {
    if id in s.owners then (s, Conflict) else (s.(owners := s.owners[id := false]), Ok)
  }

  function SetKyc(s: State, id: string, verified: bool): (r: (State, Reply))
    ensures r.0 == s.(owners := r.0.owners)
  {
    if id !in s.owners then (s, NotFound) else (s.(owners := s.owners[id := verified]), Ok)
  }

  function CreateParcel(sys: Settings, s: State, logged: bool, id: string, district: int, owner: Option<string>): (r: (State, Reply))
    ensures r.0 == s.(parcels := r.0.parcels, ledger := r.0.ledger)
  {
    if id in s.parcels then (s, Conflict)
    else if district !in sys.districts || (owner.Some? && owner.value !in s.owners) then (s, Raised)
    else
      (s.(parcels := s.parcels[id := Parcel(district, owner, ACTIVE)],
          ledger := Emit(s.ledger, logged, district, Other("PARCEL_REGISTERED", id))), Ok)
  }

  function DistrictCode(district: int): string {
    match district
    case 1 => "KCC"
    case 2 => "WAK"
    case 3 => "MIT"
    case 4 => "GUL"
    case _ => "XXX"
  }

  function TitleCount(titles: seq<Title>, district: int): nat {
    if titles == [] then 0
    else TitleCount(titles[..|titles| - 1], district) + if titles[|titles| - 1].district == district then 1 else 0
  }

  function NextTitleNo(s: State, district: int, year: int): TitleNo {
    TitleNo(DistrictCode(district), TitleCount(s.titles, district) + 1, year)
  }

  predicate TitleTaken(titles: seq<Title>, no: TitleNo) {
    exists i | 0 <= i < |titles| :: titles[i].titleNo == no
  }

  function IssueTitle(s: State, logged: bool, parcel: string, owner: string, year: int): (r: (State, Reply))
    ensures r.0 == s.(titles := r.0.titles, parcels := r.0.parcels, ledger := r.0.ledger)
  {
    if parcel !in s.parcels then (s, NotFound)
    else if s.parcels[parcel].status !in {ACTIVE, TRANSFERRED} then (s, Conflict)
    else if owner !in s.owners then (s, NotFound)
    else if !s.owners[owner] then (s, Conflict)
    else
      var district := s.parcels[parcel].district;
      var no := NextTitleNo(s, district, year);
      if TitleTaken(s.titles, no) then (s, Raised)
      else
        (s.(titles := s.titles + [Title(no, parcel, district)],
            parcels := s.parcels[parcel := Parcel(district, Some(owner), ACTIVE)],
            ledger := Emit(s.ledger, logged, district, TitleIssued(parcel, owner))), Ok)
  }

  // ---- transfers

  /** `payload.from_owner_id or parcel[3]`. */
  function Seller(from: Option<string>, current: Option<string>): Option<string> {
    if from.Some? && from.value != "" then from else current
  }

  function CreateTransfer(s: State, logged: bool, id: string, parcel: string, from: Option<string>, to: string): (r: (State, Reply))
    ensures r.0 == s.(transfers := r.0.transfers, jobs := r.0.jobs, ledger := r.0.ledger)
  {
    if parcel !in s.parcels then (s, NotFound)
    else if s.parcels[parcel].status !in {ACTIVE, TRANSFERRED} then (s, Conflict)
    else if to !in s.owners then (s, NotFound)
    else
      var seller := Seller(from, s.parcels[parcel].owner);
      if id in s.transfers || (seller.Some? && seller.value !in s.owners) then (s, Raised)
      else
        (s.(transfers := s.transfers[id := Transfer(parcel, seller, to, PENDING, s.parcels[parcel].district)],
            jobs := s.jobs + [Job(id, Waiting, 0, None)],
            ledger := Emit(s.ledger, logged, s.parcels[parcel].district, Other("TRANSFER_INITIATED", id))), Ok)
  }

  function RejectTransfer(s: State, logged: bool, id: string): (r: (State, Reply))
    ensures r.0 == s.(transfers := r.0.transfers, ledger := r.0.ledger)
  {
    if id !in s.transfers then (s, NotFound)
    else
      var t := s.transfers[id];
      (s.(transfers := s.transfers[id := t.(status := REJECTED)],
          ledger := Emit(s.ledger, logged, t.district, Other("TRANSFER_REJECTED", id))), Ok)
  }

  // ---- scoring

  function ScoresOf(scores: map<string, seq<Score>>, transfer: string): seq<Score> {
    if transfer in scores then scores[transfer] else []
  }

  /** `ORDER BY scored_at DESC LIMIT 1`, the later row on a tie. */
  function Latest(rows: seq<Score>): Option<Score> {
    if rows == [] then None
    else
      var earlier, last := Latest(rows[..|rows| - 1]), rows[|rows| - 1];
      if earlier.None? || last.at >= earlier.value.at then Some(last) else earlier
  }

  function OtherVersions(rows: seq<Score>, version: nat): seq<Score> {
    if rows == [] then []
    else if rows[0].version == version then OtherVersions(rows[1..], version)
    else [rows[0]] + OtherVersions(rows[1..], version)
  }

  /** `INSERT OR REPLACE`, unique on the version. */
  function Persist(s: State, transfer: string, recommended: Recommended, now: real): (t: State)
    ensures t == s.(scores := t.scores)
  {
    var rows := OtherVersions(ScoresOf(s.scores, transfer), s.version) + [Score(s.version, recommended, now)];
    s.(scores := s.scores[transfer := rows])
  }

  predicate Queued(reviews: map<string, Review>, transfer: string, version: nat) {
    exists r | r in reviews :: reviews[r].transfer == transfer && reviews[r].version == version && reviews[r].state == PENDING_REVIEW
  }

  /** What the scorer does when it is asked: it, or the actions after it, may raise. */
  datatype Scoring =
    | ScorerRaises
    | RaisesOncePersisted(recommended: Recommended)
    | Scores(recommended: Recommended, reviewId: string)

  datatype Scored = Threw | NoScore | Got(score: Score)

  function FromOption(score: Option<Score>): Scored {
    if score.None? then NoScore else Got(score.value)
  }

  /** `_act_on_score` on a transfer; the second part tells whether it raised. */
  function ActOnScore(s: State, logged: bool, transfer: string, recommended: Recommended, reviewId: string, now: real): (r: (State, bool))
    ensures r.0 == s.(reviews := r.0.reviews, ledger := r.0.ledger)
  {
    if recommended == NONE || transfer !in s.transfers then (s, false)
    else
      var district := s.transfers[transfer].district;
      var review := Review(transfer, district, recommended, s.version, PENDING_REVIEW, now, None, None);
      var ledger := Emit(s.ledger, logged, district, Other("FRAUD_REVIEW_QUEUED", transfer));
      if Queued(s.reviews, transfer, s.version) then (s.(ledger := ledger), false)
      else if reviewId in s.reviews then (s, true)
      else (s.(reviews := s.reviews[reviewId := review], ledger := ledger), false)
  }

  predicate HasContext(s: State, transfer: string) {
    transfer in s.transfers && s.transfers[transfer].parcel in s.parcels
  }

  predicate UpToDate(s: State, transfer: string) {
    var prior := Latest(ScoresOf(s.scores, transfer));
    prior.Some? && prior.value.version == s.version
  }

  /** Scoring writes scores, reviews and ledger events, and nothing else. */
  predicate OnlyScores(s: State, t: State) {
    t == s.(scores := t.scores, reviews := t.reviews, ledger := t.ledger)
  }

  /** `score_now("TRANSFER", transfer)`. */
  function ScoreNow(s: State, logged: bool, transfer: string, scoring: Scoring, now: real): (r: (State, Scored))
    ensures OnlyScores(s, r.0)
  {
    if UpToDate(s, transfer) || !HasContext(s, transfer) then (s, FromOption(Latest(ScoresOf(s.scores, transfer))))
    else
      match scoring
      case ScorerRaises => (s, Threw)
      case RaisesOncePersisted(recommended) => (Persist(s, transfer, recommended, now), Threw)
      case Scores(recommended, reviewId) =>
        var (acted, raised) := ActOnScore(Persist(s, transfer, recommended, now), logged, transfer, recommended, reviewId, now);
        (acted, if raised then Threw else FromOption(Latest(ScoresOf(acted.scores, transfer))))
  }

  /** `_score_once`: the stream consumer, behind its lock. */
  function StreamScore(s: State, logged: bool, transfer: string, locked: bool, scoring: Scoring, now: real): State {
    if !locked then s else ScoreNow(s, logged, transfer, scoring, now).0
  }

  function Handover(parcels: Parcels, t: Transfer): Parcels {
    if t.parcel in parcels then parcels[t.parcel := parcels[t.parcel].(owner := Some(t.toOwner), status := TRANSFERRED)] else parcels
  }

  function Complete(s: State, logged: bool, id: string): State
    requires id in s.transfers
  {
    var t := s.transfers[id];
    s.(transfers := s.transfers[id := t.(status := COMPLETED)],
       parcels := Handover(s.parcels, t),
       ledger := Emit(s.ledger, logged, t.district, TransferCompleted(id, t.parcel, t.toOwner)))
  }

  /** The fail-closed gate. It looks at neither the status of the transfer nor that of the parcel. */
  function ApproveTransfer(s: State, logged: bool, id: string, scoring: Scoring, now: real): (r: (State, Reply))
    ensures r.0 == s.(transfers := r.0.transfers, parcels := r.0.parcels, scores := r.0.scores, reviews := r.0.reviews, ledger := r.0.ledger)
  {
    if id !in s.transfers then (s, NotFound)
    else
      var (scored, result) := ScoreNow(s, logged, id, scoring, now);
      match result
      case Threw => (scored, Raised)
      case NoScore => (scored, Unavailable)
      case Got(score) =>
        if score.recommended == BLOCK then (scored, Conflict)
        else (Complete(scored, logged, id), Ok)
  }

  // ---- the outbox

  const MAX_ATTEMPTS := 5

  predicate Due(job: Job, now: real) {
    job.state == Waiting && (job.nextAttemptAt.None? || job.nextAttemptAt.value <= now)
  }

  /** Positions of the first `limit` due jobs at or after `from`. */
  function DueJobs(jobs: seq<Job>, from: nat, now: real, limit: nat): (r: seq<nat>)
    requires from <= |jobs|
    ensures |r| <= limit
    ensures forall k :: 0 <= k < |r| ==> from <= r[k] < |jobs| && Due(jobs[r[k]], now)
    ensures forall k, l :: 0 <= k < l < |r| ==> r[k] < r[l]
    decreases |jobs| - from
  {
    if from == |jobs| || limit == 0 then []
    else if Due(jobs[from], now) then [from] + DueJobs(jobs, from + 1, now, limit - 1)
    else DueJobs(jobs, from + 1, now, limit)
  }

  function Pow2(n: nat): real {
    if n == 0 then 1.0 else 2.0 * Pow2(n - 1)
  }

  function Backoff(attempts: nat): real {
    if 300.0 <= Pow2(attempts) then 300.0 else Pow2(attempts)
  }

  /** `_finish_job` after an attempt that returned, or raised. */
  function Settle(job: Job, raised: bool, now: real): Job {
    if !raised then job.(state := Done, nextAttemptAt := None)
    else if job.attempts + 1 >= MAX_ATTEMPTS then Job(job.transfer, Failed, job.attempts + 1, None)
    else Job(job.transfer, Waiting, job.attempts + 1, Some(now + Backoff(job.attempts + 1)))
  }

  function Attempt(s: State, logged: bool, i: nat, scoring: Scoring, now: real): (t: State)
    ensures OnlyScores(s.(jobs := t.jobs), t) && |t.jobs| == |s.jobs|
    ensures forall j :: 0 <= j < |s.jobs| && j != i ==> t.jobs[j] == s.jobs[j]
  {
    if i >= |s.jobs| then s
    else
      var (scored, result) := ScoreNow(s, logged, s.jobs[i].transfer, scoring, now);
      scored.(jobs := s.jobs[i := Settle(s.jobs[i], result.Threw?, now)])
  }

  /** The first `n` turns of the sweep's loop over the jobs it picked. */
  function Attempts(s: State, logged: bool, picks: seq<nat>, scorings: seq<Scoring>, n: nat, now: real): State
    requires n <= |picks| <= |scorings|
  {
    if n == 0 then s else Attempt(Attempts(s, logged, picks, scorings, n - 1, now), logged, picks[n - 1], scorings[n - 1], now)
  }

  function Picks(s: State, limit: nat, now: real): seq<nat> {
    DueJobs(s.jobs, 0, now, limit)
  }

  function Sweep(s: State, logged: bool, limit: nat, scorings: seq<Scoring>, now: real): State
    requires limit <= |scorings|
  {
    Attempts(s, logged, Picks(s, limit, now), scorings, |Picks(s, limit, now)|, now)
  }

  // ---- reviews and appeals

  function Reviewed(s: State, id: string, state: ReviewState, reviewer: string): map<string, Review>
    requires id in s.reviews
  {
    s.reviews[id := s.reviews[id].(state := state, reviewedBy := Some(reviewer))]
  }

  /** The parcel that affirming a review freezes. */
  function FreezeTarget(s: State, r: Review): Option<string> {
    if r.recommended == BLOCK && r.transfer in s.transfers then Some(s.transfers[r.transfer].parcel) else None
  }

  /**
   `disputes.claimant_id` references `owners`, so the insert fails for a
   reviewer who is not a registered owner. With a connection that commits
   every statement, the parcel is frozen by then.
   */
  function AffirmReview(sys: Settings, s: State, user: User, logged: bool, id: string, disputeId: string): (r: (State, Reply))
    ensures r.0 == s.(reviews := r.0.reviews, parcels := r.0.parcels, disputes := r.0.disputes, ledger := r.0.ledger)
  {
    if id !in s.reviews then (s, NotFound)
    else if s.reviews[id].state != PENDING_REVIEW then (s, Conflict)
    else
      var r, affirmed := s.reviews[id], Reviewed(s, id, HUMAN_AFFIRMED, user.id);
      var ledger := Emit(s.ledger, logged, r.district, Other("FRAUD_HUMAN_AFFIRMED", id));
      match FreezeTarget(s, r)
      case None => (s.(reviews := affirmed, ledger := ledger), Ok)
      case Some(parcel) =>
        var frozen := WithStatus(s.parcels, parcel, FROZEN);
        if OpenDispute(s.disputes, parcel, {FRAUD}) then (s.(reviews := affirmed, parcels := frozen, ledger := ledger), Ok)
        else if disputeId in s.disputes || user.id !in s.owners then
          (if sys.autocommit then s.(reviews := affirmed, parcels := frozen) else s, Raised)
        else
          var dispute := Dispute(parcel, user.id, FRAUD, UNDER_REVIEW, r.district);
          (s.(reviews := affirmed, parcels := frozen, disputes := s.disputes[disputeId := dispute], ledger := ledger), Ok)
  }

  function DismissReview(s: State, user: User, logged: bool, id: string): (r: (State, Reply))
    ensures r.0 == s.(reviews := r.0.reviews, ledger := r.0.ledger)
  {
    if id !in s.reviews then (s, NotFound)
    else if s.reviews[id].state != PENDING_REVIEW then (s, Conflict)
    else
      (s.(reviews := Reviewed(s, id, HUMAN_DISMISSED, user.id),
          ledger := Emit(s.ledger, logged, s.reviews[id].district, Other("FRAUD_HUMAN_DISMISSED", id))), Ok)
  }

  function UserDistrict(user: User): int {
    if user.district.Some? then user.district.value else 0
  }

  function FileAppeal(s: State, user: User, logged: bool, id: string, review: Option<string>, subjectType: SubjectType, subject: string): (r: (State, Reply))
    ensures r.0 == s.(appeals := r.0.appeals, ledger := r.0.ledger)
  {
    if id in s.appeals || (review.Some? && review.value !in s.reviews) then (s, Raised)
    else
      (s.(appeals := s.appeals[id := Appeal(review, subjectType, subject, user.id, OPEN)],
          ledger := Emit(s.ledger, logged, UserDistrict(user), Other("FRAUD_APPEAL_FILED", id))), Ok)
  }

  /** The parcel that upholding an appeal unfreezes. */
  function ReliefTarget(s: State, a: Appeal): Option<string> {
    if a.subjectType == TRANSFER && a.subject in s.transfers then Some(s.transfers[a.subject].parcel) else None
  }

  function ResolveAppeal(s: State, user: User, logged: bool, id: string, upheld: bool): (r: (State, Reply))
    ensures r.0 == s.(appeals := r.0.appeals, parcels := r.0.parcels, ledger := r.0.ledger)
  {
    if id !in s.appeals then (s, NotFound)
    else if s.appeals[id].state != OPEN then (s, Conflict)
    else
      var a := s.appeals[id];
      (s.(appeals := s.appeals[id := a.(state := if upheld then UPHELD else DENIED)],
          parcels := if upheld && ReliefTarget(s, a).Some? then Unfreeze(s.parcels, ReliefTarget(s, a).value) else s.parcels,
          ledger := Emit(s.ledger, logged, UserDistrict(user), Other("FRAUD_APPEAL_RESOLVED", id))), Ok)
  }

  const ESCALATION_THRESHOLD := 86400.0

  predicate Overdue(r: Review, now: real) {
    r.state == PENDING_REVIEW && r.createdAt < now - ESCALATION_THRESHOLD && r.escalatedAt.None?
  }

  /** Some order of exactly the overdue reviews, as the query returns them. */
  predicate ListsOverdue(s: State, order: seq<string>, now: real) {
    && (forall r | r in order :: r in s.reviews && Overdue(s.reviews[r], now))
    && (forall r | r in s.reviews :: Overdue(s.reviews[r], now) ==> r in order)
    && (forall i, j :: 0 <= i < j < |order| ==> order[i] != order[j])
  }

  function EscalateOne(s: State, logged: bool, id: string, now: real): (t: State)
    ensures t == s.(reviews := t.reviews, ledger := t.ledger)
  {
    if id !in s.reviews then s
    else
      s.(reviews := s.reviews[id := s.reviews[id].(escalatedAt := Some(now))],
         ledger := Emit(s.ledger, logged, s.reviews[id].district, Other("FRAUD_REVIEW_ESCALATED", id)))
  }

  function Escalate(s: State, logged: bool, order: seq<string>, now: real): State {
    if order == [] then s else EscalateOne(Escalate(s, logged, order[..|order| - 1], now), logged, order[|order| - 1], now)
  }

  // ---- disputes

  function FileDispute(s: State, user: User, logged: bool, id: string, parcel: string, respondent: Option<string>, kind: DisputeKind): (r: (State, Reply))
    ensures r.0 == s.(disputes := r.0.disputes, parcels := r.0.parcels, ledger := r.0.ledger)
  {
    if parcel !in s.parcels then (s, NotFound)
    else if id in s.disputes || user.id !in s.owners || (respondent.Some? && respondent.value !in s.owners) then (s, Raised)
    else
      var district := s.parcels[parcel].district;
      (s.(disputes := s.disputes[id := Dispute(parcel, user.id, kind, FILED, district)],
          parcels := if kind in CUSTODIAL then WithStatus(s.parcels, parcel, DISPUTED) else s.parcels,
          ledger := Emit(s.ledger, logged, district, Other("DISPUTE_FILED", id))), Ok)
  }

  function ReviewDispute(s: State, logged: bool, id: string): (r: (State, Reply))
    ensures r.0 == s.(disputes := r.0.disputes, ledger := r.0.ledger)
  {
    if id !in s.disputes then (s, NotFound)
    else
      var d := s.disputes[id];
      (s.(disputes := s.disputes[id := d.(state := UNDER_REVIEW)],
          ledger := Emit(s.ledger, logged, d.district, Other("DISPUTE_REVIEWED", id))), Ok)
  }

  function ResolveDispute(s: State, logged: bool, id: string, outcome: DisputeState): (r: (State, Reply))
    ensures r.0 == s.(disputes := r.0.disputes, parcels := r.0.parcels, ledger := r.0.ledger)
  {
    if id !in s.disputes then (s, NotFound)
    else
      var d := s.disputes[id];
      (s.(disputes := s.disputes[id := d.(state := outcome)],
          parcels := if outcome in {RESOLVED, DISMISSED} then Unfreeze(s.parcels, d.parcel) else s.parcels,
          ledger := Emit(s.ledger, logged, d.district, Other("DISPUTE_RESOLVED", id))), Ok)
  }

  // ---- runs

  /** The requests, one datatype per router, and the background jobs. */
  datatype Registration =
    | NewOwner(id: string)
    | Kyc(id: string, verified: bool)
    | NewParcel(id: string, district: int, owner: Option<string>)
    | NewTitle(parcel: string, to: string, year: int)

  datatype Transferring =
    | NewTransfer(id: string, parcel: string, from: Option<string>, to: string)
    | Approve(id: string, scoring: Scoring)
    | Reject(id: string)

  datatype Reviewing =
    | Affirm(id: string, disputeId: string)
    | Dismiss(id: string)
    | NewAppeal(id: string, review: Option<string>, subjectType: SubjectType, subject: string)
    | DecideAppeal(id: string, upheld: bool)

  datatype Disputing =
    | NewDispute(id: string, parcel: string, respondent: Option<string>, kind: DisputeKind)
    | TakeUp(id: string)
    | Decide(id: string, outcome: DisputeState)

  datatype Work =
    | Stream(id: string, locked: bool, scoring: Scoring)
    | SweepOutbox(limit: nat, scorings: seq<Scoring>)
    | EscalateReviews(order: seq<string>)
    | Upgrade

  datatype Action =
    | Register(registration: Registration)
    | OnTransfer(transferring: Transferring)
    | OnReview(reviewing: Reviewing)
    | OnDispute(disputing: Disputing)
    | Background(work: Work)

  /** A request or a job: who, when, and whether the ledger append succeeds. */
  datatype Call = Call(user: User, now: real, logged: bool, action: Action)

  const ANYONE: set<Role> := {CITIZEN, SURVEYOR, LAND_OFFICER, REGISTRAR, AUDITOR, PUBLIC_VERIFIER}

  /** The roles that the handlers let in; jobs have no user. */
  function Allowed(a: Action): set<Role> {
    match a
    case Register(NewOwner(_)) => {LAND_OFFICER, REGISTRAR}
    case Register(Kyc(_, _)) => {LAND_OFFICER, REGISTRAR}
    case Register(NewParcel(_, _, _)) => {SURVEYOR, REGISTRAR}
    case Register(NewTitle(_, _, _)) => {REGISTRAR}
    case OnTransfer(NewTransfer(_, _, _, _)) => {LAND_OFFICER, CITIZEN}
    case OnTransfer(_) => {REGISTRAR, LAND_OFFICER}
    case OnReview(Affirm(_, _)) => {LAND_OFFICER, REGISTRAR}
    case OnReview(Dismiss(_)) => {LAND_OFFICER, REGISTRAR}
    case OnReview(DecideAppeal(_, _)) => {AUDITOR, REGISTRAR}
    case OnDispute(TakeUp(_)) => {LAND_OFFICER, REGISTRAR}
    case OnDispute(Decide(_, _)) => {REGISTRAR}
    case _ => ANYONE
  }

  function DoRegister(sys: Settings, s: State, c: Call, a: Registration): (State, Reply) {
    match a
    case NewOwner(id) => RegisterOwner(s, id)
    case Kyc(id, verified) => SetKyc(s, id, verified)
    case NewParcel(id, district, owner) => CreateParcel(sys, s, c.logged, id, district, owner)
    case NewTitle(parcel, to, year) => IssueTitle(s, c.logged, parcel, to, year)
  }

  function DoTransfer(s: State, c: Call, a: Transferring): (State, Reply) {
    match a
    case NewTransfer(id, parcel, from, to) => CreateTransfer(s, c.logged, id, parcel, from, to)
    case Approve(id, scoring) => ApproveTransfer(s, c.logged, id, scoring, c.now)
    case Reject(id) => RejectTransfer(s, c.logged, id)
  }

  function DoReview(sys: Settings, s: State, c: Call, a: Reviewing): (State, Reply) {
    match a
    case Affirm(id, disputeId) => AffirmReview(sys, s, c.user, c.logged, id, disputeId)
    case Dismiss(id) => DismissReview(s, c.user, c.logged, id)
    case NewAppeal(id, review, subjectType, subject) => FileAppeal(s, c.user, c.logged, id, review, subjectType, subject)
    case DecideAppeal(id, upheld) => ResolveAppeal(s, c.user, c.logged, id, upheld)
  }

  function DoDispute(s: State, c: Call, a: Disputing): (State, Reply) {
    match a
    case NewDispute(id, parcel, respondent, kind) => FileDispute(s, c.user, c.logged, id, parcel, respondent, kind)
    case TakeUp(id) => ReviewDispute(s, c.logged, id)
    case Decide(id, outcome) => ResolveDispute(s, c.logged, id, outcome)
  }

  function DoWork(s: State, c: Call, w: Work): State
    requires w.SweepOutbox? ==> w.limit <= |w.scorings|
  {
    match w
    case Stream(id, locked, scoring) => StreamScore(s, c.logged, id, locked, scoring, c.now)
    case SweepOutbox(limit, scorings) => Sweep(s, c.logged, limit, scorings, c.now)
    case EscalateReviews(order) => Escalate(s, c.logged, order, c.now)
    case Upgrade => s.(version := s.version + 1)
  }

  /** The clock never goes back; a request can only ask for what its model admits. */
  predicate Enabled(s: State, c: Call) {
    && c.now >= s.clock
    && match c.action
       case Background(SweepOutbox(limit, scorings)) => limit <= |scorings|
       case Background(EscalateReviews(order)) => ListsOverdue(s, order, c.now)
       case OnDispute(Decide(_, outcome)) => outcome in {RESOLVED, DISMISSED, ESCALATED_COURT}
       case _ => true
  }

  function Handle(sys: Settings, s: State, c: Call): (State, Reply)
    requires Enabled(s, c)
  {
    if !HasRole(c.user, Allowed(c.action)) then (s, Forbidden)
    else
      match c.action
      case Register(a) => DoRegister(sys, s, c, a)
      case OnTransfer(a) => DoTransfer(s, c, a)
      case OnReview(a) => DoReview(sys, s, c, a)
      case OnDispute(a) => DoDispute(s, c, a)
      case Background(w) => (DoWork(s, c, w), Ok)
  }

  function Step(sys: Settings, s: State, c: Call): State
    requires Enabled(s, c)
  {
    Handle(sys, s, c).0.(clock := c.now)
  }

  /** A call that is not enabled changes nothing. */
  function Run(sys: Settings, s: State, calls: seq<Call>): State {
    if calls == [] then s
    else
      var before, last := Run(sys, s, calls[..|calls| - 1]), calls[|calls| - 1];
      if Enabled(before, last) then Step(sys, before, last) else before
  }
}
