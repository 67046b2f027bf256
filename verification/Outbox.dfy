/** The scoring outbox: one job per transfer, at most five attempts, and a sweep that makes progress. */
module Outbox {
  import opened Hashing
  import opened Registry
  import opened RegistryFrames
  import opened Gate

  predicate JobOk(job: Job) {
    && (job.state == Waiting ==> job.attempts < MAX_ATTEMPTS)
    && (job.state == Done ==> job.attempts < MAX_ATTEMPTS)
    && (job.state == Failed ==> job.attempts == MAX_ATTEMPTS)
  }

  /** Exactly one job per transfer. */
  ghost predicate OneJobEach(s: State) {
    && (forall i, j :: 0 <= i < j < |s.jobs| ==> s.jobs[i].transfer != s.jobs[j].transfer)
    && (forall i :: 0 <= i < |s.jobs| ==> s.jobs[i].transfer in s.transfers)
    && (forall id :: id in s.transfers ==> HasJob(s.jobs, id))
  }

  predicate HasJob(jobs: seq<Job>, id: string) {
    exists i | 0 <= i < |jobs| :: jobs[i].transfer == id
  }

  ghost predicate OutboxInv(s: State) {
    && OneJobEach(s)
    && (forall i :: 0 <= i < |s.jobs| ==> JobOk(s.jobs[i]))
    && (forall i :: 0 <= i < |s.jobs| && s.jobs[i].state == Done ==> ScoresOf(s.scores, s.jobs[i].transfer) != [])
  }

  // ---- one attempt

  /** Jobs keep their transfer. */
  predicate SameTransfers(old_: seq<Job>, new_: seq<Job>) {
    |old_| == |new_| && forall i :: 0 <= i < |old_| ==> new_[i].transfer == old_[i].transfer
  }

  /** What an attempt does to the jobs, and what a finished one is worth. */
  lemma {:induction false} AttemptEffect(s: State, logged: bool, i: nat, scoring: Scoring, now: real)
    requires ScoresOk(s.scores, s.version, now) && Contexts(s)
    requires i < |s.jobs| && s.jobs[i].transfer in s.transfers && s.jobs[i].state == Waiting && JobOk(s.jobs[i])
    ensures
      var t := Attempt(s, logged, i, scoring, now);
      && t.jobs == s.jobs[i := t.jobs[i]] && t.jobs[i].transfer == s.jobs[i].transfer && JobOk(t.jobs[i])
      && (t.jobs[i].state == Done ==> UpToDate(t, t.jobs[i].transfer))
      && (t.jobs[i].state == Done ==> t.jobs[i].attempts == s.jobs[i].attempts)
      && (t.jobs[i].state != Done ==> t.jobs[i].attempts == s.jobs[i].attempts + 1)
      && (t.jobs[i].state == Waiting ==> t.jobs[i].nextAttemptAt == Some(now + Backoff(t.jobs[i].attempts)))
  {
    hide ScoreNow, Latest, RowsOk, Backoff;
    EmptyRowsOk(s.version, now);
    ScoringEffect(s, logged, s.jobs[i].transfer, scoring, now);
  }

  // ---- the work that is left

  function Remaining(job: Job): nat {
    if job.state == Waiting && job.attempts < MAX_ATTEMPTS then MAX_ATTEMPTS - job.attempts else 0
  }

  /** The sum of the attempts that pending jobs have left. */
  function AttemptsLeft(jobs: seq<Job>): nat {
    if jobs == [] then 0 else AttemptsLeft(jobs[..|jobs| - 1]) + Remaining(jobs[|jobs| - 1])
  }

  function PendingJobs(jobs: seq<Job>): nat {
    if jobs == [] then 0 else PendingJobs(jobs[..|jobs| - 1]) + if jobs[|jobs| - 1].state == Waiting then 1 else 0
  }

  lemma {:induction false} WorkIsBounded(jobs: seq<Job>)
    ensures AttemptsLeft(jobs) <= MAX_ATTEMPTS * PendingJobs(jobs)
    ensures (forall i :: 0 <= i < |jobs| ==> JobOk(jobs[i])) ==> (AttemptsLeft(jobs) == 0 <==> PendingJobs(jobs) == 0)
  {
    if jobs != [] {
      WorkIsBounded(jobs[..|jobs| - 1]);
      assert jobs[|jobs| - 1] in jobs;
    }
  }

  lemma {:induction false} WorkOfUpdate(jobs: seq<Job>, i: nat, job: Job)
    requires i < |jobs|
    ensures AttemptsLeft(jobs[i := job]) == AttemptsLeft(jobs) - Remaining(jobs[i]) + Remaining(job)
    ensures Remaining(jobs[i]) <= AttemptsLeft(jobs)
  {
    var new_ := jobs[i := job];
    if i == |jobs| - 1 {
      assert new_[..|jobs| - 1] == jobs[..|jobs| - 1];
    } else {
      WorkOfUpdate(jobs[..|jobs| - 1], i, job);
      assert new_[..|jobs| - 1] == jobs[..|jobs| - 1][i := job];
    }
  }

  // ---- a sweep

  /** After `n` turns the later picks are untouched, and every turn has used up at least one attempt. */
  lemma {:induction false} AttemptsProgress(s: State, logged: bool, picks: seq<nat>, scorings: seq<Scoring>, n: nat, now: real)
    requires n <= |picks| <= |scorings|
    requires ScoresOk(s.scores, s.version, now) && Contexts(s) && OutboxInv(s)
    requires forall k :: 0 <= k < |picks| ==> picks[k] < |s.jobs| && s.jobs[picks[k]].state == Waiting
    requires forall k, l :: 0 <= k < l < |picks| ==> picks[k] < picks[l]
    ensures
      var t := Attempts(s, logged, picks, scorings, n, now);
      && OutboxInv(t) && |t.jobs| == |s.jobs| && AttemptsLeft(t.jobs) + n <= AttemptsLeft(s.jobs)
      && forall i :: 0 <= i < |s.jobs| && i !in picks[..n] ==> t.jobs[i] == s.jobs[i]
  {
    hide Attempt, ScoresOk, OutboxInv, AttemptsLeft, Contexts, ScoresGrow;
    if n > 0 {
      assert picks[n - 1] !in picks[..n - 1];
      assert picks[..n] == picks[..n - 1] + [picks[n - 1]];
      var before := Attempts(s, logged, picks, scorings, n - 1, now);
      AttemptsProgress(s, logged, picks, scorings, n - 1, now);
      AttemptsOnlyScore(s, logged, picks, scorings, n - 1, now);
      AttemptsKeepScores(s, logged, picks, scorings, n - 1, now);
      ContextsSame(s, before);
      OneAttempt(before, logged, picks[n - 1], scorings[n - 1], now);
    }
  }

  lemma {:induction false} ContextsSame(s: State, t: State)
    requires Contexts(s) && t.transfers == s.transfers && t.parcels == s.parcels
    ensures Contexts(t)
  {
  }

  lemma {:induction false} OneAttempt(s: State, logged: bool, i: nat, scoring: Scoring, now: real)
    requires ScoresOk(s.scores, s.version, now) && Contexts(s) && OutboxInv(s) && i < |s.jobs| && s.jobs[i].state == Waiting
    ensures
      var t := Attempt(s, logged, i, scoring, now);
      && OutboxInv(t) && t.jobs == s.jobs[i := t.jobs[i]] && AttemptsLeft(t.jobs) < AttemptsLeft(s.jobs)
  {
    hide Attempt, ScoresOk, Contexts, AttemptsLeft, ScoresOf, UpToDate, OneJobEach, ScoresGrow;
    JobIsKnown(s, i);
    AttemptEffect(s, logged, i, scoring, now);
    AttemptKeepsScores(s, logged, i, scoring, now);
    var t := Attempt(s, logged, i, scoring, now);
    WorkOfUpdate(s.jobs, i, t.jobs[i]);
    DoneStaysScored(s, t, i);
    JobsStay(s, t);
  }

  lemma {:induction false} JobIsKnown(s: State, i: nat)
    requires OneJobEach(s) && i < |s.jobs|
    ensures s.jobs[i].transfer in s.transfers
  {
  }

  lemma {:induction false} DoneStaysScored(s: State, t: State, i: nat)
    requires forall j :: 0 <= j < |s.jobs| && s.jobs[j].state == Done ==> ScoresOf(s.scores, s.jobs[j].transfer) != []
    requires i < |s.jobs| && |t.jobs| == |s.jobs| && t.jobs == s.jobs[i := t.jobs[i]] && ScoresGrow(s.scores, t.scores)
    requires t.jobs[i].state == Done ==> UpToDate(t, t.jobs[i].transfer)
    ensures forall j :: 0 <= j < |t.jobs| && t.jobs[j].state == Done ==> ScoresOf(t.scores, t.jobs[j].transfer) != []
  {
    hide UpToDate, ScoresOf;
    forall j | 0 <= j < |t.jobs| && t.jobs[j].state == Done ensures ScoresOf(t.scores, t.jobs[j].transfer) != [] {
      if j == i {
        UpToDateIsScored(t, t.jobs[i].transfer);
      } else {
        assert ScoresOf(s.scores, t.jobs[j].transfer) <= ScoresOf(t.scores, t.jobs[j].transfer);
      }
    }
  }

  lemma {:induction false} UpToDateIsScored(s: State, id: string)
    requires UpToDate(s, id)
    ensures ScoresOf(s.scores, id) != []
  {
  }

  lemma {:induction false} JobsStay(s: State, t: State)
    requires OneJobEach(s) && SameTransfers(s.jobs, t.jobs) && t.transfers.Keys == s.transfers.Keys
    ensures OneJobEach(t)
  {
    forall id | id in t.transfers ensures HasJob(t.jobs, id) {
      assert HasJob(s.jobs, id);
      var i :| 0 <= i < |s.jobs| && s.jobs[i].transfer == id;
      assert t.jobs[i].transfer == id;
    }
  }

  // ---- every step

  /** Steps that leave the jobs alone, or add the job of a new transfer. */
  lemma {:induction false} JobsUntouched(s: State, t: State)
    requires OutboxInv(s) && t.jobs == s.jobs && t.transfers.Keys == s.transfers.Keys && ScoresGrow(s.scores, t.scores)
    ensures OutboxInv(t)
  {
    hide ScoresOf;
    JobsStay(s, t);
    forall j | 0 <= j < |t.jobs| && t.jobs[j].state == Done ensures ScoresOf(t.scores, t.jobs[j].transfer) != [] {
      assert ScoresOf(s.scores, t.jobs[j].transfer) <= ScoresOf(t.scores, t.jobs[j].transfer);
    }
  }

  lemma {:induction false} OneMoreJob(s: State, t: State, id: string)
    requires OneJobEach(s) && id !in s.transfers && t.transfers.Keys == s.transfers.Keys + {id}
    requires t.jobs == s.jobs + [Job(id, Waiting, 0, None)]
    ensures OneJobEach(t)
  {
    forall k | k in t.transfers ensures HasJob(t.jobs, k) {
      if k == id {
        assert t.jobs[|s.jobs|].transfer == id;
      } else {
        assert HasJob(s.jobs, k);
        var i :| 0 <= i < |s.jobs| && s.jobs[i].transfer == k;
        assert t.jobs[i].transfer == k;
      }
    }
    forall i, j | 0 <= i < j < |t.jobs| ensures t.jobs[i].transfer != t.jobs[j].transfer {
      assert s.jobs[i].transfer in s.transfers;
    }
  }

  lemma {:induction false} JobAdded(s: State, t: State, id: string)
    requires OutboxInv(s) && id !in s.transfers && t.transfers.Keys == s.transfers.Keys + {id}
    requires t.jobs == s.jobs + [Job(id, Waiting, 0, None)] && t.scores == s.scores
    ensures OutboxInv(t) && AttemptsLeft(t.jobs) == AttemptsLeft(s.jobs) + MAX_ATTEMPTS
  {
    hide OneJobEach, ScoresOf;
    OneMoreJob(s, t, id);
    assert t.jobs[..|t.jobs| - 1] == s.jobs;
  }

  lemma {:induction false} TransferKeepsOutbox(s: State, c: Call, a: Transferring)
    requires OutboxInv(s) && ScoresOk(s.scores, s.version, c.now)
    ensures
      var t := DoTransfer(s, c, a).0;
      && OutboxInv(t) && |t.jobs| >= |s.jobs| && AttemptsLeft(t.jobs) == AttemptsLeft(s.jobs) + MAX_ATTEMPTS * (|t.jobs| - |s.jobs|)
  {
    hide ApproveTransfer, OutboxInv, Emit, AttemptsLeft, ScoresOk, Seller, ScoresGrow;
    var t := DoTransfer(s, c, a).0;
    GrowsReflexive(s.scores);
    match a {
      case NewTransfer(id, _, _, _) =>
        if |t.jobs| > |s.jobs| {
          JobAdded(s, t, id);
        } else {
          JobsUntouched(s, t);
        }
      case Approve(id, scoring) =>
        ApproveEffect(s, c.logged, id, scoring, c.now);
        ApproveKeepsScores(s, c.logged, id, scoring, c.now);
        JobsUntouched(s, t);
      case Reject(_) => JobsUntouched(s, t);
    }
  }

  predicate Productive(s: State, c: Call) {
    c.action.Background? && c.action.work.SweepOutbox? && Picks(s, c.action.work.limit, c.now) != []
  }

  lemma {:induction false} SweepKeepsOutbox(s: State, logged: bool, limit: nat, scorings: seq<Scoring>, now: real)
    requires limit <= |scorings| && OutboxInv(s) && ScoresOk(s.scores, s.version, now) && Contexts(s)
    ensures
      var t := Sweep(s, logged, limit, scorings, now);
      OutboxInv(t) && |t.jobs| == |s.jobs| && AttemptsLeft(t.jobs) + |Picks(s, limit, now)| <= AttemptsLeft(s.jobs)
  {
    hide Attempts, OutboxInv, ScoresOk, Contexts, AttemptsLeft;
    AttemptsProgress(s, logged, Picks(s, limit, now), scorings, |Picks(s, limit, now)|, now);
  }

  lemma {:induction false} WorkKeepsOutbox(s: State, c: Call, w: Work)
    requires w.SweepOutbox? ==> w.limit <= |w.scorings|
    requires OutboxInv(s) && ScoresOk(s.scores, s.version, c.now) && Contexts(s)
    ensures
      var t := DoWork(s, c, w);
      && OutboxInv(t) && |t.jobs| == |s.jobs|
      && AttemptsLeft(t.jobs) + (if w.SweepOutbox? && Picks(s, w.limit, c.now) != [] then 1 else 0) <= AttemptsLeft(s.jobs)
  {
    hide DoWork, OutboxInv, ScoresOk, Contexts, AttemptsLeft, Sweep, ScoresGrow;
    if w.SweepOutbox? {
      SweepKeepsOutbox(s, c.logged, w.limit, w.scorings, c.now);
      SweepIsWork(s, c, w);
    } else {
      WorkIsFramed(s, c, w);
      WorkKeepsScores(s, c, w);
      JobsUntouched(s, DoWork(s, c, w));
    }
  }

  lemma {:induction false} SweepIsWork(s: State, c: Call, w: Work)
    requires w.SweepOutbox? && w.limit <= |w.scorings|
    ensures DoWork(s, c, w) == Sweep(s, c.logged, w.limit, w.scorings, c.now)
  {
    hide Sweep;
  }

  /** Every step keeps the outbox in order, and a productive sweep uses up at least one attempt. */
  lemma {:induction false} StepKeepsOutbox(sys: Settings, s: State, c: Call)
    requires Enabled(s, c) && GateInv(s) && OutboxInv(s)
    ensures
      var t := Step(sys, s, c);
      && OutboxInv(t) && |t.jobs| >= |s.jobs|
      && AttemptsLeft(t.jobs) + (if Productive(s, c) && HasRole(c.user, ANYONE) then 1 else 0) <= AttemptsLeft(s.jobs) + MAX_ATTEMPTS * (|t.jobs| - |s.jobs|)
  {
    hide DoRegister, DoTransfer, DoReview, DoDispute, DoWork, HasRole, OutboxInv, ScoresOk, Contexts, CompletedAreClear, AttemptsLeft, ScoresGrow;
    ScoresAge(s.scores, s.version, s.clock, s.version, c.now);
    GrowsReflexive(s.scores);
    StepIsFramed(sys, s, c);
    var after := Handle(sys, s, c).0;
    match c.action {
      case OnTransfer(a) =>
        if HasRole(c.user, Allowed(c.action)) {
          TransferKeepsOutbox(s, c, a);
        }
      case Background(w) =>
        if HasRole(c.user, Allowed(c.action)) {
          WorkKeepsOutbox(s, c, w);
        }
      case _ => JobsUntouched(s, after);
    }
    SameOutbox(after, Step(sys, s, c));
  }

  lemma {:induction false} SameOutbox(s: State, t: State)
    requires OutboxInv(s) && t.jobs == s.jobs && t.transfers == s.transfers && t.scores == s.scores
    ensures OutboxInv(t)
  {
  }

  // ---- runs

  /** How many sweeps of the run had a due job to pick. */
  function ProductiveSweeps(sys: Settings, s: State, calls: seq<Call>): nat {
    if calls == [] then 0
    else
      var before, c := Run(sys, s, calls[..|calls| - 1]), calls[|calls| - 1];
      ProductiveSweeps(sys, s, calls[..|calls| - 1])
      + if Enabled(before, c) && Productive(before, c) && HasRole(c.user, ANYONE) then 1 else 0
  }

  /** Whatever else happens, the outbox stays in order and sweeps have at most five attempts per job to spend. */
  lemma {:induction false} SweepsSettle(sys: Settings, s: State, calls: seq<Call>)
    requires GateInv(s) && OutboxInv(s)
    ensures
      var t := Run(sys, s, calls);
      && OutboxInv(t) && |t.jobs| >= |s.jobs|
      && AttemptsLeft(t.jobs) + ProductiveSweeps(sys, s, calls) <= AttemptsLeft(s.jobs) + MAX_ATTEMPTS * (|t.jobs| - |s.jobs|)
  {
    hide Step, Enabled, GateInv, OutboxInv, AttemptsLeft, Productive, HasRole;
    if calls != [] {
      var before, c := Run(sys, s, calls[..|calls| - 1]), calls[|calls| - 1];
      SweepsSettle(sys, s, calls[..|calls| - 1]);
      RunKeepsGate(sys, s, calls[..|calls| - 1]);
      if Enabled(before, c) {
        StepKeepsOutbox(sys, before, c);
      }
    }
  }

  lemma {:induction false} EmptyOutbox()
    ensures OutboxInv(EMPTY) && AttemptsLeft(EMPTY.jobs) == 0
  {
  }

  /**
   In every reachable state every transfer has exactly one job, a pending job
   has attempts left, a failed one has used all five, a finished one belongs
   to a transfer with a score, and no run contains more than five productive
   sweeps per job.
   */
  lemma {:induction false} ReachableOutbox(sys: Settings, calls: seq<Call>)
    ensures
      var t := Run(sys, EMPTY, calls);
      && OneJobEach(t)
      && (forall i :: 0 <= i < |t.jobs| ==>
            && (t.jobs[i].state == Waiting ==> t.jobs[i].attempts < 5)
            && (t.jobs[i].state == Failed ==> t.jobs[i].attempts == 5)
            && (t.jobs[i].state == Done ==> ScoresOf(t.scores, t.jobs[i].transfer) != []))
      && ProductiveSweeps(sys, EMPTY, calls) <= 5 * |t.jobs|
  {
    hide Run, GateInv, OneJobEach, AttemptsLeft, ScoresOf, ProductiveSweeps;
    EmptyOutbox();
    EmptyKeepsGate();
    SweepsSettle(sys, EMPTY, calls);
  }

  lemma {:induction false} NothingPickedIff(jobs: seq<Job>, from: nat, now: real, limit: nat)
    requires from <= |jobs|
    ensures DueJobs(jobs, from, now, limit) == [] <==> limit == 0 || forall i :: from <= i < |jobs| ==> !Due(jobs[i], now)
    decreases |jobs| - from
  {
    if from < |jobs| {
      NothingPickedIff(jobs, from + 1, now, limit);
    }
  }

  /** A sweep is productive exactly when it may pick and some job is due; once every backoff has passed, an idle sweep means that no job is pending. */
  lemma {:induction false} IdleSweepIff(s: State, limit: nat, now: real)
    ensures Picks(s, limit, now) == [] <==> limit == 0 || forall i :: 0 <= i < |s.jobs| ==> !Due(s.jobs[i], now)
    ensures limit > 0 && Picks(s, limit, now) == []
            && (forall i :: 0 <= i < |s.jobs| && s.jobs[i].nextAttemptAt.Some? ==> s.jobs[i].nextAttemptAt.value <= now)
            ==> PendingJobs(s.jobs) == 0
  {
    NothingPickedIff(s.jobs, 0, now, limit);
    if forall i :: 0 <= i < |s.jobs| ==> s.jobs[i].state != Waiting {
      NonePending(s.jobs);
    }
  }

  lemma {:induction false} NonePending(jobs: seq<Job>)
    requires forall i :: 0 <= i < |jobs| ==> jobs[i].state != Waiting
    ensures PendingJobs(jobs) == 0
  {
    if jobs != [] {
      NonePending(jobs[..|jobs| - 1]);
    }
  }

  // ---- what DONE is worth

  predicate IsDone(s: State, i: nat) {
    i < |s.jobs| && s.jobs[i].state == Done
  }

  /** What a part of a step does to job `i`. */
  predicate JobMoves(s: State, t: State, i: nat) {
    && i < |s.jobs| && i < |t.jobs| && t.jobs[i].transfer == s.jobs[i].transfer
    && (s.jobs[i].state == Done ==> t.jobs[i] == s.jobs[i])
    && (IsDone(t, i) && !IsDone(s, i) ==> UpToDate(t, t.jobs[i].transfer))
  }

  lemma {:induction false} AttemptsFinishCurrent(s: State, logged: bool, picks: seq<nat>, scorings: seq<Scoring>, n: nat, now: real, i: nat)
    requires n <= |picks| <= |scorings|
    requires ScoresOk(s.scores, s.version, now) && Contexts(s) && OutboxInv(s)
    requires forall k :: 0 <= k < |picks| ==> picks[k] < |s.jobs| && s.jobs[picks[k]].state == Waiting
    requires forall k, l :: 0 <= k < l < |picks| ==> picks[k] < picks[l]
    requires i < |s.jobs|
    ensures JobMoves(s, Attempts(s, logged, picks, scorings, n, now), i)
  {
    hide Attempt, ScoresOk, OutboxInv, AttemptsLeft, Contexts, ScoresGrow, UpToDate, OnlyScores;
    if n > 0 {
      var before := Attempts(s, logged, picks, scorings, n - 1, now);
      AttemptsFinishCurrent(s, logged, picks, scorings, n - 1, now, i);
      StillWaiting(s, logged, picks, scorings, n, now);
      FinishesCurrent(before, logged, picks[n - 1], scorings[n - 1], now, i);
    }
  }

  /** Before its turn, a picked job still waits, and the state is in order. */
  lemma {:induction false} StillWaiting(s: State, logged: bool, picks: seq<nat>, scorings: seq<Scoring>, n: nat, now: real)
    requires 0 < n <= |picks| <= |scorings|
    requires ScoresOk(s.scores, s.version, now) && Contexts(s) && OutboxInv(s)
    requires forall k :: 0 <= k < |picks| ==> picks[k] < |s.jobs| && s.jobs[picks[k]].state == Waiting
    requires forall k, l :: 0 <= k < l < |picks| ==> picks[k] < picks[l]
    ensures
      var t := Attempts(s, logged, picks, scorings, n - 1, now);
      && ScoresOk(t.scores, t.version, now) && Contexts(t) && OutboxInv(t)
      && picks[n - 1] < |t.jobs| && t.jobs[picks[n - 1]].state == Waiting
  {
    hide Attempts, ScoresOk, OutboxInv, AttemptsLeft, Contexts, ScoresGrow;
    AttemptsProgress(s, logged, picks, scorings, n - 1, now);
    AttemptsOnlyScore(s, logged, picks, scorings, n - 1, now);
    AttemptsKeepScores(s, logged, picks, scorings, n - 1, now);
    ContextsSame(s, Attempts(s, logged, picks, scorings, n - 1, now));
    assert picks[n - 1] !in picks[..n - 1];
  }

  lemma {:induction false} FinishesCurrent(s: State, logged: bool, p: nat, scoring: Scoring, now: real, i: nat)
    requires ScoresOk(s.scores, s.version, now) && Contexts(s) && OutboxInv(s) && p < |s.jobs| && s.jobs[p].state == Waiting
    requires i < |s.jobs|
    ensures
      var t := Attempt(s, logged, p, scoring, now);
      && i < |t.jobs| && t.jobs[i].transfer == s.jobs[i].transfer
      && (s.jobs[i].state == Done ==> t.jobs[i] == s.jobs[i])
      && (IsDone(t, i) && (IsDone(s, i) ==> UpToDate(s, s.jobs[i].transfer)) ==> UpToDate(t, t.jobs[i].transfer))
  {
    hide Attempt, ScoresOk, Contexts, UpToDate, OneJobEach, ScoresGrow;
    JobIsKnown(s, p);
    AttemptEffect(s, logged, p, scoring, now);
    AttemptKeepsScores(s, logged, p, scoring, now);
    var t := Attempt(s, logged, p, scoring, now);
    if i != p && IsDone(s, i) && UpToDate(s, s.jobs[i].transfer) {
      StaysUpToDate(s, t, s.jobs[i].transfer, now, now);
    }
  }

  lemma {:induction false} CreateAddsJob(s: State, logged: bool, id: string, parcel: string, from: Option<string>, to: string)
    ensures
      var t := CreateTransfer(s, logged, id, parcel, from, to).0;
      s.jobs <= t.jobs && forall i :: |s.jobs| <= i < |t.jobs| ==> t.jobs[i].state == Waiting
  {
    hide Emit, Seller;
  }

  lemma {:induction false} SweepFinishesCurrent(s: State, logged: bool, limit: nat, scorings: seq<Scoring>, now: real, i: nat)
    requires limit <= |scorings| && ScoresOk(s.scores, s.version, now) && Contexts(s) && OutboxInv(s)
    ensures
      var t := Sweep(s, logged, limit, scorings, now);
      |t.jobs| == |s.jobs| && (i < |s.jobs| ==> JobMoves(s, t, i))
  {
    hide Attempts, OutboxInv, ScoresOk, Contexts, JobMoves;
    AttemptsOnlyScore(s, logged, Picks(s, limit, now), scorings, |Picks(s, limit, now)|, now);
    if i < |s.jobs| {
      AttemptsFinishCurrent(s, logged, Picks(s, limit, now), scorings, |Picks(s, limit, now)|, now, i);
    }
  }

  /** Only a sweep finishes jobs, and only new transfers add any. */
  lemma {:induction false} JobsOfStep(sys: Settings, s: State, c: Call)
    requires Enabled(s, c)
    ensures
      var t := Step(sys, s, c);
      match c.action
      case Background(SweepOutbox(limit, scorings)) =>
        t.jobs == s.jobs || t == Sweep(s, c.logged, limit, scorings, c.now).(clock := c.now)
      case _ => s.jobs <= t.jobs && forall i :: |s.jobs| <= i < |t.jobs| ==> t.jobs[i].state == Waiting
  {
    hide DoRegister, CreateTransfer, ApproveTransfer, RejectTransfer, DoReview, DoDispute, StreamScore, Sweep, Escalate, HasRole, Allowed;
    StepIsFramed(sys, s, c);
    match c.action {
      case OnTransfer(NewTransfer(id, parcel, from, to)) => CreateAddsJob(s, c.logged, id, parcel, from, to);
      case _ =>
    }
  }

  /** In one step: jobs are kept, and a job that becomes DONE belongs to a transfer scored at the version in force. */
  lemma {:induction false} StepFinishesCurrent(sys: Settings, s: State, c: Call, i: nat)
    requires Enabled(s, c) && GateInv(s) && OutboxInv(s)
    ensures i < |s.jobs| ==> JobMoves(s, Step(sys, s, c), i)
    ensures i >= |s.jobs| ==> !IsDone(Step(sys, s, c), i)
  {
    hide Step, Sweep, OutboxInv, ScoresOk, Contexts, CompletedAreClear, Enabled;
    ClockOfEnabled(s, c);
    ScoresAge(s.scores, s.version, s.clock, s.version, c.now);
    JobsOfStep(sys, s, c);
    match c.action {
      case Background(SweepOutbox(limit, scorings)) =>
        ClockOfEnabled(s, c);
        SweepFinishesCurrent(s, c.logged, limit, scorings, c.now, i);
      case _ =>
    }
  }

  lemma {:induction false} ClockOfEnabled(s: State, c: Call)
    requires Enabled(s, c)
    ensures c.now >= s.clock
    ensures c.action.Background? && c.action.work.SweepOutbox? ==> c.action.work.limit <= |c.action.work.scorings|
  {
  }

  /**
   A DONE job belongs to a transfer that had a score of the version in force
   when the job was finished. That score is kept, and as long as the scorer
   has not been upgraded since, it is the current one.
   */
  lemma {:induction false} DoneWasCurrent(sys: Settings, calls: seq<Call>, i: nat) returns (k: nat)
    requires IsDone(Run(sys, EMPTY, calls), i)
    ensures 0 < k <= |calls| && !IsDone(Run(sys, EMPTY, calls[..k - 1]), i)
    ensures
      var t, u := Run(sys, EMPTY, calls), Run(sys, EMPTY, calls[..k]);
      && IsDone(u, i) && u.jobs[i] == t.jobs[i]
      && UpToDate(u, t.jobs[i].transfer) && u.version <= t.version
      && ScoresOf(u.scores, t.jobs[i].transfer) <= ScoresOf(t.scores, t.jobs[i].transfer)
      && (t.version == u.version ==> UpToDate(t, t.jobs[i].transfer))
  {
    hide Step, Enabled, UpToDate, ScoresOk, Contexts, CompletedAreClear, OutboxInv, ScoresOf;
    var before, c := calls[..|calls| - 1], calls[|calls| - 1];
    var s, t := Run(sys, EMPTY, before), Run(sys, EMPTY, calls);
    EmptyKeepsGate();
    EmptyOutbox();
    RunKeepsGate(sys, EMPTY, before);
    SweepsSettle(sys, EMPTY, before);
    RunKeepsGate(sys, EMPTY, calls);
    if Enabled(s, c) {
      StepFinishesCurrent(sys, s, c, i);
    }
    if IsDone(s, i) {
      k := DoneWasCurrent(sys, before, i);
      assert before[..k] == calls[..k] && before[..k - 1] == calls[..k - 1];
      LastStep(sys, s, t, c, Run(sys, EMPTY, calls[..k]), t.jobs[i].transfer);
    } else {
      k := |calls|;
      assert calls[..k] == calls;
    }
  }

  /** From a state `u` over `s` to its successor `t`. */
  lemma {:induction false} LastStep(sys: Settings, s: State, t: State, c: Call, u: State, id: string)
    requires GateInv(s) && GateInv(t) && (t == s || (Enabled(s, c) && t == Step(sys, s, c)))
    requires u.version <= s.version && ScoresOf(u.scores, id) <= ScoresOf(s.scores, id)
    requires s.version == u.version ==> UpToDate(s, id)
    ensures u.version <= t.version && ScoresOf(u.scores, id) <= ScoresOf(t.scores, id)
    ensures t.version == u.version ==> UpToDate(t, id)
  {
    hide Step, Enabled, UpToDate, ScoresOk, Contexts, CompletedAreClear, ScoresOf;
    if t != s {
      StepKeepsGate(sys, s, c);
      assert ScoresOf(s.scores, id) <= ScoresOf(t.scores, id);
      if t.version == u.version {
        StaysUpToDate(s, t, id, s.clock, t.clock);
      }
    }
  }

  /** Without an upgrade, DONE means a current score. */
  lemma {:induction false} DoneIsCurrent(sys: Settings, calls: seq<Call>, i: nat)
    requires IsDone(Run(sys, EMPTY, calls), i) && Run(sys, EMPTY, calls).version == 0
    ensures UpToDate(Run(sys, EMPTY, calls), Run(sys, EMPTY, calls).jobs[i].transfer)
  {
    hide Run, UpToDate, ScoresOf;
    var k := DoneWasCurrent(sys, calls, i);
  }

  // ---- which jobs a sweep takes, and when a failed one is due again

  /** Pending, and never tried or past its next attempt. */
  predicate WantsAttempt(job: Job, now: real) {
    job.state == Waiting && (job.nextAttemptAt.Some? ==> job.nextAttemptAt.value <= now)
  }

  /** A job that wants an attempt and is left out by the picks comes behind all of them, and the picks are as many as they may be. */
  predicate LeftOut(jobs: seq<Job>, picks: seq<nat>, i: nat, now: real, limit: nat)
    requires i < |jobs|
  {
    WantsAttempt(jobs[i], now) && i !in picks ==> |picks| == limit && (picks != [] ==> i > picks[|picks| - 1])
  }

  /** The picks are the first `limit` jobs that want an attempt. */
  lemma {:induction false} PicksAreFirstDue(jobs: seq<Job>, from: nat, now: real, limit: nat)
    requires from <= |jobs|
    ensures forall k :: 0 <= k < |DueJobs(jobs, from, now, limit)| ==> WantsAttempt(jobs[DueJobs(jobs, from, now, limit)[k]], now)
    ensures forall i: nat :: from <= i < |jobs| ==> LeftOut(jobs, DueJobs(jobs, from, now, limit), i, now, limit)
    decreases |jobs| - from
  {
    if from < |jobs| && limit > 0 {
      var left := if Due(jobs[from], now) then limit - 1 else limit;
      PicksAreFirstDue(jobs, from + 1, now, left);
      var rest := DueJobs(jobs, from + 1, now, left);
      forall i: nat | from <= i < |jobs| ensures LeftOut(jobs, DueJobs(jobs, from, now, limit), i, now, limit) {
        if i > from {
          assert LeftOut(jobs, rest, i, now, left);
          OnePickMore(jobs, rest, from, i, now, left);
        }
      }
    }
  }

  lemma {:induction false} OnePickMore(jobs: seq<Job>, rest: seq<nat>, from: nat, i: nat, now: real, left: nat)
    requires from < i < |jobs| && LeftOut(jobs, rest, i, now, left)
    ensures LeftOut(jobs, [from] + rest, i, now, left + 1)
  {
    assert i in [from] + rest <==> i in rest;
  }

  lemma {:induction false} DueIffWanted(job: Job, now: real)
    ensures Due(job, now) <==> WantsAttempt(job, now)
  {
  }

  /** A job that raises is due again 2, 4, 8 and 16 seconds later; the fifth time it has FAILED. */
  lemma {:induction false} RetryTimes(job: Job, now: real, later: real)
    requires job.state == Waiting && job.attempts < 5
    ensures
      var t := Settle(job, true, now);
      && t.transfer == job.transfer && t.attempts == job.attempts + 1
      && (t.state == Failed <==> job.attempts == 4)
      && (job.attempts < 4 ==> (Due(t, later) <==> later >= now + [2.0, 4.0, 8.0, 16.0][job.attempts]))
      && !Due(t, now) && (t.state == Failed ==> !Due(t, later))
    ensures !Due(Settle(job, false, now), later) && Settle(job, false, now).state == Done
  {
    assert Pow2(1) == 2.0;
    assert Pow2(2) == 4.0;
    assert Pow2(3) == 8.0;
    assert Pow2(4) == 16.0;
  }

  /** The delay doubles with every attempt and is never more than five minutes. */
  lemma {:induction false} BackoffIsCapped(attempts: nat)
    ensures Backoff(0) == 1.0
    ensures Backoff(attempts + 1) == if Backoff(attempts) >= 150.0 then 300.0 else 2.0 * Backoff(attempts)
    ensures 0.0 < Backoff(attempts) <= 300.0
  {
    if attempts > 0 {
      BackoffIsCapped(attempts - 1);
    }
  }

  /** Without its lock the stream consumer does nothing; with it, it scores. */
  lemma {:induction false} StreamScoresBehindLock(s: State, c: Call, id: string, locked: bool, scoring: Scoring)
    requires ScoresOk(s.scores, s.version, c.now) && HasContext(s, id) && !UpToDate(s, id) && scoring.Scores?
    ensures (DoWork(s, c, Stream(id, locked, scoring)).scores != s.scores) <==> locked
    ensures !locked ==> DoWork(s, c, Stream(id, locked, scoring)) == s
  {
    hide ScoreNow, Latest, UpToDate, HasContext, RowsOk;
    EmptyRowsOk(s.version, c.now);
    ScoringEffect(s, c.logged, id, scoring, c.now);
    var t := ScoreNow(s, c.logged, id, scoring, c.now).0;
    assert |ScoresOf(t.scores, id)| == |ScoresOf(s.scores, id)| + 1;
  }
}
