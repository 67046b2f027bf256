/**
 The circuit breaker in front of the blockchain and of NIRA. The clock is an
 argument. Calls may overlap: an outcome can be recorded in whatever state
 the breaker has reached since the call was admitted.
 */
module Breaker {

  datatype CircuitState = CLOSED | OPEN | HALF_OPEN

  datatype Config = Config(threshold: int, initial: real, max: real)

  /** The four fields that the methods update. */
  datatype Breaker = Breaker(state: CircuitState, failures: int, openedAt: real, timeout: real)

  function Fresh(cfg: Config): Breaker {
    Breaker(CLOSED, 0, 0.0, cfg.initial)
  }

  // ---- transitions

  /** `_maybe_half_open_locked`. */
  function Look(b: Breaker, now: real): Breaker {
    if b.state == OPEN && now - b.openedAt >= b.timeout then b.(state := HALF_OPEN) else b
  }

  function Min(a: real, b: real): real {
    if b < a then b else a
  }

  function Succeed(cfg: Config, b: Breaker): Breaker {
    Breaker(CLOSED, 0, b.openedAt, cfg.initial)
  }

  function Fail(cfg: Config, b: Breaker, now: real): Breaker {
    if b.state == HALF_OPEN then Breaker(OPEN, b.failures + 1, now, Min(b.timeout * 2.0, cfg.max))
    else if b.failures + 1 >= cfg.threshold then Breaker(OPEN, b.failures + 1, now, b.timeout)
    else b.(failures := b.failures + 1)
  }

  function ForceOpen(cfg: Config, b: Breaker, now: real): Breaker {
    Breaker(OPEN, cfg.threshold, now, b.timeout)
  }

  /** Anything that happens to a breaker; `Admit` is the preflight of a call. */
  datatype Event = Admit(now: real) | Success | Failure(now: real) | ForcedOpen(now: real) | ForcedClosed

  function Step(cfg: Config, b: Breaker, e: Event): Breaker {
    match e
    case Admit(now) => Look(b, now)
    case Success => Succeed(cfg, b)
    case Failure(now) => Fail(cfg, b, now)
    case ForcedOpen(now) => ForceOpen(cfg, b, now)
    case ForcedClosed => Succeed(cfg, b)
  }

  function Run(cfg: Config, events: seq<Event>): Breaker {
    if events == [] then Fresh(cfg) else Step(cfg, Run(cfg, events[..|events| - 1]), events[|events| - 1])
  }

  /** CircuitOpenError. */
  predicate Refuses(b: Breaker, now: real) {
    Look(b, now).state == OPEN
  }

  // ---- CLOSED and the failure count

  predicate CountMatches(cfg: Config, b: Breaker) {
    b.state == CLOSED <==> b.failures < cfg.threshold
  }

  /** In every reachable state CLOSED means fewer failures than the threshold, and only a threshold of at least one makes that so. */
  lemma {:induction false} ClosedIffFewFailures(cfg: Config, events: seq<Event>)
    ensures cfg.threshold >= 1 ==> CountMatches(cfg, Run(cfg, events))
    ensures CountMatches(cfg, Run(cfg, [])) ==> cfg.threshold >= 1
  {
    if events != [] {
      ClosedIffFewFailures(cfg, events[..|events| - 1]);
    }
  }

  // ---- the timeout

  function Pow2(k: nat): real {
    if k == 0 then 1.0 else 2.0 * Pow2(k - 1)
  }

  /** The timeout after `k` failed probes; the first one is not capped. */
  function Backoff(cfg: Config, k: nat): real {
    if k == 0 then cfg.initial else Min(cfg.initial * Pow2(k), cfg.max)
  }

  /** Failed probes since the breaker was last closed. */
  function ReTrips(cfg: Config, events: seq<Event>): nat {
    if events == [] then 0
    else
      var before, e := events[..|events| - 1], events[|events| - 1];
      match e
      case Success => 0
      case ForcedClosed => 0
      case Failure(_) => ReTrips(cfg, before) + if Run(cfg, before).state == HALF_OPEN then 1 else 0
      case _ => ReTrips(cfg, before)
  }

  lemma {:induction false} BackoffDoubles(cfg: Config, k: nat)
    requires cfg.max >= 0.0
    ensures Backoff(cfg, k + 1) == Min(Backoff(cfg, k) * 2.0, cfg.max)
  {
    assert cfg.initial * Pow2(k + 1) == 2.0 * (cfg.initial * Pow2(k));
    if k == 0 {
      assert Pow2(0) == 1.0;
    }
  }

  /** The current timeout is the doubled and capped one for the failed probes since the last close. */
  lemma {:induction false} TimeoutIsBackoff(cfg: Config, events: seq<Event>)
    requires cfg.max >= 0.0
    ensures Run(cfg, events).timeout == Backoff(cfg, ReTrips(cfg, events))
  {
    hide Backoff;
    if events == [] {
      FirstBackoff(cfg);
    } else {
      var before := events[..|events| - 1];
      TimeoutIsBackoff(cfg, before);
      FirstBackoff(cfg);
      BackoffDoubles(cfg, ReTrips(cfg, before));
    }
  }

  lemma {:induction false} FirstBackoff(cfg: Config)
    ensures Backoff(cfg, 0) == cfg.initial
  {
  }

  predicate IsCapped(cfg: Config, k: nat) {
    Backoff(cfg, k) == Min(cfg.initial * Pow2(k), cfg.max)
  }

  /** `min(initial * 2^k, max)` describes every timeout exactly when the initial one is within the cap. */
  lemma {:induction false} CapHoldsIff(cfg: Config)
    ensures (forall k: nat :: IsCapped(cfg, k)) <==> cfg.initial <= cfg.max
  {
    assert cfg.initial * Pow2(0) == cfg.initial;
    assert IsCapped(cfg, 0) <==> cfg.initial <= cfg.max;
  }

  // ---- a sequential caller of something that always fails

  /** One call: when it asks, and when its failure is recorded. */
  datatype Attempt = Attempt(start: real, end: real)

  function AfterAttempt(cfg: Config, b: Breaker, a: Attempt): Breaker {
    if Refuses(b, a.start) then Look(b, a.start) else Fail(cfg, Look(b, a.start), a.end)
  }

  function AfterAttempts(cfg: Config, b: Breaker, attempts: seq<Attempt>): Breaker {
    if attempts == [] then b
    else AfterAttempt(cfg, AfterAttempts(cfg, b, attempts[..|attempts| - 1]), attempts[|attempts| - 1])
  }

  /** How many of the attempts got through. */
  function Probes(cfg: Config, b: Breaker, attempts: seq<Attempt>): nat {
    if attempts == [] then 0
    else
      var before := attempts[..|attempts| - 1];
      Probes(cfg, b, before) + if Refuses(AfterAttempts(cfg, b, before), attempts[|attempts| - 1].start) then 0 else 1
  }

  /** The sum of the first `n` timeouts. */
  function Waits(cfg: Config, n: nat): real {
    if n == 0 then 0.0 else Waits(cfg, n - 1) + Backoff(cfg, n - 1)
  }

  predicate Sequential(attempts: seq<Attempt>) {
    forall i :: 0 <= i < |attempts| ==> attempts[i].start <= attempts[i].end
  }

  /**
   From the opening on, probe number `n` comes no earlier than the sum of the
   first `n` timeouts, however often the caller tries in between.
   */
  lemma {:induction false} ProbesAreSpaced(cfg: Config, b: Breaker, attempts: seq<Attempt>)
    requires cfg.max >= 0.0 && b.state == OPEN && b.timeout == cfg.initial && Sequential(attempts)
    ensures
      var t, n := AfterAttempts(cfg, b, attempts), Probes(cfg, b, attempts);
      && t.state == OPEN && t.timeout == Backoff(cfg, n)
      && t.openedAt >= b.openedAt + Waits(cfg, n)
      && (attempts != [] && !Refuses(AfterAttempts(cfg, b, attempts[..|attempts| - 1]), attempts[|attempts| - 1].start) ==>
            attempts[|attempts| - 1].start >= b.openedAt + Waits(cfg, n))
  {
    hide Backoff;
    FirstBackoff(cfg);
    if attempts != [] {
      var before := attempts[..|attempts| - 1];
      ProbesAreSpaced(cfg, b, before);
      BackoffDoubles(cfg, Probes(cfg, b, before));
    }
  }

  // ---- half-open

  /** Calls that are let in at the given clock readings. */
  function Admissions(times: seq<real>): seq<Event> {
    if times == [] then [] else Admissions(times[..|times| - 1]) + [Admit(times[|times| - 1])]
  }

  /** Once half-open, the breaker admits any number of calls, whenever they come, until the first outcome is recorded, not one probe. */
  lemma {:induction false} HalfOpenAdmitsAll(cfg: Config, events: seq<Event>, times: seq<real>, now: real)
    requires times != [] && Look(Run(cfg, events), times[0]).state == HALF_OPEN
    ensures Run(cfg, events + Admissions(times)).state == HALF_OPEN
    ensures !Refuses(Run(cfg, events + Admissions(times)), now)
  {
    var before, longer := times[..|times| - 1], events + Admissions(times);
    assert longer[..|longer| - 1] == events + Admissions(before);
    if before == [] {
      assert events + [] == events;
    } else {
      HalfOpenAdmitsAll(cfg, events, before, now);
    }
  }

  // ---- the class

  class CircuitBreaker {
    const cfg: Config
    var state: CircuitState
    var failures: int
    var openedAt: real
    var timeout: real

    ghost function Now(): Breaker
      reads this
    {
      Breaker(state, failures, openedAt, timeout)
    }

    constructor (cfg: Config)
      ensures this.cfg == cfg && Now() == Fresh(cfg)
    {
      this.cfg := cfg;
      state, failures, openedAt, timeout := CLOSED, 0, 0.0, cfg.initial;
    }

    method MaybeHalfOpen(now: real)
      modifies this
      ensures Now() == Look(old(Now()), now)
    {
      if state == OPEN && now - openedAt >= timeout {
        state := HALF_OPEN;
      }
    }

    method ReadState(now: real) returns (s: CircuitState)
      modifies this
      ensures Now() == Look(old(Now()), now) && s == state
    {
      MaybeHalfOpen(now);
      return state;
    }

    /** `true` is CircuitOpenError. */
    method Preflight(now: real) returns (refused: bool)
      modifies this
      ensures Now() == Step(cfg, old(Now()), Admit(now)) && refused == Refuses(old(Now()), now)
    {
      MaybeHalfOpen(now);
      return state == OPEN;
    }

    method RecordSuccess()
      modifies this
      ensures Now() == Step(cfg, old(Now()), Success)
    {
      state := CLOSED;
      failures := 0;
      timeout := cfg.initial;
    }

    method RecordFailure(now: real)
      modifies this
      ensures Now() == Step(cfg, old(Now()), Failure(now))
    {
      failures := failures + 1;
      if state == HALF_OPEN {
        state := OPEN;
        openedAt := now;
        timeout := Min(timeout * 2.0, cfg.max);
        return;
      }
      if failures >= cfg.threshold {
        state := OPEN;
        openedAt := now;
      }
    }

    method ForceOpen(now: real)
      modifies this
      ensures Now() == Step(cfg, old(Now()), ForcedOpen(now))
    {
      state := OPEN;
      openedAt := now;
      failures := cfg.threshold;
    }

    method ForceClose()
      modifies this
      ensures Now() == Step(cfg, old(Now()), ForcedClosed)
    {
      state := CLOSED;
      failures := 0;
      timeout := cfg.initial;
    }

    /** `call_sync` around a function that fails or not, and whose outcome is known at `end`. */
    method CallSync(a: Attempt, fails: bool) returns (refused: bool)
      modifies this
      ensures refused == Refuses(old(Now()), a.start)
      ensures fails ==> Now() == AfterAttempt(cfg, old(Now()), a)
      ensures !fails ==> Now() == if refused then Look(old(Now()), a.start) else Succeed(cfg, Look(old(Now()), a.start))
    {
      refused := Preflight(a.start);
      if refused {
        return;
      }
      if fails {
        RecordFailure(a.end);
      } else {
        RecordSuccess();
      }
    }
  }

  // ---- when calls are refused

  /** From a failure that opens it, the breaker refuses for exactly its timeout, which a failed probe has doubled up to the cap. */
  lemma {:induction false} OpensForItsTimeout(cfg: Config, b: Breaker, at: real, now: real)
    ensures b.state == CLOSED && b.failures + 1 >= cfg.threshold ==> (Refuses(Fail(cfg, b, at), now) <==> now < at + b.timeout)
    ensures b.state == CLOSED && b.failures + 1 < cfg.threshold ==> !Refuses(Fail(cfg, b, at), now)
    ensures b.state == HALF_OPEN && b.timeout * 2.0 <= cfg.max ==> (Refuses(Fail(cfg, b, at), now) <==> now < at + b.timeout * 2.0)
    ensures b.state == HALF_OPEN && b.timeout * 2.0 > cfg.max ==> (Refuses(Fail(cfg, b, at), now) <==> now < at + cfg.max)
    ensures Refuses(ForceOpen(cfg, b, at), now) <==> now < at + b.timeout
    ensures !Refuses(Succeed(cfg, b), now)
    ensures Fail(cfg, b, at).failures == b.failures + 1
  {
  }

  function Failures(times: seq<real>): seq<Event> {
    if times == [] then [] else Failures(times[..|times| - 1]) + [Failure(times[|times| - 1])]
  }

  /** A fresh breaker opens with the failure that reaches the threshold, and then refuses from that moment until the initial timeout is over. */
  lemma {:induction false} ThresholdOpens(cfg: Config, times: seq<real>, now: real)
    requires cfg.threshold >= 1 && |times| <= cfg.threshold
    ensures
      var b := Run(cfg, Failures(times));
      && b.failures == |times| && b.timeout == cfg.initial && (b.state == CLOSED <==> |times| < cfg.threshold) && b.state != HALF_OPEN
      && (Refuses(b, now) <==> |times| == cfg.threshold && now < times[|times| - 1] + cfg.initial)
  {
    if times != [] {
      var before := times[..|times| - 1];
      ThresholdOpens(cfg, before, now);
      assert Failures(times)[..|Failures(times)| - 1] == Failures(before);
    }
  }
}
