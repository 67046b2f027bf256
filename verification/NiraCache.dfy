/**
 The cached identity check. A check reads the hot cache, and on a miss calls
 NIRA behind the breaker; the answer is written to the warm table, then to
 the hot cache. Checks overlap: between reading, the return of the call and
 the hot write anything may happen, so these are three kinds of steps.
 */
module NiraCache {
  import opened Hashing
  import opened Cache
  import B = Breaker

  /** What NIRA says about a NIN. */
  datatype Result = Result(ninValid: bool, matched: bool, demographics: Option<string>, reason: Option<string>, source: string)

  /** A row of `nira_verifications`. */
  datatype Warm = Warm(verifiedAt: real, expiresAt: real, result: Result)

  /** A result that reached the hot cache: for which NIN, when NIRA returned it, and when it was stored. */
  datatype Stored = Stored(nin: string, calledAt: real, storedAt: real)

  /** `live` and `stored` are the histories of successful calls and of hot writes. */
  datatype State = State(
    hot: Store<Result>, warm: map<string, Warm>, breaker: B.Breaker,
    live: set<(string, real)>, stored: set<Stored>)

  datatype Config = Config(breaker: B.Config, ttl: real, hash: string -> string, nira: string -> Result)

  datatype Origin = Hot | Live | WarmBreakerOpen | WarmError | MissBreakerOpen

  datatype Answer =
    | Answer(result: Result, stale: bool, origin: Origin)
    | Calling  // the call is under way
    | Raised

  const UNAVAILABLE := Result(false, false, None, Some("nira_unavailable"), "")

  function Start(cfg: Config): State {
    State(map[], map[], B.Fresh(cfg.breaker), {}, {})
  }

  function Key(cfg: Config, nin: string): string {
    "nira:nin:" + cfg.hash(nin)
  }

  // ---- the three parts of a check

  function Lookup(cfg: Config, s: State, nin: string, now: real): (State, Answer) {
    var key := Key(cfg, nin);
    var swept := s.(hot := Swept(s.hot, key, now));
    match Find(s.hot, key, now)
    case Some(result) => (swept, Answer(result, false, Hot))
    case None =>
      var admitted := swept.(breaker := B.Look(s.breaker, now));
      if !B.Refuses(s.breaker, now) then (admitted, Calling)
      else if cfg.hash(nin) in s.warm then (admitted, Answer(s.warm[cfg.hash(nin)].result, true, WarmBreakerOpen))
      else (admitted, Answer(UNAVAILABLE, true, MissBreakerOpen))
  }

  /** The call comes back at `now`, with NIRA's answer or an error. */
  function Returned(cfg: Config, s: State, nin: string, now: real, up: bool): (State, Answer) {
    var hash := cfg.hash(nin);
    if up then
      (s.(breaker := B.Succeed(cfg.breaker, s.breaker),
          warm := s.warm[hash := Warm(now, now + cfg.ttl, cfg.nira(nin))],
          live := s.live + {(nin, now)}), Calling)
    else
      var failed := s.(breaker := B.Fail(cfg.breaker, s.breaker, now));
      if hash in s.warm then (failed, Answer(s.warm[hash].result, true, WarmError)) else (failed, Raised)
  }

  /** The hot write of an answer that NIRA gave at `calledAt`. */
  function StoreHot(cfg: Config, s: State, nin: string, calledAt: real, now: real): (State, Answer) {
    (s.(hot := Put(s.hot, Key(cfg, nin), cfg.nira(nin), cfg.ttl, now), stored := s.stored + {Stored(nin, calledAt, now)}),
     Answer(cfg.nira(nin), false, Live))
  }

  // ---- runs

  datatype Action =
    | ALookup(nin: string, now: real)
    | AReturned(nin: string, now: real, up: bool)
    | AStoreHot(nin: string, calledAt: real, now: real)
    | ABreaker(event: B.Event)

  /** Only what NIRA returned is stored, and not before. */
  predicate Enabled(s: State, a: Action) {
    a.AStoreHot? ==> (a.nin, a.calledAt) in s.live && a.calledAt <= a.now
  }

  function Step(cfg: Config, s: State, a: Action): (State, Answer) {
    match a
    case ALookup(nin, now) => Lookup(cfg, s, nin, now)
    case AReturned(nin, now, up) => Returned(cfg, s, nin, now, up)
    case AStoreHot(nin, calledAt, now) => StoreHot(cfg, s, nin, calledAt, now)
    case ABreaker(event) => (s.(breaker := B.Step(cfg.breaker, s.breaker, event)), Calling)
  }

  function Run(cfg: Config, actions: seq<Action>): State {
    if actions == [] then Start(cfg)
    else
      var before, a := Run(cfg, actions[..|actions| - 1]), actions[|actions| - 1];
      if Enabled(before, a) then Step(cfg, before, a).0 else before
  }

  // ---- what the caches hold

  /** The NINs that NIRA answered for, and the one being asked about. */
  function Asked(s: State, nin: string): set<string> {
    (set l | l in s.live :: l.0) + {nin}
  }

  /** Every hot entry was stored for a NIN with its key, and expires one TTL after that. */
  ghost predicate HotOk(cfg: Config, s: State, key: string)
    requires key in s.hot
  {
    exists st | st in s.stored ::
      && (st.nin, st.calledAt) in s.live && st.calledAt <= st.storedAt
      && key == Key(cfg, st.nin) && s.hot[key] == Entry(st.storedAt + cfg.ttl, cfg.nira(st.nin))
  }

  ghost predicate WarmOk(cfg: Config, s: State, hash: string)
    requires hash in s.warm
  {
    exists l | l in s.live :: hash == cfg.hash(l.0) && s.warm[hash].result == cfg.nira(l.0) && s.warm[hash].verifiedAt == l.1
  }

  ghost predicate Inv(cfg: Config, s: State) {
    (forall key :: key in s.hot ==> HotOk(cfg, s, key)) && (forall hash :: hash in s.warm ==> WarmOk(cfg, s, hash))
  }

  lemma {:induction false} HistoryGrows(cfg: Config, s: State, t: State)
    requires Inv(cfg, s) && s.live <= t.live && s.stored <= t.stored
    requires forall key :: key in t.hot ==> (key in s.hot && t.hot[key] == s.hot[key]) || HotOk(cfg, t, key)
    requires forall hash :: hash in t.warm ==> (hash in s.warm && t.warm[hash] == s.warm[hash]) || WarmOk(cfg, t, hash)
    ensures Inv(cfg, t)
  {
    forall key | key in t.hot ensures HotOk(cfg, t, key) {
      assert key in s.hot ==> HotOk(cfg, s, key);
    }
    forall hash | hash in t.warm ensures WarmOk(cfg, t, hash) {
      assert hash in s.warm ==> WarmOk(cfg, s, hash);
    }
  }

  lemma {:induction false} StepKeepsInv(cfg: Config, s: State, a: Action)
    requires Inv(cfg, s) && Enabled(s, a)
    ensures Inv(cfg, Step(cfg, s, a).0)
  {
    hide Inv, Key, B.Look, B.Refuses, B.Step, B.Fail, B.Succeed;
    var t := Step(cfg, s, a).0;
    match a {
      case AReturned(nin, now, up) =>
        if up {
          assert (nin, now) in t.live;
          assert WarmOk(cfg, t, cfg.hash(nin));
        }
      case AStoreHot(nin, calledAt, now) =>
        assert Stored(nin, calledAt, now) in t.stored;
        assert HotOk(cfg, t, Key(cfg, nin));
      case _ =>
    }
    HistoryGrows(cfg, s, t);
  }

  lemma {:induction false} RunKeepsInv(cfg: Config, actions: seq<Action>)
    ensures Inv(cfg, Run(cfg, actions))
  {
    hide Step, Enabled;
    if actions != [] {
      var before := Run(cfg, actions[..|actions| - 1]);
      RunKeepsInv(cfg, actions[..|actions| - 1]);
      if Enabled(before, actions[|actions| - 1]) {
        StepKeepsInv(cfg, before, actions[|actions| - 1]);
      }
    }
  }

  lemma {:induction false} SameNin(cfg: Config, s: State, nin: string, other: string, at: real)
    requires NoCollision(cfg.hash, Asked(s, nin)) && (other, at) in s.live && cfg.hash(other) == cfg.hash(nin)
    ensures other == nin
  {
    assert other in Asked(s, nin) && nin in Asked(s, nin);
    SameInput(cfg.hash, Asked(s, nin), other, nin);
  }

  lemma {:induction false} KeyInjective(cfg: Config, a: string, b: string)
    requires Key(cfg, a) == Key(cfg, b)
    ensures cfg.hash(a) == cfg.hash(b)
  {
    assert Key(cfg, a)[9..] == cfg.hash(a) && Key(cfg, b)[9..] == cfg.hash(b);
  }

  /**
   In every reachable state of the caches and the breaker, whatever the check
   of a NIN answers carries exactly what NIRA says about that NIN, or says
   that NIRA is unavailable; so `matched` is never true unless NIRA said so.
   */
  lemma {:induction false} AnswersAgreeWithNira(cfg: Config, actions: seq<Action>, a: Action)
    requires Enabled(Run(cfg, actions), a) && !a.ABreaker?
    requires NoCollision(cfg.hash, Asked(Run(cfg, actions), a.nin))
    ensures
      var r := Step(cfg, Run(cfg, actions), a).1;
      r.Answer? ==>
        && (r.result == cfg.nira(a.nin) || (r.result == UNAVAILABLE && r.stale && r.origin == MissBreakerOpen))
        && (r.result.matched ==> cfg.nira(a.nin).matched)
  {
    hide Run, Key, Asked, NoCollision, B.Look, B.Refuses, B.Fail, B.Succeed;
    var s := Run(cfg, actions);
    RunKeepsInv(cfg, actions);
    if a.ALookup? && Key(cfg, a.nin) in s.hot {
      assert HotOk(cfg, s, Key(cfg, a.nin));
      var st :| st in s.stored && (st.nin, st.calledAt) in s.live && Key(cfg, a.nin) == Key(cfg, st.nin)
                && s.hot[Key(cfg, a.nin)] == Entry(st.storedAt + cfg.ttl, cfg.nira(st.nin));
      KeyInjective(cfg, a.nin, st.nin);
      SameNin(cfg, s, a.nin, st.nin, st.calledAt);
    }
    if cfg.hash(a.nin) in s.warm {
      assert WarmOk(cfg, s, cfg.hash(a.nin));
      var l :| l in s.live && cfg.hash(a.nin) == cfg.hash(l.0) && s.warm[cfg.hash(a.nin)].result == cfg.nira(l.0);
      SameNin(cfg, s, a.nin, l.0, l.1);
    }
  }

  /**
   An answer that is not marked stale comes from a live call for that very
   NIN. It is older than the TTL by no more than the time that passed between
   the return of the call and the hot write.
   */
  lemma {:induction false} FreshAnswersAreBacked(cfg: Config, actions: seq<Action>, a: Action)
    requires Enabled(Run(cfg, actions), a) && !a.ABreaker?
    requires NoCollision(cfg.hash, Asked(Run(cfg, actions), a.nin))
    requires Step(cfg, Run(cfg, actions), a).1.Answer? && !Step(cfg, Run(cfg, actions), a).1.stale
    ensures
      exists st | st in Step(cfg, Run(cfg, actions), a).0.stored ::
        && st.nin == a.nin && (a.nin, st.calledAt) in Run(cfg, actions).live
        && st.calledAt <= st.storedAt && (a.ALookup? ==> a.now - st.calledAt <= cfg.ttl + (st.storedAt - st.calledAt))
  {
    hide Run, Key, Asked, NoCollision, B.Look, B.Refuses, B.Fail, B.Succeed;
    var s := Run(cfg, actions);
    RunKeepsInv(cfg, actions);
    if a.ALookup? {
      assert HotOk(cfg, s, Key(cfg, a.nin));
      var st :| st in s.stored && (st.nin, st.calledAt) in s.live && st.calledAt <= st.storedAt && Key(cfg, a.nin) == Key(cfg, st.nin)
                && s.hot[Key(cfg, a.nin)] == Entry(st.storedAt + cfg.ttl, cfg.nira(st.nin));
      KeyInjective(cfg, a.nin, st.nin);
      SameNin(cfg, s, a.nin, st.nin, st.calledAt);
      assert st in Step(cfg, s, a).0.stored;
    } else {
      assert Stored(a.nin, a.calledAt, a.now) in Step(cfg, s, a).0.stored;
    }
  }

  /** A read is answered from the hot cache up to and including the last moment of the TTL. */
  lemma {:induction false} HotUntilTtl(cfg: Config, s: State, nin: string, calledAt: real, storedAt: real, now: real)
    ensures
      var t := StoreHot(cfg, s, nin, calledAt, storedAt).0;
      Lookup(cfg, t, nin, now).1 == Answer(cfg.nira(nin), false, Hot) <==> now <= storedAt + cfg.ttl
  {
    hide B.Look, B.Refuses;
  }

  /** The TTL bounds the age of the call behind every hot answer exactly when the answer was stored at the moment the call returned. */
  lemma {:induction false} AgeWithinTtlIff(cfg: Config, s: State, nin: string, calledAt: real, storedAt: real)
    requires calledAt <= storedAt
    ensures
      var t := StoreHot(cfg, s, nin, calledAt, storedAt).0;
      (forall now {:trigger Lookup(cfg, t, nin, now)} :: Lookup(cfg, t, nin, now).1.Answer? && Lookup(cfg, t, nin, now).1.origin == Hot
                                                        ==> now - calledAt <= cfg.ttl)
      <==> storedAt == calledAt
  {
    hide B.Look, B.Refuses, Lookup, StoreHot;
    var t := StoreHot(cfg, s, nin, calledAt, storedAt).0;
    forall now ensures Lookup(cfg, t, nin, now).1.Answer? && Lookup(cfg, t, nin, now).1.origin == Hot <==> now <= storedAt + cfg.ttl {
      HotIff(cfg, s, nin, calledAt, storedAt, now);
    }
    var last := Lookup(cfg, t, nin, storedAt + cfg.ttl);
  }

  lemma {:induction false} HotIff(cfg: Config, s: State, nin: string, calledAt: real, storedAt: real, now: real)
    ensures
      var t := StoreHot(cfg, s, nin, calledAt, storedAt).0;
      Lookup(cfg, t, nin, now).1.Answer? && Lookup(cfg, t, nin, now).1.origin == Hot <==> now <= storedAt + cfg.ttl
  {
    hide B.Look, B.Refuses;
  }

  /** A call that returned at 0 and was stored 5 seconds later still answers, as fresh, when it is 5 seconds older than the TTL. */
  lemma {:induction false} FreshButOlderThanTtl(cfg: Config, nin: string)
    ensures
      var s := Run(cfg, [AReturned(nin, 0.0, true), AStoreHot(nin, 0.0, 5.0)]);
      Lookup(cfg, s, nin, 5.0 + cfg.ttl).1 == Answer(cfg.nira(nin), false, Hot)
  {
    hide B.Look, B.Refuses, B.Succeed, B.Fail, Lookup;
    var one := [AReturned(nin, 0.0, true)];
    assert one[..0] == [];
    assert Run(cfg, one) == Returned(cfg, Start(cfg), nin, 0.0, true).0;
    var two := [AReturned(nin, 0.0, true), AStoreHot(nin, 0.0, 5.0)];
    assert two[..1] == one;
    assert (nin, 0.0) in Run(cfg, one).live;
    HotUntilTtl(cfg, Run(cfg, one), nin, 0.0, 5.0, 5.0 + cfg.ttl);
  }

  lemma {:induction false} RunSnoc(cfg: Config, actions: seq<Action>, a: Action)
    requires Enabled(Run(cfg, actions), a)
    ensures Run(cfg, actions + [a]) == Step(cfg, Run(cfg, actions), a).0
  {
    hide Enabled, Step;
    assert (actions + [a])[..|actions|] == actions;
  }

  // ---- the module as it runs

  /** `live`, `stored` and `actions` are its history. */
  class NiraService {
    const cfg: Config
    const hot: FallbackCache<Result>
    const breaker: B.CircuitBreaker
    var warm: map<string, Warm>
    ghost var live: set<(string, real)>
    ghost var stored: set<Stored>
    ghost var actions: seq<Action>

    /** The service is in the state that its history leads to. */
    ghost predicate Valid()
      reads this, hot, breaker
    {
      breaker.cfg == cfg.breaker && Now() == Run(cfg, actions)
    }

    ghost function Now(): State
      reads this, hot, breaker
    {
      State(hot.store, warm, breaker.Now(), live, stored)
    }

    constructor (cfg: Config, hot: FallbackCache<Result>, breaker: B.CircuitBreaker)
      requires breaker.cfg == cfg.breaker && hot.store == map[] && breaker.Now() == B.Fresh(cfg.breaker)
      ensures Valid() && actions == [] && this.cfg == cfg && this.hot == hot && this.breaker == breaker
    {
      this.cfg, this.hot, this.breaker := cfg, hot, breaker;
      warm, live, stored, actions := map[], {}, {}, [];
    }

    method ReadWarm(nin: string) returns (row: Option<Warm>)
      ensures row == if cfg.hash(nin) in warm then Some(warm[cfg.hash(nin)]) else None
    {
      var hash := cfg.hash(nin);
      return if hash in warm then Some(warm[hash]) else None;
    }

    method WriteWarm(nin: string, result: Result, now: real)
      modifies this`warm
      ensures warm == old(warm)[cfg.hash(nin) := Warm(now, now + cfg.ttl, result)]
    {
      warm := warm[cfg.hash(nin) := Warm(now, now + cfg.ttl, result)];
    }

    method VerifyLookup(nin: string, now: real) returns (answer: Answer)
      requires Valid()
      modifies this`actions, hot, breaker
      ensures Valid() && actions == old(actions) + [ALookup(nin, now)]
      ensures (Now(), answer) == Lookup(cfg, old(Now()), nin, now)
    {
      hide Run;
      RunSnoc(cfg, actions, ALookup(nin, now));
      actions := actions + [ALookup(nin, now)];
      var hit := hot.Get(Key(cfg, nin), now);
      if hit.Some? {
        return Answer(hit.value, false, Hot);
      }
      var refused := breaker.Preflight(now);
      if !refused {
        return Calling;
      }
      var row := ReadWarm(nin);
      if row.Some? {
        return Answer(row.value.result, true, WarmBreakerOpen);
      }
      return Answer(UNAVAILABLE, true, MissBreakerOpen);
    }

    /** The second part; `result` is `None` when the call raised. */
    method VerifyReturned(nin: string, now: real, result: Option<Result>) returns (answer: Answer)
      requires Valid() && (result.Some? ==> result.value == cfg.nira(nin))
      modifies this, breaker
      ensures Valid() && actions == old(actions) + [AReturned(nin, now, result.Some?)]
      ensures (Now(), answer) == Returned(cfg, old(Now()), nin, now, result.Some?)
    {
      hide Run;
      RunSnoc(cfg, actions, AReturned(nin, now, result.Some?));
      actions := actions + [AReturned(nin, now, result.Some?)];
      if result.None? {
        breaker.RecordFailure(now);
        var row := ReadWarm(nin);
        if row.Some? {
          return Answer(row.value.result, true, WarmError);
        }
        return Raised;
      }
      breaker.RecordSuccess();
      WriteWarm(nin, result.value, now);
      live := live + {(nin, now)};
      return Calling;
    }

    method VerifyStore(nin: string, result: Result, ghost calledAt: real, now: real) returns (answer: Answer)
      requires Valid() && result == cfg.nira(nin) && (nin, calledAt) in live && calledAt <= now
      modifies this, hot
      ensures Valid() && actions == old(actions) + [AStoreHot(nin, calledAt, now)]
      ensures (Now(), answer) == StoreHot(cfg, old(Now()), nin, calledAt, now)
    {
      hide Run;
      RunSnoc(cfg, actions, AStoreHot(nin, calledAt, now));
      actions := actions + [AStoreHot(nin, calledAt, now)];
      hot.Set(Key(cfg, nin), result, cfg.ttl, now);
      stored := stored + {Stored(nin, calledAt, now)};
      return Answer(result, false, Live);
    }
  }

  /** What the service answers next is right, whatever it has been through. */
  lemma {:induction false} ServiceAgreesWithNira(service: NiraService, a: Action)
    requires service.Valid() && Enabled(service.Now(), a) && !a.ABreaker?
    requires NoCollision(service.cfg.hash, Asked(service.Now(), a.nin))
    ensures
      var r := Step(service.cfg, service.Now(), a).1;
      r.Answer? ==> r.result == service.cfg.nira(a.nin) || (r.result == UNAVAILABLE && r.stale && r.origin == MissBreakerOpen)
  {
    hide Run, Step, Enabled, Asked, NoCollision;
    AnswersAgreeWithNira(service.cfg, service.actions, a);
  }

  // ---- where an answer comes from

  /** The order of the sources: the hot cache, then a live call unless the breaker refuses, then the warm row, which never expires, then nothing. */
  lemma {:induction false} SourcesInOrder(cfg: Config, s: State, nin: string, now: real)
    ensures
      var (t, answer) := Lookup(cfg, s, nin, now);
      var key := "nira:nin:" + cfg.hash(nin);
      var hit, refused, kept := key in s.hot && now <= s.hot[key].expiresAt, B.Refuses(s.breaker, now), cfg.hash(nin) in s.warm;
      && (hit ==> answer == Answer(s.hot[key].value, false, Hot) && t.breaker == s.breaker)
      && (!hit && !refused ==> answer == Calling)
      && (!hit && refused && kept ==> answer == Answer(s.warm[cfg.hash(nin)].result, true, WarmBreakerOpen))
      && (!hit && refused && !kept ==> answer == Answer(Result(false, false, None, Some("nira_unavailable"), ""), true, MissBreakerOpen))
      && t.warm == s.warm && t.live == s.live
  {
    hide B.Look, B.Refuses;
  }

  /** After the call: an answer is kept in the warm table and closes the breaker; an error counts against it and falls back on the warm row. */
  lemma {:induction false} ReturnedInOrder(cfg: Config, s: State, nin: string, now: real)
    ensures
      var (t, answer) := Returned(cfg, s, nin, now, true);
      && t.warm == s.warm[cfg.hash(nin) := Warm(now, now + cfg.ttl, cfg.nira(nin))] && t.hot == s.hot
      && t.breaker.state == B.CLOSED && t.breaker.failures == 0 && answer == Calling
    ensures
      var (t, answer) := Returned(cfg, s, nin, now, false);
      && t.warm == s.warm && t.hot == s.hot && t.breaker.failures == s.breaker.failures + 1
      && (cfg.hash(nin) in s.warm ==> answer == Answer(s.warm[cfg.hash(nin)].result, true, WarmError))
      && (cfg.hash(nin) !in s.warm ==> answer == Raised)
  {
  }
}
