/** The in-memory cache that stands in for Redis: entries with an expiry time, removed when they are read too late. */
module Cache {
  import opened Hashing

  datatype Entry<T> = Entry(expiresAt: real, value: T)

  type Store<T> = map<string, Entry<T>>

  /** What a read at `now` finds; an entry is still good at its expiry time. */
  function Find<T>(store: Store<T>, key: string, now: real): Option<T> {
    if key in store && now <= store[key].expiresAt then Some(store[key].value) else None
  }

  /** The store after a read at `now`. */
  function Swept<T>(store: Store<T>, key: string, now: real): Store<T> {
    if key in store && now > store[key].expiresAt then store - {key} else store
  }

  function Put<T>(store: Store<T>, key: string, value: T, ttl: real, now: real): Store<T> {
    store[key := Entry(now + ttl, value)]
  }

  /** The lock of the scoring worker: whether it is granted, and the store afterwards. */
  function PutIfAbsent<T>(store: Store<T>, key: string, value: T, ttl: real, now: real): (Store<T>, bool) {
    if Find(store, key, now).Some? then (store, false) else (Put(store, key, value, ttl, now), true)
  }

  class FallbackCache<T> {
    var store: Store<T>

    constructor ()
      ensures store == map[]
    {
      store := map[];
    }

    method Get(key: string, now: real) returns (value: Option<T>)
      modifies this
      ensures value == Find(old(store), key, now) && store == Swept(old(store), key, now)
    {
      if key !in store {
        return None;
      }
      var entry := store[key];
      if now > entry.expiresAt {
        store := store - {key};
        return None;
      }
      return Some(entry.value);
    }

    method Set(key: string, value: T, ttl: real, now: real)
      modifies this
      ensures store == Put(old(store), key, value, ttl, now)
    {
      store := store[key := Entry(now + ttl, value)];
    }

    method SetNx(key: string, value: T, ttl: real, now: real) returns (set_: bool)
      modifies this
      ensures (store, set_) == PutIfAbsent(old(store), key, value, ttl, now)
    {
      if key in store && now <= store[key].expiresAt {
        return false;
      }
      store := store[key := Entry(now + ttl, value)];
      return true;
    }

    method Delete(key: string)
      modifies this
      ensures store == old(store) - {key}
    {
      store := store - {key};
    }
  }

  // ---- the lock

  /** Attempts to take locks of one duration. */
  datatype TryLock = TryLock(key: string, now: real)

  function AfterTries(tries: seq<TryLock>, ttl: real): Store<()> {
    if tries == [] then map[]
    else
      var last := tries[|tries| - 1];
      PutIfAbsent(AfterTries(tries[..|tries| - 1], ttl), last.key, (), ttl, last.now).0
  }

  predicate Granted(tries: seq<TryLock>, ttl: real, i: nat)
    requires i < |tries|
  {
    PutIfAbsent(AfterTries(tries[..i], ttl), tries[i].key, (), ttl, tries[i].now).1
  }

  predicate ClockRuns(tries: seq<TryLock>) {
    forall i, j :: 0 <= i < j < |tries| ==> tries[i].now <= tries[j].now
  }

  /** A granted lock stays in the store until somebody is granted it again. */
  lemma {:induction false} LockIsHeld(tries: seq<TryLock>, ttl: real, i: nat)
    requires i < |tries| && Granted(tries, ttl, i) && ClockRuns(tries)
    ensures
      var store := AfterTries(tries, ttl);
      tries[i].key in store && store[tries[i].key].expiresAt >= tries[i].now + ttl
  {
    var before, last := tries[..|tries| - 1], tries[|tries| - 1];
    if i < |tries| - 1 {
      assert before[..i] == tries[..i];
      assert ClockRuns(before);
      LockIsHeld(before, ttl, i);
      assert tries[i].now <= last.now;
    }
  }

  /** Two grants of the same lock are more than its duration apart. */
  lemma {:induction false} LockIsExclusive(tries: seq<TryLock>, ttl: real, i: nat, j: nat)
    requires i < j < |tries| && ClockRuns(tries) && tries[i].key == tries[j].key
    requires Granted(tries, ttl, i) && Granted(tries, ttl, j)
    ensures tries[j].now > tries[i].now + ttl
  {
    assert tries[..j][..i] == tries[..i];
    LockIsHeld(tries[..j], ttl, i);
  }

  /** A lock is granted exactly when no grant of it is younger than its duration. */
  lemma {:induction false} GrantedIff(tries: seq<TryLock>, ttl: real, j: nat)
    requires j < |tries| && ClockRuns(tries)
    ensures Granted(tries, ttl, j) <==>
              forall i: nat :: i < j && tries[i].key == tries[j].key && Granted(tries, ttl, i) ==> tries[j].now > tries[i].now + ttl
  {
    forall i: nat | i < j && tries[i].key == tries[j].key && Granted(tries, ttl, i) && Granted(tries, ttl, j)
      ensures tries[j].now > tries[i].now + ttl
    {
      LockIsExclusive(tries, ttl, i, j);
    }
    if !Granted(tries, ttl, j) {
      var i := HolderOf(tries[..j], ttl, tries[j].key);
      assert tries[..j][..i] == tries[..i];
    }
  }

  /** Every entry was put there by the last grant of its lock. */
  lemma {:induction false} HolderOf(tries: seq<TryLock>, ttl: real, key: string) returns (i: nat)
    requires key in AfterTries(tries, ttl)
    ensures i < |tries| && tries[i].key == key && Granted(tries, ttl, i)
    ensures AfterTries(tries, ttl)[key].expiresAt == tries[i].now + ttl
  {
    var before, last := tries[..|tries| - 1], tries[|tries| - 1];
    if last.key == key && Granted(tries, ttl, |tries| - 1) {
      i := |tries| - 1;
    } else {
      i := HolderOf(before, ttl, key);
      assert before[..i] == tries[..i];
    }
  }

  /** Removing what has expired is seen by no later read, and leaves nothing expired under the key. */
  lemma {:induction false} SweepIsInvisible<T>(store: Store<T>, key: string, other: string, now: real, later: real)
    requires now <= later
    ensures Find(Swept(store, key, now), other, later) == Find(store, other, later)
    ensures key in Swept(store, key, now) <==> Find(store, key, now).Some?
  {
  }
}
