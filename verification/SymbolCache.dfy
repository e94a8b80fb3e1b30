/**
 The single-flight symbol list cache as a system of coroutines: every stretch of code between two awaits is
 one step, and steps of different coroutines interleave freely.
 */
module SymbolCache {
  import opened Common

  type Listing = seq<string>

  // ---- the fields, and the stretches of code between two awaits ----

  /** `since` numbers the step at which the loader of the stored list was started. */
  datatype Stored = Stored(list: Listing, since: nat)

  datatype Fields = Fields(data: Option<Stored>, loadedAt: int, lock: Option<int>)

  predicate Stale(f: Fields, now: int, ttl: nat) { f.data == None || now - f.loadedAt >= ttl }

  /** The cache object: its lock is held by at most one coroutine, named by its number. */
  class SymbolListCache {
    const ttl: nat
    var data: Option<Stored>
    var loadedAt: int
    var lock: Option<int>

    constructor (ttlSeconds: nat)
      ensures ttl == ttlSeconds && Value() == Fields(None, -1, None)
    {
      ttl, data, loadedAt, lock := ttlSeconds, None, -1, None;
    }

    function Value(): Fields
      reads this
    {
      Fields(data, loadedAt, lock)
    }

    method IsStale(now: int) returns (stale: bool)
      ensures stale == Stale(Value(), now, ttl)
    {
      if data == None {
        return true;
      }
      return now - loadedAt >= ttl;
    }

    /** Before the lock: a fresh list is handed out at once. */
    method Peek(p: int, now: int) returns (hit: Option<Listing>)
      ensures hit == None <==> Stale(Value(), now, ttl)
      ensures forall s: State | s.f == Value() && s.now == now && Enabled(s, Call(p)) ::
        After(s, Call(p), ttl).f == Value()
        && After(s, Call(p), ttl).co[p] == if hit == None then Waiting else Returned(data.value)
      ensures hit.Some? ==> hit.value == data.value.list
    {
      var stale := IsStale(now);
      hit := if stale then None else Some(data.value.list);
    }

    /** Under the lock: hand out a list that arrived meanwhile, or keep the lock and start loading. */
    method EnterLocked(p: int, now: int) returns (hit: Option<Listing>)
      requires lock == None
      modifies this
      ensures forall s: State | s.f == old(Value()) && s.now == now && Enabled(s, Enter(p)) ::
        After(s, Enter(p), ttl).f == Value() && (After(s, Enter(p), ttl).co[p].Loading? <==> hit == None)
      ensures hit == None <==> Stale(old(Value()), now, ttl)
      ensures hit.Some? ==> Value() == old(Value()) && hit.value == data.value.list
      ensures hit == None ==> Value() == old(Value()).(lock := Some(p))
    {
      lock := Some(p);
      var stale := IsStale(now);
      if !stale {
        hit := Some(data.value.list);
        lock := None;
      } else {
        hit := None;
      }
    }

    /** The loader came back: store, stamp, release. */
    method Complete(p: int, loaded: Listing, since: nat, now: int) returns (list: Listing)
      requires lock == Some(p)
      modifies this
      ensures forall s: State
        | s.f == old(Value()) && s.now == now && Enabled(s, Finish(p, loaded)) && s.co[p] == Loading(since) ::
        After(s, Finish(p, loaded), ttl).f == Value()
        && After(s, Finish(p, loaded), ttl).co[p] == Returned(Stored(list, since))
      ensures Value() == Fields(Some(Stored(loaded, since)), now, None) && list == loaded
    {
      data := Some(Stored(loaded, since));
      loadedAt := now;
      lock := None;
      list := data.value.list;
    }

    /** The loader raised: only the lock is released. */
    method Abort(p: int)
      requires lock == Some(p)
      modifies this
      ensures forall s: State | s.f == old(Value()) && Enabled(s, Fail(p)) :: After(s, Fail(p), ttl).f == Value()
      ensures Value() == old(Value()).(lock := None)
    {
      lock := None;
    }

    method Invalidate()
      modifies this
      ensures forall s: State | s.f == old(Value()) :: After(s, InvalidateNow, ttl).f == Value()
      ensures Value() == Fields(None, -1, old(lock))
    {
      data := None;
      loadedAt := -1;
    }
  }

  // ---- interleaved coroutines ----

  datatype Phase = Waiting | Loading(since: nat) | Returned(got: Stored) | Failed

  datatype State = State(now: int, step: nat, f: Fields, co: map<int, Phase>)

  datatype Action =
    | Tick(delta: nat)
    | Call(p: int)
    | Enter(p: int)
    | Finish(p: int, loaded: Listing)
    | Fail(p: int)
    | InvalidateNow

  const START := State(0, 0, Fields(None, -1, None), map[])

  predicate Enabled(s: State, a: Action) {
    match a
    case Tick(_) => true
    case Call(p) => p !in s.co
    case Enter(p) => p in s.co && s.co[p] == Waiting && s.f.lock == None
    case Finish(p, _) => p in s.co && s.co[p].Loading? && s.f.lock == Some(p)
    case Fail(p) => p in s.co && s.co[p].Loading? && s.f.lock == Some(p)
    case InvalidateNow => true
  }

  function After(s: State, a: Action, ttl: nat): State
    requires Enabled(s, a)
  {
    var s := s.(step := s.step + 1);
    match a
    case Tick(delta) => s.(now := s.now + delta)
    case Call(p) =>
      s.(co := s.co[p := if Stale(s.f, s.now, ttl) then Waiting else Returned(s.f.data.value)])
    case Enter(p) =>
      if Stale(s.f, s.now, ttl) then s.(f := s.f.(lock := Some(p)), co := s.co[p := Loading(s.step)])
      else s.(co := s.co[p := Returned(s.f.data.value)])
    case Finish(p, loaded) =>
      var got := Stored(loaded, s.co[p].since);
      s.(f := Fields(Some(got), s.now, None), co := s.co[p := Returned(got)])
    case Fail(p) => s.(f := s.f.(lock := None), co := s.co[p := Failed])
    case InvalidateNow => s.(f := Fields(None, -1, s.f.lock))
  }

  ghost predicate Legal(s: State, actions: seq<Action>, ttl: nat)
    decreases |actions|
  {
    actions == [] || (Enabled(s, actions[0]) && Legal(After(s, actions[0], ttl), actions[1..], ttl))
  }

  function Run(s: State, actions: seq<Action>, ttl: nat): State
    requires Legal(s, actions, ttl)
    decreases |actions|
  {
    if actions == [] then s else Run(After(s, actions[0], ttl), actions[1..], ttl)
  }

  // ---- one loader at a time ----

  /** The lock names the one coroutine that is loading. */
  ghost predicate LockedByLoader(s: State) {
    && (forall p | p in s.co && s.co[p].Loading? :: s.f.lock == Some(p))
    && (s.f.lock.Some? ==> s.f.lock.value in s.co && s.co[s.f.lock.value].Loading?)
  }

  lemma {:induction false} RunKeepsLock(s: State, actions: seq<Action>, ttl: nat)
    requires LockedByLoader(s) && Legal(s, actions, ttl)
    ensures LockedByLoader(Run(s, actions, ttl))
    decreases |actions|
  {
    if actions != [] {
      RunKeepsLock(After(s, actions[0], ttl), actions[1..], ttl);
    }
  }

  /** In every reachable state at most one loader runs. */
  lemma {:induction false} AtMostOneLoader(actions: seq<Action>, ttl: nat, p: int, q: int)
    requires Legal(START, actions, ttl)
    requires var s := Run(START, actions, ttl);
      p in s.co && q in s.co && s.co[p].Loading? && s.co[q].Loading?
    ensures p == q
  {
    RunKeepsLock(START, actions, ttl);
  }

  predicate IsLoading(s: State, p: int) { p in s.co && s.co[p].Loading? }

  ghost predicate OnlyLoads(s: State, p: int) { forall q | IsLoading(s, q) :: q == p }

  lemma {:induction false} LegalParts(s: State, actions: seq<Action>, ttl: nat, i: nat)
    requires Legal(s, actions, ttl) && i < |actions|
    ensures Legal(s, actions[..i], ttl) && Enabled(Run(s, actions[..i], ttl), actions[i])
    ensures Legal(s, actions[..i + 1], ttl)
    ensures Run(s, actions[..i + 1], ttl) == After(Run(s, actions[..i], ttl), actions[i], ttl)
    decreases |actions|
  {
    var first := actions[0];
    assert actions[..i + 1][0] == first && actions[..i + 1][1..] == actions[1..][..i];
    if i == 0 {
      assert actions[1..][..0] == [];
    } else {
      assert actions[..i][1..] == actions[1..][..i - 1];
      LegalParts(After(s, first, ttl), actions[1..], ttl, i - 1);
    }
  }

  /**
   Every load of every run: the step that starts it is that coroutine taking the free lock, at a moment when the
   cache is stale and nobody is loading, and from then on it is the one that loads.
   */
  lemma {:induction false} LoadsStartStaleUnderLock(actions: seq<Action>, ttl: nat, i: nat, p: int)
    requires Legal(START, actions, ttl) && i < |actions|
    requires Legal(START, actions[..i], ttl) && !IsLoading(Run(START, actions[..i], ttl), p)
    requires Legal(START, actions[..i + 1], ttl) && IsLoading(Run(START, actions[..i + 1], ttl), p)
    ensures actions[i] == Enter(p)
    ensures var s := Run(START, actions[..i], ttl);
      s.f.lock == None && Stale(s.f, s.now, ttl) && forall q :: !IsLoading(s, q)
    ensures OnlyLoads(Run(START, actions[..i + 1], ttl), p)
  {
    LegalParts(START, actions, ttl, i);
    RunKeepsLock(START, actions[..i], ttl);
    RunKeepsLock(START, actions[..i + 1], ttl);
  }

  // ---- loads keep their distance ----

  predicate NoInvalidation(actions: seq<Action>) {
    forall i | 0 <= i < |actions| :: actions[i] != InvalidateNow
  }

  /** Some load completed at or after `done`. */
  ghost predicate LoadedSince(s: State, done: int) { s.f.data.Some? && done <= s.f.loadedAt <= s.now }

  lemma {:induction false} StaysLoaded(s: State, actions: seq<Action>, ttl: nat, done: int)
    requires LoadedSince(s, done) && Legal(s, actions, ttl) && NoInvalidation(actions)
    ensures LoadedSince(Run(s, actions, ttl), done)
    decreases |actions|
  {
    if actions != [] {
      StaysLoaded(After(s, actions[0], ttl), actions[1..], ttl, done);
    }
  }

  /**
   After a load completes, and whatever fails in between, no new load starts before a TTL has passed unless
   the cache is invalidated.
   */
  lemma {:induction false} LoadsAreTtlApart(s: State, p: int, loaded: Listing, between: seq<Action>, q: int, ttl: nat)
    requires Enabled(s, Finish(p, loaded))
    requires var s1 := After(s, Finish(p, loaded), ttl);
      && Legal(s1, between, ttl) && NoInvalidation(between)
      && Enabled(Run(s1, between, ttl), Enter(q))
      && After(Run(s1, between, ttl), Enter(q), ttl).co[q].Loading?
    ensures Run(After(s, Finish(p, loaded), ttl), between, ttl).now >= s.now + ttl
  {
    StaysLoaded(After(s, Finish(p, loaded), ttl), between, ttl, s.now);
  }

  // ---- waiters share the result ----

  /** The result stored at `done` is in place, nobody is loading, and the clock has not gone back. */
  ghost predicate Settled(s: State, got: Stored, done: int) {
    s.f == Fields(Some(got), done, None) && done <= s.now && forall p | p in s.co :: !s.co[p].Loading?
  }

  lemma {:induction false} ClockAdvances(s: State, actions: seq<Action>, ttl: nat)
    requires Legal(s, actions, ttl)
    ensures s.now <= Run(s, actions, ttl).now
    decreases |actions|
  {
    if actions != [] {
      ClockAdvances(After(s, actions[0], ttl), actions[1..], ttl);
    }
  }

  lemma {:induction false} StaysSettled(s: State, actions: seq<Action>, ttl: nat, got: Stored, done: int)
    requires Settled(s, got, done) && Legal(s, actions, ttl) && NoInvalidation(actions)
    requires Run(s, actions, ttl).now < done + ttl
    ensures Settled(Run(s, actions, ttl), got, done)
    decreases |actions|
  {
    if actions != [] {
      ClockAdvances(s, actions, ttl);
      StaysSettled(After(s, actions[0], ttl), actions[1..], ttl, got, done);
    }
  }

  /**
   Once a load has succeeded, every waiter that gets the lock, and every new caller, within a TTL returns the
   loaded list and starts no load.
   */
  lemma {:induction false} WaitersShareTheResult(
    s: State, p: int, loaded: Listing, between: seq<Action>, a: Action, ttl: nat)
    requires LockedByLoader(s) && Enabled(s, Finish(p, loaded)) && (a.Enter? || a.Call?)
    requires var s1 := After(s, Finish(p, loaded), ttl);
      && Legal(s1, between, ttl) && NoInvalidation(between)
      && Run(s1, between, ttl).now < s.now + ttl
      && Enabled(Run(s1, between, ttl), a)
    ensures var s2 := After(Run(After(s, Finish(p, loaded), ttl), between, ttl), a, ttl);
      a.p in s2.co && s2.co[a.p].Returned? && s2.co[a.p].got.list == loaded && s2.f.lock == None
  {
    var s1 := After(s, Finish(p, loaded), ttl);
    StaysSettled(s1, between, ttl, Stored(loaded, s.co[p].since), s.now);
  }

  // ---- what invalidation promises ----

  /** Everything stored or being loaded was started after step n. */
  ghost predicate StartedAfter(s: State, n: nat) {
    && s.step >= n
    && (s.f.data.Some? ==> s.f.data.value.since > n)
    && forall p | p in s.co && s.co[p].Loading? :: s.co[p].since > n
  }

  lemma {:induction false} StaysStartedAfter(s: State, actions: seq<Action>, ttl: nat, n: nat)
    requires StartedAfter(s, n) && Legal(s, actions, ttl)
    ensures StartedAfter(Run(s, actions, ttl), n)
    decreases |actions|
  {
    if actions != [] {
      StaysStartedAfter(After(s, actions[0], ttl), actions[1..], ttl, n);
    }
  }

  /** What a call made in state s gets when it answers at once. */
  ghost predicate AnswersWith(s: State, q: int, ttl: nat, got: Stored) {
    q !in s.co && After(s, Call(q), ttl).co[q] == Returned(got)
  }

  /** Every later call that answers at once gets a list whose loader started after the invalidation. */
  ghost predicate ForcesRefetch(s: State, ttl: nat) {
    var s1 := After(s, InvalidateNow, ttl);
    forall actions: seq<Action>, q: int, got: Stored ::
      Legal(s1, actions, ttl) && AnswersWith(Run(s1, actions, ttl), q, ttl, got) ==> got.since > s1.step
  }

  ghost predicate LoadsAreOld(s: State) {
    forall p | p in s.co && s.co[p].Loading? :: s.co[p].since <= s.step
  }

  lemma {:induction false} RunKeepsLoadsOld(s: State, actions: seq<Action>, ttl: nat)
    requires LoadsAreOld(s) && Legal(s, actions, ttl)
    ensures LoadsAreOld(Run(s, actions, ttl))
    decreases |actions|
  {
    if actions != [] {
      RunKeepsLoadsOld(After(s, actions[0], ttl), actions[1..], ttl);
    }
  }

  /** Some coroutine has not called yet. */
  lemma {:induction false} SomeoneIsNew(called: set<int>) returns (q: int)
    ensures forall p | p in called :: p < q
    decreases |called|
  {
    if p :| p in called {
      var q' := SomeoneIsNew(called - {p});
      q := if p < q' then q' else p + 1;
      forall x | x in called ensures x < q {
        assert x == p || x in called - {p};
      }
    } else {
      q := 0;
    }
  }

  /** Without a load in flight everything stored later was started after the invalidation. */
  lemma IdleForcesRefetch(s: State, ttl: nat)
    requires LockedByLoader(s) && s.f.lock == None
    ensures ForcesRefetch(s, ttl)
  {
    var s1 := After(s, InvalidateNow, ttl);
    assert StartedAfter(s1, s1.step);
    forall actions: seq<Action>, q: int, got: Stored
      | Legal(s1, actions, ttl) && AnswersWith(Run(s1, actions, ttl), q, ttl, got)
      ensures got.since > s1.step
    {
      StaysStartedAfter(s1, actions, ttl, s1.step);
    }
  }

  lemma {:induction false} OneStep(s: State, a: Action, ttl: nat)
    requires Enabled(s, a)
    ensures Legal(s, [a], ttl) && Run(s, [a], ttl) == After(s, a, ttl)
  {
    assert [a][0] == a && [a][1..] == [];
    var s2 := After(s, a, ttl);
    assert Legal(s2, [], ttl) && Run(s2, [], ttl) == s2;
    assert Legal(s, [a], ttl);
    assert Run(s, [a], ttl) == Run(s2, [a][1..], ttl);
  }

  /** A loader in flight stores its older list over the invalidation, and the next call is served from it. */
  lemma LoaderOutlivesInvalidation(s: State, ttl: nat)
    requires LockedByLoader(s) && LoadsAreOld(s) && ttl > 0 && s.f.lock.Some?
    ensures !ForcesRefetch(s, ttl)
  {
    var s1 := After(s, InvalidateNow, ttl);
    var p := s.f.lock.value;
    var finish := Finish(p, []);
    var got := Stored([], s.co[p].since);
    var s2 := After(s1, finish, ttl);
    OneStep(s1, finish, ttl);
    var q := SomeoneIsNew(s2.co.Keys);
    assert q !in s2.co.Keys;
    hide Legal, Run;
    assert AnswersWith(Run(s1, [finish], ttl), q, ttl, got);
    assert got.since <= s1.step;
  }

  /** The stored list carries a stamp that is not ahead of the clock. */
  predicate StampedBefore(s: State) { s.f.data.Some? ==> s.f.loadedAt <= s.now }

  lemma {:induction false} StaysStampedBefore(s: State, actions: seq<Action>)
    requires StampedBefore(s) && Legal(s, actions, 0)
    ensures StampedBefore(Run(s, actions, 0))
    decreases |actions|
  {
    if actions != [] {
      StaysStampedBefore(After(s, actions[0], 0), actions[1..]);
    }
  }

  /** A lifetime of zero never lets a call answer at once. */
  lemma NothingStaysFresh(s: State)
    ensures ForcesRefetch(s, 0)
  {
    var s1 := After(s, InvalidateNow, 0);
    assert StampedBefore(s1);
    forall actions: seq<Action>, q: int, got: Stored | Legal(s1, actions, 0)
      ensures !AnswersWith(Run(s1, actions, 0), q, 0, got)
    {
      StaysStampedBefore(s1, actions);
    }
  }

  /**
   After any run, invalidation forces the next call to fetch again exactly when no load is in flight, a lifetime
   of zero aside. A loader that was already running stores its older list over the invalidation.
   */
  lemma {:induction false} InvalidateForcesRefetchIff(history: seq<Action>, ttl: nat)
    requires Legal(START, history, ttl)
    ensures ForcesRefetch(Run(START, history, ttl), ttl) <==> Run(START, history, ttl).f.lock == None || ttl == 0
  {
    var s := Run(START, history, ttl);
    RunKeepsLock(START, history, ttl);
    RunKeepsLoadsOld(START, history, ttl);
    hide Legal, Run, ForcesRefetch;
    if s.f.lock == None {
      IdleForcesRefetch(s, ttl);
    } else if ttl > 0 {
      LoaderOutlivesInvalidation(s, ttl);
    } else {
      NothingStaysFresh(s);
    }
  }
}
