/**
 The login rate limiter over its attempts table, and the step system of interleaved requests: check, then
 record, with the clock ticking and a cleanup job purging old rows in between.
 */
module LoginLimiter {
  import opened Common

  datatype Attempt = Attempt(ip: string, success: bool, at: int)

  // ---- the table ----

  /** None counts every IP. */
  predicate InScope(a: Attempt, scope: Option<string>) {
    !a.success && (scope.Some? ==> a.ip == scope.value)
  }

  /** COUNT(*) of the failures of a scope at or after `since`. */
  function CountFailures(rows: seq<Attempt>, scope: Option<string>, since: int): nat {
    if rows == [] then 0
    else
      var a := rows[|rows| - 1];
      CountFailures(rows[..|rows| - 1], scope, since) + if InScope(a, scope) && a.at >= since then 1 else 0
  }

  /** The failures of a scope inside the closed interval [from, to]. */
  function FailuresIn(rows: seq<Attempt>, scope: Option<string>, from: int, to: int): nat {
    if rows == [] then 0
    else
      var a := rows[|rows| - 1];
      FailuresIn(rows[..|rows| - 1], scope, from, to) + if InScope(a, scope) && from <= a.at <= to then 1 else 0
  }

  /** DELETE … WHERE attempted_at < cutoff. */
  function Purged(rows: seq<Attempt>, cutoff: int): seq<Attempt> {
    if rows == [] then []
    else
      var a := rows[|rows| - 1];
      Purged(rows[..|rows| - 1], cutoff) + if a.at >= cutoff then [a] else []
  }

  lemma {:induction false} CountSnoc(rows: seq<Attempt>, a: Attempt, scope: Option<string>, since: int)
    ensures CountFailures(rows + [a], scope, since)
      == CountFailures(rows, scope, since) + if InScope(a, scope) && a.at >= since then 1 else 0
  {
    assert (rows + [a])[..|rows|] == rows;
  }

  lemma {:induction false} FailuresSnoc(rows: seq<Attempt>, a: Attempt, scope: Option<string>, from: int, to: int)
    ensures FailuresIn(rows + [a], scope, from, to)
      == FailuresIn(rows, scope, from, to) + if InScope(a, scope) && from <= a.at <= to then 1 else 0
  {
    assert (rows + [a])[..|rows|] == rows;
  }

  /** Purging before the lookback start does not change a count. */
  lemma {:induction false} PurgeKeepsCount(rows: seq<Attempt>, cutoff: int, scope: Option<string>, since: int)
    requires cutoff <= since
    ensures CountFailures(Purged(rows, cutoff), scope, since) == CountFailures(rows, scope, since)
  {
    if rows != [] {
      var init, a := rows[..|rows| - 1], rows[|rows| - 1];
      PurgeKeepsCount(init, cutoff, scope, since);
      CountSnoc(Purged(init, cutoff), a, scope, since);
      assert Purged(init, cutoff) + [] == Purged(init, cutoff);
    }
  }

  /** A window that the lookback reaches past holds no more failures than the lookback counts. */
  lemma {:induction false} WindowWithinLookback(
    rows: seq<Attempt>, scope: Option<string>, since: int, from: int, to: int)
    requires since <= from
    ensures FailuresIn(rows, scope, from, to) <= CountFailures(rows, scope, since)
  {
    if rows != [] {
      WindowWithinLookback(rows[..|rows| - 1], scope, since, from, to);
    }
  }

  /** The positions of the rows that are failures of the scope at or after `since`. */
  function Matches(rows: seq<Attempt>, scope: Option<string>, since: int): set<int> {
    set i | 0 <= i < |rows| && !rows[i].success && (scope == None || scope == Some(rows[i].ip)) && rows[i].at >= since
  }

  lemma {:induction false} CountIsMatches(rows: seq<Attempt>, scope: Option<string>, since: int)
    ensures CountFailures(rows, scope, since) == |Matches(rows, scope, since)|
  {
    if rows != [] {
      var n := |rows| - 1;
      CountIsMatches(rows[..n], scope, since);
      MatchesOfNext(rows, scope, since);
      hide Matches;
    }
  }

  lemma MatchesOfNext(rows: seq<Attempt>, scope: Option<string>, since: int)
    requires rows != []
    ensures var n := |rows| - 1;
      && n !in Matches(rows[..n], scope, since)
      && Matches(rows, scope, since)
         == Matches(rows[..n], scope, since) + if InScope(rows[n], scope) && rows[n].at >= since then {n} else {}
  {}

  /** The positions of the failures of the scope inside the closed interval. */
  function MatchesIn(rows: seq<Attempt>, scope: Option<string>, from: int, to: int): set<int> {
    set i | 0 <= i < |rows| && !rows[i].success && (scope == None || scope == Some(rows[i].ip))
      && from <= rows[i].at <= to
  }

  lemma {:induction false} FailuresAreMatches(rows: seq<Attempt>, scope: Option<string>, from: int, to: int)
    ensures FailuresIn(rows, scope, from, to) == |MatchesIn(rows, scope, from, to)|
  {
    if rows != [] {
      var n := |rows| - 1;
      FailuresAreMatches(rows[..n], scope, from, to);
      MatchesInOfNext(rows, scope, from, to);
      hide MatchesIn;
    }
  }

  lemma MatchesInOfNext(rows: seq<Attempt>, scope: Option<string>, from: int, to: int)
    requires rows != []
    ensures var n := |rows| - 1;
      && n !in MatchesIn(rows[..n], scope, from, to)
      && MatchesIn(rows, scope, from, to) == MatchesIn(rows[..n], scope, from, to)
         + if InScope(rows[n], scope) && from <= rows[n].at <= to then {n} else {}
  {}

  /** The attempts table. */
  class LoginAttempts {
    var rows: seq<Attempt>

    constructor ()
      ensures rows == []
    {
      rows := [];
    }

    method Record(ip: string, success: bool, at: int)
      modifies this
      ensures rows == old(rows) + [Attempt(ip, success, at)]
    {
      rows := rows + [Attempt(ip, success, at)];
    }

    /** How many rows are failures of the scope at or after `since`. */
    method CountFailuresSince(scope: Option<string>, since: int) returns (n: nat)
      ensures n == CountFailures(rows, scope, since)
      ensures n == |Matches(rows, scope, since)|
    {
      n := 0;
      for i := 0 to |rows|
        invariant n == CountFailures(rows[..i], scope, since)
      {
        assert rows[..i + 1][..i] == rows[..i];
        if InScope(rows[i], scope) && rows[i].at >= since {
          n := n + 1;
        }
      }
      assert rows[..|rows|] == rows;
      CountIsMatches(rows, scope, since);
    }

    /** Deletes what is older than the cutoff: the other rows stay, each as often as before and in their order. */
    method PurgeOlderThan(cutoff: int) returns (deleted: nat)
      modifies this
      ensures rows == Purged(old(rows), cutoff)
      ensures forall a :: multiset(rows)[a] == if a.at >= cutoff then multiset(old(rows))[a] else 0
      ensures deleted == |old(rows)| - |rows|
    {
      var kept: seq<Attempt> := [];
      deleted := 0;
      for i := 0 to |rows|
        invariant kept == Purged(rows[..i], cutoff) && deleted == i - |kept|
      {
        assert rows[..i + 1][..i] == rows[..i];
        if rows[i].at >= cutoff {
          kept := kept + [rows[i]];
        } else {
          deleted := deleted + 1;
        }
      }
      assert rows[..|rows|] == rows;
      PurgedKeepsTheRest(rows, cutoff);
      hide Purged;
      rows := kept;
    }
  }

  /** A purge deletes exactly the rows before the cutoff and keeps every other row as often as it was there. */
  lemma {:induction false} PurgedKeepsTheRest(rows: seq<Attempt>, cutoff: int)
    ensures forall a :: multiset(Purged(rows, cutoff))[a] == if a.at >= cutoff then multiset(rows)[a] else 0
  {
    if rows != [] {
      var init, last := rows[..|rows| - 1], rows[|rows| - 1];
      PurgedKeepsTheRest(init, cutoff);
      assert rows == init + [last];
    }
  }

  // ---- the limiter ----

  datatype Limits = Limits(perIpMax: nat, globalMax: nat, perIpWindow: nat, globalWindow: nat)

  datatype Verdict = Allowed | TooMany(retryAfter: nat)

  function MinNat(a: nat, b: nat): nat { if a <= b then a else b }

  /** The wait doubles for every five failures beyond the limit, up to 64 windows and at most one hour. */
  function RetryAfter(window: nat, excess: nat): nat {
    MinNat(window * MinNat(Pow2(excess / 5), 64), 3600)
  }

  /** Per-IP limit first, then the global one. */
  function CheckVerdict(rows: seq<Attempt>, limits: Limits, ip: string, now: int): Verdict {
    var failures := CountFailures(rows, Some(ip), now - limits.perIpWindow);
    if failures >= limits.perIpMax then TooMany(RetryAfter(limits.perIpWindow, failures - limits.perIpMax))
    else if CountFailures(rows, None, now - limits.globalWindow) >= limits.globalMax then TooMany(limits.globalWindow)
    else Allowed
  }

  lemma {:induction false} Pow2Monotone(a: nat, b: nat)
    requires a <= b
    ensures 1 <= Pow2(a) <= Pow2(b)
    decreases b
  {
    if a < b {
      Pow2Monotone(a, b - 1);
    } else if b > 0 {
      Pow2Monotone(a - 1, b - 1);
    }
  }

  lemma MulMonoNat(w: nat, a: nat, b: nat)
    requires a <= b
    ensures w * a <= w * b
  {}

  /** More failures never shorten the wait, which stays between one window and the caps. */
  lemma BackoffIsMonotone(window: nat, a: nat, b: nat)
    requires a <= b
    ensures RetryAfter(window, a) <= RetryAfter(window, b)
    ensures MinNat(window, 3600) <= RetryAfter(window, a) <= MinNat(64 * window, 3600)
    ensures a < 5 ==> RetryAfter(window, a) == MinNat(window, 3600)
    ensures a >= 30 ==> RetryAfter(window, a) == MinNat(64 * window, 3600)
  {
    Pow2Monotone(a / 5, b / 5);
    var ma, mb := MinNat(Pow2(a / 5), 64), MinNat(Pow2(b / 5), 64);
    MulMonoNat(window, ma, mb);
    MulMonoNat(window, 1, ma);
    MulMonoNat(window, ma, 64);
    if a >= 30 {
      Pow2Monotone(6, a / 5);
      assert Pow2(6) == 64;
      assert ma == 64;
    }
  }

  /** The wait in full: windows by excess, and never more than an hour. */
  lemma WaitIs(window: nat, excess: nat)
    ensures var windows := if excess < 5 then 1 else if excess < 10 then 2 else if excess < 15 then 4
        else if excess < 20 then 8 else if excess < 25 then 16 else if excess < 30 then 32 else 64;
      RetryAfter(window, excess) == if windows * window <= 3600 then windows * window else 3600
  {
    assert Pow2(0) == 1 && Pow2(1) == 2 && Pow2(2) == 4 && Pow2(3) == 8 && Pow2(4) == 16 && Pow2(5) == 32;
    assert Pow2(6) == 64;
    if excess >= 30 {
      Pow2Monotone(6, excess / 5);
    }
  }

  /** The verdict by the two counts of failures: per IP first, then over all IPs. */
  lemma VerdictIs(rows: seq<Attempt>, limits: Limits, ip: string, now: int)
    ensures var own := |Matches(rows, Some(ip), now - limits.perIpWindow)|;
      var all := |Matches(rows, None, now - limits.globalWindow)|;
      CheckVerdict(rows, limits, ip, now)
      == if own >= limits.perIpMax then TooMany(RetryAfter(limits.perIpWindow, own - limits.perIpMax))
         else if all >= limits.globalMax then TooMany(limits.globalWindow) else Allowed
  {
    CountIsMatches(rows, Some(ip), now - limits.perIpWindow);
    CountIsMatches(rows, None, now - limits.globalWindow);
    hide CountFailures, Matches, RetryAfter;
  }

  method Check(table: LoginAttempts, limits: Limits, ip: string, now: int) returns (v: Verdict)
    ensures v == CheckVerdict(table.rows, limits, ip, now)
  {
    var failures := table.CountFailuresSince(Some(ip), now - limits.perIpWindow);
    if failures >= limits.perIpMax {
      var excess := failures - limits.perIpMax;
      var multiplier := MinNat(Pow2(excess / 5), 64);
      return TooMany(MinNat(limits.perIpWindow * multiplier, 3600));
    }
    var globalFailures := table.CountFailuresSince(None, now - limits.globalWindow);
    if globalFailures >= limits.globalMax {
      return TooMany(limits.globalWindow);
    }
    return Allowed;
  }

  // ---- interleaved requests ----

  /**
   `table` is what the database holds, `log` everything ever recorded, `pending` the requests that passed
   their check and have not been recorded yet.
   */
  datatype State = State(now: int, table: seq<Attempt>, log: seq<Attempt>, pending: multiset<string>)

  datatype Action =
    | Tick(delta: nat)
    | CheckFor(ip: string)
    | RecordFailure(ip: string)
    | RecordSuccess(ip: string)
    | Purge(retention: nat)

  const START := State(0, [], [], multiset{})

  /** A request is recorded only after its own check let it through. */
  predicate Enabled(s: State, a: Action) {
    match a
    case RecordFailure(ip) => ip in s.pending
    case RecordSuccess(ip) => ip in s.pending
    case _ => true
  }

  function Recorded(s: State, ip: string, success: bool): State {
    var row := Attempt(ip, success, s.now);
    s.(table := s.table + [row], log := s.log + [row], pending := s.pending - multiset{ip})
  }

  function After(s: State, a: Action, limits: Limits): State {
    match a
    case Tick(delta) => s.(now := s.now + delta)
    case CheckFor(ip) =>
      if CheckVerdict(s.table, limits, ip, s.now) == Allowed then s.(pending := s.pending + multiset{ip}) else s
    case RecordFailure(ip) => Recorded(s, ip, false)
    case RecordSuccess(ip) => Recorded(s, ip, true)
    case Purge(retention) => s.(table := Purged(s.table, s.now - retention))
  }

  function Run(actions: seq<Action>, limits: Limits): State {
    if actions == [] then START else After(Run(actions[..|actions| - 1], limits), actions[|actions| - 1], limits)
  }

  /** Requests of a scope between their check and their record. */
  function InFlight(s: State, scope: Option<string>): nat {
    if scope.Some? then s.pending[scope.value] else |s.pending|
  }

  function Window(limits: Limits, scope: Option<string>): nat {
    if scope.Some? then limits.perIpWindow else limits.globalWindow
  }

  function Limit(limits: Limits, scope: Option<string>): nat {
    if scope.Some? then limits.perIpMax else limits.globalMax
  }

  /** Every step was possible, no more than k requests of the scope were in flight, and purges spare both windows. */
  ghost predicate Legal(actions: seq<Action>, limits: Limits, scope: Option<string>, k: nat) {
    && (forall i | 0 <= i < |actions| :: Enabled(Run(actions[..i], limits), actions[i]))
    && (forall i | 0 <= i <= |actions| :: InFlight(Run(actions[..i], limits), scope) <= k)
    && (forall i | 0 <= i < |actions| && actions[i].Purge? ::
          actions[i].retention >= limits.perIpWindow && actions[i].retention >= limits.globalWindow)
  }

  lemma LegalPrefix(actions: seq<Action>, limits: Limits, scope: Option<string>, k: nat, n: nat)
    requires Legal(actions, limits, scope, k) && n <= |actions|
    ensures Legal(actions[..n], limits, scope, k)
  {
    forall i | 0 <= i <= n ensures actions[..n][..i] == actions[..i] {}
  }

  // ---- purging is invisible ----

  /** From either lookback on, the table still shows the whole log. */
  ghost predicate TableShowsLog(s: State, limits: Limits) {
    forall scope: Option<string>, since: int ::
      since >= s.now - limits.perIpWindow || since >= s.now - limits.globalWindow ==>
        CountFailures(s.table, scope, since) == CountFailures(s.log, scope, since)
  }

  lemma {:induction false} RecordingCountsTwice(s: State, ip: string, success: bool, scope: Option<string>, since: int)
    ensures var s' := Recorded(s, ip, success);
      CountFailures(s'.table, scope, since) - CountFailures(s.table, scope, since)
      == CountFailures(s'.log, scope, since) - CountFailures(s.log, scope, since)
  {
    CountSnoc(s.table, Attempt(ip, success, s.now), scope, since);
    CountSnoc(s.log, Attempt(ip, success, s.now), scope, since);
  }

  lemma ShowsLogAfter(s: State, a: Action, limits: Limits)
    requires TableShowsLog(s, limits)
    requires a.Purge? ==> a.retention >= limits.perIpWindow && a.retention >= limits.globalWindow
    ensures TableShowsLog(After(s, a, limits), limits)
  {
    var s' := After(s, a, limits);
    hide CountFailures, CheckVerdict, Purged;
    forall scope: Option<string>, since: int
      | since >= s'.now - limits.perIpWindow || since >= s'.now - limits.globalWindow
      ensures CountFailures(s'.table, scope, since) == CountFailures(s'.log, scope, since)
    {
      match a {
        case Purge(retention) => PurgeKeepsCount(s.table, s.now - retention, scope, since);
        case RecordFailure(ip) => RecordingCountsTwice(s, ip, false, scope, since);
        case RecordSuccess(ip) => RecordingCountsTwice(s, ip, true, scope, since);
        case _ =>
      }
    }
  }

  lemma {:induction false} RunShowsLog(actions: seq<Action>, limits: Limits, scope: Option<string>, k: nat)
    requires Legal(actions, limits, scope, k)
    ensures TableShowsLog(Run(actions, limits), limits)
  {
    if actions != [] {
      var n := |actions| - 1;
      LegalPrefix(actions, limits, scope, k, n);
      RunShowsLog(actions[..n], limits, scope, k);
      ShowsLogAfter(Run(actions[..n], limits), actions[n], limits);
    }
  }

  /** Whatever was purged along the way, a check answers as if nothing had ever been deleted. */
  lemma {:induction false} PurgeNeverChangesAVerdict(
    actions: seq<Action>, limits: Limits, scope: Option<string>, k: nat, ip: string)
    requires Legal(actions, limits, scope, k)
    ensures var s := Run(actions, limits);
      CheckVerdict(s.table, limits, ip, s.now) == CheckVerdict(s.log, limits, ip, s.now)
  {
    hide *;
    RunShowsLog(actions, limits, scope, k);
    SameVerdict(Run(actions, limits), limits, ip);
  }

  lemma SameVerdict(s: State, limits: Limits, ip: string)
    requires TableShowsLog(s, limits)
    ensures CheckVerdict(s.table, limits, ip, s.now) == CheckVerdict(s.log, limits, ip, s.now)
  {
    hide CountFailures, RetryAfter;
    var perIp, overall := s.now - limits.perIpWindow, s.now - limits.globalWindow;
    assert CountFailures(s.table, Some(ip), perIp) == CountFailures(s.log, Some(ip), perIp);
    assert CountFailures(s.table, None, overall) == CountFailures(s.log, None, overall);
  }

  function WithoutPurges(actions: seq<Action>): seq<Action> {
    if actions == [] then []
    else
      var a := actions[|actions| - 1];
      WithoutPurges(actions[..|actions| - 1]) + if a.Purge? then [] else [a]
  }

  /**
   Deleting every purge from a run leaves the same clock, log and requests in flight, so the same history of
   verdicts.
   */
  lemma {:induction false} PurgesCanBeDropped(actions: seq<Action>, limits: Limits, scope: Option<string>, k: nat)
    requires Legal(actions, limits, scope, k)
    ensures var s, plain := Run(actions, limits), Run(WithoutPurges(actions), limits);
      && plain.now == s.now && plain.log == s.log && plain.pending == s.pending
      && plain.table == plain.log
  {
    if actions != [] {
      var n := |actions| - 1;
      var a := actions[n];
      LegalPrefix(actions, limits, scope, k, n);
      PurgesCanBeDropped(actions[..n], limits, scope, k);
      var w := WithoutPurges(actions[..n]);
      if a.Purge? {
        assert w + [] == w;
      } else {
        assert (w + [a])[..|w|] == w;
        if a.CheckFor? {
          PurgeNeverChangesAVerdict(actions[..n], limits, scope, k, a.ip);
        }
      }
    }
  }

  // ---- the limit over every run ----

  /** The failures of the window [from, from + window] logged so far. */
  function Logged(s: State, limits: Limits, scope: Option<string>, from: int): nat {
    FailuresIn(s.log, scope, from, from + Window(limits, scope))
  }

  /**
   While a window is still open, its logged failures and the requests in flight together stay below the
   limit plus k; once it is over, its logged failures do.
   */
  predicate WithinLimit(s: State, limits: Limits, scope: Option<string>, k: nat, from: int) {
    Logged(s, limits, scope, from)
    + (if s.now <= from + Window(limits, scope) then InFlight(s, scope) else 0)
    <= if Limit(limits, scope) == 0 then 0 else Limit(limits, scope) - 1 + k
  }

  lemma {:induction false} AllowedIsBelowLimit(
    rows: seq<Attempt>, limits: Limits, ip: string, now: int, scope: Option<string>)
    requires CheckVerdict(rows, limits, ip, now) == Allowed
    requires scope.Some? ==> scope.value == ip
    ensures CountFailures(rows, scope, now - Window(limits, scope)) < Limit(limits, scope)
  {}

  /** Only a check can add to a window's budget, and a check that passes has just seen the window below the limit. */
  lemma CheckStaysWithinLimit(s: State, ip: string, limits: Limits, scope: Option<string>, k: nat, from: int)
    requires WithinLimit(s, limits, scope, k, from) && TableShowsLog(s, limits)
    requires InFlight(After(s, CheckFor(ip), limits), scope) <= k
    ensures WithinLimit(After(s, CheckFor(ip), limits), limits, scope, k, from)
  {
    var since := s.now - Window(limits, scope);
    if CheckVerdict(s.table, limits, ip, s.now) == Allowed && s.now <= from + Window(limits, scope)
      && (scope.Some? ==> scope.value == ip)
    {
      AllowedIsBelowLimit(s.table, limits, ip, s.now, scope);
      WindowWithinLookback(s.log, scope, since, from, from + Window(limits, scope));
      assert CountFailures(s.table, scope, since) == CountFailures(s.log, scope, since);
    }
  }

  lemma RecordStaysWithinLimit(
    s: State, ip: string, success: bool, limits: Limits, scope: Option<string>, k: nat, from: int)
    requires WithinLimit(s, limits, scope, k, from) && ip in s.pending
    ensures WithinLimit(Recorded(s, ip, success), limits, scope, k, from)
  {
    var row := Attempt(ip, success, s.now);
    FailuresSnoc(s.log, row, scope, from, from + Window(limits, scope));
    assert |s.pending - multiset{ip}| == |s.pending| - 1;
  }

  lemma StepStaysWithinLimit(s: State, a: Action, limits: Limits, scope: Option<string>, k: nat, from: int)
    requires WithinLimit(s, limits, scope, k, from) && TableShowsLog(s, limits)
    requires Enabled(s, a) && InFlight(After(s, a, limits), scope) <= k
    ensures WithinLimit(After(s, a, limits), limits, scope, k, from)
  {
    match a {
      case CheckFor(ip) => CheckStaysWithinLimit(s, ip, limits, scope, k, from);
      case RecordFailure(ip) => RecordStaysWithinLimit(s, ip, false, limits, scope, k, from);
      case RecordSuccess(ip) => RecordStaysWithinLimit(s, ip, true, limits, scope, k, from);
      case _ =>
    }
  }

  lemma {:induction false} RunStaysWithinLimit(
    actions: seq<Action>, limits: Limits, scope: Option<string>, k: nat, from: int)
    requires Legal(actions, limits, scope, k)
    ensures WithinLimit(Run(actions, limits), limits, scope, k, from)
  {
    if actions != [] {
      var n := |actions| - 1;
      LegalPrefix(actions, limits, scope, k, n);
      RunStaysWithinLimit(actions[..n], limits, scope, k, from);
      RunShowsLog(actions[..n], limits, scope, k);
      assert actions[..|actions|] == actions;
      assert InFlight(Run(actions[..|actions|], limits), scope) <= k;
      StepStaysWithinLimit(Run(actions[..n], limits), actions[n], limits, scope, k, from);
    }
  }

  /**
   Over every run with at most k requests of an IP in flight, each closed window of `perIpWindow` seconds
   holds at most perIpMax + k − 1 recorded failures of that IP; the same holds globally for scope None.
   With a limit of zero nothing is ever recorded.
   */
  lemma {:induction false} FailuresPerWindowAreBounded(
    actions: seq<Action>, limits: Limits, scope: Option<string>, k: nat, from: int)
    requires Legal(actions, limits, scope, k)
    ensures var failures := |MatchesIn(Run(actions, limits).log, scope, from, from + Window(limits, scope))|;
      failures <= if Limit(limits, scope) == 0 then 0 else Limit(limits, scope) + k - 1
  {
    FailuresAreMatches(Run(actions, limits).log, scope, from, from + Window(limits, scope));
    hide Run, Legal, FailuresIn, InFlight, MatchesIn;
    RunStaysWithinLimit(actions, limits, scope, k, from);
  }

  const TIGHT_LIMITS := Limits(1, 10, 60, 60)

  function TightRun(ip: string): (run: seq<Action>)
    ensures |run| == 4
  {
    [CheckFor(ip), CheckFor(ip), RecordFailure(ip), RecordFailure(ip)]
  }

  /** The state after the first i steps of that run. */
  function TightState(ip: string, i: nat): State {
    var fail := Attempt(ip, false, 0);
    var rows := if i < 3 then [] else if i == 3 then [fail] else [fail, fail];
    State(0, rows, rows, multiset{}[ip := if i <= 2 then i else if i == 3 then 1 else 0])
  }

  lemma {:induction false} TightStates(ip: string, i: nat)
    requires i <= 4
    ensures Run(TightRun(ip)[..i], TIGHT_LIMITS) == TightState(ip, i)
  {
    if i > 0 {
      TightStates(ip, i - 1);
      TightAfter(ip, i - 1);
      hide After, TightState, TightRun;
      assert TightRun(ip)[..i][..i - 1] == TightRun(ip)[..i - 1];
    }
  }

  lemma TightAfter(ip: string, i: nat)
    requires i < 4
    ensures After(TightState(ip, i), TightRun(ip)[i], TIGHT_LIMITS) == TightState(ip, i + 1)
  {
    var s, next := TightState(ip, i), TightState(ip, i + 1);
    if i < 2 {
      assert CheckVerdict([], TIGHT_LIMITS, ip, 0) == Allowed;
      hide CheckVerdict;
      assert s.pending + multiset{ip} == next.pending;
    } else {
      hide CheckVerdict;
      assert s.pending - multiset{ip} == next.pending;
      assert [] + [Attempt(ip, false, 0)] == [Attempt(ip, false, 0)];
    }
  }

  /** The bound is attained: with a limit of one and two requests in flight, two failures land in one window. */
  lemma BoundIsAttained(ip: string)
    ensures Legal(TightRun(ip), TIGHT_LIMITS, Some(ip), 2)
    ensures FailuresIn(Run(TightRun(ip), TIGHT_LIMITS).log, Some(ip), 0, 60) == 2 == TIGHT_LIMITS.perIpMax + 2 - 1
  {
    TightRunIsLegal(ip);
    TightStates(ip, 4);
    TwoFailures(Attempt(ip, false, 0), ip);
    assert TightState(ip, 4).log == [Attempt(ip, false, 0), Attempt(ip, false, 0)];
    hide Run, Legal, FailuresIn, TightState, TightRun;
    assert TightRun(ip)[..4] == TightRun(ip);
  }

  lemma TwoFailures(fail: Attempt, ip: string)
    requires InScope(fail, Some(ip)) && fail.at == 0
    ensures FailuresIn([fail, fail], Some(ip), 0, 60) == 2
  {
    assert FailuresIn([], Some(ip), 0, 60) == 0;
    hide FailuresIn;
    FailuresSnoc([], fail, Some(ip), 0, 60);
    FailuresSnoc([fail], fail, Some(ip), 0, 60);
    assert [] + [fail] == [fail] && [fail] + [fail] == [fail, fail];
  }

  lemma TightRunIsLegal(ip: string)
    ensures Legal(TightRun(ip), TIGHT_LIMITS, Some(ip), 2)
  {
    var run := TightRun(ip);
    forall i | 0 <= i <= 4 ensures Run(run[..i], TIGHT_LIMITS) == TightState(ip, i) {
      TightStates(ip, i);
    }
    hide Run, TightState, Enabled, InFlight;
    forall i | 0 <= i < 4 ensures Enabled(TightState(ip, i), run[i]) && !run[i].Purge? {
      TightStep(ip, i);
    }
    forall i | 0 <= i <= 4 ensures InFlight(TightState(ip, i), Some(ip)) <= 2 {
      TightInFlight(ip, i);
    }
  }

  lemma TightStep(ip: string, i: nat)
    requires i < 4
    ensures Enabled(TightState(ip, i), TightRun(ip)[i]) && !TightRun(ip)[i].Purge?
  {}

  lemma TightInFlight(ip: string, i: nat)
    requires i <= 4
    ensures InFlight(TightState(ip, i), Some(ip)) <= 2
  {}
}
