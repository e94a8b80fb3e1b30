/**
 Latest-entry-at-or-before lookups: the forward-scan price pointer shared by the chart and the value
 series, the seeded price window it runs on, and the batched FX lookup.
 */
module PriceLookup {
  import opened Common
  import opened Ordering

  /** One timestamped quotation: a price point or an FX snapshot. */
  datatype Quote = Quote(at: int, value: real)

  predicate ByAt(a: Quote, b: Quote) { a.at <= b.at }

  predicate Chronological(pts: seq<Quote>) { SortedBy(pts, ByAt) }

  /** The last entry at or before `ts`, read off the whole list. */
  function LatestAt(pts: seq<Quote>, ts: int): Option<real> {
    if pts == [] then None
    else if pts[|pts| - 1].at <= ts then Some(pts[|pts| - 1].value)
    else LatestAt(pts[..|pts| - 1], ts)
  }

  lemma {:induction false} LatestAtIndex(pts: seq<Quote>, ts: int, i: int)
    requires -1 <= i < |pts|
    requires i >= 0 ==> pts[i].at <= ts
    requires forall j | i < j < |pts| :: pts[j].at > ts
    ensures LatestAt(pts, ts) == if i < 0 then None else Some(pts[i].value)
  {
    if i < |pts| - 1 {
      LatestAtIndex(pts[..|pts| - 1], ts, i);
    }
  }

  /** The chosen entry is at or before `ts` and no later entry is. */
  lemma {:induction false} LatestAtSound(pts: seq<Quote>, ts: int)
    ensures LatestAt(pts, ts).None? <==> forall q | q in pts :: q.at > ts
    ensures Chronological(pts) && LatestAt(pts, ts).Some? ==>
      exists q :: q in pts && q.at <= ts && q.value == LatestAt(pts, ts).value
        && forall p | p in pts && p.at <= ts :: p.at <= q.at
  {
    if pts != [] {
      var init, last := pts[..|pts| - 1], pts[|pts| - 1];
      assert pts == init + [last];
      LatestAtSound(init, ts);
      if last.at <= ts {
        assert last in pts;
        if Chronological(pts) {
          forall p | p in pts && p.at <= ts ensures p.at <= last.at {
            var k :| 0 <= k < |pts| && pts[k] == p;
            assert k < |pts| - 1 ==> ByAt(pts[k], pts[|pts| - 1]);
          }
        }
      } else if Chronological(pts) && LatestAt(pts, ts).Some? {
        var q :| q in init && q.at <= ts && q.value == LatestAt(init, ts).value
          && forall p | p in init && p.at <= ts :: p.at <= q.at;
        assert q in pts;
      }
    }
  }

  /** Entries after `ts` are irrelevant. */
  lemma {:induction false} LatestAtIgnoresLater(pts: seq<Quote>, later: seq<Quote>, ts: int)
    requires forall q | q in later :: q.at > ts
    ensures LatestAt(pts + later, ts) == LatestAt(pts, ts)
  {
    if later == [] {
      assert pts + later == pts;
    } else {
      var n := |later| - 1;
      assert later[n] in later;
      assert (pts + later)[..|pts| + n] == pts + later[..n];
      LatestAtIgnoresLater(pts, later[..n], ts);
    }
  }

  /** A hit in the tail hides everything before it. */
  lemma {:induction false} LatestAtPrefersTail(pts: seq<Quote>, tail: seq<Quote>, ts: int)
    ensures LatestAt(pts + tail, ts) == if LatestAt(tail, ts).Some? then LatestAt(tail, ts) else LatestAt(pts, ts)
  {
    if tail == [] {
      assert pts + tail == pts;
    } else {
      var n := |tail| - 1;
      assert (pts + tail)[..|pts| + n] == pts + tail[..n];
      LatestAtPrefersTail(pts, tail[..n], ts);
    }
  }

  // ---- the forward-scan pointer ----

  type PriceIndex = map<int, seq<Quote>>

  /** The price of a symbol at `ts`; a symbol without points has none. */
  function PriceOf(index: PriceIndex, sym: int, ts: int): Option<real> {
    if sym in index then LatestAt(index[sym], ts) else None
  }

  predicate WellIndexed(index: PriceIndex) {
    forall s | s in index :: Chronological(index[s])
  }

  /** The pointer dictionary that one run of a scan threads through its lookups. */
  class PricePointers {
    var pointer: map<int, int>

    /** Every pointer rests on an entry that is not after `now`. */
    predicate Valid(index: PriceIndex, now: int)
      reads this
    {
      forall s | s in pointer ::
        && s in index
        && -1 <= pointer[s] < |index[s]|
        && (pointer[s] >= 0 ==> index[s][pointer[s]].at <= now)
    }

    constructor ()
      ensures pointer == map[]
    {
      pointer := map[];
    }

    lemma ValidAtStart(index: PriceIndex, now: int)
      requires pointer == map[]
      ensures Valid(index, now)
    {}

    lemma ValidLater(index: PriceIndex, now: int, later: int)
      requires Valid(index, now) && now <= later
      ensures Valid(index, later)
    {}

    /**
     Moves the pointer of one symbol forward and reads the price there. Whatever lookups came before, at
     times up to `ts`, the answer is the latest price at or before `ts`.
     */
    method PriceAt(sym: int, ts: int, index: PriceIndex) returns (price: Option<real>)
      requires WellIndexed(index) && Valid(index, ts)
      modifies this
      ensures Valid(index, ts)
      ensures price == PriceOf(index, sym, ts)
      ensures forall s | s != sym ::
        (s in pointer <==> s in old(pointer)) && (s in pointer ==> pointer[s] == old(pointer[s]))
    {
      if sym !in index || index[sym] == [] {
        return None;
      }
      var pts := index[sym];
      var ptr := if sym in pointer then pointer[sym] else -1;
      while ptr + 1 < |pts| && pts[ptr + 1].at <= ts
        invariant -1 <= ptr < |pts|
        invariant ptr >= 0 ==> pts[ptr].at <= ts
        decreases |pts| - ptr
      {
        ptr := ptr + 1;
      }
      pointer := pointer[sym := ptr];
      forall j | ptr < j < |pts| ensures pts[j].at > ts {
        assert j > ptr + 1 ==> ByAt(pts[ptr + 1], pts[j]);
      }
      LatestAtIndex(pts, ts, ptr);
      if ptr < 0 {
        return None;
      }
      return Some(pts[ptr].value);
    }
  }

  // ---- the price window: points since a date, seeded with the last earlier one ----

  function Before(pts: seq<Quote>, since: int): seq<Quote> {
    if pts == [] then []
    else
      var q := pts[|pts| - 1];
      Before(pts[..|pts| - 1], since) + (if q.at < since then [q] else [])
  }

  function Since(pts: seq<Quote>, since: int): seq<Quote> {
    if pts == [] then []
    else
      var q := pts[|pts| - 1];
      Since(pts[..|pts| - 1], since) + (if q.at >= since then [q] else [])
  }

  lemma {:induction false} AllBefore(pts: seq<Quote>, since: int)
    requires forall q | q in pts :: q.at < since
    ensures Before(pts, since) == pts && Since(pts, since) == []
  {
    if pts != [] {
      AllBefore(pts[..|pts| - 1], since);
      assert pts == pts[..|pts| - 1] + [pts[|pts| - 1]];
    }
  }

  lemma {:induction false} SplitAtSince(pts: seq<Quote>, since: int)
    requires Chronological(pts)
    ensures Before(pts, since) + Since(pts, since) == pts
    ensures forall q | q in Since(pts, since) :: q.at >= since
    ensures forall q | q in Before(pts, since) :: q.at < since
  {
    if pts != [] {
      var init, q := pts[..|pts| - 1], pts[|pts| - 1];
      assert pts == init + [q];
      if q.at < since {
        forall p | p in pts ensures p.at < since {
          var k :| 0 <= k < |pts| && pts[k] == p;
          assert k < |pts| - 1 ==> ByAt(pts[k], pts[|pts| - 1]);
        }
        AllBefore(pts, since);
      } else {
        SplitAtSince(init, since);
      }
    }
  }

  lemma PartsChronological(rows: seq<Quote>, pre: seq<Quote>, post: seq<Quote>)
    requires Chronological(rows) && rows == pre + post
    ensures Chronological(pre) && Chronological(post)
  {
    forall i, j | 0 <= i < j < |pre| ensures ByAt(pre[i], pre[j]) {
      assert ByAt(rows[i], rows[j]);
    }
    forall i, j | 0 <= i < j < |post| ensures ByAt(post[i], post[j]) {
      assert ByAt(rows[|pre| + i], rows[|pre| + j]);
    }
  }

  /** The seed: among the entries of the latest time the first, as only a later time replaces it. */
  function Seed(pts: seq<Quote>): Option<Quote> {
    if pts == [] then None
    else
      var s, q := Seed(pts[..|pts| - 1]), pts[|pts| - 1];
      if s == None || q.at > s.value.at then Some(q) else s
  }

  /** The window: the seed of the earlier points, then the points since. */
  function Window(rows: seq<Quote>, since: int): seq<Quote> {
    var seed := Seed(Before(rows, since));
    (if seed.Some? then [seed.value] else []) + Since(rows, since)
  }

  lemma {:induction false} SeedSound(pts: seq<Quote>)
    requires Chronological(pts)
    ensures Seed(pts) == None <==> pts == []
    ensures pts != [] ==> Seed(pts).value in pts && Seed(pts).value.at == pts[|pts| - 1].at
  {
    if pts != [] {
      var init, last := pts[..|pts| - 1], pts[|pts| - 1];
      SeedSound(init);
      assert pts == init + [last];
      if init != [] {
        assert ByAt(pts[|pts| - 2], last);
      }
    }
  }

  /** The value belongs to one of the entries that no other eligible entry is later than. */
  ghost predicate FromLatest(rows: seq<Quote>, ts: int, v: Option<real>) {
    if v == None then forall q | q in rows :: q.at > ts
    else exists q :: q in rows && q.at <= ts && q.value == v.value && forall p | p in rows && p.at <= ts :: p.at <= q.at
  }

  /** From `since` on the window answers as the whole list, up to the seed's choice among points of one time. */
  lemma {:induction false} WindowLookup(rows: seq<Quote>, since: int, ts: int)
    requires Chronological(rows) && since <= ts
    ensures LatestAt(Window(rows, since), ts)
      == if LatestAt(Since(rows, since), ts).Some? then LatestAt(rows, ts)
         else if Before(rows, since) == [] then None else Some(Seed(Before(rows, since)).value.value)
  {
    var pre, post, seed := Before(rows, since), Since(rows, since), Seed(Before(rows, since));
    SplitAtSince(rows, since);
    PartsChronological(rows, pre, post);
    SeedSound(pre);
    hide Before, Since, Seed;
    var head := if seed.Some? then [seed.value] else [];
    LatestAtPrefersTail(head, post, ts);
    LatestAtPrefersTail(pre, post, ts);
    assert pre + post == rows;
    if seed.Some? {
      assert seed.value.at < since;
      assert [seed.value][..0] == [];
    }
  }

  lemma WindowShape(rows: seq<Quote>, since: int)
    requires Chronological(rows)
    ensures Chronological(Window(rows, since)) && SortBy(Window(rows, since), ByAt) == Window(rows, since)
    ensures forall q | q in Window(rows, since) :: q in rows
  {
    var pre, post, seed := Before(rows, since), Since(rows, since), Seed(Before(rows, since));
    SplitAtSince(rows, since);
    PartsChronological(rows, pre, post);
    SeedSound(pre);
    var window := Window(rows, since);
    var n := if seed.Some? then 1 else 0;
    hide Before, Since, Seed, SortBy;
    forall i, j | 0 <= i < j < |window| ensures ByAt(window[i], window[j]) {
      assert window[j] == post[j - n] && post[j - n] in post;
      if i >= n {
        assert rows[|pre| + i - n] == post[i - n] && rows[|pre| + j - n] == post[j - n];
        assert ByAt(rows[|pre| + i - n], rows[|pre| + j - n]);
      } else {
        assert seed.value in pre;
      }
    }
    forall q | q in window ensures q in rows {
      assert q in pre || q in post;
    }
    SortByFixpoint(window, ByAt);
  }

  lemma {:induction false} LatestIsFromLatest(rows: seq<Quote>, ts: int)
    requires Chronological(rows)
    ensures FromLatest(rows, ts, LatestAt(rows, ts))
  {
    LatestAtSound(rows, ts);
    hide LatestAt;
  }

  lemma {:induction false} SeedIsFromLatest(rows: seq<Quote>, pre: seq<Quote>, post: seq<Quote>, ts: int)
    requires Chronological(pre) && rows == pre + post && pre != [] && pre[|pre| - 1].at <= ts
    requires forall q | q in post :: q.at > ts
    ensures Seed(pre).Some? && FromLatest(rows, ts, Some(Seed(pre).value.value))
  {
    SeedSound(pre);
    hide Seed;
    var seed := Seed(pre).value;
    forall p | p in rows && p.at <= ts ensures p.at <= seed.at {
      assert p in pre;
      var k :| 0 <= k < |pre| && pre[k] == p;
      assert k < |pre| - 1 ==> ByAt(pre[k], pre[|pre| - 1]);
    }
    assert seed in rows;
  }

  /** Every later lookup in the window reads one of the latest eligible points. */
  lemma {:induction false} WindowIsFromLatest(rows: seq<Quote>, since: int, ts: int)
    requires Chronological(rows) && since <= ts
    ensures FromLatest(rows, ts, LatestAt(Window(rows, since), ts))
  {
    var pre, post := Before(rows, since), Since(rows, since);
    WindowLookup(rows, since, ts);
    SplitAtSince(rows, since);
    PartsChronological(rows, pre, post);
    LatestAtSound(post, ts);
    LatestIsFromLatest(rows, ts);
    hide Before, Since, LatestAt, Window, FromLatest, Chronological;
    if LatestAt(post, ts) == None {
      if pre != [] {
        assert pre[|pre| - 1] in pre;
        SeedIsFromLatest(rows, pre, post, ts);
      } else {
        assert pre + post == post;
      }
    }
  }

  /** The latest earlier points agree on the price, or a point exactly at `since` takes over at once. */
  predicate SeedSettled(rows: seq<Quote>, since: int) {
    var pre, seed := Before(rows, since), Seed(Before(rows, since));
    pre == [] || seed == None || seed.value.value == pre[|pre| - 1].value || exists q :: q in rows && q.at == since
  }

  /** From `since` on the whole list answers from the later points, else with the last earlier one. */
  lemma {:induction false} ListLookup(rows: seq<Quote>, since: int, ts: int)
    requires Chronological(rows) && since <= ts
    ensures var pre, post := Before(rows, since), Since(rows, since);
      LatestAt(rows, ts) == if LatestAt(post, ts).Some? then LatestAt(post, ts)
        else if pre == [] then None else Some(pre[|pre| - 1].value)
  {
    var pre, post := Before(rows, since), Since(rows, since);
    SplitAtSince(rows, since);
    hide Before, Since;
    LatestAtPrefersTail(pre, post, ts);
    if pre != [] { assert pre[|pre| - 1] in pre; }
  }

  /** The points since answer at `since` exactly when one of them is there, and then for good. */
  lemma {:induction false} SinceAnswers(rows: seq<Quote>, since: int)
    requires Chronological(rows)
    ensures LatestAt(Since(rows, since), since).Some? <==> exists q :: q in rows && q.at == since
    ensures LatestAt(Since(rows, since), since).Some? ==>
      forall ts | ts >= since :: LatestAt(Since(rows, since), ts).Some?
  {
    var pre, post := Before(rows, since), Since(rows, since);
    SplitAtSince(rows, since);
    hide Before, Since, LatestAt;
    assert rows == pre + post;
    forall ts ensures LatestAt(post, ts).Some? <==> exists q :: q in post && q.at <= ts {
      LatestAtSound(post, ts);
    }
    if LatestAt(post, since).Some? {
      var q :| q in post && q.at <= since;
      assert q in rows;
      forall ts | ts >= since ensures LatestAt(post, ts).Some? {
        assert q.at <= ts;
      }
    }
    if q :| q in rows && q.at == since {
      assert q in post;
    }
  }

  /** The window answers every lookup from `since` on exactly like the whole list if and only if its seed is settled. */
  lemma {:induction false} WindowIsExactIff(rows: seq<Quote>, since: int)
    requires Chronological(rows)
    ensures (forall ts | ts >= since :: LatestAt(Window(rows, since), ts) == LatestAt(rows, ts))
      <==> SeedSettled(rows, since)
  {
    var pre, post, seed := Before(rows, since), Since(rows, since), Seed(Before(rows, since));
    SeedSound(pre) by { SplitAtSince(rows, since); PartsChronological(rows, pre, post); }
    SinceAnswers(rows, since);
    hide Before, Since, Seed, LatestAt, Window, Chronological;
    forall ts | ts >= since
      ensures LatestAt(Window(rows, since), ts) == LatestAt(rows, ts)
        <==> LatestAt(post, ts).Some? || pre == [] || seed.value.value == pre[|pre| - 1].value
    {
      ListLookup(rows, since, ts);
      WindowLookup(rows, since, ts);
    }
    if pre != [] && seed.value.value != pre[|pre| - 1].value && LatestAt(post, since) == None {
      assert LatestAt(Window(rows, since), since) != LatestAt(rows, since);
    }
  }

  /** An unsettled seed shows at the window's start: both lookups answer there, with different prices. */
  lemma {:induction false} UnsettledDiffers(rows: seq<Quote>, since: int)
    requires Chronological(rows) && !SeedSettled(rows, since)
    ensures LatestAt(Window(rows, since), since).Some? && LatestAt(rows, since).Some?
    ensures LatestAt(Window(rows, since), since) != LatestAt(rows, since)
  {
    SinceAnswers(rows, since);
    ListLookup(rows, since, since);
    WindowLookup(rows, since, since);
    hide Before, Since, Seed, LatestAt, Window, Chronological;
  }

  /** Of two stored points of one time the seed keeps the first, the whole list reads the last. */
  lemma SeedTakesTheFirst()
    ensures var rows := [Quote(0, 1.0), Quote(0, 2.0)];
      && Chronological(rows)
      && LatestAt(rows, 1) == Some(2.0)
      && LatestAt(Window(rows, 1), 1) == Some(1.0)
  {
    var first, last := Quote(0, 1.0), Quote(0, 2.0);
    var rows := [first, last];
    AllBefore(rows, 1);
    assert rows[..1] == [first] && [first][..0] == [];
    assert Seed([first]) == Some(first);
    assert Window(rows, 1) == [first] + [];
  }

  /**
   One symbol's list from the repository: rows arrive in time order, rows before `since` are reduced to
   one of the latest time, and that seed is put in front of the rest.
   */
  method ListPricePoints(rows: seq<Quote>, since: int) returns (window: seq<Quote>)
    requires Chronological(rows)
    ensures window == Window(rows, since)
    ensures Chronological(window) && forall q | q in window :: q in rows
    ensures forall ts | ts >= since :: FromLatest(rows, ts, LatestAt(window, ts))
    ensures (forall ts | ts >= since :: LatestAt(window, ts) == LatestAt(rows, ts)) <==> SeedSettled(rows, since)
  {
    hide Chronological, LatestAt, FromLatest, SeedSettled, SortBy;
    var grouped: seq<Quote> := [];
    var latestBefore: Option<Quote> := None;
    for i := 0 to |rows|
      invariant grouped == Since(rows[..i], since)
      invariant latestBefore == Seed(Before(rows[..i], since))
    {
      var q := rows[i];
      SeedOfNext(rows, since, i);
      if q.at < since {
        if latestBefore == None || q.at > latestBefore.value.at {
          latestBefore := Some(q);
        }
      } else {
        grouped := grouped + [q];
      }
    }
    assert rows[..|rows|] == rows;
    window := (if latestBefore.Some? then [latestBefore.value] else []) + grouped;
    WindowShape(rows, since);
    window := SortBy(window, ByAt);
    forall ts | ts >= since ensures FromLatest(rows, ts, LatestAt(window, ts)) {
      WindowIsFromLatest(rows, since, ts);
    }
    WindowIsExactIff(rows, since);
  }

  lemma {:induction false} SeedOfNext(rows: seq<Quote>, since: int, i: nat)
    requires i < |rows|
    ensures Since(rows[..i + 1], since) == Since(rows[..i], since) + if rows[i].at >= since then [rows[i]] else []
    ensures var s := Seed(Before(rows[..i], since));
      Seed(Before(rows[..i + 1], since))
      == if rows[i].at < since && (s == None || rows[i].at > s.value.at) then Some(rows[i]) else s
  {
    assert rows[..i + 1][..i] == rows[..i];
    var pre := Before(rows[..i], since);
    assert pre + [] == pre && (pre + [rows[i]])[..|pre|] == pre;
  }

  // ---- batched FX snapshots ----

  /** SELECT … WHERE recorded_at <= at ORDER BY recorded_at DESC LIMIT 1. */
  function RateAt(snaps: seq<Quote>, at: int): Option<real> { LatestAt(snaps, at) }

  function Greatest(ats: seq<int>): int
    requires ats != []
  {
    if |ats| == 1 then ats[0]
    else
      var g := Greatest(ats[..|ats| - 1]);
      if ats[|ats| - 1] > g then ats[|ats| - 1] else g
  }

  lemma {:induction false} GreatestBounds(ats: seq<int>)
    requires ats != []
    ensures forall a | a in ats :: a <= Greatest(ats)
  {
    if |ats| > 1 {
      GreatestBounds(ats[..|ats| - 1]);
      assert ats == ats[..|ats| - 1] + [ats[|ats| - 1]];
    }
  }

  lemma ScanStopsAtLatest(snaps: seq<Quote>, maxAt: int, at: int, j: nat)
    requires Chronological(snaps) && at <= maxAt && j <= |Before(snaps, maxAt + 1)|
    requires j > 0 ==> Before(snaps, maxAt + 1)[j - 1].at <= at
    requires j < |Before(snaps, maxAt + 1)| ==> Before(snaps, maxAt + 1)[j].at > at
    ensures RateAt(snaps, at) == if j == 0 then None else Some(Before(snaps, maxAt + 1)[j - 1].value)
  {
    var allSnaps, later := Before(snaps, maxAt + 1), Since(snaps, maxAt + 1);
    SplitAtSince(snaps, maxAt + 1);
    forall k | j - 1 < k < |allSnaps| ensures allSnaps[k].at > at {
      assert snaps[k] == allSnaps[k] && snaps[j] == allSnaps[j];
      assert j < k ==> ByAt(snaps[j], snaps[k]);
    }
    LatestAtIndex(allSnaps, at, j - 1);
    LatestAtIgnoresLater(allSnaps, later, at);
  }

  /** The inner scan over the fetched snapshots, stopped at the first later one. */
  method LastNotAfter(ghost snaps: seq<Quote>, allSnaps: seq<Quote>, ghost maxAt: int, at: int)
    returns (latest: Option<real>)
    requires Chronological(snaps) && allSnaps == Before(snaps, maxAt + 1) && at <= maxAt
    ensures latest == RateAt(snaps, at)
  {
    latest := None;
    var j := 0;
    while j < |allSnaps| && allSnaps[j].at <= at
      invariant j <= |allSnaps|
      invariant j == 0 ==> latest == None
      invariant j > 0 ==> allSnaps[j - 1].at <= at && latest == Some(allSnaps[j - 1].value)
    {
      latest := Some(allSnaps[j].value);
      j := j + 1;
    }
    ScanStopsAtLatest(snaps, maxAt, at, j);
  }

  /** One query for many timestamps answers each exactly as its own query would. */
  method RatesAtBatch(snaps: seq<Quote>, ats: seq<int>) returns (resolved: map<int, Option<real>>)
    requires Chronological(snaps)
    ensures resolved.Keys == set a | a in ats
    ensures forall a | a in resolved :: resolved[a] == RateAt(snaps, a)
  {
    resolved := map[];
    if ats == [] {
      return;
    }
    var maxAt := Greatest(ats);
    GreatestBounds(ats);
    var allSnaps := Before(snaps, maxAt + 1);
    SplitAtSince(snaps, maxAt + 1);
    for i := 0 to |ats|
      invariant resolved.Keys == set a | a in ats[..i]
      invariant forall a | a in resolved :: resolved[a] == RateAt(snaps, a)
    {
      var at := ats[i];
      assert at in ats;
      var latest := LastNotAfter(snaps, allSnaps, maxAt, at);
      resolved := resolved[at := latest];
      assert ats[..i + 1] == ats[..i] + [at];
    }
    assert ats[..|ats|] == ats;
  }
}
