/**
 The time-weighted return: sub-periods cut at every cashflow, chained. Composed with the cashflows and the
 value series it measures the market and not the trading.
 */
module TimeWeightedReturn {
  import opened Common
  import opened Ordering
  import opened Ledger
  import opened PriceLookup
  import opened ValueSeries

  // ---- the chained return over arbitrary inputs ----

  predicate ByDate(a: Cashflow, b: Cashflow) { a.date <= b.date }

  /** The net flow dated exactly ts. */
  function NetFlow(cfs: seq<Cashflow>, ts: int): real {
    if cfs == [] then 0.0
    else NetFlow(cfs[..|cfs| - 1], ts) + if cfs[|cfs| - 1].date == ts then cfs[|cfs| - 1].amount else 0.0
  }

  /** The latest sample at or before ts, 0 if there is none. */
  function ValueOn(series: seq<ValuePoint>, ts: int): real {
    var v := LatestAt(series, ts);
    if v.Some? then v.value else 0.0
  }

  function FlowDates(cfs: seq<Cashflow>, start: int, end: int): set<int> {
    set c | c in cfs && start < c.date <= end :: c.date
  }

  /** Start, end and every flow date between them, ascending and without repeats. */
  function Boundaries(cfs: seq<Cashflow>, start: int, end: int): seq<int> {
    SortedSet({start, end} + FlowDates(cfs, start, end))
  }

  /** Value before the flow at the end of a sub-period, over the value after the flow at its start. */
  function Factor(vStart: real, vEnd: real, flow: real): real {
    if vStart == 0.0 then 0.0 else (vEnd + flow) / vStart
  }

  /** The product of the sub-period factors. */
  function Growth(b: seq<int>, series: seq<ValuePoint>, cfs: seq<Cashflow>): real {
    if |b| < 2 then 1.0
    else
      var n := |b| - 1;
      Growth(b[..n], series, cfs) * Factor(ValueOn(series, b[n - 1]), ValueOn(series, b[n]), NetFlow(cfs, b[n]))
  }

  predicate WorthAt(series: seq<ValuePoint>, ts: int) { ValueOn(series, ts) > 0.0 }

  /** Zero for a single instant; None when the value is not positive at some boundary, the last one included. */
  function Chained(b: seq<int>, series: seq<ValuePoint>, cfs: seq<Cashflow>): Option<real> {
    if |b| < 2 then Some(0.0)
    else if forall ts | ts in b :: WorthAt(series, ts) then Some(Growth(b, series, cfs) - 1.0)
    else None
  }

  /** The return between the first and the last sample; None without samples. */
  function Twr(series: seq<ValuePoint>, cfs: seq<Cashflow>): Option<real> {
    if series == [] then None else Chained(Boundaries(cfs, series[0].at, series[|series| - 1].at), series, cfs)
  }

  method ValueScanAt(sortedSeries: seq<ValuePoint>, ts: int) returns (candidate: real)
    requires Chronological(sortedSeries)
    ensures candidate == ValueOn(sortedSeries, ts)
  {
    candidate := 0.0;
    var i := 0;
    while i < |sortedSeries| && sortedSeries[i].at <= ts
      invariant i <= |sortedSeries|
      invariant i == 0 ==> candidate == 0.0
      invariant i > 0 ==> sortedSeries[i - 1].at <= ts && candidate == sortedSeries[i - 1].value
    {
      candidate := sortedSeries[i].value;
      i := i + 1;
    }
    forall j | i - 1 < j < |sortedSeries| ensures sortedSeries[j].at > ts {
      assert i < j ==> ByAt(sortedSeries[i], sortedSeries[j]);
    }
    LatestAtIndex(sortedSeries, ts, i - 1);
  }

  method GroupFlows(cfs: seq<Cashflow>) returns (byTs: map<int, real>)
    ensures forall ts :: ts in byTs <==> exists i :: 0 <= i < |cfs| && cfs[i].date == ts
    ensures forall ts | ts in byTs :: byTs[ts] == NetFlow(cfs, ts)
    ensures forall ts | ts !in byTs :: NetFlow(cfs, ts) == 0.0
  {
    byTs := map[];
    for i := 0 to |cfs|
      invariant forall ts :: ts in byTs <==> exists j :: 0 <= j < i && cfs[j].date == ts
      invariant forall ts | ts in byTs :: byTs[ts] == NetFlow(cfs[..i], ts)
      invariant forall ts | ts !in byTs :: NetFlow(cfs[..i], ts) == 0.0
    {
      var cf := cfs[i];
      assert cfs[..i + 1][..i] == cfs[..i];
      byTs := byTs[cf.date := (if cf.date in byTs then byTs[cf.date] else 0.0) + cf.amount];
    }
    assert cfs[..|cfs|] == cfs;
  }

  /** Drops repeats from a list that never steps back. */
  method Dedupe(raw: seq<int>) returns (boundaries: seq<int>)
    requires Rising(raw)
    ensures Ascending(boundaries) && forall x :: x in boundaries <==> x in raw
  {
    var seen: set<int> := {};
    boundaries := [];
    for i := 0 to |raw|
      invariant forall x :: x in seen <==> x in raw[..i]
      invariant forall x :: x in seen <==> x in boundaries
      invariant Ascending(boundaries)
    {
      assert raw[..i + 1] == raw[..i] + [raw[i]];
      if raw[i] !in seen {
        forall k | 0 <= k < |boundaries| ensures boundaries[k] < raw[i] {
          assert boundaries[k] in boundaries && boundaries[k] in raw[..i];
          var j :| 0 <= j < i && raw[j] == boundaries[k];
          assert raw[j] <= raw[i];
        }
        seen := seen + {raw[i]};
        boundaries := boundaries + [raw[i]];
      }
    }
    assert raw[..|raw|] == raw;
  }

  method ComputeBoundaries(byTs: map<int, real>, start: int, end: int) returns (boundaries: seq<int>)
    requires start <= end
    ensures boundaries == SortedSet({start, end} + (set ts | ts in byTs && start < ts <= end))
  {
    var inner := SortedSet(set ts | ts in byTs && start < ts <= end);
    var raw := [start] + inner + [end];
    forall i, j | 0 <= i < j < |raw| ensures raw[i] <= raw[j] {
      forall k | 0 <= k < |inner| ensures start < inner[k] <= end {
        assert inner[k] in inner;
      }
    }
    boundaries := Dedupe(raw);
    AscendingUnique(boundaries, SortedSet({start, end} + (set ts | ts in byTs && start < ts <= end)));
  }

  /** The chained return of any series and any flows. */
  method ComputeTwr(valueSeries: seq<ValuePoint>, cashflows: seq<Cashflow>) returns (twr: Option<real>)
    ensures twr == Twr(SortBy(valueSeries, ByAt), SortBy(cashflows, ByDate))
  {
    var series, cfs := SortBy(valueSeries, ByAt), SortBy(cashflows, ByDate);
    SortByCorrect(valueSeries, ByAt);
    SameLength(series, valueSeries);
    if valueSeries == [] {
      return None;
    }
    var startTs, endTs := series[0].at, series[|series| - 1].at;
    assert |series| > 1 ==> ByAt(series[0], series[|series| - 1]);
    var byTs := GroupFlows(cfs);
    var b := ComputeBoundaries(byTs, startTs, endTs);
    BoundariesAre(byTs, cfs, startTs, endTs);
    BoundariesNotEmpty(cfs, startTs, endTs);
    TwrOfChain(series, cfs);
    hide *;
    twr := ChainReturns(series, cfs, byTs, b);
  }

  lemma BoundariesAre(byTs: map<int, real>, cfs: seq<Cashflow>, start: int, end: int)
    requires forall ts :: ts in byTs <==> exists i :: 0 <= i < |cfs| && cfs[i].date == ts
    ensures SortedSet({start, end} + (set ts | ts in byTs && start < ts <= end)) == Boundaries(cfs, start, end)
  {
    var dates := set ts | ts in byTs && start < ts <= end;
    forall ts | ts in dates ensures ts in FlowDates(cfs, start, end) {
      var i :| 0 <= i < |cfs| && cfs[i].date == ts;
      assert cfs[i] in cfs;
    }
    forall ts | ts in FlowDates(cfs, start, end) ensures ts in dates {
      var c :| c in cfs && c.date == ts;
      var i :| 0 <= i < |cfs| && cfs[i] == c;
      assert cfs[i].date == ts;
    }
    assert dates == FlowDates(cfs, start, end);
  }

  lemma BoundariesNotEmpty(cfs: seq<Cashflow>, start: int, end: int)
    ensures Boundaries(cfs, start, end) != []
  {
    assert start in Boundaries(cfs, start, end);
  }

  lemma TwrOfChain(series: seq<ValuePoint>, cfs: seq<Cashflow>)
    requires series != []
    ensures Twr(series, cfs) == Chained(Boundaries(cfs, series[0].at, series[|series| - 1].at), series, cfs)
  {}

  lemma {:induction false} ChainedCases(b: seq<int>, series: seq<ValuePoint>, cfs: seq<Cashflow>)
    requires |b| >= 2
    ensures Chained(b, series, cfs).Some? <==> forall ts | ts in b :: WorthAt(series, ts)
    ensures Chained(b, series, cfs).Some? ==> Chained(b, series, cfs).value == Growth(b, series, cfs) - 1.0
  {}

  method ChainReturns(series: seq<ValuePoint>, ghost cfs: seq<Cashflow>, byTs: map<int, real>, b: seq<int>)
    returns (twr: Option<real>)
    requires Chronological(series) && b != []
    requires forall ts | ts in byTs :: byTs[ts] == NetFlow(cfs, ts)
    requires forall ts | ts !in byTs :: NetFlow(cfs, ts) == 0.0
    ensures twr == Chained(b, series, cfs)
  {
    hide ValueOn, NetFlow, Factor, Growth;
    if |b| < 2 {
      return Some(0.0);
    }
    var vStart := ValueScanAt(series, b[0]);
    if vStart <= 0.0 {
      assert b[0] in b && !WorthAt(series, b[0]);
      return None;
    }
    var cumulative := 1.0;
    GrowthOfOne(b[..1], series, cfs);
    for i := 1 to |b|
      invariant vStart == ValueOn(series, b[i - 1])
      invariant forall k | 0 <= k < i :: WorthAt(series, b[k])
      invariant cumulative == Growth(b[..i], series, cfs)
    {
      var curTs := b[i];
      var netCf := if curTs in byTs then byTs[curTs] else 0.0;
      var vPost := ValueScanAt(series, curTs);
      var vBefore := vPost + netCf;
      var r := vBefore / vStart - 1.0;
      FactorIs(vStart, vPost, netCf, vBefore, 1.0 + r);
      GrowthStep(b, i, series, cfs);
      SameProduct(cumulative, 1.0 + r, Growth(b[..i], series, cfs), Factor(vStart, vPost, netCf));
      cumulative := cumulative * (1.0 + r);
      vStart := vPost;
      if vStart <= 0.0 {
        assert curTs in b && !WorthAt(series, curTs);
        return None;
      }
    }
    assert b[..|b|] == b;
    twr := Some(cumulative - 1.0);
  }

  lemma FactorIs(vStart: real, vEnd: real, flow: real, vBefore: real, factor: real)
    requires vStart > 0.0 && vBefore == vEnd + flow && factor == 1.0 + (vBefore / vStart - 1.0)
    ensures factor == Factor(vStart, vEnd, flow)
  {
    assert vBefore / vStart == (vEnd + flow) / vStart;
  }

  lemma {:induction false} GrowthOfOne(b: seq<int>, series: seq<ValuePoint>, cfs: seq<Cashflow>)
    requires |b| == 1
    ensures Growth(b, series, cfs) == 1.0
  {}

  lemma {:induction false} GrowthStep(b: seq<int>, i: nat, series: seq<ValuePoint>, cfs: seq<Cashflow>)
    requires 1 <= i < |b|
    ensures Growth(b[..i + 1], series, cfs)
      == Growth(b[..i], series, cfs) * Factor(ValueOn(series, b[i - 1]), ValueOn(series, b[i]), NetFlow(cfs, b[i]))
  {
    hide Factor, ValueOn, NetFlow;
    assert b[..i + 1][..i] == b[..i];
  }

  // ---- trading at the series price moves no value ----

  /** The trade is made at the price the series shows at that instant, in a currency that can be converted. */
  predicate AtSeriesPrice(m: Market, t: Tx) {
    PriceOf(m.index, t.asset, t.at) == Some(t.price) && FxKnown(m, t.asset, t.at)
  }

  /** What a trade moves at a price: positive for a BUY, negative for a SELL. */
  function TradeValue(t: Tx, price: real): real { Signed(t) * price }

  lemma ShareMoves(h: real, t: Tx, price: real)
    requires h >= 0.0 && h + Signed(t) >= 0.0
    ensures Share(h + Signed(t), Some(price)) == Share(h, Some(price)) + TradeValue(t, price)
  {
    var d := Signed(t);
    hide Signed;
    SumTimes(h + d, h, d, price);
  }

  /** One covered trade changes the basket's value by its quantity at the basket's own price. */
  lemma {:induction false} BasketStep(u: seq<Tx>, t: Tx, m: Market, at: int, price: real)
    requires t.qty > 0.0 && (t.side == Sell ==> t.qty <= Held(Only(u, t.asset)))
    requires Priced(m, t.asset, at) == Some(price)
    ensures Basket(u + [t], m, at) == Basket(u, m, at) + TradeValue(t, price)
  {
    hide *;
    BasketMoves(u, t, m, at);
    ShareMoves(Held(Only(u, t.asset)), t, price);
  }

  lemma {:induction false} BasketMoves(u: seq<Tx>, t: Tx, m: Market, at: int)
    requires t.qty > 0.0 && (t.side == Sell ==> t.qty <= Held(Only(u, t.asset)))
    ensures var h, price := Held(Only(u, t.asset)), Priced(m, t.asset, at);
      && h >= 0.0 && h + Signed(t) >= 0.0
      && Basket(u + [t], m, at) == Basket(u, m, at) + (Share(h + Signed(t), price) - Share(h, price))
  {
    hide *;
    var h, price := Held(Only(u, t.asset)), Priced(m, t.asset, at);
    SharesStep(u, t, m, at);
    TotalShift(BasketShares(u, m, at), BasketShares(u + [t], m, at), t.asset,
               Share(h, price), Share(h + Signed(t), price));
    BasketIsTotal(u, m, at);
    BasketIsTotal(u + [t], m, at);
  }

  lemma {:induction false} TotalShift(before: map<int, real>, after: map<int, real>, k: int, was: real, now: real)
    requires after == before[k := now] && was == if k in before then before[k] else 0.0
    ensures Total(after) == Total(before) + (now - was)
  {
    hide *;
    TotalUpdate(before, k, now);
  }

  lemma BasketIsTotal(u: seq<Tx>, m: Market, at: int)
    ensures Basket(u, m, at) == Total(BasketShares(u, m, at))
  {
  }

  lemma {:induction false} SharesStep(u: seq<Tx>, t: Tx, m: Market, at: int)
    requires t.qty > 0.0 && (t.side == Sell ==> t.qty <= Held(Only(u, t.asset)))
    ensures var before, h := BasketShares(u, m, at), Held(Only(u, t.asset));
      && h >= 0.0 && h + Signed(t) >= 0.0
      && BasketShares(u + [t], m, at) == before[t.asset := Share(h + Signed(t), Priced(m, t.asset, at))]
      && (if t.asset in before then before[t.asset] else 0.0) == Share(h, Priced(m, t.asset, at))
  {
    hide *;
    HeldMoves(Only(u, t.asset), t);
    SharesExtend(u, t, m, at);
    ShareBefore(u, m, t.asset, at);
  }

  lemma {:induction false} SharesExtend(u: seq<Tx>, t: Tx, m: Market, at: int)
    ensures BasketShares(u + [t], m, at)
      == BasketShares(u, m, at)[t.asset := Share(Held(Only(u, t.asset) + [t]), Priced(m, t.asset, at))]
  {
    OnlyCases(u, t);
    hide Held, Only, Share, Priced, Assets;
  }

  lemma {:induction false} ShareBefore(u: seq<Tx>, m: Market, sym: int, at: int)
    ensures var shares := BasketShares(u, m, at);
      (if sym in shares then shares[sym] else 0.0) == Share(Held(Only(u, sym)), Priced(m, sym, at))
  {
    OnlySound(u, sym);
    hide Held, Only, Share, Priced, Assets;
    if sym !in Assets(u) {
      NothingHeld();
      ShareOfNothing(Priced(m, sym, at));
    }
  }

  lemma HeldMoves(own: seq<Tx>, t: Tx)
    requires t.qty > 0.0 && (t.side == Sell ==> t.qty <= Held(own))
    ensures Held(own + [t]) == Held(own) + Signed(t) >= 0.0 && Held(own) >= 0.0
  {
    HeldStep(own, t);
    HeldIsNonNegative(own);
  }

  lemma ShareOfNothing(price: Option<real>)
    ensures Share(0.0, price) == 0.0
  {}

  lemma FlowAtSeriesPrice(m: Market, t: Tx, p: real)
    requires AtSeriesPrice(m, t) && Priced(m, t.asset, t.at) == Some(p)
    ensures Flow(m, t).Some? && Flow(m, t).value == -TradeValue(t, p)
  {
    FxIsLinear(m, t.qty, t.price, Gross(t), t.asset, t.at, p);
    hide FxAt, FxKnown, Priced, Gross;
    if t.side == Buy {
      SameProduct(Signed(t), p, t.qty, p);
    } else {
      NegTimes(t.qty, p);
      SameProduct(Signed(t), p, -t.qty, p);
    }
  }

  lemma PricedAtSeriesPrice(m: Market, t: Tx)
    requires AtSeriesPrice(m, t)
    ensures Priced(m, t.asset, t.at).Some?
  {}

  lemma NegTimes(a: real, b: real)
    ensures (-a) * b == -(a * b)
  {}

  ghost predicate NothingOversold(txs: seq<Tx>) {
    forall s :: NeverOversold(Only(txs, s))
  }

  lemma {:induction false} NothingOversoldInit(txs: seq<Tx>, t: Tx)
    requires NothingOversold(txs + [t])
    ensures NothingOversold(txs)
    ensures t.side == Sell ==> t.qty <= Held(Only(txs, t.asset))
  {
    forall s ensures NeverOversold(Only(txs, s)) {
      OnlySnoc(txs, t, s);
      var own := Only(txs, s);
      NeverOversoldPrefix(Only(txs + [t], s), |own|);
      assert Only(txs + [t], s)[..|own|] == own;
    }
    OnlySnoc(txs, t, t.asset);
    var own := Only(txs, t.asset);
    NeverOversoldIffUncapped(own);
    assert (own + [t])[..|own| + 1] == own + [t] && (own + [t])[..|own|] == own;
    assert Net((own + [t])[..|own| + 1]) >= 0.0;
  }

  /**
   When the trades after T0 and up to T1 all happen at T1 and at its series prices, and nothing is oversold,
   the value at T1 with its flows taken back is the basket held after T0 at the prices of T1.
   */
  lemma {:induction false} FlowsExplainTrades(txs: seq<Tx>, m: Market, T0: int, T1: int)
    requires Positive(txs) && SortedBy(txs, ByTime) && NothingOversold(txs) && T0 < T1
    requires forall t | t in txs && T0 < t.at <= T1 :: t.at == T1 && AtSeriesPrice(m, t)
    ensures ValueAt(txs, m, T1) + CashAt(txs, m, T1) == Basket(Upto(txs, T0), m, T1)
  {
    if txs != [] {
      var init, t := txs[..|txs| - 1], txs[|txs| - 1];
      assert txs == init + [t] && t in txs;
      NothingOversoldInit(init, t);
      assert SortedBy(init, ByTime);
      if t.at <= T0 {
        AllUpto(txs, T0);
        AllUpto(txs, T1);
        NoCashBefore(txs, m, T1);
      } else {
        FlowsExplainTrades(init, m, T0, T1);
        FlowsExplainLast(init, t, m, T0, T1);
      }
    }
  }

  lemma {:induction false} FlowsExplainLast(init: seq<Tx>, t: Tx, m: Market, T0: int, T1: int)
    requires SortedBy(init + [t], ByTime) && t.qty > 0.0 && T0 < T1 && T0 < t.at
    requires t.side == Sell ==> t.qty <= Held(Only(init, t.asset))
    requires t.at <= T1 ==> t.at == T1 && AtSeriesPrice(m, t)
    ensures Upto(init + [t], T0) == Upto(init, T0)
    ensures ValueAt(init + [t], m, T1) + CashAt(init + [t], m, T1) == ValueAt(init, m, T1) + CashAt(init, m, T1)
  {
    UptoSnoc(init, t, T0);
    UptoSnoc(init, t, T1);
    CashSnoc(init, t, m, T1);
    hide Basket, Flow, Priced, Held, AtSeriesPrice, Signed, TradeValue, Upto, CashAt;
    if t.at == T1 {
      InitUpto(init, t, T1);
      PricedAtSeriesPrice(m, t);
      var p := Priced(m, t.asset, T1).value;
      FlowAtSeriesPrice(m, t, p);
      BasketStep(init, t, m, T1, p);
    }
  }

  lemma {:induction false} UptoSnoc(init: seq<Tx>, t: Tx, T: int)
    ensures Upto(init + [t], T) == if t.at <= T then Upto(init, T) + [t] else Upto(init, T)
  {
    assert (init + [t])[..|init|] == init;
  }

  lemma {:induction false} CashSnoc(init: seq<Tx>, t: Tx, m: Market, ts: int)
    ensures CashAt(init + [t], m, ts)
      == CashAt(init, m, ts) + if t.at == ts && Flow(m, t).Some? then Flow(m, t).value else 0.0
  {
    assert (init + [t])[..|init|] == init;
  }

  lemma {:induction false} InitUpto(init: seq<Tx>, t: Tx, T: int)
    requires SortedBy(init + [t], ByTime) && t.at <= T
    ensures Upto(init, T) == init
  {
    forall i, j | 0 <= i < j < |init| ensures ByTime(init[i], init[j]) {
      assert ByTime((init + [t])[i], (init + [t])[j]);
    }
    if init != [] { assert ByTime((init + [t])[|init| - 1], (init + [t])[|init|]); }
    AllUpto(init, T);
  }

  lemma {:induction false} AllUpto(txs: seq<Tx>, T: int)
    requires SortedBy(txs, ByTime) && (txs != [] ==> txs[|txs| - 1].at <= T)
    ensures Upto(txs, T) == txs
  {
    if txs != [] {
      var n := |txs| - 1;
      assert n > 0 ==> ByTime(txs[n - 1], txs[n]);
      AllUpto(txs[..n], T);
      assert txs == txs[..n] + [txs[n]];
    }
  }

  lemma {:induction false} NoCashBefore(txs: seq<Tx>, m: Market, ts: int)
    requires SortedBy(txs, ByTime) && (txs != [] ==> txs[|txs| - 1].at < ts)
    ensures CashAt(txs, m, ts) == 0.0
  {
    if txs != [] {
      var n := |txs| - 1;
      assert n > 0 ==> ByTime(txs[n - 1], txs[n]);
      NoCashBefore(txs[..n], m, ts);
    }
  }

  // ---- the composed service ----

  /** The product, over the sub-periods, of what the basket held at the start is worth at the end and at the start. */
  ghost function BasketGrowth(b: seq<int>, txs: seq<Tx>, m: Market): real {
    if |b| < 2 then 1.0
    else
      var n := |b| - 1;
      var held := Upto(txs, b[n - 1]);
      BasketGrowth(b[..n], txs, m) * Factor(Basket(held, m, b[n - 1]), Basket(held, m, b[n]), 0.0)
  }

  /** The sample times of the service: the window's ends and every trade inside it. */
  function SampleTimes(txs: seq<Tx>, start: int, end: int): seq<int> {
    SortedSet({start, end} + TradeTimes(txs, start, end))
  }

  /** The samples are exactly the values at the sample times. */
  ghost predicate Samples(series: seq<ValuePoint>, b: seq<int>, txs: seq<Tx>, m: Market) {
    |series| == |b| && forall i | 0 <= i < |b| :: series[i] == Quote(b[i], ValueAt(txs, m, b[i]))
  }

  lemma SampledValue(series: seq<ValuePoint>, b: seq<int>, txs: seq<Tx>, m: Market, i: nat)
    requires Ascending(b) && Samples(series, b, txs, m) && i < |b|
    ensures ValueOn(series, b[i]) == ValueAt(txs, m, b[i])
  {
    LatestAtIndex(series, b[i], i);
  }

  lemma {:induction false} NetFlowOne(cfs: seq<Cashflow>, ts: int)
    requires forall i, j | 0 <= i < j < |cfs| :: cfs[i].date < cfs[j].date
    ensures forall i | 0 <= i < |cfs| && cfs[i].date == ts :: NetFlow(cfs, ts) == cfs[i].amount
    ensures (forall i | 0 <= i < |cfs| :: cfs[i].date != ts) ==> NetFlow(cfs, ts) == 0.0
  {
    if cfs != [] {
      NetFlowOne(cfs[..|cfs| - 1], ts);
    }
  }

  lemma {:induction false} FlowIsCash(cfs: seq<Cashflow>, txs: seq<Tx>, m: Market, start: int, end: int, ts: int)
    requires FlowsOf(cfs, txs, m, start, end) && start <= ts <= end
    ensures NetFlow(cfs, ts) == CashAt(txs, m, ts)
  {
    NetFlowOne(cfs, ts);
    if ts !in TradeTimes(txs, start, end) {
      NoCashOutside(txs, m, start, end, ts);
    }
  }

  /** All of the theorem's conditions on the trades. */
  ghost predicate TradesAtMarket(txs: seq<Tx>, m: Market, start: int, end: int) {
    && NothingOversold(txs)
    && forall t | t in txs && Inside(t, start, end) :: AtSeriesPrice(m, t)
  }

  lemma BetweenSamples(txs: seq<Tx>, m: Market, start: int, end: int, b: seq<int>, i: nat)
    requires Ascending(b) && b == SampleTimes(txs, start, end) && 1 <= i < |b| && start <= end
    requires TradesAtMarket(txs, m, start, end)
    ensures start <= b[i - 1] < b[i] <= end
    ensures forall t | t in txs && b[i - 1] < t.at <= b[i] :: t.at == b[i] && AtSeriesPrice(m, t)
  {
    forall k | 0 <= k < |b| ensures start <= b[k] <= end {
      assert b[k] in b;
    }
    forall t | t in txs && b[i - 1] < t.at <= b[i] ensures t.at == b[i] && AtSeriesPrice(m, t) {
      assert Inside(t, start, end) && t.at in TradeTimes(txs, start, end) && t.at in b;
      var k :| 0 <= k < |b| && b[k] == t.at;
      assert k <= i - 1 || k >= i;
    }
  }

  lemma {:induction false} GrowthIsBasketGrowth(
      b: seq<int>, n: nat, series: seq<ValuePoint>, cfs: seq<Cashflow>, txs: seq<Tx>, m: Market, start: int, end: int)
    requires Positive(txs) && SortedBy(txs, ByTime) && TradesAtMarket(txs, m, start, end) && start <= end
    requires Ascending(b) && b == SampleTimes(txs, start, end) && n <= |b|
    requires Samples(series, b, txs, m) && FlowsOf(cfs, txs, m, start, end)
    ensures Growth(b[..n], series, cfs) == BasketGrowth(b[..n], txs, m)
    decreases n
  {
    hide *;
    if n >= 2 {
      var i := n - 1;
      GrowthIsBasketGrowth(b, i, series, cfs, txs, m, start, end);
      SubperiodFactor(b, i, series, cfs, txs, m, start, end);
      GrowthStep(b, i, series, cfs);
      BasketGrowthStep(b, i, txs, m);
      var held := Upto(txs, b[i - 1]);
      SameProduct(Growth(b[..i], series, cfs),
                  Factor(ValueOn(series, b[i - 1]), ValueOn(series, b[i]), NetFlow(cfs, b[i])),
                  BasketGrowth(b[..i], txs, m), Factor(Basket(held, m, b[i - 1]), Basket(held, m, b[i]), 0.0));
    } else {
      GrowthIsBasketGrowthShort(b[..n], series, cfs, txs, m);
    }
  }

  /** A sub-period's factor is what its basket is worth at the end over what it was worth at the start. */
  lemma {:induction false} SubperiodFactor(
      b: seq<int>, i: nat, series: seq<ValuePoint>, cfs: seq<Cashflow>, txs: seq<Tx>, m: Market, start: int, end: int)
    requires Positive(txs) && SortedBy(txs, ByTime) && TradesAtMarket(txs, m, start, end) && start <= end
    requires Ascending(b) && b == SampleTimes(txs, start, end) && 1 <= i < |b|
    requires Samples(series, b, txs, m) && FlowsOf(cfs, txs, m, start, end)
    ensures Factor(ValueOn(series, b[i - 1]), ValueOn(series, b[i]), NetFlow(cfs, b[i]))
      == Factor(Basket(Upto(txs, b[i - 1]), m, b[i - 1]), Basket(Upto(txs, b[i - 1]), m, b[i]), 0.0)
  {
    hide Basket, ValueOn, NetFlow, CashAt, Samples, FlowsOf, SampleTimes;
    BetweenSamples(txs, m, start, end, b, i);
    SampledValue(series, b, txs, m, i - 1);
    SampledValue(series, b, txs, m, i);
    FlowIsCash(cfs, txs, m, start, end, b[i]);
    FlowsExplainTrades(txs, m, b[i - 1], b[i]);
    SameFactor(ValueOn(series, b[i - 1]), ValueOn(series, b[i]), NetFlow(cfs, b[i]),
               Basket(Upto(txs, b[i - 1]), m, b[i]));
  }

  lemma {:induction false} GrowthIsBasketGrowthShort(
    b: seq<int>, series: seq<ValuePoint>, cfs: seq<Cashflow>, txs: seq<Tx>, m: Market)
    requires |b| < 2
    ensures Growth(b, series, cfs) == BasketGrowth(b, txs, m)
  {}

  lemma {:induction false} BasketGrowthStep(b: seq<int>, i: nat, txs: seq<Tx>, m: Market)
    requires 1 <= i < |b|
    ensures BasketGrowth(b[..i + 1], txs, m) == BasketGrowth(b[..i], txs, m)
      * Factor(Basket(Upto(txs, b[i - 1]), m, b[i - 1]), Basket(Upto(txs, b[i - 1]), m, b[i]), 0.0)
  {
    hide Factor, Basket, Upto;
    var c := b[..i + 1];
    assert |c| == i + 1 && c[..i] == b[..i] && c[i - 1] == b[i - 1] && c[i] == b[i];
    assert BasketGrowth(c, txs, m) == BasketGrowth(c[..i], txs, m)
      * Factor(Basket(Upto(txs, c[i - 1]), m, c[i - 1]), Basket(Upto(txs, c[i - 1]), m, c[i]), 0.0);
  }

  lemma SameFactor(v0: real, v1: real, flow: real, basket: real)
    requires v1 + flow == basket
    ensures Factor(v0, v1, flow) == Factor(v0, basket, 0.0)
  {
    assert basket + 0.0 == v1 + flow;
  }

  datatype Outcome = FxError | Performance(twr: Option<real>)

  predicate SomeFxMissing(txs: seq<Tx>, m: Market, b: seq<int>) {
    exists t, ts :: t in txs && ts in b && RateOf(m, t.asset, ts) == None
  }

  /** The rows traded inside the window. */
  function InWindow(txs: seq<Tx>, from: int, to: int): seq<Tx> {
    if txs == [] then []
    else
      var t := txs[|txs| - 1];
      InWindow(txs[..|txs| - 1], from, to) + if Inside(t, from, to) then [t] else []
  }

  lemma {:induction false} InWindowKeepsFlows(txs: seq<Tx>, m: Market, from: int, to: int)
    ensures forall t :: t in InWindow(txs, from, to) <==> t in txs && Inside(t, from, to)
    ensures forall ts | from <= ts <= to :: CashAt(InWindow(txs, from, to), m, ts) == CashAt(txs, m, ts)
  {
    if txs != [] {
      var init, t := txs[..|txs| - 1], txs[|txs| - 1];
      InWindowKeepsFlows(init, m, from, to);
      var w := InWindow(init, from, to);
      assert txs == init + [t] && w + [] == w && (w + [t])[..|w|] == w;
    }
  }

  lemma {:induction false} WindowRates(txs: seq<Tx>, m: Market, from: int, to: int)
    ensures FlowsKnown(InWindow(txs, from, to), m, from, to)
      <==> forall t | t in txs && from <= t.at <= to :: RateOf(m, t.asset, t.at).Some?
  {
    InWindowKeepsFlows(txs, m, from, to);
    FlowsKnownIff(InWindow(txs, from, to), m, from, to);
    hide InWindow, FlowsKnown, RateOf;
  }

  lemma {:induction false} WindowFlows(cfs: seq<Cashflow>, txs: seq<Tx>, m: Market, from: int, to: int)
    requires FlowsOf(cfs, InWindow(txs, from, to), m, from, to)
    ensures FlowsOf(cfs, txs, m, from, to)
  {
    InWindowKeepsFlows(txs, m, from, to);
    assert TradeTimes(InWindow(txs, from, to), from, to) == TradeTimes(txs, from, to);
    forall i | 0 <= i < |cfs| ensures cfs[i].amount == CashAt(txs, m, cfs[i].date) {
      assert cfs[i].date in TradeTimes(txs, from, to);
    }
  }

  /**
   The performance service: flows of the window, values at the flow times and the window's ends, and their
   chained return. When every in-window trade is made at that instant's series price, nothing is oversold and the
   portfolio is worth something at every sample, the result is the growth of the untouched baskets alone.
   */
  method TimeWeighted(txs: seq<Tx>, m: Market, start: int, end: int) returns (outcome: Outcome)
    requires Positive(txs) && SortedBy(txs, DbOrder) && WellIndexed(m.index) && start <= end
    ensures outcome == FxError <==> exists t :: t in txs && start <= t.at <= end && RateOf(m, t.asset, t.at) == None
    ensures outcome != FxError && SomeFxMissing(txs, m, SampleTimes(txs, start, end)) ==> outcome.twr == None
    ensures outcome != FxError && !SomeFxMissing(txs, m, SampleTimes(txs, start, end)) && start < end ==>
      (outcome.twr.Some? <==> forall ts | ts in SampleTimes(txs, start, end) :: ValueAt(txs, m, ts) > 0.0)
    ensures outcome != FxError && outcome.twr.Some? && start < end && TradesAtMarket(txs, m, start, end) ==>
      outcome.twr == Some(BasketGrowth(SampleTimes(txs, start, end), txs, m) - 1.0)
  {
    hide SortBy, WellIndexed, FlowsOf, SampleTimes, TradesAtMarket, FlowsKnown, BasketGrowth, ValueAt, Twr;
    hide InWindow, Boundaries, SortedSet, Ascending;
    var inWindowTxs := InWindow(txs, start, end);
    WindowRates(txs, m, start, end);
    hide RateOf;
    var extracted := ExtractCashflows(inWindowTxs, m, start, end);
    if extracted == None {
      return FxError;
    }
    var cashflows := extracted.value;
    WindowFlows(cashflows, txs, m, start, end);
    var tsList := SortedSet((set c | c in cashflows :: c.date) + {start, end});
    SampleTimesAre(tsList, cashflows, txs, m, start, end);
    DbOrderIsTimeOrder(txs);
    var series := BuildValueSeries(txs, m, tsList);
    SortByFixpoint(txs, ByTime);
    if SomeFxMissing(txs, m, tsList) {
      return Performance(None);
    }
    var twr := ComputeTwr(series, cashflows);
    ComposedTwr(series, cashflows, tsList, txs, m, start, end);
    outcome := Performance(twr);
  }

  lemma DbOrderIsTimeOrder(txs: seq<Tx>)
    requires SortedBy(txs, DbOrder)
    ensures SortedBy(txs, ByTime)
  {
    forall i, j | 0 <= i < j < |txs| ensures ByTime(txs[i], txs[j]) {
      assert DbOrder(txs[i], txs[j]);
    }
  }

  lemma SampleTimesAre(tsList: seq<int>, cfs: seq<Cashflow>, txs: seq<Tx>, m: Market, start: int, end: int)
    requires FlowsOf(cfs, txs, m, start, end) && start <= end
    requires tsList == SortedSet((set c | c in cfs :: c.date) + {start, end})
    ensures tsList == SampleTimes(txs, start, end) && Ascending(tsList) && Rising(tsList)
    ensures tsList[0] == start && tsList[|tsList| - 1] == end && (start < end ==> |tsList| >= 2)
    ensures tsList == Boundaries(cfs, start, end)
  {
    FlowDatesAreTradeTimes(cfs, txs, m, start, end);
    hide SortedSet, FlowsOf, TradeTimes;
    var inside := TradeTimes(txs, start, end);
    assert (set c | c in cfs :: c.date) + {start, end} == {start, end} + inside;
    SpansWindow(inside, start, end);
  }

  lemma FlowDatesAreTradeTimes(cfs: seq<Cashflow>, txs: seq<Tx>, m: Market, start: int, end: int)
    requires FlowsOf(cfs, txs, m, start, end)
    ensures (set c | c in cfs :: c.date) == TradeTimes(txs, start, end)
    ensures {start, end} + TradeTimes(txs, start, end) == {start, end} + FlowDates(cfs, start, end)
    ensures forall ts | ts in TradeTimes(txs, start, end) :: start <= ts <= end
  {
    var dates := set c | c in cfs :: c.date;
    forall ts | ts in TradeTimes(txs, start, end) ensures ts in dates {
      var i :| 0 <= i < |cfs| && cfs[i].date == ts;
      assert cfs[i] in cfs;
    }
    forall ts | ts in dates ensures ts in TradeTimes(txs, start, end) {
      var c :| c in cfs && c.date == ts;
      var i :| 0 <= i < |cfs| && cfs[i] == c;
      assert cfs[i].date == ts;
    }
  }

  lemma {:induction false} SpansWindow(inside: set<int>, start: int, end: int)
    requires start <= end && forall ts | ts in inside :: start <= ts <= end
    ensures var b := SortedSet({start, end} + inside);
      Rising(b) && b != [] && b[0] == start && b[|b| - 1] == end && (start < end ==> |b| >= 2)
  {
    var b := SortedSet({start, end} + inside);
    assert start in b && end in b;
    var s :| 0 <= s < |b| && b[s] == start;
    var e :| 0 <= e < |b| && b[e] == end;
    assert b[0] in b && b[|b| - 1] in b;
    assert start <= b[0] && b[|b| - 1] <= end;
  }

  lemma {:induction false} ComposedTwr(
    series: seq<ValuePoint>, cfs: seq<Cashflow>, b: seq<int>, txs: seq<Tx>, m: Market, start: int, end: int)
    requires Positive(txs) && SortedBy(txs, ByTime) && start <= end
    requires FlowsOf(cfs, txs, m, start, end) && Samples(series, b, txs, m)
    requires b == SampleTimes(txs, start, end) == Boundaries(cfs, start, end) && Ascending(b)
    requires b != [] && b[0] == start && b[|b| - 1] == end && (start < end ==> |b| >= 2)
    ensures var twr := Twr(SortBy(series, ByAt), SortBy(cfs, ByDate));
      && (start < end ==> (twr.Some? <==> forall ts | ts in b :: ValueAt(txs, m, ts) > 0.0))
      && (start < end && twr.Some? && TradesAtMarket(txs, m, start, end) ==>
            twr == Some(BasketGrowth(b, txs, m) - 1.0))
  {
    hide *;
    SortedInputs(series, cfs, b, txs, m, start, end);
    SampleEnds(series, b, txs, m);
    TwrOfChain(series, cfs);
    SamplesWorth(series, b, txs, m);
    if start < end { ChainedCases(b, series, cfs); }
    if start < end && TradesAtMarket(txs, m, start, end) {
      GrowthIsBasketGrowth(b, |b|, series, cfs, txs, m, start, end);
      assert b[..|b|] == b;
    }
  }

  lemma SamplesWorth(series: seq<ValuePoint>, b: seq<int>, txs: seq<Tx>, m: Market)
    requires Samples(series, b, txs, m) && Ascending(b)
    ensures (forall ts | ts in b :: WorthAt(series, ts)) <==> (forall ts | ts in b :: ValueAt(txs, m, ts) > 0.0)
  {
    hide ValueAt, ValueOn;
    forall ts | ts in b ensures WorthAt(series, ts) <==> ValueAt(txs, m, ts) > 0.0 {
      var i :| 0 <= i < |b| && b[i] == ts;
      SampledValue(series, b, txs, m, i);
    }
  }

  lemma SampleEnds(series: seq<ValuePoint>, b: seq<int>, txs: seq<Tx>, m: Market)
    requires Samples(series, b, txs, m) && b != []
    ensures series != [] && series[0].at == b[0] && series[|series| - 1].at == b[|b| - 1]
  {}

  lemma {:induction false} SortedInputs(
    series: seq<ValuePoint>, cfs: seq<Cashflow>, b: seq<int>, txs: seq<Tx>, m: Market, start: int, end: int)
    requires FlowsOf(cfs, txs, m, start, end) && Samples(series, b, txs, m) && Ascending(b)
    ensures SortBy(series, ByAt) == series && SortBy(cfs, ByDate) == cfs
  {
    hide ValueAt, SortBy, CashAt;
    assert SortedBy(series, ByAt);
    assert SortedBy(cfs, ByDate);
    SortByFixpoint(series, ByAt);
    SortByFixpoint(cfs, ByDate);
  }

  // ---- one symbol ----

  /** A one-symbol basket that is worth something is a positive holding at a positive price. */
  lemma {:induction false} OneSymbolBasket(u: seq<Tx>, m: Market, sym: int, at: int)
    requires Assets(u) <= {sym}
    ensures Basket(u, m, at) == Share(Held(Only(u, sym)), Priced(m, sym, at))
  {
    hide Held, Only;
    var shares := BasketShares(u, m, at);
    if sym in Assets(u) {
      TotalAt(shares, sym);
      assert shares - {sym} == map[];
    } else {
      OnlySound(u, sym);
      NothingHeld();
      assert shares == map[];
    }
  }

  lemma ShareRatio(q: real, p0: real, p1: real)
    requires q > 0.0 && p0 > 0.0
    ensures q * p0 > 0.0
    ensures Factor(q * p0, q * p1, 0.0) == p1 / p0
  {
    MulPositive(q, p0);
    var r := p1 / p0;
    DivMul(p1, p0);
    Assoc(q, p0, r);
    SameProduct(q, p0 * r, q, p1);
    assert (q * p0) * r == q * p1;
    DivUnique(q * p0, q * p1, r);
  }

  lemma DivUnique(a: real, c: real, r: real)
    requires a != 0.0 && a * r == c
    ensures c / a == r
  {}

  lemma Telescope(p: real, a: real, b: real)
    requires p > 0.0 && a > 0.0
    ensures (a / p) * (b / a) == b / p
  {
    DivMul(a, p);
    DivMul(b, a);
    var x, y := a / p, b / a;
    Assoc(p, x, y);
    assert (p * x) * y == a * y;
    assert p * (x * y) == b;
    DivUnique(p, b, x * y);
  }

  lemma {:induction false} OneSymbolGrowth(b: seq<int>, n: nat, txs: seq<Tx>, m: Market, sym: int)
    requires 1 <= n <= |b| && Assets(txs) <= {sym}
    requires forall i | 0 <= i < |b| :: Basket(Upto(txs, b[i]), m, b[i]) > 0.0
    ensures Priced(m, sym, b[0]).Some? && Priced(m, sym, b[n - 1]).Some?
    ensures Priced(m, sym, b[0]).value > 0.0 && Priced(m, sym, b[n - 1]).value > 0.0
    ensures BasketGrowth(b[..n], txs, m) == Priced(m, sym, b[n - 1]).value / Priced(m, sym, b[0]).value
    decreases n
  {
    hide Priced, Held, Only, Factor, Basket;
    PricedWhenWorth(txs, m, sym, b[0]);
    if n == 1 {
      SelfRatio(Priced(m, sym, b[0]).value);
    } else {
      var i := n - 1;
      OneSymbolGrowth(b, i, txs, m, sym);
      PricedWhenWorth(txs, m, sym, b[i - 1]);
      PricedWhenWorth(txs, m, sym, b[i]);
      var held := Upto(txs, b[i - 1]);
      var q, p0, p1 := Held(Only(held, sym)), Priced(m, sym, b[i - 1]).value, Priced(m, sym, b[i]).value;
      OneSymbolSubperiod(txs, m, sym, b[i - 1], b[i]);
      Telescope(Priced(m, sym, b[0]).value, p0, p1);
      assert b[..n][..i] == b[..i];
      SameProduct(BasketGrowth(b[..i], txs, m), Factor(Basket(held, m, b[i - 1]), Basket(held, m, b[i]), 0.0),
                  p0 / Priced(m, sym, b[0]).value, p1 / p0);
    }
  }

  lemma SelfRatio(p: real)
    requires p != 0.0
    ensures p / p == 1.0
  {}

  lemma {:induction false} PricedWhenWorth(txs: seq<Tx>, m: Market, sym: int, ts: int)
    requires Assets(txs) <= {sym} && Basket(Upto(txs, ts), m, ts) > 0.0
    ensures Held(Only(Upto(txs, ts), sym)) > 0.0
    ensures Priced(m, sym, ts).Some? && Priced(m, sym, ts).value > 0.0
  {
    hide Held, Only, Priced, Basket;
    var u := Upto(txs, ts);
    UptoSound(txs, ts);
    OneSymbolBasket(u, m, sym, ts);
    var q := Held(Only(u, sym));
    if q > 0.0 && Priced(m, sym, ts).Some? {
      PositiveFactor(q, Priced(m, sym, ts).value);
    }
  }

  lemma PositiveFactor(q: real, p: real)
    requires q > 0.0 && q * p > 0.0
    ensures p > 0.0
  {
    if p <= 0.0 { MulMono(q, p, 0.0); }
  }

  lemma {:induction false} OneSymbolSubperiod(txs: seq<Tx>, m: Market, sym: int, T0: int, T1: int)
    requires Assets(txs) <= {sym} && Basket(Upto(txs, T0), m, T0) > 0.0
    requires Priced(m, sym, T1).Some?
    ensures Priced(m, sym, T0).Some? && Priced(m, sym, T0).value > 0.0
    ensures var held := Upto(txs, T0);
      Factor(Basket(held, m, T0), Basket(held, m, T1), 0.0) == Priced(m, sym, T1).value / Priced(m, sym, T0).value
  {
    hide Held, Only, Priced, Basket;
    PricedWhenWorth(txs, m, sym, T0);
    UptoSound(txs, T0);
    var held := Upto(txs, T0);
    OneSymbolBasket(held, m, sym, T0);
    OneSymbolBasket(held, m, sym, T1);
    var q, p0, p1 := Held(Only(held, sym)), Priced(m, sym, T0).value, Priced(m, sym, T1).value;
    hide Factor, Share;
    ShareIs(q, Priced(m, sym, T0), p0);
    ShareIs(q, Priced(m, sym, T1), p1);
    ShareRatio(q, p0, p1);
  }

  lemma ShareIs(q: real, price: Option<real>, p: real)
    requires q > 0.0 && price == Some(p)
    ensures Share(q, price) == q * p
  {}

  lemma {:induction false} OneSymbolPriced(txs: seq<Tx>, m: Market, start: int, end: int, sym: int)
    requires start < end && Assets(txs) <= {sym}
    requires forall ts | ts in SampleTimes(txs, start, end) :: ValueAt(txs, m, ts) > 0.0
    ensures Priced(m, sym, start).Some? && Priced(m, sym, end).Some? && Priced(m, sym, start).value > 0.0
    ensures BasketGrowth(SampleTimes(txs, start, end), txs, m) - 1.0
      == Priced(m, sym, end).value / Priced(m, sym, start).value - 1.0
  {
    hide *;
    var b := SampleTimes(txs, start, end);
    SampleSpan(txs, start, end);
    forall i | 0 <= i < |b| ensures Basket(Upto(txs, b[i]), m, b[i]) > 0.0 {
      assert b[i] in b;
      ValueIsBasket(txs, m, b[i]);
    }
    OneSymbolGrowth(b, |b|, txs, m, sym);
    assert b[..|b|] == b;
  }

  lemma {:induction false} ValueIsBasket(txs: seq<Tx>, m: Market, ts: int)
    ensures ValueAt(txs, m, ts) == Basket(Upto(txs, ts), m, ts)
  {}

  lemma SampleSpan(txs: seq<Tx>, start: int, end: int)
    requires start < end
    ensures var b := SampleTimes(txs, start, end);
      |b| >= 2 && b[0] == start && b[|b| - 1] == end
  {
    SpansWindow(TradeTimes(txs, start, end), start, end);
  }

  /** The price of a symbol times the rate of its currency into the report currency, when both are known. */
  function Quoted(m: Market, sym: int, ts: int): Option<real> {
    if PriceOf(m.index, sym, ts) == None || RateOf(m, sym, ts) == None then None
    else Some(PriceOf(m.index, sym, ts).value * RateOf(m, sym, ts).value)
  }

  lemma QuotedIsPriced(m: Market, sym: int, ts: int)
    requires Priced(m, sym, ts).Some?
    ensures Quoted(m, sym, ts).Some? && Quoted(m, sym, ts).value == Priced(m, sym, ts).value
  {
    PricedIs(m, sym, ts);
    hide Priced, PriceOf, RateOf;
  }

  /**
   A portfolio of one symbol earns exactly the change of price times rate, whatever was bought or sold in the window.
   */
  lemma {:induction false} OneSymbolTwr(txs: seq<Tx>, m: Market, start: int, end: int, sym: int)
    requires start < end && Assets(txs) <= {sym}
    requires forall ts | ts in SampleTimes(txs, start, end) :: ValueAt(txs, m, ts) > 0.0
    ensures Quoted(m, sym, start).Some? && Quoted(m, sym, end).Some? && Quoted(m, sym, start).value > 0.0
    ensures BasketGrowth(SampleTimes(txs, start, end), txs, m) - 1.0
      == Quoted(m, sym, end).value / Quoted(m, sym, start).value - 1.0
  {
    hide *;
    OneSymbolPriced(txs, m, start, end, sym);
    QuotedIsPriced(m, sym, start);
    QuotedIsPriced(m, sym, end);
  }

  /** The same for the service's own result: series and flows composed, in a window traded at market prices. */
  lemma {:induction false} OneSymbolComposed(
    series: seq<ValuePoint>, cfs: seq<Cashflow>, txs: seq<Tx>, m: Market, start: int, end: int, sym: int)
    requires Positive(txs) && SortedBy(txs, ByTime) && start < end && Assets(txs) <= {sym}
    requires FlowsOf(cfs, txs, m, start, end) && Samples(series, SampleTimes(txs, start, end), txs, m)
    requires TradesAtMarket(txs, m, start, end) && Twr(SortBy(series, ByAt), SortBy(cfs, ByDate)).Some?
    ensures Quoted(m, sym, start).Some? && Quoted(m, sym, end).Some? && Quoted(m, sym, start).value > 0.0
    ensures Twr(SortBy(series, ByAt), SortBy(cfs, ByDate))
      == Some(Quoted(m, sym, end).value / Quoted(m, sym, start).value - 1.0)
  {
    hide *;
    var b := SampleTimes(txs, start, end);
    SampleSpan(txs, start, end);
    FlowBoundaries(cfs, txs, m, start, end);
    ComposedTwr(series, cfs, b, txs, m, start, end);
    OneSymbolTwr(txs, m, start, end, sym);
  }

  lemma FlowBoundaries(cfs: seq<Cashflow>, txs: seq<Tx>, m: Market, start: int, end: int)
    requires FlowsOf(cfs, txs, m, start, end) && start <= end
    ensures SampleTimes(txs, start, end) == Boundaries(cfs, start, end) && Ascending(SampleTimes(txs, start, end))
  {
    FlowDatesAreTradeTimes(cfs, txs, m, start, end);
    hide FlowsOf, TradeTimes;
  }

  // ---- sold out at the end ----

  /** A portfolio that holds nothing at the end of the window has no return, whatever it earned before. */
  lemma {:induction false} SoldOutHasNoReturn(
    series: seq<ValuePoint>, cfs: seq<Cashflow>, txs: seq<Tx>, m: Market, start: int, end: int)
    requires Positive(txs) && SortedBy(txs, ByTime) && start < end
    requires FlowsOf(cfs, txs, m, start, end) && Samples(series, SampleTimes(txs, start, end), txs, m)
    requires forall s | s in Assets(Upto(txs, end)) :: Held(Only(Upto(txs, end), s)) == 0.0
    ensures Twr(SortBy(series, ByAt), SortBy(cfs, ByDate)) == None
  {
    hide *;
    var b := SampleTimes(txs, start, end);
    SampleSpan(txs, start, end);
    FlowBoundaries(cfs, txs, m, start, end);
    ComposedTwr(series, cfs, b, txs, m, start, end);
    NothingHeldIsWorthless(txs, m, end);
    assert b[|b| - 1] in b;
  }

  lemma {:induction false} NothingHeldIsWorthless(txs: seq<Tx>, m: Market, ts: int)
    requires forall s | s in Assets(Upto(txs, ts)) :: Held(Only(Upto(txs, ts), s)) == 0.0
    ensures ValueAt(txs, m, ts) == 0.0
  {
    hide Held, Only, Upto;
    AllZero(BasketShares(Upto(txs, ts), m, ts));
  }

  lemma InReportCurrency(m: Market, sym: int, ts: int, price: real)
    requires m.currencyOf(sym) == m.report && PriceOf(m.index, sym, ts) == Some(price)
    ensures Priced(m, sym, ts) == Some(price)
  {}

  lemma TwoSamples(series: seq<ValuePoint>, b: seq<int>, txs: seq<Tx>, m: Market)
    requires |series| == |b| == 2
    requires series[0] == Quote(b[0], ValueAt(txs, m, b[0])) && series[1] == Quote(b[1], ValueAt(txs, m, b[1]))
    ensures Samples(series, b, txs, m)
  {}

  lemma WorthlessEnd(series: seq<ValuePoint>, cfs: seq<Cashflow>, b: seq<int>, txs: seq<Tx>, m: Market)
    requires Samples(series, b, txs, m) && Ascending(b) && |b| == 2
    requires b == Boundaries(cfs, b[0], b[1]) && ValueAt(txs, m, b[1]) == 0.0
    ensures Twr(series, cfs) == None
  {
    hide ValueAt, Boundaries, Chained;
    SampleEnds(series, b, txs, m);
    SampledValue(series, b, txs, m, 1);
    ChainedCases(b, series, cfs);
    assert b[1] in b && !WorthAt(series, b[1]);
  }

  lemma PairSampled(txs: seq<Tx>, start: int, end: int)
    requires |txs| == 2 && txs[0].at == start < end == txs[1].at
    ensures SampleTimes(txs, start, end) == [start, end]
  {
    assert txs[0] in txs && txs[1] in txs;
    AscendingUnique(SampleTimes(txs, start, end), [start, end]);
  }

  lemma PairValues(buy: Tx, sell: Tx, m: Market, p0: real)
    requires buy.side == Buy && sell.side == Sell && buy.asset == sell.asset && buy.qty == sell.qty == 1.0
    requires buy.at < sell.at && Priced(m, buy.asset, buy.at) == Some(p0)
    ensures ValueAt([buy, sell], m, buy.at) == p0 && ValueAt([buy, sell], m, sell.at) == 0.0
  {
    var txs, sym := [buy, sell], buy.asset;
    UptoIsPrefix(txs, buy.at, 1);
    UptoIsPrefix(txs, sell.at, 2);
    assert txs[..1] == [buy] && txs[..2] == txs;
    PairHeld(buy, sell);
    hide Held, Only, Upto, Priced;
    OneSymbolBasket([buy], m, sym, buy.at);
    OneSymbolBasket(txs, m, sym, sell.at);
  }

  lemma PairHeld(buy: Tx, sell: Tx)
    requires buy.side == Buy && sell.side == Sell && buy.asset == sell.asset && buy.qty == sell.qty == 1.0
    ensures Held(Only([buy], buy.asset)) == 1.0 && Held(Only([buy, sell], buy.asset)) == 0.0
  {
    OnlySnoc([], buy, buy.asset);
    OnlySnoc([buy], sell, buy.asset);
    NothingHeld();
    HeldStep([], buy);
    HeldStep([buy], sell);
    assert Only([], buy.asset) == [];
    assert [] + [buy] == [buy] && [buy] + [sell] == [buy, sell];
  }

  lemma PairFlows(buy: Tx, sell: Tx, m: Market)
    requires buy.side == Buy && sell.side == Sell && buy.qty == sell.qty == 1.0 && buy.at < sell.at
    requires buy.asset == sell.asset && m.currencyOf(buy.asset) == m.report && buy.price > 0.0 && sell.price > 0.0
    ensures FlowsOf([Cashflow(buy.at, -buy.price, BuyFlow), Cashflow(sell.at, sell.price, SellFlow)],
                    [buy, sell], m, buy.at, sell.at)
  {
    var txs := [buy, sell];
    assert txs[..1] == [buy] && [buy][..0] == [];
    assert Flow(m, buy) == Some(-buy.price) && Flow(m, sell) == Some(sell.price);
    hide Flow;
    assert CashAt([buy], m, buy.at) == -buy.price && CashAt([buy], m, sell.at) == 0.0;
    assert CashAt(txs, m, buy.at) == -buy.price && CashAt(txs, m, sell.at) == sell.price;
    hide CashAt;
    var cfs := [Cashflow(buy.at, -buy.price, BuyFlow), Cashflow(sell.at, sell.price, SellFlow)];
    assert txs[0] in txs && txs[1] in txs;
    assert TradeTimes(txs, buy.at, sell.at) == {buy.at, sell.at};
    assert cfs[0].date == buy.at && cfs[1].date == sell.at;
  }

  lemma PairGrowth(start: int, end: int, p0: real, p1: real)
    requires start < end && p0 > 0.0
    ensures Growth([start, end], [Quote(start, p0), Quote(end, 0.0)],
                   [Cashflow(start, -p0, BuyFlow), Cashflow(end, p1, SellFlow)]) == p1 / p0
  {
    var b, series := [start, end], [Quote(start, p0), Quote(end, 0.0)];
    var cfs := [Cashflow(start, -p0, BuyFlow), Cashflow(end, p1, SellFlow)];
    LatestAtIndex(series, start, 0);
    LatestAtIndex(series, end, 1);
    assert cfs[..1] == [cfs[0]] && [cfs[0]][..0] == [];
    assert NetFlow([cfs[0]], end) == 0.0;
    assert NetFlow(cfs, end) == p1;
    GrowthOfOne(b[..1], series, cfs);
    GrowthStep(b, 1, series, cfs);
    assert b[..2] == b;
  }

  /**
   One unit bought at the start and sold at the end. The only sub-period starts at the positive value of the unit
   and earns its price change, yet there is no return: the value at the last boundary is zero.
   */
  lemma BoughtAndSoldHasNoReturn(m: Market, sym: int, p0: real, p1: real, start: int, end: int)
    requires start < end && p0 > 0.0 && p1 > 0.0
    requires m.currencyOf(sym) == m.report && PriceOf(m.index, sym, start) == Some(p0)
    ensures var txs := [Tx(1, sym, Buy, 1.0, p0, start), Tx(2, sym, Sell, 1.0, p1, end)];
      var series := [Quote(start, p0), Quote(end, 0.0)];
      var cfs := [Cashflow(start, -p0, BuyFlow), Cashflow(end, p1, SellFlow)];
      && SampleTimes(txs, start, end) == [start, end] && Samples(series, [start, end], txs, m)
      && FlowsOf(cfs, txs, m, start, end)
      && Growth([start, end], series, cfs) == p1 / p0
      && Twr(series, cfs) == None
  {
    var buy, sell := Tx(1, sym, Buy, 1.0, p0, start), Tx(2, sym, Sell, 1.0, p1, end);
    var txs, b := [buy, sell], [start, end];
    var series := [Quote(start, p0), Quote(end, 0.0)];
    var cfs := [Cashflow(start, -p0, BuyFlow), Cashflow(end, p1, SellFlow)];
    hide *;
    InReportCurrency(m, sym, start, p0);
    PairSampled(txs, start, end);
    PairValues(buy, sell, m, p0);
    PairFlows(buy, sell, m);
    PairGrowth(start, end, p0, p1);
    TwoSamples(series, b, txs, m);
    FlowBoundaries(cfs, txs, m, start, end);
    WorthlessEnd(series, cfs, b, txs, m);
  }
}
