/**
 The monthly heatmap: the months listed, their returns from one sample more, and the yearly compounds, which
 telescope to ratios of samples.
 */
module Heatmap {
  import opened Common
  import opened Ordering
  import opened Ledger
  import opened PriceLookup
  import opened TimeWeightedReturn
  import opened ValueSeries

  datatype YearMonth = YearMonth(year: int, month: int)

  datatype MonthlyReturn = MonthlyReturn(year: int, month: int, returnPct: Option<real>)

  predicate IsMonth(m: YearMonth) { 1 <= m.month <= 12 }

  function NextMonth(m: YearMonth): YearMonth {
    if m.month == 12 then YearMonth(m.year + 1, 1) else YearMonth(m.year, m.month + 1)
  }

  /** Months counted from year zero; Python compares (year, month) pairs in this order. */
  function Ordinal(m: YearMonth): int { 12 * m.year + m.month - 1 }

  predicate NotAfter(a: YearMonth, b: YearMonth) { a.year < b.year || (a.year == b.year && a.month <= b.month) }

  predicate Contiguous(months: seq<YearMonth>) {
    forall i | 0 < i < |months| :: months[i] == NextMonth(months[i - 1])
  }

  /** Every month from the first to the last, both included, and nothing when the end is before the start. */
  method MonthsBetween(start: YearMonth, end: YearMonth, endBeforeStart: bool) returns (pairs: seq<YearMonth>)
    requires IsMonth(start) && IsMonth(end)
    requires !endBeforeStart ==> NotAfter(start, end)
    ensures endBeforeStart ==> pairs == []
    ensures !endBeforeStart ==>
      && |pairs| == Ordinal(end) - Ordinal(start) + 1
      && pairs[0] == start && pairs[|pairs| - 1] == end
    ensures Contiguous(pairs) && forall m | m in pairs :: IsMonth(m)
  {
    if endBeforeStart {
      return [];
    }
    pairs := [];
    var cur := start;
    while NotAfter(cur, end)
      invariant IsMonth(cur) && Ordinal(cur) == Ordinal(start) + |pairs| <= Ordinal(end) + 1
      invariant pairs == [] ==> cur == start
      invariant pairs != [] ==> pairs[0] == start && cur == NextMonth(pairs[|pairs| - 1])
      invariant forall i | 0 <= i < |pairs| :: Ordinal(pairs[i]) == Ordinal(start) + i
      invariant Contiguous(pairs) && forall m | m in pairs :: IsMonth(m)
      decreases Ordinal(end) - Ordinal(cur) + 1
    {
      pairs := pairs + [cur];
      cur := if cur.month == 12 then YearMonth(cur.year + 1, 1) else YearMonth(cur.year, cur.month + 1);
    }
    assert pairs[|pairs| - 1] in pairs;
  }

  /** The return of month i is sample i + 1 over sample i, and missing unless both are positive. */
  function ReturnOf(series: seq<ValuePoint>, i: nat): Option<real>
    requires i + 1 < |series|
  {
    var prev, cur := series[i].value, series[i + 1].value;
    if prev > 0.0 && cur > 0.0 then Some(cur / prev - 1.0) else None
  }

  method MonthlyReturnsFromSeries(series: seq<ValuePoint>, months: seq<YearMonth>) returns (out: seq<MonthlyReturn>)
    ensures |out| == |months|
    ensures forall i | 0 <= i < |out| :: out[i].year == months[i].year && out[i].month == months[i].month
    ensures |series| == |months| + 1 ==> forall i | 0 <= i < |out| ::
      && out[i].returnPct == ReturnOf(series, i)
      && (out[i].returnPct == None <==> series[i].value <= 0.0 || series[i + 1].value <= 0.0)
      && (out[i].returnPct.Some? ==> out[i].returnPct.value == series[i + 1].value / series[i].value - 1.0)
    ensures |series| != |months| + 1 ==> forall i | 0 <= i < |out| :: out[i].returnPct == None
  {
    out := [];
    if |series| < 2 || |series| != |months| + 1 {
      for i := 0 to |months|
        invariant |out| == i
        invariant forall k | 0 <= k < i :: out[k] == MonthlyReturn(months[k].year, months[k].month, None)
      {
        out := out + [MonthlyReturn(months[i].year, months[i].month, None)];
      }
      return;
    }
    for i := 0 to |months|
      invariant |out| == i
      invariant forall k | 0 <= k < i :: out[k] == MonthlyReturn(months[k].year, months[k].month, ReturnOf(series, k))
    {
      var prev, cur := series[i].value, series[i + 1].value;
      var ret := None;
      if prev > 0.0 && cur > 0.0 {
        ret := Some(cur / prev - 1.0);
      }
      out := out + [MonthlyReturn(months[i].year, months[i].month, ret)];
    }
  }

  // ---- yearly compounds ----

  /** The returns listed for one year, in order. */
  function ReturnsOf(months: seq<MonthlyReturn>, year: int): seq<real> {
    if months == [] then []
    else
      var m := months[|months| - 1];
      ReturnsOf(months[..|months| - 1], year)
      + if m.year == year && m.returnPct.Some? then [m.returnPct.value] else []
  }

  function Years(months: seq<MonthlyReturn>): set<int> { set m | m in months :: m.year }

  predicate HasNull(months: seq<MonthlyReturn>, year: int) {
    exists m :: m in months && m.year == year && m.returnPct == None
  }

  /** ∏ (1 + r). */
  function Compound(rs: seq<real>): real {
    if rs == [] then 1.0 else Compound(rs[..|rs| - 1]) * (1.0 + rs[|rs| - 1])
  }

  /** A year with a missing month has no figure; any other compounds its months. */
  function YearFigure(months: seq<MonthlyReturn>, year: int): Option<real> {
    if HasNull(months, year) then None else Some(Compound(ReturnsOf(months, year)) - 1.0)
  }

  /** The grouping dictionaries: each listed year's returns, and the years with a missing month. */
  ghost predicate Grouped(byYear: map<int, seq<real>>, nullsByYear: set<int>, months: seq<MonthlyReturn>) {
    && byYear.Keys == Years(months)
    && (forall y :: ReturnsOf(months, y) == if y in byYear then byYear[y] else [])
    && (forall y :: y in nullsByYear <==> HasNull(months, y))
  }

  /** Python's setdefault with an empty list. */
  function Listed(byYear: map<int, seq<real>>, year: int): seq<real> {
    if year in byYear then byYear[year] else []
  }

  lemma GroupedStep(byYear: map<int, seq<real>>, nullsByYear: set<int>, months: seq<MonthlyReturn>, m: MonthlyReturn)
    requires Grouped(byYear, nullsByYear, months)
    ensures var before := Listed(byYear, m.year);
      && (m.returnPct == None ==> Grouped(byYear[m.year := before], nullsByYear + {m.year}, months + [m]))
      && (m.returnPct.Some? ==> Grouped(byYear[m.year := before + [m.returnPct.value]], nullsByYear, months + [m]))
  {
    YearsSnoc(months, m);
    hide ReturnsOf, HasNull, Years;
    forall y
      ensures ReturnsOf(months + [m], y)
        == ReturnsOf(months, y) + if m.year == y && m.returnPct.Some? then [m.returnPct.value] else []
      ensures HasNull(months + [m], y) <==> HasNull(months, y) || (y == m.year && m.returnPct == None)
      ensures ReturnsOf(months, y) + [] == ReturnsOf(months, y)
    {
      ReturnsOfSnoc(months, m, y);
      HasNullSnoc(months, m, y);
    }
  }

  lemma YearsSnoc(months: seq<MonthlyReturn>, m: MonthlyReturn)
    ensures Years(months + [m]) == Years(months) + {m.year}
  {
    assert m in months + [m];
  }

  lemma {:induction false} ReturnsOfSnoc(months: seq<MonthlyReturn>, m: MonthlyReturn, y: int)
    ensures ReturnsOf(months + [m], y)
      == ReturnsOf(months, y) + if m.year == y && m.returnPct.Some? then [m.returnPct.value] else []
  {
    assert (months + [m])[..|months|] == months;
  }

  lemma HasNullSnoc(months: seq<MonthlyReturn>, m: MonthlyReturn, y: int)
    ensures HasNull(months + [m], y) <==> HasNull(months, y) || (y == m.year && m.returnPct == None)
  {
    if y == m.year && m.returnPct == None { assert m in months + [m]; }
    if HasNull(months, y) {
      var n :| n in months && n.year == y && n.returnPct == None;
      assert n in months + [m];
    }
  }

  lemma NothingGrouped()
    ensures Grouped(map[], {}, [])
  {}

  method GroupByYear(months: seq<MonthlyReturn>) returns (byYear: map<int, seq<real>>, nullsByYear: set<int>)
    ensures Grouped(byYear, nullsByYear, months)
  {
    hide Grouped, Listed, Years, ReturnsOf, HasNull;
    byYear, nullsByYear := map[], {};
    NothingGrouped();
    for i := 0 to |months|
      invariant Grouped(byYear, nullsByYear, months[..i])
    {
      var m := months[i];
      GroupedStep(byYear, nullsByYear, months[..i], m);
      assert months[..i + 1] == months[..i] + [m];
      var before := Listed(byYear, m.year);
      if m.returnPct == None {
        nullsByYear := nullsByYear + {m.year};
        byYear := byYear[m.year := before];
      } else {
        byYear := byYear[m.year := before + [m.returnPct.value]];
      }
    }
    assert months[..|months|] == months;
  }

  method YearlyCompound(months: seq<MonthlyReturn>) returns (result: map<int, Option<real>>)
    ensures result.Keys == Years(months)
    ensures forall y | y in result :: result[y] == YearFigure(months, y)
  {
    hide HasNull, ReturnsOf, Compound, Years, YearFigure;
    var byYear, nullsByYear := GroupByYear(months);
    result := map[];
    var todo := byYear.Keys;
    while todo != {}
      invariant todo <= byYear.Keys && result.Keys == byYear.Keys - todo
      invariant forall y | y in result :: result[y] == YearFigure(months, y)
      decreases |todo|
    {
      Inhabited(todo);
      var year :| year in todo;
      todo := todo - {year};
      YearFigureIs(months, year);
      if year in nullsByYear {
        result := result[year := None];
      } else {
        var compound := CompoundOf(byYear[year]);
        result := result[year := Some(compound - 1.0)];
      }
    }
  }

  lemma {:induction false} YearFigureIs(months: seq<MonthlyReturn>, year: int)
    ensures YearFigure(months, year)
      == if HasNull(months, year) then None else Some(Compound(ReturnsOf(months, year)) - 1.0)
  {}

  method CompoundOf(rs: seq<real>) returns (compound: real)
    ensures compound == Compound(rs)
  {
    compound := 1.0;
    for i := 0 to |rs|
      invariant compound == Compound(rs[..i])
    {
      assert rs[..i + 1][..i] == rs[..i];
      compound := compound * (1.0 + rs[i]);
    }
    assert rs[..|rs|] == rs;
  }

  // ---- telescoping ----

  /** Months in time order carry years that never step back. */
  predicate YearsRise(months: seq<MonthlyReturn>) {
    forall i, j | 0 <= i < j < |months| :: months[i].year <= months[j].year
  }

  lemma {:induction false} ContiguousYearsRise(months: seq<YearMonth>, out: seq<MonthlyReturn>)
    requires Contiguous(months) && |out| == |months|
    requires forall i | 0 <= i < |out| :: out[i].year == months[i].year
    ensures YearsRise(out)
  {
    if |out| > 1 {
      var n := |out| - 1;
      ContiguousYearsRise(months[..n], out[..n]);
      assert months[n] == NextMonth(months[n - 1]);
      forall i | 0 <= i < n ensures out[i].year <= out[n].year {
        assert i < n - 1 ==> out[..n][i].year <= out[..n][n - 1].year;
      }
    }
  }

  /** How many months are listed up to the end of a year. */
  function ListedUpto(months: seq<MonthlyReturn>, year: int): (n: nat)
    ensures n <= |months|
  {
    if months == [] then 0
    else ListedUpto(months[..|months| - 1], year) + if months[|months| - 1].year <= year then 1 else 0
  }

  lemma {:induction false} ListedUptoIsIndex(months: seq<MonthlyReturn>, year: int)
    requires YearsRise(months)
    ensures forall i | 0 <= i < |months| :: months[i].year <= year <==> i < ListedUpto(months, year)
  {
    if months != [] {
      var n := |months| - 1;
      ListedUptoIsIndex(months[..n], year);
      if months[n].year <= year {
        assert forall i | 0 <= i < n :: months[..n][i].year <= year;
        assert n > 0 ==> months[..n][n - 1].year <= year;
      }
    }
  }

  lemma {:induction false} ListedUptoGrows(months: seq<MonthlyReturn>, y: int, z: int)
    requires y <= z
    ensures ListedUpto(months, y) <= ListedUpto(months, z)
  {
    if months != [] {
      ListedUptoGrows(months[..|months| - 1], y, z);
    }
  }

  /** The monthly figures of a series with one sample more, with no month of the range missing. */
  predicate Complete(out: seq<MonthlyReturn>, series: seq<ValuePoint>, a: nat, b: nat) {
    && |series| == |out| + 1 && a <= b <= |out|
    && forall i | a <= i < b :: out[i].returnPct.Some? && out[i].returnPct == ReturnOf(series, i)
  }

  /** Months a to b − 1, and no others, belong to the year. */
  predicate Spans(out: seq<MonthlyReturn>, year: int, a: nat, b: nat) {
    forall i | 0 <= i < |out| :: out[i].year == year <==> a <= i < b
  }

  lemma MonthFactor(series: seq<ValuePoint>, i: nat, r: real)
    requires i + 1 < |series| && ReturnOf(series, i) == Some(r)
    ensures series[i].value > 0.0 && series[i + 1].value > 0.0
    ensures 1.0 + r == series[i + 1].value / series[i].value
  {}

  /** Inside its span a year compounds to the ratio of samples so far; outside it does not move. */
  lemma {:induction false} YearCompoundsTo(
      out: seq<MonthlyReturn>, series: seq<ValuePoint>, year: int, a: nat, b: nat, n: nat)
    requires Complete(out, series, a, b) && Spans(out, year, a, b) && n <= |out| && series[a].value > 0.0
    ensures var k := if n < a then a else if n < b then n else b;
      series[k].value > 0.0 && Compound(ReturnsOf(out[..n], year)) == series[k].value / series[a].value
    decreases n
  {
    if n == 0 {
      SelfRatio(series[a].value);
    } else {
      var prev := ReturnsOf(out[..n - 1], year);
      YearCompoundsTo(out, series, year, a, b, n - 1);
      assert out[..n][..n - 1] == out[..n - 1];
      if a < n <= b {
        var r := out[n - 1].returnPct.value;
        MonthFactor(series, n - 1, r);
        CompoundSnoc(prev, r);
        hide Compound, ReturnOf;
        Telescope(series[a].value, series[n - 1].value, series[n].value);
        SameProduct(Compound(prev), 1.0 + r,
                    series[n - 1].value / series[a].value, series[n].value / series[n - 1].value);
      } else {
        assert prev + [] == prev;
      }
    }
  }

  lemma {:induction false} CompoundSnoc(rs: seq<real>, r: real)
    ensures Compound(rs + [r]) == Compound(rs) * (1.0 + r)
  {
    assert (rs + [r])[..|rs|] == rs;
  }

  /**
   A year without a missing month compounds to the sample at the end of its last listed month over the sample before
   its first listed month.
   */
  lemma YearTelescopes(out: seq<MonthlyReturn>, series: seq<ValuePoint>, year: int)
    requires YearsRise(out) && |series| == |out| + 1 && !HasNull(out, year)
    requires forall i | 0 <= i < |out| :: out[i].returnPct == ReturnOf(series, i)
    requires series[ListedUpto(out, year - 1)].value > 0.0
    ensures YearFigure(out, year)
      == Some(series[ListedUpto(out, year)].value / series[ListedUpto(out, year - 1)].value - 1.0)
  {
    var a, b := ListedUpto(out, year - 1), ListedUpto(out, year);
    ListedUptoIsIndex(out, year - 1);
    ListedUptoIsIndex(out, year);
    SpanOfYear(out, year);
    forall i | a <= i < b ensures out[i].returnPct.Some? {
      assert out[i] in out;
    }
    YearCompoundsTo(out, series, year, a, b, |out|);
    assert out[..|out|] == out;
  }

  lemma SpanOfYear(out: seq<MonthlyReturn>, year: int)
    requires YearsRise(out)
    ensures ListedUpto(out, year - 1) <= ListedUpto(out, year) <= |out|
    ensures Spans(out, year, ListedUpto(out, year - 1), ListedUpto(out, year))
  {
    ListedUptoIsIndex(out, year - 1);
    ListedUptoIsIndex(out, year);
    ListedUptoGrows(out, year - 1, year);
  }

  /**
   The figures of one heatmap: months in calendar order, one sample more than months. Every year that has a
   figure telescopes.
   */
  method HeatmapFigures(series: seq<ValuePoint>, months: seq<YearMonth>)
    returns (monthly: seq<MonthlyReturn>, yearly: map<int, Option<real>>)
    requires Contiguous(months) && |series| == |months| + 1
    ensures |monthly| == |months| && yearly.Keys == Years(monthly)
    ensures forall y | y in yearly :: yearly[y] == None <==> HasNull(monthly, y)
    ensures forall y | y in yearly && yearly[y].Some? ::
      && series[ListedUpto(monthly, y - 1)].value > 0.0
      && yearly[y].value == series[ListedUpto(monthly, y)].value / series[ListedUpto(monthly, y - 1)].value - 1.0
  {
    hide ReturnOf, HasNull, Years, Compound, ReturnsOf, ListedUpto;
    monthly := MonthlyReturnsFromSeries(series, months);
    yearly := YearlyCompound(monthly);
    ContiguousYearsRise(months, monthly);
    forall y | y in yearly
      ensures yearly[y] == None <==> HasNull(monthly, y)
      ensures yearly[y].Some? ==>
        && series[ListedUpto(monthly, y - 1)].value > 0.0
        && yearly[y].value == series[ListedUpto(monthly, y)].value / series[ListedUpto(monthly, y - 1)].value - 1.0
    {
      YearFigureIs(monthly, y);
      if !HasNull(monthly, y) {
        ListedYearStartsPositive(monthly, series, y);
        YearTelescopes(monthly, series, y);
      }
    }
  }

  // ---- the service's own sampling ----

  const DAY := 86400

  /** The first instant of every month, months being at least four weeks long. */
  type Calendar = YearMonth -> int

  ghost predicate IsCalendar(firstOf: Calendar) {
    forall m: YearMonth | IsMonth(m) :: firstOf(m) + 28 * DAY <= firstOf(NextMonth(m))
  }

  /** Midnight of the last day of the month. */
  function MonthEnd(firstOf: Calendar, m: YearMonth): int { firstOf(NextMonth(m)) - DAY }

  function MinInt(a: int, b: int): int { if a <= b then a else b }

  /** The anchor on the day before the first month, then each month's end, clipped to now. */
  function SampleTime(firstOf: Calendar, months: seq<YearMonth>, now: int, k: nat): int
    requires months != [] && k <= |months|
  {
    if k == 0 then firstOf(months[0]) - DAY else MinInt(MonthEnd(firstOf, months[k - 1]), now)
  }

  /** Sampling never steps back, because every month ends after it starts and the last one has begun. */
  lemma SamplesRise(firstOf: Calendar, months: seq<YearMonth>, now: int)
    requires IsCalendar(firstOf) && Contiguous(months) && months != [] && forall m | m in months :: IsMonth(m)
    requires firstOf(months[|months| - 1]) <= now
    ensures forall k | 0 < k <= |months| ::
      SampleTime(firstOf, months, now, k - 1) <= SampleTime(firstOf, months, now, k)
  {
    forall k | 0 < k <= |months|
      ensures SampleTime(firstOf, months, now, k - 1) <= SampleTime(firstOf, months, now, k)
    {
      assert months[k - 1] in months;
      FirstsRise(firstOf, months, k - 1, |months| - 1);
      if k > 1 {
        assert months[k - 1] == NextMonth(months[k - 2]);
      }
    }
  }

  lemma {:induction false} FirstsRise(firstOf: Calendar, months: seq<YearMonth>, i: nat, j: nat)
    requires IsCalendar(firstOf) && Contiguous(months) && (forall m | m in months :: IsMonth(m)) && i <= j < |months|
    ensures firstOf(months[i]) <= firstOf(months[j])
    decreases j - i
  {
    if i < j {
      FirstsRise(firstOf, months, i, j - 1);
      assert months[j - 1] in months && months[j] == NextMonth(months[j - 1]);
    }
  }

  lemma RisingSteps(ts: seq<int>)
    requires forall k | 0 < k < |ts| :: ts[k - 1] <= ts[k]
    ensures Rising(ts)
  {
    forall i, j | 0 <= i < j < |ts| ensures ts[i] <= ts[j] {
      RisingBetween(ts, i, j);
    }
  }

  lemma {:induction false} RisingBetween(ts: seq<int>, i: nat, j: nat)
    requires i <= j < |ts| && forall k | 0 < k < |ts| :: ts[k - 1] <= ts[k]
    ensures ts[i] <= ts[j]
    decreases j - i
  {
    if i < j {
      RisingBetween(ts, i, j - 1);
      assert ts[j - 1] <= ts[j];
    }
  }

  method MonthlySampleTimes(firstOf: Calendar, months: seq<YearMonth>, now: int) returns (timestamps: seq<int>)
    requires IsCalendar(firstOf) && Contiguous(months) && months != [] && forall m | m in months :: IsMonth(m)
    requires firstOf(months[|months| - 1]) <= now
    ensures |timestamps| == |months| + 1 && Rising(timestamps)
    ensures forall k | 0 <= k < |timestamps| :: timestamps[k] == SampleTime(firstOf, months, now, k)
    ensures timestamps[0] == firstOf(months[0]) - 86400
    ensures forall k | 0 <= k < |months| ::
      timestamps[k + 1] == MinInt(firstOf(NextMonth(months[k])) - 86400, now)
  {
    timestamps := [firstOf(months[0]) - DAY];
    for i := 0 to |months|
      invariant |timestamps| == i + 1
      invariant forall k | 0 <= k <= i :: timestamps[k] == SampleTime(firstOf, months, now, k)
    {
      var monthEnd := MonthEnd(firstOf, months[i]);
      timestamps := timestamps + [MinInt(monthEnd, now)];
    }
    SamplesRise(firstOf, months, now);
    hide SampleTime;
    RisingSteps(timestamps);
  }

  /** The value of everything held at the k-th sample. */
  ghost function MonthlyValue(
    txs: seq<Tx>, m: Market, firstOf: Calendar, months: seq<YearMonth>, now: int, k: nat): real
    requires months != [] && k <= |months|
  {
    ValueAt(SortBy(txs, ByTime), m, SampleTime(firstOf, months, now, k))
  }

  /**
   The whole report, from the month of `start` to the current one: each listed month and, unless one of its months is
   missing, each listed year returns the portfolio's value at its last sample over the value at the one before it.
   */
  method GetHeatmap(txs: seq<Tx>, m: Market, firstOf: Calendar, start: YearMonth, current: YearMonth, now: int)
    returns (months: seq<YearMonth>, monthly: seq<MonthlyReturn>, yearly: map<int, Option<real>>)
    requires Positive(txs) && WellIndexed(m.index) && IsCalendar(firstOf)
    requires IsMonth(start) && IsMonth(current) && NotAfter(start, current) && firstOf(current) <= now
    ensures txs == [] ==> monthly == [] && yearly == map[]
    ensures txs != [] ==> months != [] && months[0] == start && months[|months| - 1] == current && Contiguous(months)
    ensures txs != [] ==> |monthly| == |months| && yearly.Keys == Years(monthly)
    ensures txs != [] ==> forall y | y in yearly :: yearly[y] == None <==> HasNull(monthly, y)
    ensures txs != [] ==> forall y | y in yearly && yearly[y].Some? ::
      && ListedUpto(monthly, y - 1) <= ListedUpto(monthly, y) <= |months|
      && MonthlyValue(txs, m, firstOf, months, now, ListedUpto(monthly, y - 1)) > 0.0
      && yearly[y].value == MonthlyValue(txs, m, firstOf, months, now, ListedUpto(monthly, y))
                          / MonthlyValue(txs, m, firstOf, months, now, ListedUpto(monthly, y - 1)) - 1.0
  {
    if txs == [] {
      return [], [], map[];
    }
    hide ReturnOf, HasNull, Years, ListedUpto, ValueAt, SortBy, Positive, WellIndexed, SampleTime, IsCalendar;
    hide IsMonth, NotAfter, Contiguous, ReturnsOf, Compound;
    months := MonthsBetween(start, current, false);
    var timestamps := MonthlySampleTimes(firstOf, months, now);
    var series := BuildValueSeries(txs, m, timestamps);
    monthly, yearly := HeatmapFigures(series, months);
    assert forall k | 0 <= k <= |months| :: series[k].value == MonthlyValue(txs, m, firstOf, months, now, k);
    hide MonthlyValue;
    forall y | y in yearly && yearly[y].Some?
      ensures ListedUpto(monthly, y - 1) <= ListedUpto(monthly, y) <= |months|
      ensures var from, to := ListedUpto(monthly, y - 1), ListedUpto(monthly, y);
        && MonthlyValue(txs, m, firstOf, months, now, from) > 0.0
        && yearly[y].value == MonthlyValue(txs, m, firstOf, months, now, to)
                            / MonthlyValue(txs, m, firstOf, months, now, from) - 1.0
    {
      ListedUptoBounds(monthly, y);
      var from, to := ListedUpto(monthly, y - 1), ListedUpto(monthly, y);
      assert series[from].value == MonthlyValue(txs, m, firstOf, months, now, from);
      assert series[to].value == MonthlyValue(txs, m, firstOf, months, now, to);
    }
  }

  lemma ListedUptoBounds(months: seq<MonthlyReturn>, year: int)
    ensures ListedUpto(months, year - 1) <= ListedUpto(months, year) <= |months|
  {
    ListedUptoGrows(months, year - 1, year);
  }

  lemma {:induction false} ListedYearStartsPositive(out: seq<MonthlyReturn>, series: seq<ValuePoint>, year: int)
    requires YearsRise(out) && |series| == |out| + 1 && year in Years(out) && !HasNull(out, year)
    requires forall i | 0 <= i < |out| :: out[i].returnPct == ReturnOf(series, i)
    ensures series[ListedUpto(out, year - 1)].value > 0.0
  {
    var a := ListedUpto(out, year - 1);
    SpanOfYear(out, year);
    var m :| m in out && m.year == year;
    var i :| 0 <= i < |out| && out[i] == m;
    assert out[a] in out && out[a].returnPct.Some?;
    MonthFactor(series, a, out[a].returnPct.value);
  }

  /** ∏ (1 + yearly figure) over the years y0, y0 + 1, …, k of them. */
  function YearsProduct(out: seq<MonthlyReturn>, y0: int, k: nat): real {
    if k == 0 then 1.0
    else
      var f := YearFigure(out, y0 + k - 1);
      YearsProduct(out, y0, k - 1) * (1.0 + if f.Some? then f.value else 0.0)
  }

  /** Across years without a missing month the yearly figures multiply to the last sample over the first. */
  lemma {:induction false} YearsTelescope(out: seq<MonthlyReturn>, series: seq<ValuePoint>, k: nat)
    requires out != [] && YearsRise(out) && |series| == |out| + 1
    requires forall i | 0 <= i < |out| :: out[i].returnPct.Some? && out[i].returnPct == ReturnOf(series, i)
    ensures series[0].value > 0.0 && series[ListedUpto(out, out[0].year + k - 1)].value > 0.0
    ensures YearsProduct(out, out[0].year, k) == series[ListedUpto(out, out[0].year + k - 1)].value / series[0].value
    ensures out[|out| - 1].year <= out[0].year + k - 1 ==> ListedUpto(out, out[0].year + k - 1) == |out|
    decreases k
  {
    hide ListedUpto, ReturnOf, YearFigure;
    var y0 := out[0].year;
    AllSamplesPositive(out, series);
    ListedUptoIsIndex(out, y0 + k - 1);
    if k == 0 {
      SelfRatio(series[0].value);
    } else {
      YearsTelescope(out, series, k - 1);
      NoNulls(out, y0 + k - 1);
      YearTelescopes(out, series, y0 + k - 1);
      var v0, va := series[0].value, series[ListedUpto(out, y0 + k - 2)].value;
      var vb := series[ListedUpto(out, y0 + k - 1)].value;
      YearsProductStep(out, y0, k, vb / va, va / v0);
      hide YearsProduct;
      Telescope(v0, va, vb);
    }
  }

  lemma NoNulls(out: seq<MonthlyReturn>, year: int)
    requires forall i | 0 <= i < |out| :: out[i].returnPct.Some?
    ensures !HasNull(out, year)
  {}

  lemma YearsProductStep(out: seq<MonthlyReturn>, y0: int, k: nat, ratio: real, before: real)
    requires k > 0 && YearFigure(out, y0 + k - 1) == Some(ratio - 1.0) && YearsProduct(out, y0, k - 1) == before
    ensures YearsProduct(out, y0, k) == before * ratio
  {
    hide YearFigure;
    SameProduct(YearsProduct(out, y0, k - 1), 1.0 + (ratio - 1.0), before, ratio);
  }

  lemma AllSamplesPositive(out: seq<MonthlyReturn>, series: seq<ValuePoint>)
    requires out != [] && |series| == |out| + 1
    requires forall i | 0 <= i < |out| :: out[i].returnPct.Some? && out[i].returnPct == ReturnOf(series, i)
    ensures forall i | 0 <= i < |series| :: series[i].value > 0.0
  {
    forall i | 0 <= i < |series| ensures series[i].value > 0.0 {
      var k := if i < |out| then i else i - 1;
      MonthFactor(series, k, out[k].returnPct.value);
    }
  }
}
