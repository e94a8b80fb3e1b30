/**
 The streaming maximum drawdown of the risk metrics, against its definition over all pairs of samples.
 */
module Drawdown {
  import opened Common
  import opened PriceLookup

  /** The loss from sample i to the later sample j, as a fraction of i. */
  function Loss(v: seq<Quote>, i: nat, j: nat): real
    requires i < |v| && j < |v| && v[i].value > 0.0
  {
    (v[i].value - v[j].value) / v[i].value
  }

  /** Two positive samples in time order. */
  predicate Pair(v: seq<Quote>, i: int, j: int) {
    0 <= i < j < |v| && v[i].value > 0.0 && v[j].value > 0.0
  }

  /** The quadratic definition: the largest loss over all pairs of positive samples, at least zero. */
  ghost predicate IsMaxLoss(v: seq<Quote>, d: real) {
    && d >= 0.0
    && (forall i, j | Pair(v, i, j) :: Loss(v, i, j) <= d)
    && (d > 0.0 ==> exists i, j :: Pair(v, i, j) && Loss(v, i, j) == d)
  }

  lemma MaxLossAtMost(v: seq<Quote>, d: real, e: real)
    requires IsMaxLoss(v, d) && IsMaxLoss(v, e)
    ensures d <= e
  {
    if d > 0.0 {
      var i, j :| Pair(v, i, j) && Loss(v, i, j) == d;
    }
  }

  /** The definition determines the figure. */
  lemma MaxLossUnique(v: seq<Quote>, d: real, e: real)
    requires IsMaxLoss(v, d) && IsMaxLoss(v, e)
    ensures d == e
  {
    MaxLossAtMost(v, d, e);
    MaxLossAtMost(v, e, d);
  }

  function Positives(v: seq<Quote>): nat {
    if v == [] then 0 else Positives(v[..|v| - 1]) + if v[|v| - 1].value > 0.0 then 1 else 0
  }

  lemma {:induction false} PositivesIs(v: seq<Quote>)
    ensures Positives(v) > 0 <==> exists i :: 0 <= i < |v| && v[i].value > 0.0
    ensures Positives(v) > 1 <==> exists i, j :: Pair(v, i, j)
  {
    if v != [] {
      var n := |v| - 1;
      var init := v[..n];
      PositivesIs(init);
      if i, j :| Pair(v, i, j) && j < n {
        assert Pair(init, i, j);
      }
      if i, j :| Pair(init, i, j) {
        assert Pair(v, i, j);
      }
      if v[n].value > 0.0 {
        if i :| 0 <= i < n && init[i].value > 0.0 {
          assert Pair(v, i, n);
        }
        if i :| Pair(v, i, n) {
          assert init[i] == v[i];
        }
      }
      if Positives(v) > 0 && v[n].value <= 0.0 {
        var i :| 0 <= i < n && init[i].value > 0.0;
        assert v[i].value > 0.0;
      }
      if i :| 0 <= i < |v| && v[i].value > 0.0 && i < n {
        assert init[i].value > 0.0;
      }
    }
  }

  /** There are two positive samples exactly when there is a pair of them. */
  lemma {:induction false} PairIsTwoPositives(v: seq<Quote>)
    ensures Positives(v) < 2 <==> forall i, j :: !Pair(v, i, j)
  {
    PositivesIs(v);
  }

  /** The highest of the first n samples that are positive; 0 when none is. */
  function Peak(v: seq<Quote>, n: nat): real
    requires n <= |v|
  {
    if n == 0 then 0.0 else Max(Peak(v, n - 1), v[n - 1].value)
  }

  /** A positive sample that is no new high: the samples the loop compares. */
  predicate Compared(v: seq<Quote>, j: int) {
    0 <= j < |v| && 0.0 < v[j].value <= Peak(v, j)
  }

  /** The drop of a compared sample from the peak before it. */
  function Drop(v: seq<Quote>, j: nat): real
    requires j < |v| && Peak(v, j) > 0.0
  {
    (Peak(v, j) - v[j].value) / Peak(v, j)
  }

  lemma {:induction false} PeakSound(v: seq<Quote>, n: nat)
    requires n <= |v|
    ensures Peak(v, n) >= 0.0
    ensures forall i | 0 <= i < n :: v[i].value <= Peak(v, n)
    ensures Peak(v, n) > 0.0 ==> exists i :: 0 <= i < n && v[i].value == Peak(v, n)
  {
    if n > 0 {
      PeakSound(v, n - 1);
      if v[n - 1].value <= Peak(v, n - 1) && Peak(v, n) > 0.0 {
        var i :| 0 <= i < n - 1 && v[i].value == Peak(v, n - 1);
      }
    }
  }

  lemma BelowOne(p: real, w: real, x: real)
    requires p > 0.0 && x > 0.0 && p * w == p - x
    ensures w < 1.0 && (x <= p ==> w >= 0.0)
  {
    if w >= 1.0 { MulMono(p, 1.0, w); }
    if w < 0.0 { MulStrict(p, w, 0.0); }
  }

  lemma FractionGrows(a: real, p: real, u: real, w: real, x: real)
    requires 0.0 < a < p && x > 0.0 && w < 1.0 && a * u == a - x && p * w == p - x
    ensures u <= w
  {
    DiffTimes(p - a, p, a, w);
    MulStrict(p - a, w, 1.0);
    if u > w { MulStrict(a, w, u); }
  }

  lemma LossGrowsWithPeak(a: real, p: real, x: real)
    requires 0.0 < a <= p && 0.0 < x
    ensures (a - x) / a <= (p - x) / p < 1.0
    ensures x <= p ==> (p - x) / p >= 0.0
  {
    var u, w := (a - x) / a, (p - x) / p;
    DivMul(a - x, a);
    DivMul(p - x, p);
    BelowOne(p, w, x);
    if a < p { FractionGrows(a, p, u, w, x); }
  }

  /** Against the peak before it, no earlier sample makes the drop larger; a new high loses nothing to anyone. */
  lemma {:induction false} DropBoundsLosses(v: seq<Quote>, i: int, j: int)
    requires Pair(v, i, j)
    ensures Peak(v, j) > 0.0
    ensures Compared(v, j) ==> Loss(v, i, j) <= Drop(v, j) && 0.0 <= Drop(v, j) < 1.0
    ensures !Compared(v, j) ==> Loss(v, i, j) < 0.0
  {
    PeakSound(v, j);
    LossGrowsWithPeak(v[i].value, Peak(v, j), v[j].value);
    if !Compared(v, j) {
      DivMul(v[i].value - v[j].value, v[i].value);
      if Loss(v, i, j) >= 0.0 { MulMono(v[i].value, 0.0, Loss(v, i, j)); }
    }
  }

  /** Every drop is the loss from the sample that set the peak. */
  lemma DropIsALoss(v: seq<Quote>, j: nat) returns (i: nat)
    requires Compared(v, j)
    ensures Pair(v, i, j) && Loss(v, i, j) == Drop(v, j)
  {
    PeakSound(v, j);
    i :| 0 <= i < j && v[i].value == Peak(v, j);
  }

  /** What the loop knows after n samples: the first compared sample with the largest drop, if any was compared. */
  ghost predicate BestSoFar(v: seq<Quote>, n: nat, mdd: Option<real>, trough: int)
    requires n <= |v|
  {
    && (mdd == None ==> forall j | 0 <= j < n :: !Compared(v, j))
    && (mdd.Some? ==>
          && 0 <= trough < n && Compared(v, trough) && Drop(v, trough) == mdd.value
          && (forall j | 0 <= j < n && Compared(v, j) :: Drop(v, j) <= mdd.value)
          && (forall j | 0 <= j < trough && Compared(v, j) :: Drop(v, j) < mdd.value))
  }

  lemma BestIsMaxLoss(v: seq<Quote>, mdd: Option<real>, trough: int)
    requires BestSoFar(v, |v|, mdd, trough)
    ensures IsMaxLoss(v, if mdd.Some? then mdd.value else 0.0)
    ensures mdd.Some? ==> 0.0 <= mdd.value < 1.0
  {
    var d := if mdd.Some? then mdd.value else 0.0;
    if mdd.Some? {
      var i := DropIsALoss(v, trough);
      DropBoundsLosses(v, i, trough);
      assert Pair(v, i, trough) && Loss(v, i, trough) == d;
    }
    forall i, j | Pair(v, i, j) ensures Loss(v, i, j) <= d {
      DropBoundsLosses(v, i, j);
    }
  }

  /**
   One pass finds the largest loss over all pairs. It reports none for fewer than two positive samples; the
   trough is the time of the first compared sample that attains it.
   */
  method MaxDrawdown(valueSeries: seq<Quote>) returns (mdd: Option<real>, troughAt: Option<int>)
    ensures mdd == None <==> forall i, j :: !Pair(valueSeries, i, j)
    ensures mdd.Some? ==> IsMaxLoss(valueSeries, mdd.value) && 0.0 <= mdd.value < 1.0
    ensures mdd == None ==> troughAt == None
    ensures mdd.Some? ==> (troughAt == None <==> forall j :: !Compared(valueSeries, j))
    ensures troughAt.Some? ==> exists k ::
      && Compared(valueSeries, k) && valueSeries[k].at == troughAt.value && Drop(valueSeries, k) == mdd.value
      && forall j | 0 <= j < k && Compared(valueSeries, j) :: Drop(valueSeries, j) < mdd.value
  {
    var peak: Option<real> := None;
    var best: Option<real> := None;
    troughAt := None;
    ghost var trough := 0;
    var sampleCount := 0;
    for n := 0 to |valueSeries|
      invariant sampleCount == Positives(valueSeries[..n])
      invariant (if peak.Some? then peak.value else 0.0) == Peak(valueSeries, n)
      invariant peak.Some? ==> peak.value > 0.0
      invariant BestSoFar(valueSeries, n, best, trough)
      invariant troughAt == if best.Some? then Some(valueSeries[trough].at) else None
    {
      var vp := valueSeries[n];
      assert valueSeries[..n + 1][..n] == valueSeries[..n];
      if vp.value > 0.0 {
        sampleCount := sampleCount + 1;
        if peak == None || vp.value > peak.value {
          peak := Some(vp.value);
        } else {
          var drawdown := (peak.value - vp.value) / peak.value;
          assert Compared(valueSeries, n) && drawdown == Drop(valueSeries, n);
          if best == None || drawdown > best.value {
            best := Some(drawdown);
            troughAt := Some(vp.at);
            trough := n;
          }
        }
      }
    }
    assert valueSeries[..|valueSeries|] == valueSeries;
    PairIsTwoPositives(valueSeries);
    BestIsMaxLoss(valueSeries, best, trough);
    if sampleCount < 2 {
      return None, None;
    }
    mdd := Some(if best.Some? then best.value else 0.0);
  }
}
