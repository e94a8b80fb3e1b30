/**
 The weighted-average cost matcher of the capital-gains estimator, its cost conservation, and its agreement
 with FIFO and with the holdings walk.
 */
module TaxAverage {
  import opened Common
  import opened Ledger
  import opened MovingAverage
  import opened TaxLots

  /** The running total may go negative: this matcher does not cap. */
  datatype Running = Running(totalQty: real, avgUnitKrw: real)

  function Blend(avg: real, qty: real, incomingKrw: real, newQty: real): real
    requires newQty > 0.0
  {
    (avg * qty + incomingKrw) / newQty
  }

  function BuyInto(r: Running, t: Tx, fx: Fx): Running {
    var newQty := r.totalQty + t.qty;
    Running(newQty, if newQty > 0.0 then Blend(r.avgUnitKrw, r.totalQty, ValueKrw(t, fx), newQty) else r.avgUnitKrw)
  }

  function RunningAfter(txs: seq<Tx>, fx: Fx): Running {
    if txs == [] then Running(0.0, 0.0)
    else
      var r, t := RunningAfter(txs[..|txs| - 1], fx), txs[|txs| - 1];
      if t.side == Buy then BuyInto(r, t, fx) else r.(totalQty := r.totalQty - t.qty)
  }

  function CostAtAverage(r: Running, q: real): real { q * r.avgUnitKrw }

  /** The sale every SELL of the history makes, in order. */
  function AverageSales(txs: seq<Tx>, fx: Fx): seq<Sale> {
    if txs == [] then []
    else
      var init, t := txs[..|txs| - 1], txs[|txs| - 1];
      AverageSales(init, fx)
      + if t.side == Buy then [] else [SaleOf(t, CostAtAverage(RunningAfter(init, fx), t.qty), fx)]
  }

  /** The times of all SELLs, of any year, that exceed the running total. */
  function OversoldAnyYear(txs: seq<Tx>): seq<int> {
    if txs == [] then []
    else
      var init, t := txs[..|txs| - 1], txs[|txs| - 1];
      OversoldAnyYear(init) + if t.side == Sell && t.qty > Net(init) then [t.at] else []
  }

  lemma {:induction false} RunningTotalIsNet(txs: seq<Tx>, fx: Fx)
    ensures RunningAfter(txs, fx).totalQty == Net(txs)
  {
    if txs != [] {
      RunningTotalIsNet(txs[..|txs| - 1], fx);
    }
  }

  // ---- conservation ----

  /** The KRW value of what is left, at the running average. */
  function Inventory(r: Running): real { r.avgUnitKrw * r.totalQty }

  /**
   A BUY adds its full price to the inventory exactly when it lands above zero (or happens to be priced at
   the stale average): that is the guard of the branch that updates the average.
   */
  lemma BuyKeepsCostIff(r: Running, t: Tx, fx: Fx)
    requires t.qty > 0.0
    ensures Inventory(BuyInto(r, t, fx)) == Inventory(r) + ValueKrw(t, fx)
      <==> (r.totalQty + t.qty > 0.0 || t.price * fx(t.at) == r.avgUnitKrw)
  {
    var r' := BuyInto(r, t, fx);
    var n := r.totalQty + t.qty;
    var c := ValueKrw(t, fx);
    if n > 0.0 {
      DivMul(r.avgUnitKrw * r.totalQty + c, n);
      SameProduct(r'.avgUnitKrw, r'.totalQty, (r.avgUnitKrw * r.totalQty + c) / n, n);
    } else {
      var u := t.price * fx(t.at);
      MulAssoc(t.qty, t.price, fx(t.at));
      SumTimes(n, r.totalQty, t.qty, r.avgUnitKrw);
      SameProduct(r'.avgUnitKrw, r'.totalQty, r.avgUnitKrw, n);
      if u < r.avgUnitKrw { MulStrict(t.qty, u, r.avgUnitKrw); }
      if u > r.avgUnitKrw { MulStrict(t.qty, r.avgUnitKrw, u); }
    }
  }

  /** No BUY leaves the signed total at or below zero. */
  ghost predicate BuysLandAboveZero(txs: seq<Tx>) {
    forall k | 0 <= k < |txs| && txs[k].side == Buy :: Net(txs[..k + 1]) > 0.0
  }

  lemma NeverOversoldBuysLand(txs: seq<Tx>)
    requires Positive(txs) && NeverOversold(txs)
    ensures BuysLandAboveZero(txs)
  {
    forall k | 0 <= k < |txs| && txs[k].side == Buy ensures Net(txs[..k + 1]) > 0.0 {
      assert txs[..k + 1][..k] == txs[..k];
      assert Net(txs[..k]) >= 0.0;
      assert txs[k] in txs;
    }
  }

  /** What one BUY loses: at or below zero its price is forgotten and the stale average is booked instead. */
  function LostBy(r: Running, t: Tx, fx: Fx): real {
    if t.side == Buy && r.totalQty + t.qty <= 0.0 then ValueKrw(t, fx) - CostAtAverage(r, t.qty) else 0.0
  }

  /** The losses of all BUYs of a history. */
  function Lost(txs: seq<Tx>, fx: Fx): real {
    if txs == [] then 0.0
    else Lost(txs[..|txs| - 1], fx) + LostBy(RunningAfter(txs[..|txs| - 1], fx), txs[|txs| - 1], fx)
  }

  /** Matched cost plus inventory minus everything paid. */
  function Imbalance(txs: seq<Tx>, fx: Fx): real {
    TotalCostBasis(AverageSales(txs, fx)) + Inventory(RunningAfter(txs, fx)) - BuyCostKrw(txs, fx)
  }

  /** Over every history the books miss exactly what the BUYs landing at or below zero lose. */
  lemma {:induction false} AverageLosesExactly(txs: seq<Tx>, fx: Fx)
    requires Positive(txs)
    ensures Imbalance(txs, fx) == -Lost(txs, fx)
  {
    if txs != [] {
      var init, t := txs[..|txs| - 1], txs[|txs| - 1];
      AverageLosesExactly(init, fx);
      assert txs == init + [t];
      hide Imbalance, Lost, LostBy;
      if t.side == Buy {
        AverageBuyStep(init, t, fx);
      } else {
        AverageSellStep(init, t, fx);
        SellLosesNothing(RunningAfter(init, fx), t, fx);
      }
      LostSnoc(init, t, fx);
    } else {
      EmptyInventory();
    }
  }

  lemma SellLosesNothing(r: Running, t: Tx, fx: Fx)
    requires t.side == Sell
    ensures LostBy(r, t, fx) == 0.0
  {}

  lemma {:induction false} LostSnoc(init: seq<Tx>, t: Tx, fx: Fx)
    ensures Lost(init + [t], fx) == Lost(init, fx) + LostBy(RunningAfter(init, fx), t, fx)
  {
    assert (init + [t])[..|init|] == init;
  }

  /** The k-th row is no BUY, lands above zero, or is priced at the average of that moment. */
  predicate KeepsCost(txs: seq<Tx>, k: nat, fx: Fx)
    requires k < |txs|
  {
    txs[k].side == Buy ==>
      Net(txs[..k + 1]) > 0.0 || txs[k].price * fx(txs[k].at) == RunningAfter(txs[..k], fx).avgUnitKrw
  }

  /** After k rows, matched cost plus inventory is everything paid. */
  predicate BalancedAt(txs: seq<Tx>, k: nat, fx: Fx)
    requires k <= |txs|
  {
    Imbalance(txs[..k], fx) == 0.0
  }

  /** Cost is conserved at every prefix exactly when every BUY keeps its cost. */
  lemma AverageConservesCostIff(txs: seq<Tx>, fx: Fx)
    requires Positive(txs)
    ensures (forall k | 0 <= k <= |txs| :: BalancedAt(txs, k, fx))
      <==> (forall k | 0 <= k < |txs| :: KeepsCost(txs, k, fx))
  {
    hide BalancedAt, KeepsCost;
    if forall k | 0 <= k <= |txs| :: BalancedAt(txs, k, fx) {
      forall k | 0 <= k < |txs| ensures KeepsCost(txs, k, fx) {
        assert BalancedAt(txs, k, fx) && BalancedAt(txs, k + 1, fx);
        BalanceStep(txs, k, fx);
      }
    }
    if forall k | 0 <= k < |txs| :: KeepsCost(txs, k, fx) {
      forall k | 0 <= k <= |txs| ensures BalancedAt(txs, k, fx) {
        BalancedUpto(txs, k, fx);
      }
    }
  }

  lemma {:induction false} BalancedUpto(txs: seq<Tx>, n: nat, fx: Fx)
    requires Positive(txs) && n <= |txs|
    requires forall k | 0 <= k < |txs| :: KeepsCost(txs, k, fx)
    ensures BalancedAt(txs, n, fx)
  {
    if n == 0 {
      EmptyInventory();
    } else {
      hide BalancedAt, KeepsCost;
      BalancedUpto(txs, n - 1, fx);
      BalanceStep(txs, n - 1, fx);
    }
  }

  /** A balanced prefix stays balanced with the next row exactly when that row keeps its cost. */
  lemma BalanceStep(txs: seq<Tx>, k: nat, fx: Fx)
    requires Positive(txs) && k < |txs| && BalancedAt(txs, k, fx)
    ensures BalancedAt(txs, k + 1, fx) <==> KeepsCost(txs, k, fx)
  {
    var init, t := txs[..k], txs[k];
    assert txs[..k + 1] == init + [t] && (init + [t])[..k] == init;
    assert t in txs;
    assert t.side == Buy ==> Net(init + [t]) == Net(init) + t.qty;
    RunningTotalIsNet(init, fx);
    hide Imbalance, LostBy, RunningAfter, Net;
    if t.side == Buy {
      AverageBuyStep(init, t, fx);
      LostIff(RunningAfter(init, fx), t, fx);
    } else {
      AverageSellStep(init, t, fx);
    }
  }

  lemma LostIff(r: Running, t: Tx, fx: Fx)
    requires t.side == Buy && t.qty > 0.0
    ensures LostBy(r, t, fx) == 0.0 <==> r.totalQty + t.qty > 0.0 || t.price * fx(t.at) == r.avgUnitKrw
  {
    var u := t.price * fx(t.at);
    MulAssoc(t.qty, t.price, fx(t.at));
    if u < r.avgUnitKrw { MulStrict(t.qty, u, r.avgUnitKrw); }
    if u > r.avgUnitKrw { MulStrict(t.qty, r.avgUnitKrw, u); }
  }

  /** In particular, nothing is lost when every BUY lands above zero, SELLs beyond the holding included. */
  lemma {:induction false} AverageConservesCost(txs: seq<Tx>, fx: Fx)
    requires Positive(txs) && BuysLandAboveZero(txs)
    ensures TotalCostBasis(AverageSales(txs, fx)) + Inventory(RunningAfter(txs, fx)) == BuyCostKrw(txs, fx)
  {
    hide Net, RunningAfter, Inventory, AverageSales;
    assert txs[..|txs|] == txs;
    BalancedUpto(txs, |txs|, fx);
  }

  lemma EmptyInventory()
    ensures Inventory(Running(0.0, 0.0)) == 0.0
  {}

  lemma {:induction false} AverageBuyStep(init: seq<Tx>, t: Tx, fx: Fx)
    requires t.side == Buy && t.qty > 0.0
    ensures Imbalance(init + [t], fx) == Imbalance(init, fx) - LostBy(RunningAfter(init, fx), t, fx)
  {
    assert (init + [t])[..|init|] == init;
    var r := RunningAfter(init, fx);
    BuyLoses(r, t, fx);
    hide Inventory, BuyInto, SaleOf, ValueKrw, Net, LostBy;
    assert AverageSales(init + [t], fx) == AverageSales(init, fx);
    assert RunningAfter(init + [t], fx) == BuyInto(r, t, fx);
  }

  lemma BuyLoses(r: Running, t: Tx, fx: Fx)
    requires t.side == Buy && t.qty > 0.0
    ensures Inventory(BuyInto(r, t, fx)) == Inventory(r) + ValueKrw(t, fx) - LostBy(r, t, fx)
  {
    var n := r.totalQty + t.qty;
    if n > 0.0 {
      BuyKeepsCostIff(r, t, fx);
    } else {
      SumTimes(n, r.totalQty, t.qty, r.avgUnitKrw);
    }
  }

  lemma AverageSellStep(init: seq<Tx>, t: Tx, fx: Fx)
    requires t.side == Sell
    ensures Imbalance(init + [t], fx) == Imbalance(init, fx)
  {
    hide Inventory, BuyInto, SaleOf, CostAtAverage, ValueKrw;
    assert (init + [t])[..|init|] == init;
    var r, sales := RunningAfter(init, fx), AverageSales(init, fx);
    var sale := SaleOf(t, CostAtAverage(r, t.qty), fx);
    SellTakesAverage(r, t.qty);
    SaleCost(t, CostAtAverage(r, t.qty), fx);
    assert (sales + [sale])[..|sales|] == sales;
  }

  lemma SellTakesAverage(r: Running, q: real)
    ensures Inventory(r.(totalQty := r.totalQty - q)) == Inventory(r) - CostAtAverage(r, q)
  {
    DiffTimes(r.totalQty - q, r.totalQty, q, r.avgUnitKrw);
  }

  /** After an oversell, a BUY that only covers it is dropped from the books: 10 paid, nothing matched, nothing left. */
  lemma AverageLosesCoveringBuy(fx: Fx)
    requires fx(1) == 1.0
    ensures var txs := [Tx(1, 1, Sell, 1.0, 10.0, 0), Tx(2, 1, Buy, 1.0, 10.0, 1)];
      && Positive(txs)
      && BuyCostKrw(txs, fx) == 10.0
      && TotalCostBasis(AverageSales(txs, fx)) + Inventory(RunningAfter(txs, fx)) == 0.0
  {
    var a, b := Tx(1, 1, Sell, 1.0, 10.0, 0), Tx(2, 1, Buy, 1.0, 10.0, 1);
    var txs := [a, b];
    assert txs[..1] == [a] && [a][..0] == [];
    assert RunningAfter([a], fx) == Running(-1.0, 0.0);
    assert RunningAfter(txs, fx) == Running(0.0, 0.0);
    assert BuyCostKrw([a], fx) == 0.0;
    SellThenBuySales(a, b, fx);
    var s := SaleOf(a, CostAtAverage(RunningAfter([], fx), 1.0), fx);
    hide AverageSales;
    assert [s][..0] == [];
  }

  lemma SellThenBuySales(sell: Tx, buy: Tx, fx: Fx)
    requires sell.side == Sell && buy.side == Buy
    ensures AverageSales([sell, buy], fx) == [SaleOf(sell, CostAtAverage(RunningAfter([], fx), sell.qty), fx)]
  {
    hide SaleOf, CostAtAverage, RunningAfter;
    assert [sell, buy][..1] == [sell] && [sell][..0] == [];
    assert AverageSales([], fx) == [];
    assert AverageSales([sell], fx) == [] + [SaleOf(sell, CostAtAverage(RunningAfter([], fx), sell.qty), fx)];
    assert AverageSales([sell, buy], fx) == AverageSales([sell], fx) + [];
  }

  // ---- what a report line says ----

  /** The SELL rows, in order. */
  function Sells(txs: seq<Tx>): seq<Tx> {
    if txs == [] then [] else Sells(txs[..|txs| - 1]) + if txs[|txs| - 1].side == Sell then [txs[|txs| - 1]] else []
  }

  /** The line reports the row: its time, its quantity, quantity times price times rate, and that less the basis. */
  predicate Reports(line: Sale, t: Tx, fx: Fx) {
    && line.soldAt == t.at && line.quantity == t.qty && line.sellValue == t.qty * t.price * fx(t.at)
    && line.gain == line.sellValue - line.costBasis
  }

  lemma SaleReports(t: Tx, costBasis: real, fx: Fx)
    ensures Reports(SaleOf(t, costBasis, fx), t, fx) && SaleOf(t, costBasis, fx).costBasis == costBasis
  {}

  /** Both methods report one line per SELL row, in order, each about its own row. */
  lemma {:induction false} LinesReportSells(txs: seq<Tx>, fx: Fx)
    ensures |FifoSales(txs, fx)| == |AverageSales(txs, fx)| == |Sells(txs)|
    ensures forall k | 0 <= k < |Sells(txs)| :: Reports(FifoSales(txs, fx)[k], Sells(txs)[k], fx)
    ensures forall k | 0 <= k < |Sells(txs)| :: Reports(AverageSales(txs, fx)[k], Sells(txs)[k], fx)
  {
    hide Reports, SaleOf, CostOfFirst, CostAtAverage, LotsAfter, RunningAfter;
    if txs != [] {
      var init, t := txs[..|txs| - 1], txs[|txs| - 1];
      LinesReportSells(init, fx);
      SaleReports(t, CostOfFirst(LotsAfter(init), t.qty, fx), fx);
      SaleReports(t, CostAtAverage(RunningAfter(init, fx), t.qty), fx);
    }
  }

  // ---- agreement with FIFO ----

  lemma {:induction false} SameSellValue(txs: seq<Tx>, fx: Fx)
    ensures TotalSellValue(FifoSales(txs, fx)) == TotalSellValue(AverageSales(txs, fx))
    ensures GainsAdd(FifoSales(txs, fx)) && GainsAdd(AverageSales(txs, fx))
  {
    hide CostOfFirst, BuyInto, CostAtAverage;
    if txs != [] {
      var init, t := txs[..|txs| - 1], txs[|txs| - 1];
      SameSellValue(init, fx);
      var f, a := FifoSales(init, fx), AverageSales(init, fx);
      if t.side == Buy {
        assert f + [] == f && a + [] == a;
      } else {
        var cf, ca := CostOfFirst(LotsAfter(init), t.qty, fx), CostAtAverage(RunningAfter(init, fx), t.qty);
        SaleValue(t, cf, fx);
        SaleValue(t, ca, fx);
        hide SaleOf;
        assert (f + [SaleOf(t, cf, fx)])[..|f|] == f && (a + [SaleOf(t, ca, fx)])[..|a|] == a;
      }
    }
  }

  lemma SaleValue(t: Tx, costBasis: real, fx: Fx)
    ensures SaleOf(t, costBasis, fx).sellValue == ValueKrw(t, fx)
    ensures SaleOf(t, costBasis, fx).gain == SaleOf(t, costBasis, fx).sellValue - costBasis
    ensures SaleOf(t, costBasis, fx).costBasis == costBasis
  {}

  /** A position that ends flat and was never oversold gains the same under both methods. */
  lemma {:induction false} MethodsAgreeWhenFlat(txs: seq<Tx>, fx: Fx)
    requires Positive(txs) && NeverOversold(txs) && Net(txs) == 0.0
    ensures TotalGain(FifoSales(txs, fx)) == TotalGain(AverageSales(txs, fx))
  {
    SameSellValue(txs, fx);
    GainIsValueLessCost(FifoSales(txs, fx));
    GainIsValueLessCost(AverageSales(txs, fx));
    FifoConservesCost(txs, fx);
    QueueHoldsLastUnits(txs);
    NeverOversoldIffUncapped(txs);
    DropUnitsShape(LotsAfter(txs), 0.0);
    assert CostOfAll(LotsAfter(txs), fx) == 0.0;
    NeverOversoldBuysLand(txs);
    AverageConservesCost(txs, fx);
    RunningTotalIsNet(txs, fx);
    NothingLeft(RunningAfter(txs, fx));
  }

  lemma NothingLeft(r: Running)
    requires r.totalQty == 0.0
    ensures Inventory(r) == 0.0
  {}

  // ---- agreement with the holdings walk ----

  /**
   Without FX and without oversells, the (average, quantity) walk and the (cost, quantity) walk describe the
   same position after every row, and the tax gains add up to the realised profit of the holdings table.
   */
  lemma {:induction false} AverageMatchesHoldings(txs: seq<Tx>, fx: Fx)
    requires Positive(txs) && NeverOversold(txs) && forall ts :: fx(ts) == 1.0
    ensures Walk(txs).qty == RunningAfter(txs, fx).totalQty
    ensures Walk(txs).cost == Inventory(RunningAfter(txs, fx))
    ensures Walk(txs).realized == TotalGain(AverageSales(txs, fx))
  {
    if txs != [] {
      hide Step, BuyInto, Inventory, SaleOf, CostAtAverage;
      var init, t := txs[..|txs| - 1], txs[|txs| - 1];
      NeverOversoldPrefix(txs, |txs| - 1);
      AverageMatchesHoldings(init, fx);
      NeverOversoldIffUncapped(init);
      NeverOversoldIffUncapped(txs);
      WalkQuantity(init);
      assert Net(init) >= 0.0 && Net(txs) >= 0.0;
      var p, r := Walk(init), RunningAfter(init, fx);
      var sales := AverageSales(init, fx);
      if t.side == Buy {
        BuyAgrees(p, r, t, fx);
        assert sales + [] == sales;
      } else {
        SellAgrees(p, r, t, fx);
        assert (sales + [SaleOf(t, CostAtAverage(r, t.qty), fx)])[..|sales|] == sales;
      }
    } else {
      EmptyInventory();
    }
  }

  lemma BuyAgrees(p: Position, r: Running, t: Tx, fx: Fx)
    requires t.side == Buy && t.qty > 0.0 && p.qty >= 0.0 && fx(t.at) == 1.0
    requires p.qty == r.totalQty && p.cost == Inventory(r)
    ensures Step(p, t) == Position(BuyInto(r, t, fx).totalQty, Inventory(BuyInto(r, t, fx)), p.realized)
  {
    StepBuy(p, t);
    hide Step;
    BuyKeepsCostIff(r, t, fx);
    assert BuyInto(r, t, fx).totalQty == r.totalQty + t.qty;
    hide Inventory, BuyInto;
    TimesOne(t.qty * t.price, fx(t.at));
  }

  lemma TimesOne(a: real, b: real)
    requires b == 1.0
    ensures a * b == a
  {}

  lemma SellAgrees(p: Position, r: Running, t: Tx, fx: Fx)
    requires t.side == Sell && 0.0 < t.qty <= p.qty && fx(t.at) == 1.0
    requires p.qty == r.totalQty && p.cost == Inventory(r)
    ensures Step(p, t) == Position(
      r.totalQty - t.qty,
      Inventory(r.(totalQty := r.totalQty - t.qty)),
      p.realized + SaleOf(t, CostAtAverage(r, t.qty), fx).gain)
  {
    var avg := p.cost / p.qty;
    StepSell(p, t, avg, t.qty);
    SaleValue(t, CostAtAverage(r, t.qty), fx);
    SellTakesAverage(r, t.qty);
    assert avg == r.avgUnitKrw by {
      SameProduct(p.qty, avg, r.totalQty, avg);
      Cancel(p.qty, avg, r.avgUnitKrw);
    }
    hide Step, SaleOf, Inventory;
    TimesOne(t.qty * t.price, fx(t.at));
    DiffTimes(t.price - avg, t.price, avg, t.qty);
    SameProduct(t.qty, avg, t.qty, r.avgUnitKrw);
    assert CostAtAverage(r, t.qty) == t.qty * avg;
  }

  lemma Cancel(q: real, a: real, b: real)
    requires q > 0.0 && q * a == b * q
    ensures a == b
  {
    if a < b { MulStrict(q, a, b); }
    if b < a { MulStrict(q, b, a); }
  }

  // ---- the service ----

  /**
   Average-cost sales of one year: the all-years run restricted to the year. Unlike FIFO, the oversell
   warning is raised for SELLs of every year.
   */
  method SalesAverage(txs: seq<Tx>, year: int, yearOf: int -> int, fx: Fx)
    returns (sales: seq<Sale>, oversoldAt: seq<int>)
    requires Positive(txs)
    ensures sales == InYear(AverageSales(txs, fx), year, yearOf)
    ensures oversoldAt == OversoldAnyYear(txs)
  {
    var totalQty, avgUnitKrw := 0.0, 0.0;
    sales, oversoldAt := [], [];
    for i := 0 to |txs|
      invariant Running(totalQty, avgUnitKrw) == RunningAfter(txs[..i], fx)
      invariant sales == InYear(AverageSales(txs[..i], fx), year, yearOf)
      invariant oversoldAt == OversoldAnyYear(txs[..i])
    {
      var tx := txs[i];
      AverageRow(txs, i, year, yearOf, fx);
      hide RunningAfter, AverageSales, InYear, SaleOf, OversoldAnyYear, Blend, ValueKrw, CostAtAverage;
      if tx.side == Buy {
        var newQty := totalQty + tx.qty;
        if newQty > 0.0 {
          var incomingKrw := ValueKrw(tx, fx);
          avgUnitKrw := Blend(avgUnitKrw, totalQty, incomingKrw, newQty);
        }
        totalQty := newQty;
      } else {
        if totalQty <= 0.0 || tx.qty > totalQty {
          oversoldAt := oversoldAt + [tx.at];
        }
        if yearOf(tx.at) == year {
          var costBasisKrw := CostAtAverage(Running(totalQty, avgUnitKrw), tx.qty);
          sales := sales + [SaleOf(tx, costBasisKrw, fx)];
        }
        totalQty := totalQty - tx.qty;
      }
    }
    assert txs[..|txs|] == txs;
  }

  lemma {:induction false} AverageRow(txs: seq<Tx>, i: nat, year: int, yearOf: int -> int, fx: Fx)
    requires i < |txs| && Positive(txs)
    ensures var pre, t := txs[..i], txs[i];
      && t.qty > 0.0
      && RunningAfter(txs[..i + 1], fx)
         == (if t.side == Buy then BuyInto(RunningAfter(pre, fx), t, fx)
             else Running(RunningAfter(pre, fx).totalQty - t.qty, RunningAfter(pre, fx).avgUnitKrw))
      && OversoldAnyYear(txs[..i + 1]) == OversoldAnyYear(pre)
         + (if t.side == Sell && t.qty > RunningAfter(pre, fx).totalQty then [t.at] else [])
      && InYear(AverageSales(txs[..i + 1], fx), year, yearOf) == InYear(AverageSales(pre, fx), year, yearOf)
         + (if t.side == Buy || yearOf(t.at) != year then []
            else [SaleOf(t, CostAtAverage(RunningAfter(pre, fx), t.qty), fx)])
  {
    var pre, t := txs[..i], txs[i];
    assert txs[..i + 1] == pre + [t] && txs[..i + 1][..i] == pre;
    RunningTotalIsNet(pre, fx);
    hide BuyInto, CostAtAverage;
    if t.side == Buy {
      assert AverageSales(txs[..i + 1], fx) == AverageSales(pre, fx);
    } else {
      InYearSnoc(AverageSales(pre, fx), SaleOf(t, CostAtAverage(RunningAfter(pre, fx), t.qty), fx), year, yearOf);
    }
  }
}
