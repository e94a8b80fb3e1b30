/**
 The FIFO cost matcher of the capital-gains estimator: a queue of BUY lots that SELLs consume from the
 front, shown to price each SELL unit by unit.
 */
module TaxLots {
  import opened Common
  import opened Ledger

  datatype Lot = Lot(at: int, qty: real, price: real)

  datatype Sale = Sale(soldAt: int, quantity: real, sellValue: real, costBasis: real, gain: real)

  /** A rate into KRW for every time; a missing snapshot falls back to a substitute rate, never to nothing. */
  type Fx = int -> real

  predicate PositiveLots(lots: seq<Lot>) { forall l | l in lots :: l.qty > 0.0 }

  function UnitCost(l: Lot, fx: Fx): real { l.price * fx(l.at) }

  function Units(lots: seq<Lot>): real {
    if lots == [] then 0.0 else lots[0].qty + Units(lots[1..])
  }

  // ---- the queue, as values ----

  /** What is left after the first x units are gone. */
  function DropUnits(lots: seq<Lot>, x: real): seq<Lot> {
    if lots == [] || x <= 0.0 then lots
    else if lots[0].qty <= x then DropUnits(lots[1..], x - lots[0].qty)
    else [lots[0].(qty := lots[0].qty - x)] + lots[1..]
  }

  /** The KRW cost of the first x units, or of all units when there are fewer. */
  function CostOfFirst(lots: seq<Lot>, x: real, fx: Fx): real {
    if lots == [] || x <= 0.0 then 0.0
    else Min(lots[0].qty, x) * UnitCost(lots[0], fx) + CostOfFirst(lots[1..], x - lots[0].qty, fx)
  }

  /** The KRW cost of everything in the queue. */
  function CostOfAll(lots: seq<Lot>, fx: Fx): real {
    if lots == [] then 0.0 else lots[0].qty * UnitCost(lots[0], fx) + CostOfAll(lots[1..], fx)
  }

  lemma {:induction false} DropUnitsShape(lots: seq<Lot>, x: real)
    requires PositiveLots(lots) && x >= 0.0
    ensures PositiveLots(DropUnits(lots, x))
    ensures Units(DropUnits(lots, x)) == Max(Units(lots) - x, 0.0)
    ensures Units(lots) >= 0.0 && (Units(lots) == 0.0 <==> lots == [])
  {
    if lots != [] {
      assert lots[0] in lots;
      DropUnitsShape(lots[1..], Max(x - lots[0].qty, 0.0));
      if 0.0 < x < lots[0].qty {
        var r := [lots[0].(qty := lots[0].qty - x)] + lots[1..];
        assert r[1..] == lots[1..];
      }
    }
  }

  lemma {:induction false} UnitsSnoc(lots: seq<Lot>, l: Lot)
    ensures Units(lots + [l]) == Units(lots) + l.qty
  {
    if lots == [] {
      assert lots + [l] == [l];
    } else {
      UnitsSnoc(lots[1..], l);
      assert (lots + [l])[1..] == lots[1..] + [l];
    }
  }

  /** A lot appended behind the consumed part is untouched. */
  lemma {:induction false} DropUnitsSnoc(lots: seq<Lot>, l: Lot, x: real)
    requires PositiveLots(lots) && 0.0 <= x <= Units(lots)
    ensures DropUnits(lots + [l], x) == DropUnits(lots, x) + [l]
  {
    if lots == [] || x == 0.0 {
    } else {
      assert lots[0] in lots;
      assert (lots + [l])[1..] == lots[1..] + [l];
      if lots[0].qty <= x {
        DropUnitsSnoc(lots[1..], l, x - lots[0].qty);
      }
    }
  }

  /** Consuming a and then b is consuming both together. */
  lemma {:induction false} DropUnitsAdds(lots: seq<Lot>, a: real, b: real)
    requires PositiveLots(lots) && a >= 0.0 && b >= 0.0
    ensures DropUnits(DropUnits(lots, a), b) == DropUnits(lots, a + b)
  {
    if lots != [] && a > 0.0 {
      assert lots[0] in lots;
      if lots[0].qty <= a {
        DropUnitsAdds(lots[1..], a - lots[0].qty, b);
        assert a - lots[0].qty + b == a + b - lots[0].qty;
      } else {
        var r := [lots[0].(qty := lots[0].qty - a)] + lots[1..];
        assert r[1..] == lots[1..];
      }
    }
  }

  // ---- the step function over units ----

  /** The length of [s, e) ∩ [a, b). */
  function Overlap(s: real, e: real, a: real, b: real): real {
    Max(Min(e, b) - Max(s, a), 0.0)
  }

  /**
   Number the units of `lots` from `off` on, and let the cost of a unit be its BUY price times its BUY
   rate: the sum of that step function over the units [a, b).
   */
  function CostBetween(lots: seq<Lot>, off: real, a: real, b: real, fx: Fx): real {
    if lots == [] then 0.0
    else Overlap(off, off + lots[0].qty, a, b) * UnitCost(lots[0], fx)
         + CostBetween(lots[1..], off + lots[0].qty, a, b, fx)
  }

  lemma {:induction false} CostBetweenEmpty(lots: seq<Lot>, off: real, a: real, b: real, fx: Fx)
    requires PositiveLots(lots) && (b <= off || b <= a)
    ensures CostBetween(lots, off, a, b, fx) == 0.0
  {
    hide UnitCost;
    if lots != [] {
      assert lots[0] in lots;
      CostBetweenEmpty(lots[1..], off + lots[0].qty, a, b, fx);
    }
  }

  /** From the front of the queue on, the step function sums to the cost of the first units. */
  lemma {:induction false} CostBetweenFront(lots: seq<Lot>, off: real, a: real, x: real, fx: Fx)
    requires PositiveLots(lots) && a <= off
    ensures CostBetween(lots, off, a, off + x, fx) == CostOfFirst(lots, x, fx)
  {
    hide UnitCost;
    if x <= 0.0 {
      CostBetweenEmpty(lots, off, a, off + x, fx);
    } else if lots != [] {
      assert lots[0] in lots;
      var q, u := lots[0].qty, UnitCost(lots[0], fx);
      CostBetweenFront(lots[1..], off + q, a, x - q, fx);
      assert off + q + (x - q) == off + x;
      hide Overlap, Min;
      OverlapFront(off, q, a, x);
      SameProduct(Overlap(off, off + q, a, off + x), u, Min(q, x), u);
    }
  }

  lemma OverlapFront(off: real, q: real, a: real, x: real)
    requires a <= off && q > 0.0 && x > 0.0
    ensures Overlap(off, off + q, a, off + x) == Min(q, x)
  {}

  /** What a SELL of q units pays after a units are gone is the step function over [a, a + q). */
  lemma {:induction false} CostOfFirstIsStepSum(lots: seq<Lot>, off: real, a: real, q: real, fx: Fx)
    requires PositiveLots(lots) && a >= 0.0 && q >= 0.0
    ensures CostOfFirst(DropUnits(lots, a), q, fx) == CostBetween(lots, off, off + a, off + a + q, fx)
  {
    hide UnitCost;
    if lots == [] {
    } else if a == 0.0 {
      CostBetweenFront(lots, off, off, q, fx);
    } else {
      assert lots[0] in lots;
      var l := lots[0];
      if l.qty <= a {
        CostOfFirstIsStepSum(lots[1..], off + l.qty, a - l.qty, q, fx);
        assert off + l.qty + (a - l.qty) == off + a;
        ZeroProduct(Overlap(off, off + l.qty, off + a, off + a + q), UnitCost(l, fx));
      } else {
        StepInsideLot(lots, off, a, q, fx);
      }
    }
  }

  lemma ZeroProduct(x: real, y: real)
    requires x == 0.0
    ensures x * y == 0.0
  {}

  /** What a number of units of one lot costs. */
  function PartCost(units: real, l: Lot, fx: Fx): real { units * UnitCost(l, fx) }

  lemma SamePart(units: real, a: Lot, b: Lot, fx: Fx)
    requires a.price == b.price && a.at == b.at
    ensures PartCost(units, a, fx) == PartCost(units, b, fx)
  {
    SameUnitCost(a, b, fx);
    hide UnitCost;
  }

  lemma {:induction false} CostBetweenUpto(lots: seq<Lot>, off: real, a: real, x: real, end: real, fx: Fx)
    requires PositiveLots(lots) && a <= off && end == off + x
    ensures CostBetween(lots, off, a, end, fx) == CostOfFirst(lots, x, fx)
  {
    CostBetweenFront(lots, off, a, x, fx);
  }

  lemma OverlapInside(off: real, width: real, a: real, q: real)
    requires 0.0 < a < width && q >= 0.0
    ensures Overlap(off, off + width, off + a, off + a + q) == Min(width - a, q)
  {}

  lemma FrontOf(lots: seq<Lot>, q: real, fx: Fx)
    requires lots != [] && lots[0].qty > 0.0 && q >= 0.0
    ensures CostOfFirst(lots, q, fx)
      == PartCost(Min(lots[0].qty, q), lots[0], fx) + CostOfFirst(lots[1..], q - lots[0].qty, fx)
  {
    hide UnitCost;
    if q == 0.0 {
      ZeroProduct(Min(lots[0].qty, q), UnitCost(lots[0], fx));
    }
  }

  lemma BetweenOf(lots: seq<Lot>, off: real, a: real, b: real, fx: Fx)
    requires lots != []
    ensures CostBetween(lots, off, a, b, fx) == PartCost(Overlap(off, off + lots[0].qty, a, b), lots[0], fx)
      + CostBetween(lots[1..], off + lots[0].qty, a, b, fx)
  {
    hide UnitCost, Overlap;
  }

  lemma StepInsideLot(lots: seq<Lot>, off: real, a: real, q: real, fx: Fx)
    requires lots != [] && PositiveLots(lots) && 0.0 < a < lots[0].qty && q >= 0.0
    ensures CostOfFirst(DropUnits(lots, a), q, fx) == CostBetween(lots, off, off + a, off + a + q, fx)
  {
    hide Overlap, PartCost, CostOfFirst, CostBetween, Min;
    var l, rest := lots[0], lots[1..];
    var cut := l.(qty := l.qty - a);
    var r := [cut] + rest;
    assert DropUnits(lots, a) == r && r[0] == cut && r[1..] == rest;
    hide DropUnits;
    OverlapInside(off, l.qty, a, q);
    FrontOf(r, q, fx);
    BetweenOf(lots, off, off + a, off + a + q, fx);
    CostBetweenUpto(rest, off + l.qty, off + a, q - cut.qty, off + a + q, fx);
    SamePart(Min(cut.qty, q), cut, l, fx);
  }

  lemma SameUnitCost(a: Lot, b: Lot, fx: Fx)
    requires a.price == b.price && a.at == b.at
    ensures UnitCost(a, fx) == UnitCost(b, fx)
  {}

  /** Lots bought later do not enter the sum over earlier units. */
  lemma {:induction false} CostBetweenIgnoresLater(lots: seq<Lot>, later: seq<Lot>, off: real, a: real, b: real, fx: Fx)
    requires PositiveLots(lots) && PositiveLots(later) && b <= off + Units(lots)
    ensures CostBetween(lots + later, off, a, b, fx) == CostBetween(lots, off, a, b, fx)
  {
    hide UnitCost, Overlap;
    if lots == [] {
      assert lots + later == later;
      CostBetweenEmpty(later, off, a, b, fx);
    } else {
      assert (lots + later)[1..] == lots[1..] + later;
      CostBetweenIgnoresLater(lots[1..], later, off + lots[0].qty, a, b, fx);
    }
  }

  // ---- the matcher over a history ----

  function LotOf(t: Tx): Lot { Lot(t.at, t.qty, t.price) }

  /** Every BUY of the history, as lots in order. */
  function AllBuys(txs: seq<Tx>): seq<Lot> {
    if txs == [] then []
    else
      var t := txs[|txs| - 1];
      AllBuys(txs[..|txs| - 1]) + (if t.side == Buy then [LotOf(t)] else [])
  }

  /** The queue after a history. */
  function LotsAfter(txs: seq<Tx>): seq<Lot> {
    if txs == [] then []
    else
      var t := txs[|txs| - 1];
      if t.side == Buy then LotsAfter(txs[..|txs| - 1]) + [LotOf(t)]
      else DropUnits(LotsAfter(txs[..|txs| - 1]), t.qty)
  }

  /** Quantity × price × rate of the trade date. */
  function ValueKrw(t: Tx, fx: Fx): real { t.qty * t.price * fx(t.at) }

  function SaleOf(t: Tx, costBasis: real, fx: Fx): Sale {
    var value := ValueKrw(t, fx);
    Sale(t.at, t.qty, value, costBasis, value - costBasis)
  }

  /** The sale every SELL of the history makes, in order. */
  function FifoSales(txs: seq<Tx>, fx: Fx): seq<Sale> {
    if txs == [] then []
    else
      var init, t := txs[..|txs| - 1], txs[|txs| - 1];
      FifoSales(init, fx)
      + if t.side == Buy then [] else [SaleOf(t, CostOfFirst(LotsAfter(init), t.qty, fx), fx)]
  }

  /** Units that have really left the position. */
  function Consumed(txs: seq<Tx>): real { Bought(txs) - Held(txs) }

  lemma {:induction false} AllBuysShape(txs: seq<Tx>)
    requires Positive(txs)
    ensures PositiveLots(AllBuys(txs)) && Units(AllBuys(txs)) == Bought(txs)
  {
    if txs != [] {
      var init, t := txs[..|txs| - 1], txs[|txs| - 1];
      AllBuysShape(init);
      UnitsSnoc(AllBuys(init), LotOf(t));
      assert AllBuys(init) + [] == AllBuys(init);
    }
  }

  /**
   Whatever the history, oversold or not, the queue holds exactly the last Held units bought: all BUY lots
   with the consumed units cut off the front.
   */
  lemma {:induction false} QueueHoldsLastUnits(txs: seq<Tx>)
    requires Positive(txs)
    ensures LotsAfter(txs) == DropUnits(AllBuys(txs), Consumed(txs))
    ensures Units(LotsAfter(txs)) == Held(txs) && PositiveLots(LotsAfter(txs))
    ensures 0.0 <= Consumed(txs) <= Bought(txs)
    ensures NeverOversold(txs) ==> Consumed(txs) == Sold(txs)
  {
    ConsumedBounds(txs);
    if txs != [] {
      var init, t := txs[..|txs| - 1], txs[|txs| - 1];
      assert txs == init + [t];
      QueueHoldsLastUnits(init);
      if t.side == Buy {
        QueueBuy(init, t);
      } else {
        QueueSell(init, t);
      }
    }
  }

  lemma {:induction false} ConsumedBounds(txs: seq<Tx>)
    requires Positive(txs)
    ensures Consumed(txs) <= Bought(txs)
    ensures NeverOversold(txs) ==> Consumed(txs) == Sold(txs)
  {
    HeldIsNonNegative(txs);
    NetIsBoughtLessSold(txs);
    NeverOversoldIffUncapped(txs);
  }

  ghost predicate QueueInvariant(txs: seq<Tx>) {
    && LotsAfter(txs) == DropUnits(AllBuys(txs), Consumed(txs))
    && Units(LotsAfter(txs)) == Held(txs) && PositiveLots(LotsAfter(txs))
    && 0.0 <= Consumed(txs) <= Bought(txs)
  }

  lemma QueueBuy(init: seq<Tx>, t: Tx)
    requires Positive(init) && t.qty > 0.0 && t.side == Buy && QueueInvariant(init)
    ensures QueueInvariant(init + [t])
  {
    assert (init + [t])[..|init|] == init;
    AllBuysShape(init);
    HeldStep(init, t);
    hide DropUnits, Held;
    DropUnitsSnoc(AllBuys(init), LotOf(t), Consumed(init));
    UnitsSnoc(LotsAfter(init), LotOf(t));
  }

  /** A SELL buys no lots and cuts its units off the queue. */
  lemma {:induction false} SellCutsQueue(init: seq<Tx>, t: Tx)
    requires t.side == Sell
    ensures AllBuys(init + [t]) == AllBuys(init) && Bought(init + [t]) == Bought(init)
    ensures LotsAfter(init + [t]) == DropUnits(LotsAfter(init), t.qty)
  {
    hide DropUnits;
    assert (init + [t])[..|init|] == init;
    assert AllBuys(init) + [] == AllBuys(init);
  }

  lemma QueueSell(init: seq<Tx>, t: Tx)
    requires Positive(init) && t.qty > 0.0 && t.side == Sell && QueueInvariant(init)
    ensures QueueInvariant(init + [t])
  {
    hide DropUnits, Held, AllBuys, LotsAfter, Bought, Units;
    AllBuysShape(init);
    HeldStep(init, t);
    SellCutsQueue(init, t);
    SellDrops(AllBuys(init), Consumed(init), t.qty);
  }

  /** A SELL beyond the end of the queue empties it, as consuming exactly the rest would. */
  lemma {:induction false} SellDrops(buys: seq<Lot>, consumed: real, q: real)
    requires PositiveLots(buys) && 0.0 <= consumed <= Units(buys) && q > 0.0
    ensures var rest := DropUnits(DropUnits(buys, consumed), q);
      && rest == DropUnits(buys, Min(consumed + q, Units(buys)))
      && Units(rest) == Max(Units(buys) - consumed - q, 0.0)
      && PositiveLots(rest)
  {
    hide DropUnits;
    DropUnitsShape(buys, consumed);
    DropUnitsShape(DropUnits(buys, consumed), q);
    DropUnitsAdds(buys, consumed, q);
    if consumed + q > Units(buys) {
      DropsAll(buys, consumed + q);
      DropsAll(buys, Units(buys));
    }
  }

  lemma {:induction false} DropsAll(lots: seq<Lot>, x: real)
    requires PositiveLots(lots) && x >= Units(lots)
    ensures DropUnits(lots, x) == []
  {
    DropUnitsShape(lots, Max(x, 0.0));
    DropUnitsShape(DropUnits(lots, Max(x, 0.0)), 0.0);
  }

  /** The sale made by one SELL is the last one listed when its history ends there. */
  function LastSale(txs: seq<Tx>, fx: Fx): Sale
    requires txs != [] && txs[|txs| - 1].side == Sell
  {
    FifoSales(txs, fx)[|FifoSales(txs, fx)| - 1]
  }

  /**
   Unit-level FIFO: the k-th row, a SELL, is charged the BUY price × BUY rate of units number
   Consumed(before) to Consumed(after) of everything ever bought. In a history that is never oversold these
   are the units numbered by what was sold before and after.
   */
  lemma {:induction false} FifoChargesTheUnitsSold(txs: seq<Tx>, k: nat, fx: Fx)
    requires Positive(txs) && k < |txs| && txs[k].side == Sell
    ensures LastSale(txs[..k + 1], fx).costBasis
      == CostBetween(AllBuys(txs), 0.0, Consumed(txs[..k]), Consumed(txs[..k + 1]), fx)
    ensures NeverOversold(txs) ==> Consumed(txs[..k]) == Sold(txs[..k]) && Consumed(txs[..k + 1]) == Sold(txs[..k + 1])
  {
    hide CostBetween, AllBuys, Consumed, Sold, FifoSales, LastSale, NeverOversold;
    var before := txs[..k];
    assert txs[..k + 1] == before + [txs[k]];
    assert Positive(before) && Positive(txs[..k + 1]);
    ChargeOfLastRow(before, txs[k], fx);
    var later := LaterBuys(txs, k);
    AllBuysShape(before);
    CostBetweenIgnoresLater(AllBuys(before), later, 0.0, Consumed(before), Consumed(txs[..k + 1]), fx);
    if NeverOversold(txs) {
      NeverOversoldPrefix(txs, k);
      NeverOversoldPrefix(txs, k + 1);
      QueueHoldsLastUnits(before);
      QueueHoldsLastUnits(txs[..k + 1]);
    }
  }

  lemma {:induction false} LastSaleCost(before: seq<Tx>, t: Tx, fx: Fx)
    requires t.side == Sell
    ensures LastSale(before + [t], fx).costBasis == CostOfFirst(LotsAfter(before), t.qty, fx)
  {
    hide CostOfFirst, LotsAfter;
    assert (before + [t])[..|before|] == before;
  }

  lemma {:induction false} ChargeOfLastRow(before: seq<Tx>, t: Tx, fx: Fx)
    requires Positive(before) && t.qty > 0.0 && t.side == Sell
    ensures LastSale(before + [t], fx).costBasis
      == CostBetween(AllBuys(before), 0.0, Consumed(before), Consumed(before + [t]), fx)
    ensures Consumed(before + [t]) <= Units(AllBuys(before))
  {
    hide DropUnits, CostOfFirst, CostBetween, Held, AllBuys, LotsAfter, Bought, Units, FifoSales, LastSale;
    var after := before + [t];
    var a := Consumed(before);
    QueueHoldsLastUnits(before);
    AllBuysShape(before);
    HeldStep(before, t);
    SellCutsQueue(before, t);
    LastSaleCost(before, t, fx);
    CostOfFirstIsStepSum(AllBuys(before), 0.0, a, t.qty, fx);
    if Held(before) < t.qty {
      CostBetweenBeyondEnd(AllBuys(before), 0.0, a, a + t.qty, Consumed(after), fx);
    }
  }

  lemma {:induction false} LaterBuys(txs: seq<Tx>, k: nat) returns (later: seq<Lot>)
    requires Positive(txs) && k <= |txs|
    ensures AllBuys(txs) == AllBuys(txs[..k]) + later && PositiveLots(later)
  {
    if k == |txs| {
      assert txs[..k] == txs;
      later := [];
    } else {
      var init, t := txs[..|txs| - 1], txs[|txs| - 1];
      later := LaterBuys(init, k);
      assert init[..k] == txs[..k];
      if t.side == Buy {
        later := later + [LotOf(t)];
      }
    }
  }

  lemma {:induction false} CostBetweenBeyondEnd(lots: seq<Lot>, off: real, a: real, b: real, e: real, fx: Fx)
    requires PositiveLots(lots) && b >= e && e == off + Units(lots)
    ensures CostBetween(lots, off, a, b, fx) == CostBetween(lots, off, a, e, fx)
  {
    hide UnitCost, DropUnits, Overlap;
    if lots != [] {
      var l, rest := lots[0], lots[1..];
      assert forall k | k in rest :: k in lots;
      DropUnitsShape(rest, 0.0);
      CostBetweenBeyondEnd(rest, off + l.qty, a, b, e, fx);
      OverlapBeyondEnd(off, off + l.qty, a, b, e);
    }
  }

  lemma OverlapBeyondEnd(lo: real, hi: real, a: real, b: real, e: real)
    requires hi <= e <= b
    ensures Overlap(lo, hi, a, b) == Overlap(lo, hi, a, e)
  {}

  // ---- conservation ----

  function TotalCostBasis(sales: seq<Sale>): real {
    if sales == [] then 0.0 else TotalCostBasis(sales[..|sales| - 1]) + sales[|sales| - 1].costBasis
  }

  function TotalSellValue(sales: seq<Sale>): real {
    if sales == [] then 0.0 else TotalSellValue(sales[..|sales| - 1]) + sales[|sales| - 1].sellValue
  }

  function TotalGain(sales: seq<Sale>): real {
    if sales == [] then 0.0 else TotalGain(sales[..|sales| - 1]) + sales[|sales| - 1].gain
  }

  predicate GainsAdd(sales: seq<Sale>) { forall s | s in sales :: s.gain == s.sellValue - s.costBasis }

  lemma {:induction false} GainIsValueLessCost(sales: seq<Sale>)
    requires GainsAdd(sales)
    ensures TotalGain(sales) == TotalSellValue(sales) - TotalCostBasis(sales)
  {
    if sales != [] {
      GainIsValueLessCost(sales[..|sales| - 1]);
    }
  }

  /** Σ quantity × price × rate over the BUY rows. */
  function BuyCostKrw(txs: seq<Tx>, fx: Fx): real {
    if txs == [] then 0.0
    else
      var t := txs[|txs| - 1];
      BuyCostKrw(txs[..|txs| - 1], fx) + (if t.side == Buy then ValueKrw(t, fx) else 0.0)
  }

  /** Cutting the queue splits its cost. */
  lemma {:induction false} CostSplits(lots: seq<Lot>, x: real, fx: Fx)
    requires PositiveLots(lots) && x >= 0.0
    ensures CostOfAll(lots, fx) == CostOfFirst(lots, x, fx) + CostOfAll(DropUnits(lots, x), fx)
  {
    hide UnitCost;
    if lots != [] && x > 0.0 {
      assert lots[0] in lots;
      var l := lots[0];
      if l.qty <= x {
        CostSplits(lots[1..], x - l.qty, fx);
      } else {
        var cut := l.(qty := l.qty - x);
        assert ([cut] + lots[1..])[1..] == lots[1..];
        SameUnitCost(l, cut, fx);
        SumTimes(l.qty, x, cut.qty, UnitCost(l, fx));
        SameProduct(cut.qty, UnitCost(cut, fx), cut.qty, UnitCost(l, fx));
      }
    }
  }

  lemma {:induction false} CostOfAllSnoc(lots: seq<Lot>, l: Lot, fx: Fx)
    ensures CostOfAll(lots + [l], fx) == CostOfAll(lots, fx) + l.qty * UnitCost(l, fx)
  {
    hide UnitCost;
    if lots == [] {
      assert lots + [l] == [l];
    } else {
      CostOfAllSnoc(lots[1..], l, fx);
      assert (lots + [l])[1..] == lots[1..] + [l];
    }
  }

  /** FIFO conserves cost: matched cost plus the cost still in the queue is everything paid, always. */
  lemma {:induction false} FifoConservesCost(txs: seq<Tx>, fx: Fx)
    requires Positive(txs)
    ensures TotalCostBasis(FifoSales(txs, fx)) + CostOfAll(LotsAfter(txs), fx) == BuyCostKrw(txs, fx)
  {
    if txs == [] {
      NothingCosts(fx);
    } else {
      var init, t := txs[..|txs| - 1], txs[|txs| - 1];
      assert Positive(init) && t in txs;
      hide *;
      FifoConservesCost(init, fx);
      FifoCostStep(init, t, fx);
      assert txs == init + [t];
    }
  }

  lemma NothingCosts(fx: Fx)
    ensures TotalCostBasis(FifoSales([], fx)) + CostOfAll(LotsAfter([]), fx) == 0.0 == BuyCostKrw([], fx)
  {
    assert FifoSales([], fx) == [] && LotsAfter([]) == [];
  }

  lemma {:induction false} FifoCostStep(init: seq<Tx>, t: Tx, fx: Fx)
    requires Positive(init) && t.qty > 0.0
    ensures TotalCostBasis(FifoSales(init + [t], fx)) + CostOfAll(LotsAfter(init + [t]), fx)
      - BuyCostKrw(init + [t], fx)
      == TotalCostBasis(FifoSales(init, fx)) + CostOfAll(LotsAfter(init), fx) - BuyCostKrw(init, fx)
  {
    hide CostOfFirst, DropUnits, CostOfAll, SaleOf, UnitCost, ValueKrw;
    assert (init + [t])[..|init|] == init;
    QueueHoldsLastUnits(init);
    if t.side == Buy {
      CostOfAllSnoc(LotsAfter(init), LotOf(t), fx);
      LotCost(t, fx);
      assert FifoSales(init, fx) + [] == FifoSales(init, fx);
    } else {
      var cost := CostOfFirst(LotsAfter(init), t.qty, fx);
      CostSplits(LotsAfter(init), t.qty, fx);
      SaleCost(t, cost, fx);
      assert (FifoSales(init, fx) + [SaleOf(t, cost, fx)])[..|FifoSales(init, fx)|] == FifoSales(init, fx);
    }
  }

  lemma SaleCost(t: Tx, costBasis: real, fx: Fx)
    ensures SaleOf(t, costBasis, fx).costBasis == costBasis
  {}

  lemma LotCost(t: Tx, fx: Fx)
    ensures LotOf(t).qty * UnitCost(LotOf(t), fx) == ValueKrw(t, fx)
  {
    MulAssoc(t.qty, t.price, fx(t.at));
  }

  lemma MulAssoc(a: real, b: real, c: real)
    ensures a * (b * c) == a * b * c
  {}

  // ---- the service ----

  /** The times of the in-year SELLs that exceed the holding. */
  function OversoldInYear(txs: seq<Tx>, year: int, yearOf: int -> int): seq<int> {
    if txs == [] then []
    else
      var init, t := txs[..|txs| - 1], txs[|txs| - 1];
      OversoldInYear(init, year, yearOf)
      + if t.side == Sell && yearOf(t.at) == year && t.qty > Held(init) then [t.at] else []
  }

  ghost function YearlyGains(sales: seq<Sale>, yearOf: int -> int, years: set<int>): map<int, real> {
    map y | y in years :: TotalGain(InYear(sales, y, yearOf))
  }

  /** The reported years partition the all-years run: their gains add up to its gain. */
  lemma {:induction false} YearsPartitionGains(sales: seq<Sale>, yearOf: int -> int, years: set<int>)
    requires forall i | 0 <= i < |sales| :: yearOf(sales[i].soldAt) in years
    ensures Total(YearlyGains(sales, yearOf, years)) == TotalGain(sales)
  {
    hide InYear, Total;
    var gains := YearlyGains(sales, yearOf, years);
    if sales == [] {
      forall y | y in gains ensures gains[y] == 0.0 {
        NoSales(y, yearOf);
      }
      AllZero(gains);
    } else {
      var init, s := sales[..|sales| - 1], sales[|sales| - 1];
      var before := YearlyGains(init, yearOf, years);
      YearsPartitionGains(init, yearOf, years);
      var y := yearOf(s.soldAt);
      TotalUpdate(before, y, before[y] + s.gain);
      forall z | z in years ensures gains[z] == if z == y then before[z] + s.gain else before[z] {
        assert sales == init + [s];
        YearGainStep(init, s, z, yearOf);
      }
      assert gains == before[y := before[y] + s.gain];
    }
  }

  lemma {:induction false} NoSales(year: int, yearOf: int -> int)
    ensures InYear([], year, yearOf) == []
  {}

  lemma {:induction false} YearGainStep(init: seq<Sale>, s: Sale, year: int, yearOf: int -> int)
    ensures TotalGain(InYear(init + [s], year, yearOf))
      == TotalGain(InYear(init, year, yearOf)) + if yearOf(s.soldAt) == year then s.gain else 0.0
  {
    InYearSnoc(init, s, year, yearOf);
    var kept := InYear(init, year, yearOf);
    assert kept + [] == kept && (kept + [s])[..|kept|] == kept;
  }

  /** The sales of one calendar year, in order. */
  function InYear(sales: seq<Sale>, year: int, yearOf: int -> int): seq<Sale> {
    if sales == [] then []
    else
      var s := sales[|sales| - 1];
      InYear(sales[..|sales| - 1], year, yearOf) + (if yearOf(s.soldAt) == year then [s] else [])
  }

  lemma {:induction false} InYearSnoc(sales: seq<Sale>, s: Sale, year: int, yearOf: int -> int)
    ensures InYear(sales + [s], year, yearOf)
      == InYear(sales, year, yearOf) + (if yearOf(s.soldAt) == year then [s] else [])
  {
    assert (sales + [s])[..|sales|] == sales;
  }

  /** The deque of open lots. */
  class LotQueue {
    var lots: seq<Lot>

    constructor ()
      ensures lots == []
    {
      lots := [];
    }

    method Append(l: Lot)
      modifies this
      ensures lots == old(lots) + [l]
    {
      lots := lots + [l];
    }

    /** Discards `quantity` units from the front; no cost is computed. */
    method ConsumeLots(quantity: real)
      requires PositiveLots(lots) && quantity > 0.0
      modifies this
      ensures lots == DropUnits(old(lots), quantity) && PositiveLots(lots)
    {
      var qtyRemaining := quantity;
      ghost var gone := 0.0;
      while qtyRemaining > 0.0 && lots != []
        invariant gone == quantity - qtyRemaining && gone >= 0.0 && qtyRemaining >= 0.0
        invariant DropUnits(lots, qtyRemaining) == DropUnits(old(lots), quantity)
        invariant PositiveLots(lots)
        decreases |lots|, qtyRemaining > 0.0
      {
        var lot := lots[0];
        assert lot in lots;
        var take := Min(lot.qty, qtyRemaining);
        gone := gone + take;
        qtyRemaining := qtyRemaining - take;
        var newLotQty := lot.qty - take;
        if newLotQty == 0.0 {
          lots := lots[1..];
        } else {
          lots := [lot.(qty := newLotQty)] + lots[1..];
        }
      }
      DropUnitsShape(old(lots), quantity);
    }

    /** Matches one in-year SELL: consumes the same units and totals their cost. */
    method MatchSell(quantity: real, fx: Fx) returns (costBasisKrw: real, oversold: bool)
      requires PositiveLots(lots) && quantity > 0.0
      modifies this
      ensures lots == DropUnits(old(lots), quantity) && PositiveLots(lots)
      ensures costBasisKrw == CostOfFirst(old(lots), quantity, fx)
      ensures oversold <==> quantity > Units(old(lots))
    {
      hide DropUnits, CostOfFirst, PartCost, Units, UnitCost;
      var qtyRemaining := quantity;
      costBasisKrw := 0.0;
      while qtyRemaining > 0.0 && lots != []
        invariant qtyRemaining >= 0.0
        invariant DropUnits(lots, qtyRemaining) == DropUnits(old(lots), quantity)
        invariant costBasisKrw + CostOfFirst(lots, qtyRemaining, fx) == CostOfFirst(old(lots), quantity, fx)
        invariant qtyRemaining - Units(lots) == quantity - Units(old(lots))
        invariant PositiveLots(lots)
        decreases |lots|, qtyRemaining > 0.0
      {
        var lot := lots[0];
        var take := Min(lot.qty, qtyRemaining);
        var lotCostLocal := take * lot.price;
        var buyFx := fx(lot.at);
        PartCostIs(lot, take, fx, lotCostLocal, buyFx);
        TakeFromFront(lots, qtyRemaining, fx);
        costBasisKrw := costBasisKrw + lotCostLocal * buyFx;
        qtyRemaining := qtyRemaining - take;
        var newLotQty := lot.qty - take;
        if newLotQty == 0.0 {
          lots := lots[1..];
        } else {
          lots := [lot.(qty := newLotQty)] + lots[1..];
        }
      }
      NothingToTake(lots, qtyRemaining, fx);
      oversold := qtyRemaining > 0.0;
    }
  }

  lemma PartCostIs(l: Lot, take: real, fx: Fx, local: real, rate: real)
    requires local == take * l.price && rate == fx(l.at)
    ensures local * rate == PartCost(take, l, fx)
  {
    MulAssoc(take, l.price, rate);
    SameProduct(local, rate, take * l.price, rate);
  }

  /** One round of matching: what it takes from the front lot, and what is left to match against what is left. */
  lemma TakeFromFront(lots: seq<Lot>, q: real, fx: Fx)
    requires lots != [] && PositiveLots(lots) && q > 0.0
    ensures var l, take := lots[0], Min(lots[0].qty, q);
      var left := if l.qty - take == 0.0 then lots[1..] else [l.(qty := l.qty - take)] + lots[1..];
      && DropUnits(left, q - take) == DropUnits(lots, q)
      && CostOfFirst(lots, q, fx) == PartCost(take, l, fx) + CostOfFirst(left, q - take, fx)
      && Units(lots) == take + Units(left) && PositiveLots(left)
  {
    hide UnitCost;
    var l, take, rest := lots[0], Min(lots[0].qty, q), lots[1..];
    assert l in lots && forall k | k in rest :: k in lots;
    if l.qty > q {
      var cut := l.(qty := l.qty - take);
      assert ([cut] + rest)[0] == cut && ([cut] + rest)[1..] == rest;
    }
  }

  lemma {:induction false} NothingToTake(lots: seq<Lot>, q: real, fx: Fx)
    requires PositiveLots(lots) && q >= 0.0 && (q == 0.0 || lots == [])
    ensures DropUnits(lots, q) == lots && CostOfFirst(lots, q, fx) == 0.0
    ensures q > 0.0 ==> Units(lots) == 0.0
    ensures Units(lots) >= 0.0
  {
    DropUnitsShape(lots, 0.0);
  }

  /**
   FIFO sales of one year. Rows of other years go through the same queue, so the result is the all-years run
   restricted to the year; a warning is raised for each in-year SELL that exceeds what was held.
   */
  method SalesFifo(txs: seq<Tx>, year: int, yearOf: int -> int, fx: Fx)
    returns (sales: seq<Sale>, oversoldAt: seq<int>)
    requires Positive(txs)
    ensures sales == InYear(FifoSales(txs, fx), year, yearOf)
    ensures oversoldAt == OversoldInYear(txs, year, yearOf)
  {
    var lots := new LotQueue();
    sales, oversoldAt := [], [];
    NoRows(year, yearOf, fx);
    assert txs[..0] == [];
    hide DropUnits, CostOfFirst, SaleOf, Held, LotsAfter, FifoSales, InYear, OversoldInYear, Units, LotOf;
    for i := 0 to |txs|
      invariant lots.lots == LotsAfter(txs[..i])
      invariant sales == InYear(FifoSales(txs[..i], fx), year, yearOf)
      invariant oversoldAt == OversoldInYear(txs[..i], year, yearOf)
    {
      var tx := txs[i];
      OversoldSnoc(txs, i, year, yearOf);
      FifoRow(txs, i, year, yearOf, fx);
      if tx.side == Buy {
        lots.Append(LotOf(tx));
      } else if yearOf(tx.at) != year {
        lots.ConsumeLots(tx.qty);
      } else {
        var costBasisKrw, oversold := lots.MatchSell(tx.qty, fx);
        if oversold {
          oversoldAt := oversoldAt + [tx.at];
        }
        sales := sales + [SaleOf(tx, costBasisKrw, fx)];
      }
    }
    assert txs[..|txs|] == txs;
  }

  lemma {:induction false} NoRows(year: int, yearOf: int -> int, fx: Fx)
    ensures LotsAfter([]) == [] && InYear(FifoSales([], fx), year, yearOf) == []
      && OversoldInYear([], year, yearOf) == []
  {}

  lemma {:induction false} OversoldSnoc(txs: seq<Tx>, i: nat, year: int, yearOf: int -> int)
    requires i < |txs|
    ensures OversoldInYear(txs[..i + 1], year, yearOf) == OversoldInYear(txs[..i], year, yearOf)
      + if txs[i].side == Sell && yearOf(txs[i].at) == year && txs[i].qty > Held(txs[..i]) then [txs[i].at] else []
  {
    assert txs[..i + 1][..i] == txs[..i];
  }

  /** What the i-th row does to the queue and to the reported sales. */
  lemma {:induction false} FifoRow(txs: seq<Tx>, i: nat, year: int, yearOf: int -> int, fx: Fx)
    requires Positive(txs) && i < |txs|
    ensures var pre, t := txs[..i], txs[i];
      && PositiveLots(LotsAfter(pre)) && Units(LotsAfter(pre)) == Held(pre)
      && LotsAfter(txs[..i + 1])
         == (if t.side == Buy then LotsAfter(pre) + [LotOf(t)] else DropUnits(LotsAfter(pre), t.qty))
      && InYear(FifoSales(txs[..i + 1], fx), year, yearOf) == InYear(FifoSales(pre, fx), year, yearOf)
         + (if t.side == Buy || yearOf(t.at) != year then []
            else [SaleOf(t, CostOfFirst(LotsAfter(pre), t.qty, fx), fx)])
  {
    var pre, t := txs[..i], txs[i];
    assert txs[..i + 1] == pre + [t] && txs[..i + 1][..i] == pre;
    QueueHoldsLastUnits(pre);
    hide DropUnits, CostOfFirst;
    if t.side == Buy {
      assert FifoSales(txs[..i + 1], fx) == FifoSales(pre, fx);
    } else {
      InYearSnoc(FifoSales(pre, fx), SaleOf(t, CostOfFirst(LotsAfter(pre), t.qty, fx), fx), year, yearOf);
    }
  }
}
