/**
 The moving-average position walk of the holdings repository and of the per-asset summary.
 */
module MovingAverage {
  import opened Common
  import opened Ledger

  datatype Position = Position(qty: real, cost: real, realized: real)

  const FLAT := Position(0.0, 0.0, 0.0)

  function AverageOf(p: Position): real { if p.qty > 0.0 then p.cost / p.qty else 0.0 }

  /** One BUY or SELL row; a SELL beyond the holding is silently capped. */
  function Step(p: Position, t: Tx): Position {
    if t.side == Buy then Position(p.qty + t.qty, p.cost + t.qty * t.price, p.realized)
    else if p.qty > 0.0 then
      var avg := p.cost / p.qty;
      var sold := if t.qty <= p.qty then t.qty else p.qty;
      Position(p.qty - sold, p.cost - sold * avg, p.realized + (t.price - avg) * sold)
    else p
  }

  function Walk(txs: seq<Tx>): Position {
    if txs == [] then FLAT else Step(Walk(txs[..|txs| - 1]), txs[|txs| - 1])
  }

  lemma {:induction false} WalkSnoc(txs: seq<Tx>, t: Tx)
    ensures Walk(txs + [t]) == Step(Walk(txs), t)
  {
    assert (txs + [t])[..|txs|] == txs;
  }

  lemma PartOfProduct(q: real, avg: real, s: real)
    requires q * avg >= 0.0 && 0.0 < s <= q
    ensures 0.0 <= s * avg <= q * avg
    ensures s < q && q * avg > 0.0 ==> s * avg < q * avg
  {
    if avg < 0.0 { MulStrict(q, avg, 0.0); }
    DiffTimes(q - s, q, s, avg);
    MulMono(avg, s, q);
    if s < q && avg > 0.0 { MulStrict(avg, s, q); }
  }

  lemma StepBuy(p: Position, t: Tx)
    requires t.side == Buy
    ensures Step(p, t) == Position(p.qty + t.qty, p.cost + t.qty * t.price, p.realized)
  {}

  lemma StepNothing(p: Position, t: Tx)
    requires t.side == Sell && p.qty <= 0.0
    ensures Step(p, t) == p
  {}

  lemma StepSell(p: Position, t: Tx, avg: real, sold: real)
    requires t.side == Sell && p.qty > 0.0 && avg == p.cost / p.qty
    requires sold == if t.qty <= p.qty then t.qty else p.qty
    ensures Step(p, t) == Position(p.qty - sold, p.cost - sold * avg, p.realized + (t.price - avg) * sold)
    ensures p.qty * avg == p.cost
  {
    DivMul(p.cost, p.qty);
  }

  /** A position that is well formed stays so, and its quantity follows the cap. */
  predicate Sound(p: Position) {
    p.qty >= 0.0 && p.cost >= 0.0 && (p.qty == 0.0 <==> p.cost == 0.0)
  }

  lemma StepSound(p: Position, t: Tx)
    requires Sound(p) && t.qty > 0.0 && t.price > 0.0
    ensures Sound(Step(p, t)) && Step(p, t).qty == Capped(p.qty, t)
  {
    if t.side == Buy {
      assert t.qty * t.price > 0.0;
    } else if p.qty > 0.0 {
      var sold := if t.qty <= p.qty then t.qty else p.qty;
      StepSell(p, t, p.cost / p.qty, sold);
      PartOfProduct(p.qty, p.cost / p.qty, sold);
    }
  }

  lemma StepCaps(p: Position, t: Tx)
    requires p.qty >= 0.0 && t.qty >= 0.0
    ensures Step(p, t).qty == Capped(p.qty, t)
  {}

  /** The quantity alone needs no positive rows: a row of zero leaves the holding and its closed form as they are. */
  lemma {:induction false} WalkedQuantity(txs: seq<Tx>)
    requires forall t | t in txs :: t.qty >= 0.0
    ensures Walk(txs).qty == Held(txs) >= 0.0
  {
    if txs != [] {
      var init, t := txs[..|txs| - 1], txs[|txs| - 1];
      assert txs == init + [t];
      WalkedQuantity(init);
      HeldStep(init, t);
      StepCaps(Walk(init), t);
    }
  }

  /** The walked quantity has the closed form of the capped holding; a flat position costs nothing. */
  lemma {:induction false} WalkQuantity(txs: seq<Tx>)
    requires Positive(txs)
    ensures Walk(txs).qty == Held(txs) >= 0.0
    ensures Sound(Walk(txs))
  {
    if txs != [] {
      var init, t := txs[..|txs| - 1], txs[|txs| - 1];
      assert txs == init + [t];
      WalkQuantity(init);
      HeldStep(init, t);
      StepSound(Walk(init), t);
    }
  }

  // ---- conservation of money ----

  /** Σ quantity × price over the BUY rows. */
  function Invested(txs: seq<Tx>): real {
    if txs == [] then 0.0
    else
      var t := txs[|txs| - 1];
      Invested(txs[..|txs| - 1]) + (if t.side == Buy then t.qty * t.price else 0.0)
  }

  /** Σ quantity × price over the SELL rows, as recorded. */
  function SoldValue(txs: seq<Tx>): real {
    if txs == [] then 0.0
    else
      var t := txs[|txs| - 1];
      SoldValue(txs[..|txs| - 1]) + (if t.side == Sell then t.qty * t.price else 0.0)
  }

  /** Σ price × the part of each SELL that was really held. */
  function Proceeds(txs: seq<Tx>): real {
    if txs == [] then 0.0
    else
      var init, t := txs[..|txs| - 1], txs[|txs| - 1];
      Proceeds(init) + (if t.side == Sell then Min(t.qty, Held(init)) * t.price else 0.0)
  }

  /** At every prefix the realised profit is proceeds minus the cost that has left the position. */
  lemma {:induction false} MoneyIsConserved(txs: seq<Tx>)
    requires Positive(txs)
    ensures Walk(txs).realized == Proceeds(txs) - (Invested(txs) - Walk(txs).cost)
  {
    hide Step;
    if txs != [] {
      var init, t := txs[..|txs| - 1], txs[|txs| - 1];
      MoneyIsConserved(init);
      WalkQuantity(init);
      MoneyStep(Walk(init), t);
    }
  }

  lemma MoneyStep(p: Position, t: Tx)
    requires p.qty >= 0.0 && t.qty > 0.0
    ensures Step(p, t).realized - Step(p, t).cost
      == p.realized - p.cost
         + if t.side == Buy then -(t.qty * t.price) else Min(t.qty, p.qty) * t.price
  {
    if t.side == Sell && p.qty > 0.0 {
      var avg, sold := p.cost / p.qty, if t.qty <= p.qty then t.qty else p.qty;
      StepSell(p, t, avg, sold);
      DiffTimes(t.price - avg, t.price, avg, sold);
    }
  }

  lemma {:induction false} ProceedsUncapped(txs: seq<Tx>)
    requires NeverOversold(txs)
    ensures Proceeds(txs) == SoldValue(txs)
  {
    if txs != [] {
      var init, t := txs[..|txs| - 1], txs[|txs| - 1];
      NeverOversoldPrefix(txs, |txs| - 1);
      ProceedsUncapped(init);
      NeverOversoldIffUncapped(init);
      assert txs[..|txs|] == txs;
      assert Net(txs) >= 0.0;
    }
  }

  /** In a history that is never oversold the recorded totals alone explain the profit. */
  lemma {:induction false} SummaryIdentity(txs: seq<Tx>)
    requires Positive(txs) && NeverOversold(txs)
    ensures Walk(txs).realized == SoldValue(txs) - Invested(txs) + Walk(txs).cost
  {
    MoneyIsConserved(txs);
    ProceedsUncapped(txs);
  }

  /** Selling part of a position leaves its average price as it was. */
  lemma SellKeepsAverage(p: Position, t: Tx)
    requires t.side == Sell && 0.0 < t.qty < p.qty
    ensures AverageOf(Step(p, t)) == AverageOf(p)
  {
    var avg := p.cost / p.qty;
    var rest := p.qty - t.qty;
    DivMul(p.cost, p.qty);
    DiffTimes(rest, p.qty, t.qty, avg);
    StepSell(p, t, avg, t.qty);
    DivMul(Step(p, t).cost, rest);
    if Step(p, t).cost / rest != avg {
      if avg < Step(p, t).cost / rest { MulStrict(rest, avg, Step(p, t).cost / rest); }
      else { MulStrict(rest, Step(p, t).cost / rest, avg); }
    }
  }

  // ---- the range of the average ----

  /** The length of the longest prefix after which nothing was held. */
  function LastFlat(txs: seq<Tx>): nat {
    if txs == [] || Held(txs) == 0.0 then |txs| else LastFlat(txs[..|txs| - 1])
  }

  lemma {:induction false} LastFlatIsLast(txs: seq<Tx>)
    ensures LastFlat(txs) <= |txs| && Held(txs[..LastFlat(txs)]) == 0.0
    ensures forall k | LastFlat(txs) < k <= |txs| :: Held(txs[..k]) != 0.0
  {
    assert txs[..|txs|] == txs;
    if txs != [] && Held(txs) != 0.0 {
      var init := txs[..|txs| - 1];
      LastFlatIsLast(init);
      forall k | 0 <= k <= |init| ensures init[..k] == txs[..k] {}
    }
  }

  predicate Between(p: Position, lo: real, hi: real) {
    p.qty * lo <= p.cost <= p.qty * hi
  }

  lemma BuyBetween(p: Position, t: Tx, lo: real, hi: real)
    requires Between(p, lo, hi) && t.qty > 0.0
    requires t.side == Buy && lo <= t.price <= hi
    ensures Between(Step(p, t), lo, hi)
  {
    StepBuy(p, t);
    hide Step;
    var p' := Step(p, t);
    ScaleBetween(t.qty, t.price, lo, hi);
    SumTimes(p'.qty, p.qty, t.qty, lo);
    SumTimes(p'.qty, p.qty, t.qty, hi);
  }

  lemma SellBetween(p: Position, t: Tx, lo: real, hi: real)
    requires Between(p, lo, hi) && p.qty > 0.0 && t.qty > 0.0 && t.side == Sell
    ensures Between(Step(p, t), lo, hi)
  {
    var avg := p.cost / p.qty;
    var sold := if t.qty <= p.qty then t.qty else p.qty;
    StepSell(p, t, avg, sold);
    hide Step;
    var p' := Step(p, t);
    RatioBetween(p.qty, avg, lo, hi);
    ScaleBetween(p'.qty, avg, lo, hi);
    DiffTimes(p'.qty, p.qty, sold, avg);
  }

  lemma StepBetween(p: Position, t: Tx, lo: real, hi: real)
    requires Sound(p) && Between(p, lo, hi) && t.qty > 0.0
    requires t.side == Buy ==> lo <= t.price <= hi
    ensures Between(Step(p, t), lo, hi)
  {
    hide Between;
    if t.side == Buy {
      BuyBetween(p, t, lo, hi);
    } else if p.qty > 0.0 {
      SellBetween(p, t, lo, hi);
    }
  }

  lemma BetweenAverage(p: Position, lo: real, hi: real)
    requires p.qty > 0.0 && Between(p, lo, hi)
    ensures lo <= AverageOf(p) <= hi
  {
    DivMul(p.cost, p.qty);
    RatioBetween(p.qty, p.cost / p.qty, lo, hi);
  }

  lemma RatioBetween(q: real, avg: real, lo: real, hi: real)
    requires q > 0.0 && q * lo <= q * avg <= q * hi
    ensures lo <= avg <= hi
  {
    if avg < lo { MulStrict(q, avg, lo); }
    if avg > hi { MulStrict(q, hi, avg); }
  }

  lemma ScaleBetween(q: real, avg: real, lo: real, hi: real)
    requires q >= 0.0 && lo <= avg <= hi
    ensures q * lo <= q * avg <= q * hi
  {
    MulMono(q, lo, avg);
    MulMono(q, avg, hi);
  }

  /**
   Any bounds on the BUY prices since the position was last flat bound the average price; in particular it
   lies between the lowest and the highest of them.
   */
  lemma {:induction false} AverageInRange(txs: seq<Tx>, lo: real, hi: real)
    requires Positive(txs) && Held(txs) > 0.0
    requires forall i | LastFlat(txs) <= i < |txs| && txs[i].side == Buy :: lo <= txs[i].price <= hi
    ensures lo <= AverageOf(Walk(txs)) <= hi
  {
    hide Between, AverageOf;
    CostInRange(txs, lo, hi);
    WalkQuantity(txs);
    BetweenAverage(Walk(txs), lo, hi);
  }

  lemma {:induction false} CostInRange(txs: seq<Tx>, lo: real, hi: real)
    requires Positive(txs)
    requires forall i | LastFlat(txs) <= i < |txs| && txs[i].side == Buy :: lo <= txs[i].price <= hi
    ensures Between(Walk(txs), lo, hi)
  {
    WalkQuantity(txs);
    if txs != [] && Held(txs) != 0.0 {
      var init, t := txs[..|txs| - 1], txs[|txs| - 1];
      LastFlatIsLast(init);
      CostInRange(init, lo, hi);
      WalkQuantity(init);
      hide Step, Between;
      StepBetween(Walk(init), t, lo, hi);
    }
  }

  // ---- the two services that run the walk ----

  datatype HoldingRow = HoldingRow(asset: int, totalQty: real, totalCost: real, realizedPnl: real)

  /** One ordered query over all assets, grouped by asset in Python. */
  method LoadTransactionsOrdered(ordered: seq<Tx>) returns (grouped: map<int, seq<Tx>>)
    ensures grouped.Keys == Assets(ordered)
    ensures forall a | a in grouped :: grouped[a] == Only(ordered, a)
  {
    grouped := map[];
    for i := 0 to |ordered|
      invariant grouped.Keys == Assets(ordered[..i])
      invariant forall a | a in grouped :: grouped[a] == Only(ordered[..i], a)
    {
      var t := ordered[i];
      var pre := ordered[..i];
      assert ordered[..i + 1] == pre + [t];
      forall a ensures Only(pre + [t], a) == Only(pre, a) + (if t.asset == a then [t] else []) {
        OnlySnoc(pre, t, a);
      }
      OnlySound(pre, t.asset);
      grouped := grouped[t.asset := (if t.asset in grouped then grouped[t.asset] else []) + [t]];
    }
    assert ordered[..|ordered|] == ordered;
  }

  method ListHoldingsWithAggregates(assets: seq<int>, ordered: seq<Tx>) returns (rows: seq<HoldingRow>)
    requires Positive(ordered)
    ensures |rows| == |assets|
    ensures forall i | 0 <= i < |rows| ::
      var own := Only(ordered, assets[i]);
      rows[i] == HoldingRow(assets[i], Held(own), Walk(own).cost, Walk(own).realized)
  {
    var txsByUa := LoadTransactionsOrdered(ordered);
    hide Walk, Held, Only;
    rows := [];
    for i := 0 to |assets|
      invariant |rows| == i
      invariant forall j | 0 <= j < i ::
        var own := Only(ordered, assets[j]);
        rows[j] == HoldingRow(assets[j], Held(own), Walk(own).cost, Walk(own).realized)
    {
      var txs := if assets[i] in txsByUa then txsByUa[assets[i]] else [];
      OnlySound(ordered, assets[i]);
      assert txs == Only(ordered, assets[i]);
      var qty, cost, realized := RunWalk(txs);
      WalkQuantity(txs);
      if qty <= 0.0 {
        qty, cost := 0.0, 0.0;
      }
      rows := rows + [HoldingRow(assets[i], qty, cost, realized)];
    }
  }

  method RunWalk(txs: seq<Tx>) returns (qty: real, cost: real, realized: real)
    ensures Position(qty, cost, realized) == Walk(txs)
  {
    qty, cost, realized := 0.0, 0.0, 0.0;
    assert Walk(txs[..0]) == FLAT;
    hide Walk, Step;
    for i := 0 to |txs|
      invariant Position(qty, cost, realized) == Walk(txs[..i])
    {
      var t := txs[i];
      assert txs[..i + 1] == txs[..i] + [t];
      WalkSnoc(txs[..i], t);
      if t.side == Buy {
        StepBuy(Walk(txs[..i]), t);
        cost := cost + t.qty * t.price;
        qty := qty + t.qty;
      } else if qty > 0.0 {
        var avg := cost / qty;
        var soldQty := if t.qty <= qty then t.qty else qty;
        StepSell(Walk(txs[..i]), t, avg, soldQty);
        realized := realized + (t.price - avg) * soldQty;
        cost := cost - soldQty * avg;
        qty := qty - soldQty;
      } else {
        StepNothing(Walk(txs[..i]), t);
      }
    }
    assert txs[..|txs|] == txs;
  }

  datatype Summary = Summary(
    boughtQty: real, soldQty: real, remaining: real, avgBuyPrice: real,
    invested: real, soldValue: real, realizedPnl: real, count: nat)

  /** SQL's conditional sums of one asset's rows. */
  method GetSummary(txs: seq<Tx>) returns (bought: real, cost: real, sold: real, value: real)
    ensures bought == Bought(txs) && cost == Invested(txs)
    ensures sold == Sold(txs) && value == SoldValue(txs)
  {
    bought, cost, sold, value := 0.0, 0.0, 0.0, 0.0;
    for i := 0 to |txs|
      invariant bought == Bought(txs[..i]) && cost == Invested(txs[..i])
      invariant sold == Sold(txs[..i]) && value == SoldValue(txs[..i])
    {
      assert txs[..i + 1][..i] == txs[..i];
      if txs[i].side == Buy {
        bought, cost := bought + txs[i].qty, cost + txs[i].qty * txs[i].price;
      } else {
        sold, value := sold + txs[i].qty, value + txs[i].qty * txs[i].price;
      }
    }
    assert txs[..|txs|] == txs;
  }

  /** The summary card: SQL totals beside the walked position. */
  method Summarise(txs: seq<Tx>) returns (s: Summary)
    requires Positive(txs)
    ensures s.remaining == Held(txs)
    ensures s.boughtQty - s.soldQty == Net(txs)
    ensures s.invested == Invested(txs) && s.soldValue == SoldValue(txs) && s.count == |txs|
    ensures s.remaining * s.avgBuyPrice == Walk(txs).cost
    ensures s.remaining == 0.0 ==> s.avgBuyPrice == 0.0
    ensures s.realizedPnl == Walk(txs).realized
    ensures NeverOversold(txs) ==>
      s.realizedPnl == s.soldValue - s.invested + s.remaining * s.avgBuyPrice
  {
    var bought, invested, sold, value := GetSummary(txs);
    var qty, cost, realized := RunWalk(txs);
    var avg := if qty > 0.0 then cost / qty else 0.0;
    s := Summary(bought, sold, qty, avg, invested, value, realized, |txs|);
    hide *;
    WalkQuantity(txs);
    NetIsBoughtLessSold(txs);
    AverageTimesQuantity(s, cost);
    if NeverOversold(txs) { SummaryIdentity(txs); }
  }

  lemma AverageTimesQuantity(s: Summary, cost: real)
    requires s.remaining >= 0.0 && (s.remaining == 0.0 ==> cost == 0.0)
    requires s.avgBuyPrice == if s.remaining > 0.0 then cost / s.remaining else 0.0
    ensures s.remaining * s.avgBuyPrice == cost
  {
    if s.remaining > 0.0 { DivMul(cost, s.remaining); }
  }
}
