/**
 Cashflow extraction and the portfolio value series: the two inputs of the performance figures.
 */
module ValueSeries {
  import opened Common
  import opened Ordering
  import opened Ledger
  import opened PriceLookup

  /** Price lists, symbol currencies, the report currency and the prefetched rates into it. */
  datatype Market = Market(
    index: PriceIndex,
    currencyOf: int -> string,
    report: string,
    rate: (string, int) -> Option<real>)

  /** An amount of one symbol's currency in the report currency; None when the rate is not available. */
  function FxAt(m: Market, amount: real, sym: int, ts: int): Option<real> {
    var cur := m.currencyOf(sym);
    if cur == m.report then Some(amount)
    else if m.rate(cur, ts) == None then None
    else Some(amount * m.rate(cur, ts).value)
  }

  predicate FxKnown(m: Market, sym: int, ts: int) {
    m.currencyOf(sym) == m.report || m.rate(m.currencyOf(sym), ts).Some?
  }

  /** The series price of a symbol at ts in the report currency. */
  function Priced(m: Market, sym: int, ts: int): Option<real> {
    var price := PriceOf(m.index, sym, ts);
    if price == None then None else FxAt(m, price.value, sym, ts)
  }

  lemma FxIsLinear(m: Market, q: real, price: real, amount: real, sym: int, ts: int, p: real)
    requires FxAt(m, price, sym, ts) == Some(p) && amount == q * price
    ensures FxAt(m, amount, sym, ts).Some? && FxAt(m, amount, sym, ts).value == q * p
  {
    var cur := m.currencyOf(sym);
    if cur != m.report {
      var r := m.rate(cur, ts).value;
      Assoc(q, price, r);
      SameProduct(amount, r, q * price, r);
      SameProduct(q, p, q, price * r);
    } else {
      SameProduct(q, price, q, p);
    }
  }

  lemma Assoc(a: real, b: real, c: real)
    ensures a * b * c == a * (b * c)
  {}

  // ---- cashflows ----

  datatype Kind = BuyFlow | SellFlow

  datatype Cashflow = Cashflow(date: int, amount: real, kind: Kind)

  function Gross(t: Tx): real { t.qty * t.price }

  function Flow(m: Market, t: Tx): Option<real> {
    var converted := FxAt(m, Gross(t), t.asset, t.at);
    if converted == None then None else if t.side == Buy then Some(-converted.value) else converted
  }

  predicate Inside(t: Tx, from: int, to: int) { from <= t.at <= to }

  /** The net flow of the rows traded exactly at ts. */
  function CashAt(txs: seq<Tx>, m: Market, ts: int): real {
    if txs == [] then 0.0
    else
      var t := txs[|txs| - 1];
      CashAt(txs[..|txs| - 1], m, ts) + if t.at == ts && Flow(m, t).Some? then Flow(m, t).value else 0.0
  }

  /** The instants inside the window at which something was traded. */
  function TradeTimes(txs: seq<Tx>, from: int, to: int): set<int> {
    set t | t in txs && Inside(t, from, to) :: t.at
  }

  predicate FlowsKnown(txs: seq<Tx>, m: Market, from: int, to: int) {
    forall t | t in txs && Inside(t, from, to) :: Flow(m, t).Some?
  }

  /** One flow per instant, in time order, each the net of its trades; it fails when a needed rate is missing. */
  ghost predicate FlowsOf(cfs: seq<Cashflow>, txs: seq<Tx>, m: Market, from: int, to: int) {
    && (forall i, j | 0 <= i < j < |cfs| :: cfs[i].date < cfs[j].date)
    && (forall ts :: ts in TradeTimes(txs, from, to) <==> exists i :: 0 <= i < |cfs| && cfs[i].date == ts)
    && (forall i | 0 <= i < |cfs| :: cfs[i].amount == CashAt(txs, m, cfs[i].date))
    && (forall i | 0 <= i < |cfs| :: cfs[i].kind == KindOf(cfs[i].amount))
  }

  lemma {:induction false} NoCashOutside(txs: seq<Tx>, m: Market, from: int, to: int, ts: int)
    requires ts !in TradeTimes(txs, from, to) && from <= ts <= to
    ensures CashAt(txs, m, ts) == 0.0
  {
    if txs != [] {
      var init, t := txs[..|txs| - 1], txs[|txs| - 1];
      assert t in txs;
      assert t.at != ts;
      assert forall u | u in init :: u in txs;
      NoCashOutside(init, m, from, to, ts);
    }
  }

  function KindOf(total: real): Kind { if total < 0.0 then BuyFlow else SellFlow }

  method ExtractCashflows(txs: seq<Tx>, m: Market, from: int, to: int) returns (result: Option<seq<Cashflow>>)
    ensures result.Some? <==> FlowsKnown(txs, m, from, to)
    ensures result.Some? ==> FlowsOf(result.value, txs, m, from, to)
  {
    var byTs: map<int, real> := map[];
    for i := 0 to |txs|
      invariant Accumulated(byTs, txs[..i], m, from, to)
      invariant FlowsKnown(txs[..i], m, from, to)
    {
      hide Flow, Accumulated;
      var tx := txs[i];
      assert txs[..i + 1] == txs[..i] + [tx];
      AccumulatedStep(byTs, txs[..i], tx, m, from, to);
      if Inside(tx, from, to) {
        var signed := Flow(m, tx);
        if signed == None {
          assert tx in txs;
          return None;
        }
        byTs := byTs[tx.at := (if tx.at in byTs then byTs[tx.at] else 0.0) + signed.value];
      }
    }
    assert txs[..|txs|] == txs;
    var cfs := FlowList(byTs);
    result := Some(cfs);
  }

  /** The dictionary holds the net flow of every in-window instant traded so far. */
  ghost predicate Accumulated(byTs: map<int, real>, txs: seq<Tx>, m: Market, from: int, to: int) {
    && byTs.Keys == TradeTimes(txs, from, to)
    && forall ts | ts in byTs :: byTs[ts] == CashAt(txs, m, ts)
  }

  lemma AccumulatedStep(byTs: map<int, real>, txs: seq<Tx>, t: Tx, m: Market, from: int, to: int)
    requires Accumulated(byTs, txs, m, from, to)
    ensures !Inside(t, from, to) ==> Accumulated(byTs, txs + [t], m, from, to)
    ensures Inside(t, from, to) && Flow(m, t).Some? ==>
      Accumulated(byTs[t.at := (if t.at in byTs then byTs[t.at] else 0.0) + Flow(m, t).value], txs + [t], m, from, to)
  {
    hide Flow;
    assert (txs + [t])[..|txs|] == txs;
    if Inside(t, from, to) && t.at !in byTs {
      NoCashOutside(txs, m, from, to, t.at);
    }
    assert TradeTimes(txs + [t], from, to)
      == TradeTimes(txs, from, to) + if Inside(t, from, to) then {t.at} else {};
  }

  /** The accumulated dictionary as a list, by time. */
  method FlowList(byTs: map<int, real>) returns (cfs: seq<Cashflow>)
    ensures forall i, j | 0 <= i < j < |cfs| :: cfs[i].date < cfs[j].date
    ensures forall ts :: ts in byTs <==> exists i :: 0 <= i < |cfs| && cfs[i].date == ts
    ensures forall i | 0 <= i < |cfs| ::
      cfs[i].date in byTs && cfs[i].amount == byTs[cfs[i].date] && cfs[i].kind == KindOf(cfs[i].amount)
  {
    var dates := SortedSet(byTs.Keys);
    forall k | 0 <= k < |dates| ensures dates[k] in byTs {
      assert dates[k] in dates;
    }
    hide KindOf, Ascending, SortedSet;
    cfs := [];
    for i := 0 to |dates|
      invariant |cfs| == i
      invariant forall k | 0 <= k < i ::
        cfs[k] == Cashflow(dates[k], byTs[dates[k]], KindOf(byTs[dates[k]]))
    {
      var total := byTs[dates[i]];
      cfs := cfs + [Cashflow(dates[i], total, KindOf(total))];
    }
    assert forall k | 0 <= k < |cfs| :: cfs[k].date == dates[k];
    DatesOfList(cfs, dates, byTs.Keys);
  }

  lemma DatesOfList(cfs: seq<Cashflow>, dates: seq<int>, all: set<int>)
    requires |cfs| == |dates| && forall k | 0 <= k < |cfs| :: cfs[k].date == dates[k]
    requires Ascending(dates) && forall ts :: ts in dates <==> ts in all
    ensures forall i, j | 0 <= i < j < |cfs| :: cfs[i].date < cfs[j].date
    ensures forall ts :: ts in all <==> exists i :: 0 <= i < |cfs| && cfs[i].date == ts
  {
    forall ts ensures ts in all <==> exists i :: 0 <= i < |cfs| && cfs[i].date == ts {
      if ts in all {
        var i :| 0 <= i < |dates| && dates[i] == ts;
        assert cfs[i].date == ts;
      }
      if i :| 0 <= i < |cfs| && cfs[i].date == ts {
        assert dates[i] == ts;
      }
    }
  }

  // ---- the value series ----

  /** What a holding adds at a price; nothing when it is flat or cannot be priced. */
  function Share(qty: real, price: Option<real>): real {
    if qty <= 0.0 || price == None then 0.0 else qty * price.value
  }

  ghost function BasketShares(u: seq<Tx>, m: Market, at: int): map<int, real> {
    map s | s in Assets(u) :: Share(Held(Only(u, s)), Priced(m, s, at))
  }

  /** The basket held after the rows u, valued at the prices and rates of `at`. */
  ghost function Basket(u: seq<Tx>, m: Market, at: int): real { Total(BasketShares(u, m, at)) }

  /** The portfolio value at T: the basket held after all trades up to T, at the prices of T. */
  ghost function ValueAt(txs: seq<Tx>, m: Market, T: int): real { Basket(Upto(txs, T), m, T) }

  /** The dictionary carries every traded symbol's capped holding. */
  ghost predicate Carries(qty: map<int, real>, u: seq<Tx>) {
    qty.Keys == Assets(u) && forall s | s in qty :: qty[s] == Held(Only(u, s))
  }

  lemma CarriesStep(qty: map<int, real>, u: seq<Tx>, t: Tx)
    requires Carries(qty, u) && t.qty > 0.0
    ensures Carries(qty[t.asset := Capped(if t.asset in qty then qty[t.asset] else 0.0, t)], u + [t])
  {
    hide Held, Only, Capped;
    var own := Only(u, t.asset);
    OnlySound(u, t.asset);
    HeldStep(own, t);
    if own == [] { NothingHeld(); }
    OnlyCases(u, t);
  }

  lemma NothingHeld()
    ensures Held([]) == 0.0
  {}

  lemma CarriesNothing()
    ensures Carries(map[], [])
  {}

  class ValueScan {
    var qtyBySymbol: map<int, real>
    var txPtr: nat
    const pricePtr: PricePointers

    constructor ()
      ensures qtyBySymbol == map[] && txPtr == 0
      ensures fresh(pricePtr) && pricePtr.pointer == map[]
    {
      qtyBySymbol := map[];
      txPtr := 0;
      pricePtr := new PricePointers();
    }

    ghost predicate Valid(txs: seq<Tx>)
      reads this
    {
      txPtr <= |txs| && Carries(qtyBySymbol, txs[..txPtr])
    }

    method Apply(txs: seq<Tx>)
      requires Valid(txs) && txPtr < |txs| && Positive(txs)
      modifies this
      ensures Valid(txs) && txPtr == old(txPtr) + 1
    {
      hide Carries;
      var tx := txs[txPtr];
      assert tx in txs;
      CarriesStep(qtyBySymbol, txs[..txPtr], tx);
      assert txs[..txPtr + 1] == txs[..txPtr] + [tx];
      var curQty := if tx.asset in qtyBySymbol then qtyBySymbol[tx.asset] else 0.0;
      if tx.side == Buy {
        qtyBySymbol := qtyBySymbol[tx.asset := curQty + tx.qty];
      } else {
        qtyBySymbol := qtyBySymbol[tx.asset := Max(curQty - tx.qty, 0.0)];
      }
      txPtr := txPtr + 1;
    }

    /** Accumulates all trades at or before ts. */
    method AdvanceTo(txs: seq<Tx>, ts: int)
      requires Valid(txs) && SortedBy(txs, ByTime) && Positive(txs)
      requires forall i | 0 <= i < txPtr :: txs[i].at <= ts
      modifies this
      ensures Valid(txs) && txs[..txPtr] == Upto(txs, ts)
      ensures forall i | 0 <= i < txPtr :: txs[i].at <= ts
    {
      hide Carries;
      while txPtr < |txs| && txs[txPtr].at <= ts
        invariant Valid(txs)
        invariant forall i | 0 <= i < txPtr :: txs[i].at <= ts
        decreases |txs| - txPtr
      {
        Apply(txs);
      }
      UptoIsPrefix(txs, ts, txPtr);
    }

    /** What one entry adds; only a held symbol moves its price pointer. */
    method ShareOf(m: Market, ts: int, sym: int) returns (share: real)
      requires sym in qtyBySymbol && WellIndexed(m.index) && pricePtr.Valid(m.index, ts)
      modifies pricePtr
      ensures pricePtr.Valid(m.index, ts)
      ensures share == Share(qtyBySymbol[sym], Priced(m, sym, ts))
    {
      share := 0.0;
      var qty := qtyBySymbol[sym];
      if qty > 0.0 {
        var price := pricePtr.PriceAt(sym, ts, m.index);
        hide FxAt, PricePointers.Valid;
        if price.Some? {
          var convertedPrice := FxAt(m, price.value, sym, ts);
          assert Priced(m, sym, ts) == convertedPrice;
          if convertedPrice.Some? {
            share := qty * convertedPrice.value;
          }
        }
      }
    }

    method Value(ghost txs: seq<Tx>, m: Market, ts: int) returns (value: real)
      requires Valid(txs) && txs[..txPtr] == Upto(txs, ts)
      requires WellIndexed(m.index) && pricePtr.Valid(m.index, ts)
      modifies pricePtr
      ensures pricePtr.Valid(m.index, ts)
      ensures value == ValueAt(txs, m, ts)
    {
      hide Held, Only, Upto, Share, Priced, PricePointers.Valid, WellIndexed;
      ghost var shares := BasketShares(Upto(txs, ts), m, ts);
      value := 0.0;
      assert Restrict(shares, qtyBySymbol.Keys) == shares;
      var todo := qtyBySymbol.Keys;
      while todo != {}
        invariant todo <= qtyBySymbol.Keys
        invariant pricePtr.Valid(m.index, ts)
        invariant value + Total(Restrict(shares, todo)) == Total(shares)
        decreases |todo|
      {
        Inhabited(todo);
        var sym :| sym in todo;
        RestrictStep(shares, todo, sym);
        var share := ShareOf(m, ts, sym);
        todo := todo - {sym};
        value := value + share;
      }
    }

    /** Nothing after ts has been consumed, by the trade pointer or by a price pointer. */
    ghost predicate Ready(txs: seq<Tx>, index: PriceIndex, ts: int)
      reads this, pricePtr
    {
      Valid(txs) && (forall k | 0 <= k < txPtr :: txs[k].at <= ts) && pricePtr.Valid(index, ts)
    }

    lemma ReadyAtStart(txs: seq<Tx>, index: PriceIndex, ts: int)
      requires qtyBySymbol == map[] && txPtr == 0 && pricePtr.pointer == map[]
      ensures Ready(txs, index, ts)
    {
      CarriesNothing();
      assert txs[..0] == [];
      pricePtr.ValidAtStart(index, ts);
    }

    lemma ReadyLater(txs: seq<Tx>, index: PriceIndex, ts: int, later: int)
      requires Ready(txs, index, ts) && ts <= later
      ensures Ready(txs, index, later)
    {
      pricePtr.ValidLater(index, ts, later);
    }

    /** One sample: accumulates all trades at or before ts, then values the basket. */
    method Sample(txs: seq<Tx>, m: Market, ts: int) returns (value: real)
      requires SortedBy(txs, ByTime) && Positive(txs) && WellIndexed(m.index) && Ready(txs, m.index, ts)
      modifies this, pricePtr
      ensures Ready(txs, m.index, ts) && value == ValueAt(txs, m, ts)
    {
      hide SortedBy, Positive, WellIndexed, ValueAt, Carries, Upto, PricePointers.Valid;
      AdvanceTo(txs, ts);
      value := Value(txs, m, ts);
    }
  }

  /** A value sample: its time and the portfolio value. */
  type ValuePoint = Quote

  predicate Rising(ts: seq<int>) {
    forall i, j | 0 <= i < j < |ts| :: ts[i] <= ts[j]
  }

  /** Every sample is the value of the basket held at its time, whatever was sampled before. */
  method BuildValueSeries(txs: seq<Tx>, m: Market, timestamps: seq<int>) returns (points: seq<ValuePoint>)
    requires Positive(txs) && WellIndexed(m.index) && Rising(timestamps)
    ensures |points| == |timestamps|
    ensures forall i | 0 <= i < |points| ::
      points[i] == Quote(timestamps[i], ValueAt(SortBy(txs, ByTime), m, timestamps[i]))
  {
    points := [];
    if timestamps == [] {
      return;
    }
    var sortedTxs := SortBy(txs, ByTime);
    SortedPositive(txs);
    var scan := new ValueScan();
    scan.ReadyAtStart(sortedTxs, m.index, timestamps[0]);
    hide SortBy, SortedBy, Positive, WellIndexed, ValueAt, ValueScan.Ready;
    for i := 0 to |timestamps|
      invariant i < |timestamps| ==> scan.Ready(sortedTxs, m.index, timestamps[i])
      invariant |points| == i
      invariant forall k | 0 <= k < i :: points[k] == Quote(timestamps[k], ValueAt(sortedTxs, m, timestamps[k]))
    {
      var ts := timestamps[i];
      var value := scan.Sample(sortedTxs, m, ts);
      points := points + [Quote(ts, value)];
      if i + 1 < |timestamps| {
        assert ts <= timestamps[i + 1];
        scan.ReadyLater(sortedTxs, m.index, ts, timestamps[i + 1]);
      }
    }
  }

  lemma {:induction false} SortedPositive(txs: seq<Tx>)
    requires Positive(txs)
    ensures Positive(SortBy(txs, ByTime)) && SortedBy(SortBy(txs, ByTime), ByTime)
  {
    OrdersAreTotal();
    SortByCorrect(txs, ByTime);
    forall t | t in SortBy(txs, ByTime) ensures t.qty > 0.0 && t.price > 0.0 {
      assert t in multiset(SortBy(txs, ByTime));
      assert t in txs;
    }
  }

  // ---- what the figures are made of ----

  /** The rate into the report currency: one for that currency itself, otherwise as fetched, if it was. */
  function RateOf(m: Market, sym: int, ts: int): Option<real> {
    if m.currencyOf(sym) == m.report then Some(1.0) else m.rate(m.currencyOf(sym), ts)
  }

  lemma ConvertedIs(m: Market, amount: real, sym: int, ts: int)
    ensures RateOf(m, sym, ts) == None ==> FxAt(m, amount, sym, ts) == None
    ensures RateOf(m, sym, ts).Some? ==>
      FxAt(m, amount, sym, ts).Some? && FxAt(m, amount, sym, ts).value == amount * RateOf(m, sym, ts).value
    ensures FxKnown(m, sym, ts) <==> RateOf(m, sym, ts).Some?
  {
    if m.currencyOf(sym) == m.report {
      HomeAmount(amount, RateOf(m, sym, ts).value);
    }
  }

  lemma HomeAmount(amount: real, rate: real)
    requires rate == 1.0
    ensures amount * rate == amount
  {}

  /** The series price is the latest price at or before the instant, times the rate of that instant. */
  lemma PricedIs(m: Market, sym: int, ts: int)
    ensures Priced(m, sym, ts).Some? <==> PriceOf(m.index, sym, ts).Some? && RateOf(m, sym, ts).Some?
    ensures Priced(m, sym, ts).Some? ==>
      Priced(m, sym, ts).value == PriceOf(m.index, sym, ts).value * RateOf(m, sym, ts).value
  {
    if PriceOf(m.index, sym, ts).Some? {
      ConvertedIs(m, PriceOf(m.index, sym, ts).value, sym, ts);
    }
    hide PriceOf, FxAt;
  }

  /** One more trade adds its converted money to its own instant's flow: out for a BUY, in for a SELL. */
  lemma {:induction false} CashEffect(txs: seq<Tx>, t: Tx, m: Market, ts: int)
    ensures CashAt([], m, ts) == 0.0
    ensures var rate := RateOf(m, t.asset, t.at);
      CashAt(txs + [t], m, ts) - CashAt(txs, m, ts)
      == if t.at != ts || rate == None then 0.0
         else if t.side == Buy then -(t.qty * t.price * rate.value) else t.qty * t.price * rate.value
  {
    assert (txs + [t])[..|txs|] == txs;
    ConvertedIs(m, Gross(t), t.asset, t.at);
    hide FxAt, RateOf;
    if RateOf(m, t.asset, t.at).Some? {
      SameProduct(Gross(t), RateOf(m, t.asset, t.at).value, t.qty * t.price, RateOf(m, t.asset, t.at).value);
    }
  }

  lemma FlowNeedsRate(m: Market, t: Tx)
    ensures Flow(m, t).Some? <==> RateOf(m, t.asset, t.at).Some?
  {
    ConvertedIs(m, Gross(t), t.asset, t.at);
    hide FxAt, RateOf, Gross;
  }

  /** The extraction succeeds exactly when every trade of the window has a rate. */
  lemma FlowsKnownIff(txs: seq<Tx>, m: Market, from: int, to: int)
    ensures FlowsKnown(txs, m, from, to)
      <==> forall t | t in txs && from <= t.at <= to :: RateOf(m, t.asset, t.at).Some?
  {
    hide Flow, RateOf;
    forall t | t in txs ensures Flow(m, t).Some? <==> RateOf(m, t.asset, t.at).Some? {
      FlowNeedsRate(m, t);
    }
  }

  /** Every flow is the total of its instant, a BUY flow when that is negative and a SELL flow otherwise. */
  lemma {:induction false} FlowsSay(cfs: seq<Cashflow>, txs: seq<Tx>, m: Market, from: int, to: int)
    requires FlowsOf(cfs, txs, m, from, to)
    ensures forall i | 0 <= i < |cfs| ::
      && cfs[i].amount == CashAt(txs, m, cfs[i].date) && from <= cfs[i].date <= to
      && (cfs[i].kind == BuyFlow <==> cfs[i].amount < 0.0)
  {
    hide CashAt;
    forall i | 0 <= i < |cfs| ensures from <= cfs[i].date <= to {
      assert cfs[i].date in TradeTimes(txs, from, to);
    }
  }

  /** What one symbol is worth: the holding times price times rate; nothing when flat, unpriced or without a rate. */
  function Worth(txs: seq<Tx>, m: Market, sym: int, T: int): real {
    var held := Held(Only(Upto(txs, T), sym));
    var price, rate := PriceOf(m.index, sym, T), RateOf(m, sym, T);
    if held <= 0.0 || price == None || rate == None then 0.0 else held * (price.value * rate.value)
  }

  /** A value is the sum of what the symbols traded so far are worth. */
  lemma {:induction false} ValueIsWorth(txs: seq<Tx>, m: Market, T: int)
    ensures ValueAt(txs, m, T) == Total(map s | s in Assets(Upto(txs, T)) :: Worth(txs, m, s, T))
  {
    var u := Upto(txs, T);
    forall s | s in Assets(u) ensures Share(Held(Only(u, s)), Priced(m, s, T)) == Worth(txs, m, s, T) {
      PricedIs(m, s, T);
      hide Priced, Held, Only, Upto, PriceOf, RateOf;
    }
    hide Share, Worth, Upto, Held, Only, Priced;
    assert BasketShares(u, m, T) == map s | s in Assets(u) :: Worth(txs, m, s, T);
  }

  lemma {:induction false} NotTradedIsWorthless(txs: seq<Tx>, m: Market, sym: int, T: int)
    requires sym !in Assets(Upto(txs, T))
    ensures Worth(txs, m, sym, T) == 0.0
  {
    OnlySound(Upto(txs, T), sym);
    NothingHeld();
    hide Held, Only, Upto, PriceOf, RateOf;
  }

  /** A one-symbol portfolio is worth its holding times price times rate. */
  lemma OneSymbolValue(txs: seq<Tx>, m: Market, sym: int, T: int)
    requires Assets(txs) <= {sym}
    ensures ValueAt(txs, m, T) == Worth(txs, m, sym, T)
  {
    var u := Upto(txs, T);
    UptoSound(txs, T);
    ValueIsWorth(txs, m, T);
    hide Worth, ValueAt, Upto, Total;
    TotalOfOne(map s | s in Assets(u) :: Worth(txs, m, s, T), sym);
    if sym !in Assets(u) {
      NotTradedIsWorthless(txs, m, sym, T);
    }
  }
}
