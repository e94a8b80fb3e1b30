/**
 The portfolio history chart: one forward pass over buckets, transactions and price lists, shown equal to
 a replay from scratch at every bucket.
 */
module HistoryChart {
  import opened Common
  import opened Ordering
  import opened Ledger
  import opened MovingAverage
  import opened PriceLookup

  datatype HistoryPoint = HistoryPoint(timestamp: int, value: real, costBasis: real)

  /** The display currency, the currency of each symbol and the FX rates fetched per bucket. */
  datatype Conversion = Conversion(
    target: Option<string>,
    currencyOf: map<int, string>,
    rates: map<string, map<int, Option<real>>>)

  /** A native amount of one symbol in the display currency; None when the rate is missing. */
  function Convert(c: Conversion, amount: real, sym: int, ts: int): Option<real> {
    var src := if sym in c.currencyOf then c.currencyOf[sym] else if c.target.Some? then c.target.value else "KRW";
    if c.target == None || src == c.target.value then Some(amount)
    else if src !in c.rates || ts !in c.rates[src] || c.rates[src][ts] == None then None
    else Some(amount * c.rates[src][ts].value)
  }

  function OrZero(o: Option<real>): real { if o.Some? then o.value else 0.0 }

  // ---- the chart point, replayed from scratch ----

  /** What one symbol adds to the cost basis at T: the cost of its own history up to T, if it is held. */
  function CostShare(txs: seq<Tx>, c: Conversion, T: int, sym: int): real {
    var own := Only(Upto(txs, T), sym);
    if Held(own) <= 0.0 then 0.0 else OrZero(Convert(c, Walk(own).cost, sym, T))
  }

  /** What one symbol adds to the value at T: its holding at the last price at or before T. */
  function ValueShare(txs: seq<Tx>, index: PriceIndex, c: Conversion, T: int, sym: int): real {
    var qty := Held(Only(Upto(txs, T), sym));
    var price := PriceOf(index, sym, T);
    if qty <= 0.0 || price == None then 0.0 else OrZero(Convert(c, qty * price.value, sym, T))
  }

  ghost function PointAt(txs: seq<Tx>, index: PriceIndex, c: Conversion, T: int): HistoryPoint {
    var syms := Assets(Upto(txs, T));
    HistoryPoint(T,
                 Total(map s | s in syms :: ValueShare(txs, index, c, T, s)),
                 Total(map s | s in syms :: CostShare(txs, c, T, s)))
  }

  lemma {:induction false} PointIs(txs: seq<Tx>, index: PriceIndex, c: Conversion, T: int)
    ensures PointAt(txs, index, c, T) ==
      HistoryPoint(T,
                   Total(map s | s in Assets(Upto(txs, T)) :: ValueShare(txs, index, c, T, s)),
                   Total(map s | s in Assets(Upto(txs, T)) :: CostShare(txs, c, T, s)))
  {}

  lemma {:induction false} ValueShareIs(txs: seq<Tx>, index: PriceIndex, c: Conversion, T: int, sym: int, qty: real,
                     price: Option<real>)
    requires qty == Held(Only(Upto(txs, T), sym)) && price == PriceOf(index, sym, T)
    ensures ValueShare(txs, index, c, T, sym) ==
      if qty <= 0.0 || price == None then 0.0 else OrZero(Convert(c, qty * price.value, sym, T))
  {}

  // ---- bucket boundaries ----

  predicate NonDecreasing(ts: seq<int>) {
    forall i, j | 0 <= i < j < |ts| :: ts[i] <= ts[j]
  }

  /** Regular boundaries from start up to, but not at, the end; then the end itself. */
  method GenerateBucketTimestamps(start: int, end: int, delta: int) returns (timestamps: seq<int>)
    requires delta > 0
    ensures timestamps != [] && timestamps[|timestamps| - 1] == end
    ensures |timestamps| == 1 <==> start >= end
    ensures |timestamps| > 1 ==> timestamps[0] == start && end - delta <= timestamps[|timestamps| - 2] < end
    ensures forall i | 0 < i < |timestamps| - 1 :: timestamps[i] == timestamps[i - 1] + delta
    ensures NonDecreasing(timestamps)
  {
    timestamps := [];
    var current := start;
    assert NonDecreasing(timestamps);
    hide NonDecreasing;
    while current < end
      invariant timestamps == [] ==> current == start
      invariant timestamps != [] ==> timestamps[0] == start && current == timestamps[|timestamps| - 1] + delta
      invariant forall i | 0 < i < |timestamps| :: timestamps[i] == timestamps[i - 1] + delta
      invariant forall i | 0 <= i < |timestamps| :: timestamps[i] < current && timestamps[i] < end
      invariant NonDecreasing(timestamps)
      decreases end - current
    {
      AppendingLater(timestamps, current);
      timestamps := timestamps + [current];
      current := current + delta;
    }
    AppendingLater(timestamps, end);
    timestamps := timestamps + [end];
  }

  lemma AppendingLater(ts: seq<int>, next: int)
    requires NonDecreasing(ts) && forall i | 0 <= i < |ts| :: ts[i] <= next
    ensures NonDecreasing(ts + [next])
  {}

  // ---- the running dictionaries ----

  /** The two dictionaries carry every symbol's own walk; a symbol never bought may be absent. */
  ghost predicate Tracks(qty: map<int, real>, cost: map<int, real>, txs: seq<Tx>) {
    && qty.Keys == cost.Keys <= Assets(txs)
    && (forall s :: Walk(Only(txs, s)).qty == At(qty, s))
    && (forall s :: Walk(Only(txs, s)).cost == At(cost, s))
  }

  function At(m: map<int, real>, s: int): real { if s in m then m[s] else 0.0 }

  /** What one row makes of its own symbol's entries. */
  function Entry(qty: map<int, real>, cost: map<int, real>, t: Tx): (real, real) {
    var p := Step(Position(At(qty, t.asset), At(cost, t.asset), 0.0), t);
    (p.qty, p.cost)
  }

  lemma EntryCases(qty: map<int, real>, cost: map<int, real>, t: Tx)
    ensures t.side == Buy ==>
      Entry(qty, cost, t) == (At(qty, t.asset) + t.qty, At(cost, t.asset) + t.qty * t.price)
    ensures t.side == Sell && At(qty, t.asset) <= 0.0 ==> Entry(qty, cost, t) == (At(qty, t.asset), At(cost, t.asset))
  {
    if t.side == Buy { StepBuy(Position(At(qty, t.asset), At(cost, t.asset), 0.0), t); }
  }

  lemma EntrySell(qty: map<int, real>, cost: map<int, real>, t: Tx, avg: real, sold: real)
    requires t.side == Sell && At(qty, t.asset) > 0.0 && avg == At(cost, t.asset) / At(qty, t.asset)
    requires sold == if t.qty <= At(qty, t.asset) then t.qty else At(qty, t.asset)
    ensures Entry(qty, cost, t) == (At(qty, t.asset) - sold, At(cost, t.asset) - sold * avg)
  {
    StepSell(Position(At(qty, t.asset), At(cost, t.asset), 0.0), t, avg, sold);
  }

  lemma StepIgnoresProfit(p: Position, r: real, t: Tx)
    ensures Step(p.(realized := r), t).qty == Step(p, t).qty
    ensures Step(p.(realized := r), t).cost == Step(p, t).cost
  {}

  /** One row of the shared timeline only moves its own symbol, exactly as that symbol's own walk does. */
  lemma TracksStep(qty: map<int, real>, cost: map<int, real>, qty': map<int, real>, cost': map<int, real>,
                   txs: seq<Tx>, t: Tx)
    requires Tracks(qty, cost, txs)
    requires qty'.Keys == cost'.Keys <= qty.Keys + {t.asset}
    requires forall s | s != t.asset :: At(qty', s) == At(qty, s) && At(cost', s) == At(cost, s)
    requires (At(qty', t.asset), At(cost', t.asset)) == Entry(qty, cost, t)
    ensures Tracks(qty', cost', txs + [t])
  {
    hide Walk, Step;
    forall s
      ensures Walk(Only(txs + [t], s)).qty == At(qty', s)
      ensures Walk(Only(txs + [t], s)).cost == At(cost', s)
    {
      OnlySnoc(txs, t, s);
      if s == t.asset {
        WalkSnoc(Only(txs, s), t);
        StepIgnoresProfit(Position(At(qty, s), At(cost, s), 0.0), Walk(Only(txs, s)).realized, t);
      } else {
        assert Only(txs, s) + [] == Only(txs, s);
      }
    }
    assert Assets(txs + [t]) == Assets(txs) + {t.asset};
  }

  lemma NothingTracked()
    ensures Tracks(map[], map[], [])
  {
    assert forall s :: Only([], s) == [];
  }

  lemma TracksBuy(qty: map<int, real>, cost: map<int, real>, txs: seq<Tx>, t: Tx)
    requires Tracks(qty, cost, txs) && t.side == Buy
    ensures Tracks(qty[t.asset := At(qty, t.asset) + t.qty],
                   cost[t.asset := At(cost, t.asset) + t.qty * t.price], txs + [t])
  {
    hide Walk, Only, Entry;
    EntryCases(qty, cost, t);
    TracksEntry(qty, cost, txs, t);
  }

  lemma TracksSell(qty: map<int, real>, cost: map<int, real>, txs: seq<Tx>, t: Tx, avg: real, sold: real)
    requires Tracks(qty, cost, txs) && t.side == Sell
    requires At(qty, t.asset) > 0.0 && avg == At(cost, t.asset) / At(qty, t.asset)
    requires sold == if t.qty <= At(qty, t.asset) then t.qty else At(qty, t.asset)
    ensures Tracks(qty[t.asset := At(qty, t.asset) - sold],
                   cost[t.asset := At(cost, t.asset) - sold * avg], txs + [t])
  {
    hide Walk, Only, Entry;
    EntrySell(qty, cost, t, avg, sold);
    TracksEntry(qty, cost, txs, t);
  }

  lemma TracksIdle(qty: map<int, real>, cost: map<int, real>, txs: seq<Tx>, t: Tx)
    requires Tracks(qty, cost, txs) && t.side == Sell && At(qty, t.asset) <= 0.0
    ensures Tracks(qty, cost, txs + [t])
  {
    hide Walk, Only, Entry;
    EntryCases(qty, cost, t);
    TracksStep(qty, cost, qty, cost, txs, t);
  }

  lemma TracksEntry(qty: map<int, real>, cost: map<int, real>, txs: seq<Tx>, t: Tx)
    requires Tracks(qty, cost, txs)
    ensures var e := Entry(qty, cost, t); Tracks(qty[t.asset := e.0], cost[t.asset := e.1], txs + [t])
  {
    hide Walk, Only, Entry;
    var e := Entry(qty, cost, t);
    TracksStep(qty, cost, qty[t.asset := e.0], cost[t.asset := e.1], txs, t);
  }

  /** A tracked symbol without quantity carries neither quantity nor cost. */
  lemma NothingToClear(qty: map<int, real>, cost: map<int, real>, txs: seq<Tx>, s: int)
    requires Tracks(qty, cost, txs) && Positive(txs) && s in qty && qty[s] <= 0.0
    ensures s in cost && qty[s] == 0.0 == cost[s]
  {
    hide Walk, Only, Held;
    OnlySound(txs, s);
    WalkQuantity(Only(txs, s));
    assert qty[s] == At(qty, s) && cost[s] == At(cost, s);
  }

  class ChartScan {
    var qtyBySymbol: map<int, real>
    var runningCostBySymbol: map<int, real>
    var txPtr: nat
    const pricePtr: PricePointers

    constructor ()
      ensures qtyBySymbol == map[] && runningCostBySymbol == map[] && txPtr == 0
      ensures fresh(pricePtr) && pricePtr.pointer == map[]
    {
      qtyBySymbol := map[];
      runningCostBySymbol := map[];
      txPtr := 0;
      pricePtr := new PricePointers();
    }

    ghost predicate Valid(txs: seq<Tx>)
      reads this
    {
      txPtr <= |txs| && Tracks(qtyBySymbol, runningCostBySymbol, txs[..txPtr])
    }

    /** Consumes one row. */
    method Apply(txs: seq<Tx>)
      requires Valid(txs) && txPtr < |txs| && Positive(txs)
      modifies this
      ensures Valid(txs) && txPtr == old(txPtr) + 1
    {
      hide Tracks;
      var tx := txs[txPtr];
      ghost var seen, qty0, cost0 := txs[..txPtr], qtyBySymbol, runningCostBySymbol;
      assert txs[..txPtr + 1] == seen + [tx];
      var sym := tx.asset;
      var curQty := if sym in qtyBySymbol then qtyBySymbol[sym] else 0.0;
      var curCost := if sym in runningCostBySymbol then runningCostBySymbol[sym] else 0.0;
      if tx.side == Buy {
        TracksBuy(qty0, cost0, seen, tx);
        qtyBySymbol := qtyBySymbol[sym := curQty + tx.qty];
        runningCostBySymbol := runningCostBySymbol[sym := curCost + tx.qty * tx.price];
      } else if curQty > 0.0 {
        var sold := if tx.qty <= curQty then tx.qty else curQty;
        var avg := curCost / curQty;
        TracksSell(qty0, cost0, seen, tx, avg, sold);
        qtyBySymbol := qtyBySymbol[sym := curQty - sold];
        runningCostBySymbol := runningCostBySymbol[sym := curCost - sold * avg];
      } else {
        TracksIdle(qty0, cost0, seen, tx);
      }
      txPtr := txPtr + 1;
    }

    /** Moves the transaction pointer behind every row traded at or before ts. */
    method AdvanceTo(txs: seq<Tx>, ts: int)
      requires Valid(txs) && SortedBy(txs, ByTime) && Positive(txs)
      requires forall i | 0 <= i < txPtr :: txs[i].at <= ts
      modifies this
      ensures Valid(txs) && txs[..txPtr] == Upto(txs, ts)
      ensures forall i | 0 <= i < txPtr :: txs[i].at <= ts
    {
      hide Walk, Only;
      while txPtr < |txs| && txs[txPtr].at <= ts
        invariant Valid(txs)
        invariant forall i | 0 <= i < txPtr :: txs[i].at <= ts
        decreases |txs| - txPtr
      {
        Apply(txs);
      }
      UptoIsPrefix(txs, ts, txPtr);
    }

    /** Zero quantity must carry zero cost; in exact arithmetic nothing is left to clear. */
    method ClearResiduals(ghost txs: seq<Tx>)
      requires Valid(txs) && Positive(txs)
      modifies this
      ensures Valid(txs) && txPtr == old(txPtr)
      ensures qtyBySymbol == old(qtyBySymbol) && runningCostBySymbol == old(runningCostBySymbol)
    {
      hide Tracks;
      var todo := qtyBySymbol.Keys;
      while todo != {}
        invariant todo <= qtyBySymbol.Keys
        invariant Valid(txs) && txPtr == old(txPtr)
        invariant qtyBySymbol == old(qtyBySymbol) && runningCostBySymbol == old(runningCostBySymbol)
        decreases |todo|
      {
        Inhabited(todo);
        var sym :| sym in todo;
        if qtyBySymbol[sym] <= 0.0 {
          NothingToClear(qtyBySymbol, runningCostBySymbol, txs[..txPtr], sym);
          assert qtyBySymbol[sym := 0.0] == qtyBySymbol && runningCostBySymbol[sym := 0.0] == runningCostBySymbol;
          qtyBySymbol := qtyBySymbol[sym := 0.0];
          runningCostBySymbol := runningCostBySymbol[sym := 0.0];
        }
        todo := todo - {sym};
      }
    }

    /** Σ converted running cost over the held symbols. */
    method SumCosts(ghost txs: seq<Tx>, c: Conversion, ts: int) returns (total: real)
      requires Valid(txs) && Positive(txs) && txs[..txPtr] == Upto(txs, ts)
      ensures total == Total(map s | s in Assets(Upto(txs, ts)) :: CostShare(txs, c, ts, s))
    {
      hide Walk, Only, Held, Upto, Convert, PriceOf;
      ghost var shares := map s | s in qtyBySymbol.Keys :: CostShare(txs, c, ts, s);
      total := 0.0;
      assert Restrict(shares, qtyBySymbol.Keys) == shares;
      var todo := qtyBySymbol.Keys;
      while todo != {}
        invariant todo <= qtyBySymbol.Keys
        invariant total + Total(Restrict(shares, todo)) == Total(shares)
        decreases |todo|
      {
        Inhabited(todo);
        var sym :| sym in todo;
        OwnHistory(txs, ts, sym);
        RestrictStep(shares, todo, sym);
        todo := todo - {sym};
        if qtyBySymbol[sym] > 0.0 {
          var converted := Convert(c, runningCostBySymbol[sym], sym, ts);
          if converted.Some? {
            total := total + converted.value;
          }
        }
      }
      forall s | s in Assets(Upto(txs, ts)) && s !in qtyBySymbol ensures CostShare(txs, c, ts, s) == 0.0 {
        OwnHistory(txs, ts, s);
      }
      TotalIgnoresZeros(shares, map s | s in Assets(Upto(txs, ts)) :: CostShare(txs, c, ts, s));
    }

    /** What one entry adds to the value; only a held symbol moves its price pointer. */
    method ValueOf(ghost txs: seq<Tx>, index: PriceIndex, c: Conversion, ts: int, sym: int) returns (share: real)
      requires Valid(txs) && Positive(txs) && txs[..txPtr] == Upto(txs, ts) && sym in qtyBySymbol
      requires WellIndexed(index) && pricePtr.Valid(index, ts)
      modifies pricePtr
      ensures pricePtr.Valid(index, ts)
      ensures share == ValueShare(txs, index, c, ts, sym)
    {
      hide Walk, Only, Held, Upto, Convert, PriceOf, PricePointers.Valid, WellIndexed, ValueShare;
      OwnHistory(txs, ts, sym);
      var qty := qtyBySymbol[sym];
      share := 0.0;
      if qty > 0.0 {
        var price := pricePtr.PriceAt(sym, ts, index);
        ValueShareIs(txs, index, c, ts, sym, qty, price);
        if price.Some? {
          var converted := Convert(c, qty * price.value, sym, ts);
          if converted.Some? {
            share := converted.value;
          }
        }
      } else {
        ValueShareIs(txs, index, c, ts, sym, qty, PriceOf(index, sym, ts));
      }
    }

    /** Σ converted holding × price over the symbols of the dictionary. */
    method SumValues(ghost txs: seq<Tx>, index: PriceIndex, c: Conversion, ts: int) returns (total: real)
      requires Valid(txs) && Positive(txs) && txs[..txPtr] == Upto(txs, ts)
      requires WellIndexed(index) && pricePtr.Valid(index, ts)
      modifies pricePtr
      ensures pricePtr.Valid(index, ts)
      ensures total == Total(map s | s in Assets(Upto(txs, ts)) :: ValueShare(txs, index, c, ts, s))
    {
      hide Walk, Only, Held, Upto, Convert, PriceOf, PricePointers.Valid, WellIndexed, ValueShare, Tracks;
      ghost var shares := map s | s in qtyBySymbol.Keys :: ValueShare(txs, index, c, ts, s);
      total := 0.0;
      assert Restrict(shares, qtyBySymbol.Keys) == shares;
      var todo := qtyBySymbol.Keys;
      while todo != {}
        invariant todo <= qtyBySymbol.Keys
        invariant pricePtr.Valid(index, ts)
        invariant total + Total(Restrict(shares, todo)) == Total(shares)
        decreases |todo|
      {
        Inhabited(todo);
        var sym :| sym in todo;
        RestrictStep(shares, todo, sym);
        var share := ValueOf(txs, index, c, ts, sym);
        todo := todo - {sym};
        total := total + share;
      }
      AbsentValues(txs, index, c, ts);
    }

    /** Symbols that were traded but never entered the dictionary add nothing. */
    lemma {:induction false} AbsentValues(txs: seq<Tx>, index: PriceIndex, c: Conversion, ts: int)
      requires Valid(txs) && Positive(txs) && txs[..txPtr] == Upto(txs, ts)
      ensures Total(map s | s in qtyBySymbol.Keys :: ValueShare(txs, index, c, ts, s))
           == Total(map s | s in Assets(Upto(txs, ts)) :: ValueShare(txs, index, c, ts, s))
    {
      hide Walk, Only, Held, Upto, Convert, PriceOf, ValueShare;
      forall s | s in Assets(Upto(txs, ts)) && s !in qtyBySymbol ensures ValueShare(txs, index, c, ts, s) == 0.0 {
        OwnHistory(txs, ts, s);
        ValueShareIs(txs, index, c, ts, s, 0.0, PriceOf(index, s, ts));
      }
      TotalIgnoresZeros(map s | s in qtyBySymbol.Keys :: ValueShare(txs, index, c, ts, s),
                        map s | s in Assets(Upto(txs, ts)) :: ValueShare(txs, index, c, ts, s));
    }

    /** Nothing later than ts has been looked at. */
    ghost predicate Behind(txs: seq<Tx>, index: PriceIndex, ts: int)
      reads this, pricePtr
    {
      Valid(txs) && (forall i | 0 <= i < txPtr :: txs[i].at <= ts) && pricePtr.Valid(index, ts)
    }

    lemma BehindLater(txs: seq<Tx>, index: PriceIndex, ts: int, later: int)
      requires Behind(txs, index, ts) && ts <= later
      ensures Behind(txs, index, later)
    {
      hide Tracks;
    }

    lemma FreshIsBehind(txs: seq<Tx>, index: PriceIndex, ts: int)
      requires qtyBySymbol == map[] && runningCostBySymbol == map[] && txPtr == 0 && pricePtr.pointer == map[]
      ensures Behind(txs, index, ts)
    {
      NothingTracked();
      hide Tracks;
      assert txs[..0] == [];
    }

    /** One pass of the bucket loop. */
    method NextPoint(txs: seq<Tx>, index: PriceIndex, c: Conversion, ts: int) returns (point: HistoryPoint)
      requires Behind(txs, index, ts) && SortedBy(txs, ByTime) && Positive(txs) && WellIndexed(index)
      modifies this, pricePtr
      ensures Behind(txs, index, ts)
      ensures point == PointAt(txs, index, c, ts)
    {
      hide Walk, Only, Tracks, PointAt, ValueShare, CostShare, Upto;
      AdvanceTo(txs, ts);
      ClearResiduals(txs);
      var runningCost := SumCosts(txs, c, ts);
      var value := SumValues(txs, index, c, ts);
      PointIs(txs, index, c, ts);
      point := HistoryPoint(ts, value, runningCost);
    }

    /** The dictionaries hold each symbol's closed-form holding and walked cost. */
    lemma {:induction false} OwnHistory(txs: seq<Tx>, ts: int, sym: int)
      requires Valid(txs) && Positive(txs) && txs[..txPtr] == Upto(txs, ts)
      ensures Held(Only(Upto(txs, ts), sym)) == At(qtyBySymbol, sym)
      ensures Walk(Only(Upto(txs, ts), sym)).cost == At(runningCostBySymbol, sym)
    {
      OnlySound(txs[..txPtr], sym);
      WalkQuantity(Only(txs[..txPtr], sym));
    }
  }

  /** Every chart point equals the from-scratch replay at its bucket. */
  method ComputeHistoryPoints(txs: seq<Tx>, index: PriceIndex, buckets: seq<int>, c: Conversion)
    returns (points: seq<HistoryPoint>)
    requires Positive(txs) && SortedBy(txs, ByTime) && WellIndexed(index) && NonDecreasing(buckets)
    ensures |points| == |buckets|
    ensures forall i | 0 <= i < |buckets| :: points[i] == PointAt(txs, index, c, buckets[i])
  {
    var scan := new ChartScan();
    points := [];
    hide PointAt, Positive, SortedBy, WellIndexed, ChartScan.Behind;
    if buckets != [] {
      scan.FreshIsBehind(txs, index, buckets[0]);
    }
    for i := 0 to |buckets|
      invariant i < |buckets| ==> scan.Behind(txs, index, buckets[i])
      invariant |points| == i
      invariant forall k | 0 <= k < i :: points[k] == PointAt(txs, index, c, buckets[k])
    {
      var point := scan.NextPoint(txs, index, c, buckets[i]);
      points := points + [point];
      if i + 1 < |buckets| {
        assert buckets[i] <= buckets[i + 1];
        scan.BehindLater(txs, index, buckets[i], buckets[i + 1]);
      }
    }
  }

  // ---- the chart over seeded price windows ----

  /** What the repository hands to the chart: for each traded symbol its points since, behind the seed. */
  function SeededIndex(prices: PriceIndex, syms: set<int>, since: int): PriceIndex {
    map s | s in prices && s in syms :: Window(prices[s], since)
  }

  lemma SeededIsWellIndexed(prices: PriceIndex, syms: set<int>, since: int)
    requires WellIndexed(prices)
    ensures WellIndexed(SeededIndex(prices, syms, since))
  {
    forall s | s in prices ensures Chronological(Window(prices[s], since)) {
      WindowShape(prices[s], since);
    }
    hide Window, Chronological;
  }

  ghost predicate AllSettled(prices: PriceIndex, syms: set<int>, since: int) {
    forall s | s in prices && s in syms :: SeedSettled(prices[s], since)
  }

  lemma SettledPrice(prices: PriceIndex, syms: set<int>, since: int, s: int, T: int)
    requires WellIndexed(prices) && s in syms && since <= T
    requires s in prices ==> SeedSettled(prices[s], since)
    ensures PriceOf(SeededIndex(prices, syms, since), s, T) == PriceOf(prices, s, T)
  {
    hide Window, LatestAt, Chronological, SeedSettled;
    if s in prices {
      WindowIsExactIff(prices[s], since);
      assert LatestAt(Window(prices[s], since), T) == LatestAt(prices[s], T);
    }
  }

  lemma SamePriceSameShare(txs: seq<Tx>, a: PriceIndex, b: PriceIndex, c: Conversion, T: int, sym: int)
    requires PriceOf(a, sym, T) == PriceOf(b, sym, T)
    ensures ValueShare(txs, a, c, T, sym) == ValueShare(txs, b, c, T, sym)
  {}

  /** With settled seeds the windows give the point that the full price lists give. */
  lemma SettledPoint(txs: seq<Tx>, prices: PriceIndex, since: int, c: Conversion, T: int)
    requires WellIndexed(prices) && since <= T && AllSettled(prices, Assets(txs), since)
    ensures PointAt(txs, SeededIndex(prices, Assets(txs), since), c, T) == PointAt(txs, prices, c, T)
  {
    hide Held, Only, Upto, Convert, PriceOf, SeededIndex, SeedSettled, WellIndexed, CostShare;
    UptoSound(txs, T);
    var windows, syms := SeededIndex(prices, Assets(txs), since), Assets(Upto(txs, T));
    forall s | s in syms ensures ValueShare(txs, windows, c, T, s) == ValueShare(txs, prices, c, T, s) {
      var t :| t in Upto(txs, T) && t.asset == s;
      assert t in txs;
      SettledPrice(prices, Assets(txs), since, s, T);
      SamePriceSameShare(txs, windows, prices, c, T, s);
    }
    hide ValueShare;
    assert (map s | s in syms :: ValueShare(txs, windows, c, T, s))
        == (map s | s in syms :: ValueShare(txs, prices, c, T, s));
  }

  const NATIVE := Conversion(None, map[], map[])

  lemma NativeConversion(amount: real, sym: int, ts: int)
    ensures Convert(NATIVE, amount, sym, ts) == Some(amount)
  {}

  /** One unit of one symbol is worth its price. */
  lemma OneUnitPoint(t: Tx, index: PriceIndex)
    requires t.side == Buy && t.qty == 1.0 && PriceOf(index, t.asset, t.at).Some?
    ensures PointAt([t], index, NATIVE, t.at).value == PriceOf(index, t.asset, t.at).value
  {
    var sym := t.asset;
    OneUnitHeld(t);
    NativeConversion(PriceOf(index, sym, t.at).value, sym, t.at);
    hide Upto, Only, Held, PriceOf, Convert;
    var shares := map s | s in Assets([t]) :: ValueShare([t], index, NATIVE, t.at, s);
    assert sym in shares && shares[sym] == PriceOf(index, sym, t.at).value;
    TotalAt(shares, sym);
    assert shares - {sym} == map[];
  }

  lemma OneUnitHeld(t: Tx)
    requires t.side == Buy && t.qty == 1.0
    ensures Upto([t], t.at) == [t] && Assets([t]) == {t.asset}
    ensures Held(Only([t], t.asset)) == 1.0
  {
    assert [t][..0] == [];
    assert Upto([t], t.at) == [] + [t];
    OnlySnoc([], t, t.asset);
    assert [] + [t] == [t] && Only([], t.asset) == [];
    HeldStep([], t);
    assert Held([]) == 0.0;
  }

  lemma UnsettledPoint(prices: PriceIndex, t: Tx, since: int)
    requires WellIndexed(prices) && t.asset in prices && !SeedSettled(prices[t.asset], since)
    requires t.side == Buy && t.qty == 1.0 && t.at == since
    ensures PointAt([t], SeededIndex(prices, Assets([t]), since), NATIVE, since) != PointAt([t], prices, NATIVE, since)
  {
    UnsettledDiffers(prices[t.asset], since);
    hide SeedSettled, LatestAt, Window, PointAt;
    assert t in [t];
    OneUnitPoint(t, prices);
    OneUnitPoint(t, SeededIndex(prices, Assets([t]), since));
  }

  /** The windows give the chart of the full price lists for every portfolio exactly when every seed is settled. */
  lemma SeededChartIsExactIff(prices: PriceIndex, since: int)
    requires WellIndexed(prices)
    ensures AllSettled(prices, prices.Keys, since)
      <==> forall txs, c, T | Positive(txs) && since <= T ::
             PointAt(txs, SeededIndex(prices, Assets(txs), since), c, T) == PointAt(txs, prices, c, T)
  {
    if AllSettled(prices, prices.Keys, since) {
      forall txs, c, T | Positive(txs) && since <= T
        ensures PointAt(txs, SeededIndex(prices, Assets(txs), since), c, T) == PointAt(txs, prices, c, T)
      {
        SettledPoint(txs, prices, since, c, T);
      }
    } else {
      var s :| s in prices && !SeedSettled(prices[s], since);
      var t := Tx(1, s, Buy, 1.0, 1.0, since);
      UnsettledPoint(prices, t, since);
      assert Positive([t]);
    }
  }

  /** The repository query: one window per symbol that has points. */
  method PriceWindows(prices: PriceIndex, syms: set<int>, since: int) returns (grouped: PriceIndex)
    requires WellIndexed(prices)
    ensures grouped == SeededIndex(prices, syms, since)
  {
    grouped := map[];
    SeededEnds(prices, syms, since);
    var todo := prices.Keys * syms;
    ghost var done: set<int> := {};
    hide *;
    while todo != {}
      invariant done + todo == prices.Keys * syms
      invariant grouped == SeededIndex(prices, done, since)
      decreases |todo|
    {
      Inhabited(todo);
      var s :| s in todo;
      ListIsChronological(prices, s);
      var window := ListPricePoints(prices[s], since);
      SeededStep(prices, done, since, s);
      todo := todo - {s};
      done := done + {s};
      grouped := grouped[s := window];
    }
  }

  lemma SeededEnds(prices: PriceIndex, syms: set<int>, since: int)
    ensures SeededIndex(prices, {}, since) == map[]
    ensures SeededIndex(prices, prices.Keys * syms, since) == SeededIndex(prices, syms, since)
  {
    hide Window;
  }

  lemma ListIsChronological(prices: PriceIndex, s: int)
    requires WellIndexed(prices) && s in prices
    ensures Chronological(prices[s])
  {}

  lemma SeededStep(prices: PriceIndex, syms: set<int>, since: int, s: int)
    requires s in prices
    ensures SeededIndex(prices, syms + {s}, since) == SeededIndex(prices, syms, since)[s := Window(prices[s], since)]
  {
    hide Window;
  }

  lemma PointTimes(points: seq<HistoryPoint>, buckets: seq<int>, txs: seq<Tx>, index: PriceIndex, c: Conversion)
    requires |points| == |buckets|
    requires forall i | 0 <= i < |buckets| :: points[i] == PointAt(txs, index, c, buckets[i])
    ensures forall i | 0 <= i < |points| :: points[i].timestamp == buckets[i]
  {
    hide Upto, ValueShare, CostShare, Total;
  }

  lemma BucketsInRange(buckets: seq<int>, start: int, end: int)
    requires NonDecreasing(buckets) && buckets != [] && buckets[|buckets| - 1] == end
    requires buckets[0] == start || (|buckets| == 1 && start >= end)
    ensures start <= end ==> forall i | 0 <= i < |buckets| :: start <= buckets[i] <= end
  {}

  /** What the points of one pass over the windows say about the full price lists. */
  lemma ChartOf(
    points: seq<HistoryPoint>, buckets: seq<int>, txs: seq<Tx>, prices: PriceIndex, start: int, end: int, c: Conversion)
    requires WellIndexed(prices) && |points| == |buckets| && buckets != [] && buckets[|buckets| - 1] == end
    requires NonDecreasing(buckets) && (buckets[0] == start || (|buckets| == 1 && start >= end))
    requires forall i | 0 <= i < |buckets| ::
      points[i] == PointAt(txs, SeededIndex(prices, Assets(txs), start), c, buckets[i])
    ensures points[|points| - 1].timestamp == end
    ensures start <= end ==> forall i | 0 <= i < |points| :: start <= points[i].timestamp <= end
    ensures forall i | 0 <= i < |points| ::
      points[i] == PointAt(txs, SeededIndex(prices, Assets(txs), start), c, points[i].timestamp)
    ensures AllSettled(prices, Assets(txs), start) && start <= end ==>
      forall i | 0 <= i < |points| :: points[i] == PointAt(txs, prices, c, points[i].timestamp)
  {
    PointTimes(points, buckets, txs, SeededIndex(prices, Assets(txs), start), c);
    BucketsInRange(buckets, start, end);
    hide PointAt, SeededIndex, AllSettled, WellIndexed, NonDecreasing;
    if AllSettled(prices, Assets(txs), start) && start <= end {
      forall i | 0 <= i < |points| ensures points[i] == PointAt(txs, prices, c, points[i].timestamp) {
        SettledPoint(txs, prices, start, c, buckets[i]);
      }
    }
  }

  /**
   The chart service: windows for the traded symbols, buckets, one pass. Every point is the replay over the windows,
   and over the full price lists wherever the seeds are settled.
   */
  method GetHistory(txs: seq<Tx>, prices: PriceIndex, start: int, end: int, delta: int, c: Conversion)
    returns (points: seq<HistoryPoint>)
    requires Positive(txs) && SortedBy(txs, ByTime) && WellIndexed(prices) && delta > 0
    ensures txs == [] <==> points == []
    ensures txs != [] ==> points[|points| - 1].timestamp == end
    ensures start <= end ==> forall i | 0 <= i < |points| :: start <= points[i].timestamp <= end
    ensures forall i | 0 <= i < |points| ::
      points[i] == PointAt(txs, SeededIndex(prices, Assets(txs), start), c, points[i].timestamp)
    ensures AllSettled(prices, Assets(txs), start) && start <= end ==>
      forall i | 0 <= i < |points| :: points[i] == PointAt(txs, prices, c, points[i].timestamp)
  {
    if txs == [] {
      return [];
    }
    hide *;
    var windows := PriceWindows(prices, Assets(txs), start);
    SeededIsWellIndexed(prices, Assets(txs), start);
    var buckets := GenerateBucketTimestamps(start, end, delta);
    points := ComputeHistoryPoints(txs, windows, buckets, c);
    ChartOf(points, buckets, txs, prices, start, end, c);
  }

  // ---- what a point is made of ----

  /**
   The rate into the display currency at a bucket: one without a display currency, for a symbol without a listed
   currency, and for the display currency itself; otherwise as fetched for that bucket, if it was.
   */
  function ChartRate(c: Conversion, sym: int, ts: int): Option<real> {
    if c.target == None || sym !in c.currencyOf || c.currencyOf[sym] == c.target.value then Some(1.0)
    else
      var cur := c.currencyOf[sym];
      if cur in c.rates && ts in c.rates[cur] then c.rates[cur][ts] else None
  }

  lemma ConvertIs(c: Conversion, amount: real, sym: int, ts: int)
    ensures ChartRate(c, sym, ts) == None ==> Convert(c, amount, sym, ts) == None
    ensures ChartRate(c, sym, ts).Some? ==>
      Convert(c, amount, sym, ts).Some? && Convert(c, amount, sym, ts).value == amount * ChartRate(c, sym, ts).value
  {
    if ChartRate(c, sym, ts) == Some(1.0) {
      TimesOne(amount, ChartRate(c, sym, ts).value);
    }
  }

  lemma TimesOne(amount: real, rate: real)
    requires rate == 1.0
    ensures amount * rate == amount
  {}

  /** What one symbol adds to the value: the holding times the latest price times the rate, or nothing. */
  function Worth(txs: seq<Tx>, index: PriceIndex, c: Conversion, T: int, sym: int): real {
    var held := Held(Only(Upto(txs, T), sym));
    var price, rate := PriceOf(index, sym, T), ChartRate(c, sym, T);
    if held <= 0.0 || price == None || rate == None then 0.0 else held * price.value * rate.value
  }

  /** What one held symbol adds to the cost basis: the walked cost of its history times the rate, or nothing. */
  function Spent(txs: seq<Tx>, c: Conversion, T: int, sym: int): real {
    var own, rate := Only(Upto(txs, T), sym), ChartRate(c, sym, T);
    if Held(own) <= 0.0 || rate == None then 0.0 else Walk(own).cost * rate.value
  }

  lemma SharesAre(txs: seq<Tx>, index: PriceIndex, c: Conversion, T: int, sym: int)
    ensures ValueShare(txs, index, c, T, sym) == Worth(txs, index, c, T, sym)
    ensures CostShare(txs, c, T, sym) == Spent(txs, c, T, sym)
  {
    var own, price := Only(Upto(txs, T), sym), PriceOf(index, sym, T);
    if price.Some? {
      ConvertIs(c, Held(own) * price.value, sym, T);
    }
    ConvertIs(c, Walk(own).cost, sym, T);
    hide Convert, ChartRate, Held, Walk, Only, Upto, PriceOf;
  }

  /** A point sums what the symbols traded so far are worth, and what was spent on those held. */
  lemma {:induction false} PointSums(txs: seq<Tx>, index: PriceIndex, c: Conversion, T: int)
    ensures var syms := Assets(Upto(txs, T));
      PointAt(txs, index, c, T) == HistoryPoint(
        T, Total(map s | s in syms :: Worth(txs, index, c, T, s)), Total(map s | s in syms :: Spent(txs, c, T, s)))
  {
    hide ValueShare, CostShare, Worth, Spent, Upto, Total;
    var syms := Assets(Upto(txs, T));
    forall s | s in syms
      ensures ValueShare(txs, index, c, T, s) == Worth(txs, index, c, T, s)
      ensures CostShare(txs, c, T, s) == Spent(txs, c, T, s)
    {
      SharesAre(txs, index, c, T, s);
    }
    assert (map s | s in syms :: ValueShare(txs, index, c, T, s)) == map s | s in syms :: Worth(txs, index, c, T, s);
    assert (map s | s in syms :: CostShare(txs, c, T, s)) == map s | s in syms :: Spent(txs, c, T, s);
  }

  lemma {:induction false} NotTradedIsWorthless(txs: seq<Tx>, index: PriceIndex, c: Conversion, T: int, sym: int)
    requires sym !in Assets(Upto(txs, T))
    ensures Worth(txs, index, c, T, sym) == 0.0 == Spent(txs, c, T, sym)
  {
    OnlySound(Upto(txs, T), sym);
    assert Held([]) == 0.0;
    hide Held, Walk, Only, Upto, PriceOf, ChartRate;
  }

  /** A one-symbol chart: holding times latest price times rate, and walked cost times rate. */
  lemma OneSymbolPoint(txs: seq<Tx>, index: PriceIndex, c: Conversion, T: int, sym: int)
    requires Assets(txs) <= {sym}
    ensures PointAt(txs, index, c, T) == HistoryPoint(T, Worth(txs, index, c, T, sym), Spent(txs, c, T, sym))
  {
    UptoSound(txs, T);
    PointSums(txs, index, c, T);
    hide Worth, Spent, PointAt, Upto, Total;
    var syms := Assets(Upto(txs, T));
    TotalOfOne(map s | s in syms :: Worth(txs, index, c, T, s), sym);
    TotalOfOne(map s | s in syms :: Spent(txs, c, T, s), sym);
    if sym !in syms {
      NotTradedIsWorthless(txs, index, c, T, sym);
    }
  }

  lemma RateScalesShares(txs: seq<Tx>, index: PriceIndex, c: Conversion, T: int, sym: int, rate: real)
    requires ChartRate(c, sym, T) == Some(rate)
    ensures Worth(txs, index, c, T, sym) == rate * Worth(txs, index, NATIVE, T, sym)
    ensures Spent(txs, c, T, sym) == rate * Spent(txs, NATIVE, T, sym)
  {
    assert ChartRate(NATIVE, sym, T) == Some(1.0);
    hide ChartRate, Held, Walk, Only, Upto, PriceOf;
    var own, price := Only(Upto(txs, T), sym), PriceOf(index, sym, T);
    if Held(own) > 0.0 {
      TimesOne(Walk(own).cost, 1.0);
      if price.Some? {
        TimesOne(Held(own) * price.value, 1.0);
      }
    }
  }

  lemma OneRateWorth(txs: seq<Tx>, index: PriceIndex, c: Conversion, T: int, syms: set<int>, rate: real)
    requires forall s | s in syms :: ChartRate(c, s, T) == Some(rate)
    ensures Total(map s | s in syms :: Worth(txs, index, c, T, s))
      == rate * Total(map s | s in syms :: Worth(txs, index, NATIVE, T, s))
  {
    hide Worth, Spent, Total, ChartRate;
    forall s | s in syms ensures Worth(txs, index, c, T, s) == rate * Worth(txs, index, NATIVE, T, s) {
      RateScalesShares(txs, index, c, T, s, rate);
    }
    TotalScaled(map s | s in syms :: Worth(txs, index, NATIVE, T, s),
                map s | s in syms :: Worth(txs, index, c, T, s), rate);
  }

  lemma OneRateSpent(txs: seq<Tx>, index: PriceIndex, c: Conversion, T: int, syms: set<int>, rate: real)
    requires forall s | s in syms :: ChartRate(c, s, T) == Some(rate)
    ensures Total(map s | s in syms :: Spent(txs, c, T, s)) ==
      rate * Total(map s | s in syms :: Spent(txs, NATIVE, T, s))
  {
    hide Worth, Spent, Total, ChartRate;
    forall s | s in syms ensures Spent(txs, c, T, s) == rate * Spent(txs, NATIVE, T, s) {
      RateScalesShares(txs, index, c, T, s, rate);
    }
    TotalScaled(map s | s in syms :: Spent(txs, NATIVE, T, s), map s | s in syms :: Spent(txs, c, T, s), rate);
  }

  /** When everything traded so far is in one currency, the point is the unconverted point times that rate. */
  lemma {:induction false} OneRatePoint(txs: seq<Tx>, index: PriceIndex, c: Conversion, T: int, rate: real)
    requires forall s | s in Assets(Upto(txs, T)) :: ChartRate(c, s, T) == Some(rate)
    ensures PointAt(txs, index, c, T).value == rate * PointAt(txs, index, NATIVE, T).value
    ensures PointAt(txs, index, c, T).costBasis == rate * PointAt(txs, index, NATIVE, T).costBasis
  {
    hide Worth, Spent, PointAt, Upto, Total, ChartRate;
    PointSums(txs, index, c, T);
    PointSums(txs, index, NATIVE, T);
    OneRateWorth(txs, index, c, T, Assets(Upto(txs, T)), rate);
    OneRateSpent(txs, index, c, T, Assets(Upto(txs, T)), rate);
  }

  // ---- the chart and the holdings table ----

  function TotalCost(rows: seq<HoldingRow>): real {
    if rows == [] then 0.0 else TotalCost(rows[..|rows| - 1]) + rows[|rows| - 1].totalCost
  }

  /** The cost column of the holdings table, by asset. */
  ghost function CostColumn(rows: seq<HoldingRow>): map<int, real> {
    if rows == [] then map[]
    else CostColumn(rows[..|rows| - 1])[rows[|rows| - 1].asset := rows[|rows| - 1].totalCost]
  }

  predicate OneRowPerAsset(rows: seq<HoldingRow>) {
    forall i, j | 0 <= i < j < |rows| :: rows[i].asset != rows[j].asset
  }

  lemma {:induction false} CostColumnIs(rows: seq<HoldingRow>)
    requires OneRowPerAsset(rows)
    ensures CostColumn(rows).Keys == set i | 0 <= i < |rows| :: rows[i].asset
    ensures forall i | 0 <= i < |rows| :: CostColumn(rows)[rows[i].asset] == rows[i].totalCost
  {
    if rows != [] {
      var init, last := rows[..|rows| - 1], rows[|rows| - 1];
      CostColumnIs(init);
      var before, after := CostColumn(init), CostColumn(rows);
      assert after == before[last.asset := last.totalCost];
      hide CostColumn;
      forall i | 0 <= i < |rows| ensures after[rows[i].asset] == rows[i].totalCost {
        if i < |init| { assert init[i] == rows[i] && rows[i].asset != last.asset; }
      }
    }
  }

  lemma {:induction false} TotalCostIsTotal(rows: seq<HoldingRow>)
    requires OneRowPerAsset(rows)
    ensures TotalCost(rows) == Total(CostColumn(rows))
  {
    if rows != [] {
      var init, last := rows[..|rows| - 1], rows[|rows| - 1];
      TotalCostIsTotal(init);
      CostColumnIs(init);
      hide Total;
      assert last.asset !in CostColumn(init);
      TotalUpdate(CostColumn(init), last.asset, last.totalCost);
    }
  }

  /**
   In one currency, and with no trade after the last bucket, the chart's last cost basis is the sum of the
   holdings table's cost column, whatever the order of its rows.
   */
  lemma {:induction false} LastPointMatchesHoldings(
    txs: seq<Tx>, index: PriceIndex, c: Conversion, T: int, rows: seq<HoldingRow>)
    requires Positive(txs) && forall t | t in txs :: t.at <= T
    requires c.target.Some? ==> forall s | s in Assets(txs) :: s in c.currencyOf && c.currencyOf[s] == c.target.value
    requires OneRowPerAsset(rows) && forall r | r in rows :: r.totalCost == Walk(Only(txs, r.asset)).cost
    requires forall a | a in Assets(txs) :: exists i :: 0 <= i < |rows| && rows[i].asset == a
    ensures PointAt(txs, index, c, T).costBasis == TotalCost(rows)
  {
    hide Walk, Only, Held, Upto;
    CostColumnIs(rows);
    TotalCostIsTotal(rows);
    UptoAll(txs, T);
    var shares := map s | s in Assets(txs) :: CostShare(txs, c, T, s);
    var costs := CostColumn(rows);
    forall a | a in costs ensures costs[a] == if a in shares then shares[a] else 0.0 {
      var i :| 0 <= i < |rows| && rows[i].asset == a;
      assert rows[i] in rows;
      OwnCost(txs, c, T, a);
    }
    TotalIgnoresZeros(shares, costs);
    assert shares == map s | s in Assets(Upto(txs, T)) :: CostShare(txs, c, T, s);
  }

  lemma {:induction false} OwnCost(txs: seq<Tx>, c: Conversion, T: int, a: int)
    requires Positive(txs) && Upto(txs, T) == txs
    requires c.target.Some? && a in Assets(txs) ==> a in c.currencyOf && c.currencyOf[a] == c.target.value
    ensures Walk(Only(txs, a)).cost == if a in Assets(txs) then CostShare(txs, c, T, a) else 0.0
  {
    OnlySound(txs, a);
    WalkQuantity(Only(txs, a));
  }

  lemma {:induction false} UptoAll(txs: seq<Tx>, T: int)
    requires forall t | t in txs :: t.at <= T
    ensures Upto(txs, T) == txs
  {
    if txs != [] {
      UptoAll(txs[..|txs| - 1], T);
      assert txs == txs[..|txs| - 1] + [txs[|txs| - 1]];
    }
  }
}
