/**
 What the holdings table makes of a synced coin: the moving-average walk over the stored rows of its symbol, those of
 other sources included, against the balance the exchange reported.
 */
module SyncedHoldings {
  import opened Common
  import opened Ordering
  import opened Ledger
  import opened MovingAverage
  import opened UpbitAccount
  import opened CashFlow
  import opened ExchangeSync

  // ---- the ledger of one coin ----

  function LedgerRow(id: nat, t: TradeRow): Tx { Tx(id, 0, t.side, t.qty, t.price, t.at) }

  /** The stored rows of one symbol, whatever their source, numbered in the order of insertion. */
  function CoinRows(rows: seq<TradeRow>, key: SymbolKey): seq<Tx> {
    if rows == [] then []
    else
      var t := rows[|rows| - 1];
      CoinRows(rows[..|rows| - 1], key) + if t.symbol == key then [LedgerRow(|rows|, t)] else []
  }

  /** The same in the order the holdings walk reads them. */
  function CoinLedger(rows: seq<TradeRow>, key: SymbolKey): seq<Tx> { SortBy(CoinRows(rows, key), DbOrder) }

  /** Bought minus sold of one symbol. */
  function CoinNet(rows: seq<TradeRow>, key: SymbolKey): real {
    if rows == [] then 0.0
    else
      var t := rows[|rows| - 1];
      CoinNet(rows[..|rows| - 1], key)
      + if t.symbol != key then 0.0 else if t.side == Buy then t.qty else -t.qty
  }

  lemma {:induction false} CoinRowsSnoc(rows: seq<TradeRow>, t: TradeRow, key: SymbolKey)
    ensures CoinRows(rows + [t], key)
      == if t.symbol == key then CoinRows(rows, key) + [LedgerRow(|rows| + 1, t)] else CoinRows(rows, key)
  {
    assert (rows + [t])[..|rows|] == rows;
    assert CoinRows(rows, key) + [] == CoinRows(rows, key);
  }

  lemma {:induction false} CoinNetIsNet(rows: seq<TradeRow>, key: SymbolKey)
    ensures Net(CoinRows(rows, key)) == CoinNet(rows, key)
  {
    if rows != [] {
      var init, t := rows[..|rows| - 1], rows[|rows| - 1];
      CoinNetIsNet(init, key);
      var before := CoinRows(init, key);
      assert before + [] == before;
      assert (before + [LedgerRow(|rows|, t)])[..|before|] == before;
    }
  }

  lemma {:induction false} CoinNetConcat(a: seq<TradeRow>, b: seq<TradeRow>, key: SymbolKey)
    ensures CoinNet(a + b, key) == CoinNet(a, key) + CoinNet(b, key)
  {
    if b == [] {
      assert a + b == a;
    } else {
      assert (a + b)[..|a + b| - 1] == a + b[..|b| - 1];
      CoinNetConcat(a, b[..|b| - 1], key);
    }
  }

  lemma {:induction false} FreshNet(trades: seq<ExternalTrade>, symbol: string)
    ensures CoinNet(FreshRows("upbit", trades), KeyOf("upbit", symbol)) == HistoryQty(trades, symbol)
  {
    if trades != [] {
      var init := trades[..|trades| - 1];
      FreshNet(init, symbol);
      assert FreshRows("upbit", trades)[..|trades| - 1] == FreshRows("upbit", init);
    }
  }

  lemma {:induction false} CoinRowsFrom(rows: seq<TradeRow>, key: SymbolKey)
    ensures forall r | r in CoinRows(rows, key) ::
      exists i :: 0 <= i < |rows| && rows[i].symbol == key
        && r == Tx(i + 1, 0, rows[i].side, rows[i].qty, rows[i].price, rows[i].at)
  {
    if rows != [] {
      CoinRowsFrom(rows[..|rows| - 1], key);
    }
  }

  // ---- sorting ----

  lemma {:induction false} InsertedNet(s: seq<Tx>, x: Tx)
    ensures Net(InsertBy(s, x, DbOrder)) == Net(s) + Signed(x)
    decreases |s|
  {
    if s == [] || DbOrder(s[|s| - 1], x) {
      assert (s + [x])[..|s|] == s;
    } else {
      var init := InsertBy(s[..|s| - 1], x, DbOrder);
      InsertedNet(s[..|s| - 1], x);
      assert (init + [s[|s| - 1]])[..|init|] == init;
    }
  }

  /** Sorting keeps the signed sum. */
  lemma {:induction false} SortedNet(s: seq<Tx>)
    ensures Net(SortBy(s, DbOrder)) == Net(s)
  {
    if s != [] {
      SortedNet(s[..|s| - 1]);
      InsertedNet(SortBy(s[..|s| - 1], DbOrder), s[|s| - 1]);
    }
  }

  /** A row newer than all others is stored last. */
  lemma {:induction false} NewestSortsLast(stored: seq<Tx>, x: Tx)
    requires forall r | r in stored :: r.at < x.at
    ensures SortBy(stored + [x], DbOrder) == SortBy(stored, DbOrder) + [x]
  {
    OrdersAreTotal();
    SortByCorrect(stored, DbOrder);
    var s := SortBy(stored, DbOrder);
    assert (stored + [x])[..|stored|] == stored;
    if s != [] {
      assert s[|s| - 1] in multiset(s);
      assert s[|s| - 1] in stored;
    }
  }

  /** The walked quantity of a coin's ledger is the closed form, for rows of zero quantity too. */
  lemma {:induction false} WalkedCoin(rows: seq<TradeRow>, key: SymbolKey)
    requires forall i | 0 <= i < |rows| && rows[i].symbol == key :: rows[i].qty >= 0.0
    ensures Walk(CoinLedger(rows, key)).qty == Net(CoinLedger(rows, key)) - LowestNet(CoinLedger(rows, key))
    ensures Net(CoinLedger(rows, key)) == CoinNet(rows, key)
  {
    OrdersAreTotal();
    SortByCorrect(CoinRows(rows, key), DbOrder);
    CoinRowsFrom(rows, key);
    var ledger := CoinLedger(rows, key);
    forall t | t in ledger ensures t.qty >= 0.0 {
      assert t in multiset(ledger);
      assert t in CoinRows(rows, key);
    }
    WalkedQuantity(ledger);
    SortedNet(CoinRows(rows, key));
    CoinNetIsNet(rows, key);
  }

  // ---- a synced coin ----

  function CoinKey(row: BalanceRow): SymbolKey { KeyOf("upbit", Upper(row.currency)) }

  function Batch(rows: seq<BalanceRow>, history: seq<ExternalTrade>, now: int): seq<ExternalTrade> {
    history + Adjustments(rows, history, now)
  }

  lemma SyncedTrades(
    db: Db, batch: seq<ExternalTrade>, cashRows: seq<RawCash>, target: Option<real>, now: int)
    requires DistinctIds(batch)
    ensures Synced(db, "upbit", batch, cashRows, "KRW", target, now).trades
      == WithoutTrades(db.trades, "upbit") + FreshRows("upbit", batch)
  {
    hide WithoutTrades, FreshRows, Upserted, WithPin, DistinctIds, DeltaQ;
  }

  lemma {:induction false} AdjustmentQtys(rows: seq<BalanceRow>, history: seq<ExternalTrade>, now: int)
    ensures forall a | a in Adjustments(rows, history, now) :: a.quantity >= 0.0
  {
    if rows != [] {
      AdjustmentQtys(rows[..|rows| - 1], history, now);
      AdjustmentQty(rows[|rows| - 1], history, now);
      hide AdjustmentFor;
    }
  }

  lemma AdjustmentQty(row: BalanceRow, history: seq<ExternalTrade>, now: int)
    ensures var a := AdjustmentFor(row, history, now); a.Some? ==> a.value.quantity >= 0.0
  {
    hide HistoryQty, Upper;
    if Reported(row) {
      var diff := row.balance.value - HistoryQty(history, Upper(row.currency));
      RoundsToNonNegative(Abs(diff), QTY_QUANTUM);
    }
  }

  lemma RoundsToNonNegative(x: real, quantum: real)
    requires x >= 0.0 && quantum > 0.0
    ensures RoundHalfUp(x, quantum) >= 0.0
  {
    var s := x / quantum;
    DivMul(x, quantum);
    if s < 0.0 { MulStrict(quantum, s, 0.0); }
    MulMono(quantum, 0.0, (s + 0.5).Floor as real);
  }

  lemma {:induction false} WithoutIsPart(rows: seq<TradeRow>, source: string)
    ensures forall t | t in WithoutTrades(rows, source) :: t in rows
  {
    if rows != [] {
      WithoutIsPart(rows[..|rows| - 1], source);
    }
  }

  /** No stored or incoming row has a negative quantity. */
  ghost predicate NonNegative(trades: seq<TradeRow>, history: seq<ExternalTrade>) {
    (forall t | t in trades :: t.qty >= 0.0) && (forall t | t in history :: t.quantity >= 0.0)
  }

  lemma SyncedQtys(db: Db, rows: seq<BalanceRow>, history: seq<ExternalTrade>, now: int)
    requires NonNegative(db.trades, history)
    ensures var after := WithoutTrades(db.trades, "upbit") + FreshRows("upbit", Batch(rows, history, now));
      forall i | 0 <= i < |after| :: after[i].qty >= 0.0
  {
    WithoutIsPart(db.trades, "upbit");
    AdjustmentQtys(rows, history, now);
    hide WithoutTrades, Adjustments, KeyOf;
    var kept, batch := WithoutTrades(db.trades, "upbit"), Batch(rows, history, now);
    forall i | 0 <= i < |kept| ensures kept[i].qty >= 0.0 { assert kept[i] in kept; }
    forall i | 0 <= i < |batch| ensures batch[i].quantity >= 0.0 { assert batch[i] in batch; }
  }

  /**
   Whatever rows other sources have of the coin, and whatever was oversold: the walked holding after a sync is the
   reported balance plus the other sources' net, lifted by the deepest overdraft, to within one quantum.
   */
  lemma SyncedCoinHolding(
    db: Db, rows: seq<BalanceRow>, history: seq<ExternalTrade>, cashRows: seq<RawCash>, target: Option<real>,
      now: int, i: nat)
    requires DistinctCurrencies(rows) && i < |rows| && Reported(rows[i])
    requires DistinctIds(Batch(rows, history, now)) && NonNegative(db.trades, history)
    ensures var key := CoinKey(rows[i]);
      var after := CoinLedger(Synced(db, "upbit", Batch(rows, history, now), cashRows, "KRW", target, now).trades, key);
      Abs(Walk(after).qty
          - (rows[i].balance.value + CoinNet(WithoutTrades(db.trades, "upbit"), key) - LowestNet(after))) < QTY_QUANTUM
  {
    hide *;
    var key, kept, batch := CoinKey(rows[i]), WithoutTrades(db.trades, "upbit"), Batch(rows, history, now);
    SyncedTrades(db, batch, cashRows, target, now);
    SyncedQtys(db, rows, history, now);
    SyncedNet(db, rows, history, now, i);
    WalkedCoin(kept + FreshRows("upbit", batch), key);
    Shift(Net(CoinLedger(kept + FreshRows("upbit", batch), key)), rows[i].balance.value + CoinNet(kept, key),
          LowestNet(CoinLedger(kept + FreshRows("upbit", batch), key)));
  }

  lemma Shift(a: real, b: real, low: real)
    requires Abs(a - b) < QTY_QUANTUM
    ensures Abs((a - low) - (b - low)) < QTY_QUANTUM
    ensures Abs(Max(a - low, 0.0) - Max(b - low, 0.0)) < QTY_QUANTUM
  {}

  /** The signed sum of the coin after a sync. */
  lemma SyncedNet(db: Db, rows: seq<BalanceRow>, history: seq<ExternalTrade>, now: int, i: nat)
    requires DistinctCurrencies(rows) && i < |rows| && Reported(rows[i])
    ensures rows[i].balance.Some? && rows[i].balance.value >= 0.0
    ensures var key, kept := CoinKey(rows[i]), WithoutTrades(db.trades, "upbit");
      Abs(CoinNet(kept + FreshRows("upbit", Batch(rows, history, now)), key)
          - (rows[i].balance.value + CoinNet(kept, key))) < QTY_QUANTUM
  {
    hide DistinctCurrencies, WithoutTrades, Adjustments, FreshRows, KeyOf, Upper, CoinNet, HistoryQty;
    var batch := Batch(rows, history, now);
    AdjustmentsPinBalances(rows, history, now);
    CoinNetConcat(WithoutTrades(db.trades, "upbit"), FreshRows("upbit", batch), CoinKey(rows[i]));
    FreshNet(batch, Upper(rows[i].currency));
  }

  // ---- before and after the adjustment ----

  /** At most one adjustment row joins a coin's ledger, and it is the newest. */
  ghost predicate Extends(before: seq<Tx>, after: seq<Tx>, now: int) {
    after == before || exists x: Tx :: after == before + [x] && x.at == now
  }

  lemma {:induction false} AdjustmentRows(
    kept: seq<TradeRow>, rows: seq<BalanceRow>, history: seq<ExternalTrade>, now: int, symbol: string)
    requires DistinctCurrencies(rows)
    ensures var key := KeyOf("upbit", symbol);
      var before := CoinRows(kept + FreshRows("upbit", history), key);
      var after := CoinRows(kept + FreshRows("upbit", Batch(rows, history, now)), key);
      && Extends(before, after, now)
      && ((forall i | 0 <= i < |rows| :: Upper(rows[i].currency) != symbol) ==> after == before)
  {
    hide AdjustmentFor, Upper, CoinRows, KeyOf;
    if rows == [] {
      assert Batch(rows, history, now) == history;
    } else {
      var n := |rows| - 1;
      AdjustmentRows(kept, rows[..n], history, now, symbol);
      AdjustmentShape(rows[n], history, now);
      OneMoreRow(kept, rows, history, now, symbol);
    }
  }

  lemma {:induction false} OneMoreRow(
    kept: seq<TradeRow>, rows: seq<BalanceRow>, history: seq<ExternalTrade>, now: int, symbol: string)
    requires rows != []
    ensures var a, key := AdjustmentFor(rows[|rows| - 1], history, now), KeyOf("upbit", symbol);
      var before := CoinRows(kept + FreshRows("upbit", Batch(rows[..|rows| - 1], history, now)), key);
      var after := CoinRows(kept + FreshRows("upbit", Batch(rows, history, now)), key);
      if a.Some? && a.value.symbol == symbol then exists x: Tx :: after == before + [x] && x.at == a.value.tradedAt
      else after == before
  {
    var a, key := AdjustmentFor(rows[|rows| - 1], history, now), KeyOf("upbit", symbol);
    var few, many := Batch(rows[..|rows| - 1], history, now), Batch(rows, history, now);
    hide AdjustmentFor, CoinRows;
    if a.Some? {
      assert many == few + [a.value];
      hide Batch;
      var row := FreshRow("upbit", a.value);
      assert kept + FreshRows("upbit", many) == (kept + FreshRows("upbit", few)) + [row];
      CoinRowsSnoc(kept + FreshRows("upbit", few), row, key);
    } else {
      assert many == few;
    }
  }

  /** A closing row lifts the holding to the net less the overdraft before it, and never below zero. */
  lemma {:induction false} ClosingRowLifts(before: seq<Tx>, after: seq<Tx>)
    requires after == before || exists x: Tx :: after == before + [x]
    ensures Held(after) == Max(Net(after) - LowestNet(before), 0.0)
  {
    if after != before {
      assert after[..|after| - 1] == before;
    }
    HeldIsNonNegative(before);
  }

  lemma {:induction false} ExtendedLedger(before: seq<Tx>, after: seq<Tx>, now: int)
    requires Extends(before, after, now) && forall r | r in before :: r.at < now
    ensures Held(SortBy(after, DbOrder)) == Max(Net(SortBy(after, DbOrder)) - LowestNet(SortBy(before, DbOrder)), 0.0)
  {
    if after != before {
      var x: Tx :| after == before + [x] && x.at == now;
      NewestSortsLast(before, x);
    }
    hide SortBy, Held, Net, LowestNet;
    ClosingRowLifts(SortBy(before, DbOrder), SortBy(after, DbOrder));
  }

  /** Rows of other sources on the coin are older than the sync. */
  ghost predicate OlderElsewhere(trades: seq<TradeRow>, key: SymbolKey, now: int) {
    forall t | t in trades && t.source != Some("upbit") && t.symbol == key :: t.at < now
  }

  /** What the walk reads without the adjustments: the coin's orders and the rows of other sources. */
  function UnadjustedLedger(db: Db, history: seq<ExternalTrade>, key: SymbolKey): seq<Tx> {
    CoinLedger(WithoutTrades(db.trades, "upbit") + FreshRows("upbit", history), key)
  }

  lemma {:induction false} HeldIs(txs: seq<Tx>)
    ensures Held(txs) == Net(txs) - LowestNet(txs)
  {}

  /**
   Two-sided for every history: the walked holding is the balance plus the other sources' net, lifted by what was
   overdrawn before the adjustment, and cut at zero.
   */
  lemma SyncedCoinLift(
    db: Db, rows: seq<BalanceRow>, history: seq<ExternalTrade>, cashRows: seq<RawCash>, target: Option<real>,
      now: int, i: nat)
    requires DistinctCurrencies(rows) && i < |rows| && Reported(rows[i])
    requires DistinctIds(Batch(rows, history, now)) && NonNegative(db.trades, history)
    requires OlderElsewhere(db.trades, CoinKey(rows[i]), now) && forall t | t in history :: t.tradedAt < now
    ensures var key := CoinKey(rows[i]);
      var after := CoinLedger(Synced(db, "upbit", Batch(rows, history, now), cashRows, "KRW", target, now).trades, key);
      var others := CoinNet(WithoutTrades(db.trades, "upbit"), key);
      Abs(Walk(after).qty
          - Max(rows[i].balance.value + others - LowestNet(UnadjustedLedger(db, history, key)), 0.0)) < QTY_QUANTUM
  {
    hide *;
    var key, kept, batch := CoinKey(rows[i]), WithoutTrades(db.trades, "upbit"), Batch(rows, history, now);
    var after := kept + FreshRows("upbit", batch);
    SyncedTrades(db, batch, cashRows, target, now);
    SyncedQtys(db, rows, history, now);
    SyncedNet(db, rows, history, now, i);
    LiftedCoin(db, rows, history, now, i);
    WalkedCoin(after, key);
    HeldIs(CoinLedger(after, key));
    Shift(Net(CoinLedger(after, key)), rows[i].balance.value + CoinNet(kept, key),
          LowestNet(UnadjustedLedger(db, history, key)));
  }

  /** What a sync leaves: balance plus the other sources' net less the lowest unadjusted prefix, cut at zero. */
  function LiftedBalance(db: Db, history: seq<ExternalTrade>, row: BalanceRow): real
    requires row.balance.Some?
  {
    var key := CoinKey(row);
    var others := CoinNet(WithoutTrades(db.trades, "upbit"), key);
    Max(row.balance.value + others - LowestNet(UnadjustedLedger(db, history, key)), 0.0)
  }

  lemma LiftedIs(db: Db, history: seq<ExternalTrade>, row: BalanceRow)
    requires row.balance.Some? && row.balance.value >= 0.0
    ensures var others := CoinNet(WithoutTrades(db.trades, "upbit"), CoinKey(row));
      var lowest := LowestNet(UnadjustedLedger(db, history, CoinKey(row)));
      && LiftedBalance(db, history, row) == Max(row.balance.value + others - lowest, 0.0)
      && (LiftedBalance(db, history, row) == row.balance.value
          <==> others == lowest || (row.balance.value == 0.0 && others <= lowest))
  {
    hide CoinNet, WithoutTrades, LowestNet, UnadjustedLedger;
  }

  lemma SyncedNetExactly(db: Db, rows: seq<BalanceRow>, history: seq<ExternalTrade>, now: int, i: nat)
    requires DistinctCurrencies(rows) && i < |rows| && Reported(rows[i])
    requires OnGrid(rows[i].balance.value) && forall t | t in history :: OnGrid(t.quantity)
    ensures var key, kept := CoinKey(rows[i]), WithoutTrades(db.trades, "upbit");
      CoinNet(kept + FreshRows("upbit", Batch(rows, history, now)), key) == rows[i].balance.value + CoinNet(kept, key)
  {
    hide DistinctCurrencies, WithoutTrades, Adjustments, FreshRows, KeyOf, Upper, CoinNet, HistoryQty, OnGrid;
    var batch := Batch(rows, history, now);
    AdjustmentsMeetBalances(rows, history, now, i);
    CoinNetConcat(WithoutTrades(db.trades, "upbit"), FreshRows("upbit", batch), CoinKey(rows[i]));
    FreshNet(batch, Upper(rows[i].currency));
  }

  /**
   With quantities and balance of ten decimals the walked holding is the lifted balance itself. The coin is pinned,
   then, exactly when what other sources net equals the lowest prefix of the ledger before the adjustment, or the
   balance is zero and they net no more than that.
   */
  lemma SyncedCoinPinnedIff(
    db: Db, rows: seq<BalanceRow>, history: seq<ExternalTrade>, cashRows: seq<RawCash>, target: Option<real>,
      now: int, i: nat)
    requires DistinctCurrencies(rows) && i < |rows| && Reported(rows[i])
    requires DistinctIds(Batch(rows, history, now)) && NonNegative(db.trades, history)
    requires OlderElsewhere(db.trades, CoinKey(rows[i]), now) && forall t | t in history :: t.tradedAt < now
    requires OnGrid(rows[i].balance.value) && forall t | t in history :: OnGrid(t.quantity)
    ensures var key, balance := CoinKey(rows[i]), rows[i].balance.value;
      var others := CoinNet(WithoutTrades(db.trades, "upbit"), key);
      var lowest := LowestNet(UnadjustedLedger(db, history, key));
      var after := CoinLedger(Synced(db, "upbit", Batch(rows, history, now), cashRows, "KRW", target, now).trades, key);
      && Walk(after).qty == LiftedBalance(db, history, rows[i])
      && (Walk(after).qty == balance <==> others == lowest || (balance == 0.0 && others <= lowest))
  {
    hide *;
    var key, kept, batch := CoinKey(rows[i]), WithoutTrades(db.trades, "upbit"), Batch(rows, history, now);
    SyncedTrades(db, batch, cashRows, target, now);
    SyncedQtys(db, rows, history, now);
    SyncedNet(db, rows, history, now, i);
    SyncedNetExactly(db, rows, history, now, i);
    LiftedCoin(db, rows, history, now, i);
    WalkedCoin(kept + FreshRows("upbit", batch), key);
    HeldIs(CoinLedger(kept + FreshRows("upbit", batch), key));
    LiftedIs(db, history, rows[i]);
    var lowest := LowestNet(UnadjustedLedger(db, history, key));
    assert Net(CoinLedger(kept + FreshRows("upbit", batch), key)) - lowest
      == rows[i].balance.value + CoinNet(kept, key) - lowest;
  }

  /**
   For any decimals: a lifted balance equal to the reported one pins the coin to within one quantum, and one that
   misses it by two quanta or more does not.
   */
  lemma SyncedCoinPinned(
    db: Db, rows: seq<BalanceRow>, history: seq<ExternalTrade>, cashRows: seq<RawCash>, target: Option<real>,
      now: int, i: nat)
    requires DistinctCurrencies(rows) && i < |rows| && Reported(rows[i])
    requires DistinctIds(Batch(rows, history, now)) && NonNegative(db.trades, history)
    requires OlderElsewhere(db.trades, CoinKey(rows[i]), now) && forall t | t in history :: t.tradedAt < now
    ensures var key, balance := CoinKey(rows[i]), rows[i].balance.value;
      var after := CoinLedger(Synced(db, "upbit", Batch(rows, history, now), cashRows, "KRW", target, now).trades, key);
      var lifted := LiftedBalance(db, history, rows[i]);
      && (lifted == balance ==> Abs(Walk(after).qty - balance) < QTY_QUANTUM)
      && (Abs(lifted - balance) >= 2.0 * QTY_QUANTUM ==> Abs(Walk(after).qty - balance) > QTY_QUANTUM)
  {
    hide Adjustments, Upper, KeyOf, DistinctCurrencies, DistinctIds, Synced, CoinLedger, Walk, LowestNet, CoinNet,
      UnadjustedLedger, WithoutTrades, OlderElsewhere, NonNegative, Batch;
    SyncedCoinLift(db, rows, history, cashRows, target, now, i);
  }

  lemma LiftedCoin(db: Db, rows: seq<BalanceRow>, history: seq<ExternalTrade>, now: int, i: nat)
    requires DistinctCurrencies(rows) && i < |rows|
    requires OlderElsewhere(db.trades, CoinKey(rows[i]), now) && forall t | t in history :: t.tradedAt < now
    ensures var key := CoinKey(rows[i]);
      var after := CoinLedger(WithoutTrades(db.trades, "upbit") + FreshRows("upbit", Batch(rows, history, now)), key);
      Held(after) == Max(Net(after) - LowestNet(UnadjustedLedger(db, history, key)), 0.0)
  {
    hide DistinctCurrencies, WithoutTrades, FreshRows, Batch, KeyOf, Upper, CoinRows, SortBy, Held, Net, LowestNet,
      Extends;
    var key, kept := CoinKey(rows[i]), WithoutTrades(db.trades, "upbit");
    AdjustmentRows(kept, rows, history, now, Upper(rows[i].currency));
    RowsAreOlder(db, history, key, now);
    ExtendedLedger(CoinRows(kept + FreshRows("upbit", history), key),
                   CoinRows(kept + FreshRows("upbit", Batch(rows, history, now)), key), now);
  }

  lemma {:induction false} RowsAreOlder(db: Db, history: seq<ExternalTrade>, key: SymbolKey, now: int)
    requires OlderElsewhere(db.trades, key, now) && forall t | t in history :: t.tradedAt < now
    ensures forall r | r in CoinRows(WithoutTrades(db.trades, "upbit") + FreshRows("upbit", history), key) :: r.at < now
  {
    var kept := WithoutTrades(db.trades, "upbit");
    WithoutIsPart(db.trades, "upbit");
    WithoutSource(db.trades, "upbit");
    CoinRowsFrom(kept + FreshRows("upbit", history), key);
    hide WithoutTrades, CoinRows, KeyOf;
    forall i | 0 <= i < |kept| && kept[i].symbol == key ensures kept[i].at < now { assert kept[i] in kept; }
  }

  // ---- the coin that only the exchange knows ----

  /** No other source, manual entry included, has a row of the coin. */
  ghost predicate OnlyHere(trades: seq<TradeRow>, key: SymbolKey) {
    forall t | t in trades && t.source != Some("upbit") :: t.symbol != key
  }

  lemma {:induction false} NothingElsewhere(trades: seq<TradeRow>, key: SymbolKey)
    requires OnlyHere(trades, key)
    ensures CoinNet(WithoutTrades(trades, "upbit"), key) == 0.0
  {
    if trades != [] {
      var init, t := trades[..|trades| - 1], trades[|trades| - 1];
      assert t in trades && forall u | u in init :: u in trades;
      NothingElsewhere(init, key);
      var kept := WithoutTrades(init, "upbit");
      assert kept + [] == kept && (kept + [t])[..|kept|] == kept;
    }
  }

  /**
   A sync pins both sides: the cash-flow service reports the exchange's KRW balance to within half a won, and every
   reported coin that no other source has rows of is walked to its balance, lifted by what its orders overdrew, to
   within one quantum; without an overdraft to the balance itself.
   */
  lemma SyncPinsBothSides(
    db: Db, rows: seq<BalanceRow>, history: seq<ExternalTrade>, cashRows: seq<RawCash>, target: real, now: int)
    requires UniqueCash(db.cash) && PinsClean(db.cash)
    requires forall i | 0 <= i < |db.cash| :: CleanCash(db.cash[i], "upbit")
    requires forall i | 0 <= i < |db.dividends| :: CleanDividend(db.dividends[i], "upbit")
    requires DistinctCurrencies(rows) && DistinctIds(history) && NonNegative(db.trades, history)
    requires forall t | t in history :: t.tradedAt < now
    requires forall i | 0 <= i < |history| :: CleanOrder(history[i])
    ensures var after := Synced(db, "upbit", Batch(rows, history, now), cashRows, "KRW", Some(target), now);
      && Abs(Flow(Signals(after), "upbit", "KRW") - target) <= 0.5
      && forall i | 0 <= i < |rows| && Reported(rows[i]) && OnlyHere(db.trades, CoinKey(rows[i])) ::
           var key := CoinKey(rows[i]);
           var held, before := Walk(CoinLedger(after.trades, key)).qty, UnadjustedLedger(db, history, key);
           && Abs(held - (rows[i].balance.value - LowestNet(before))) < QTY_QUANTUM
           && (NeverOversold(before) ==> Abs(held - rows[i].balance.value) < QTY_QUANTUM)
  {
    hide Adjustments, Upper, KeyOf, DistinctCurrencies, DistinctIds, CleanOrder, CleanTrade, CleanCash, CleanDividend;
    hide UniqueCash, PinsClean, Flow, Signals, Synced, NeverOversold, CoinLedger, UnadjustedLedger, Walk,
      LowestNet, OnlyHere, OlderElsewhere;
    BatchIsClean(rows, history, now);
    SyncPinsBalance(db, Batch(rows, history, now), cashRows, target, now);
    forall i | 0 <= i < |rows| && Reported(rows[i]) && OnlyHere(db.trades, CoinKey(rows[i]))
      ensures var key := CoinKey(rows[i]);
        var after := Synced(db, "upbit", Batch(rows, history, now), cashRows, "KRW", Some(target), now);
        var held, before := Walk(CoinLedger(after.trades, key)).qty, UnadjustedLedger(db, history, key);
        && Abs(held - (rows[i].balance.value - LowestNet(before))) < QTY_QUANTUM
        && (NeverOversold(before) ==> Abs(held - rows[i].balance.value) < QTY_QUANTUM)
    {
      NothingElsewhere(db.trades, CoinKey(rows[i]));
      NoneIsOlder(db.trades, CoinKey(rows[i]), now);
      SyncedCoinLift(db, rows, history, cashRows, Some(target), now, i);
      LowestIsNotPositive(UnadjustedLedger(db, history, CoinKey(rows[i])));
    }
  }

  lemma NoneIsOlder(trades: seq<TradeRow>, key: SymbolKey, now: int)
    requires OnlyHere(trades, key)
    ensures OlderElsewhere(trades, key, now)
  {}

  lemma {:induction false} LowestIsNotPositive(txs: seq<Tx>)
    ensures LowestNet(txs) <= 0.0 && (NeverOversold(txs) ==> LowestNet(txs) == 0.0)
  {
    LowestNetIsLeast(txs);
    assert txs[..0] == [];
    NeverOversoldIffUncapped(txs);
  }

  // ---- the coin that another source knows too ----

  /**
   One manual BUY of one unit before the sync, and no orders: whatever the exchange reports, the sync keeps the row
   and the walk ends one unit above the balance.
   */
  lemma {:induction false} ManualCoinIsAddedOnTop(currency: string, balance: real)
    requires Upper(currency) != "KRW" && balance >= 0.0
    ensures var row := BalanceRow(currency, Some(balance), None);
      var manual := TradeRow(CoinKey(row), Buy, 1.0, 1.0, 0.0, 0, None, None);
      var after := Synced(Db([], [manual], [], map[]), "upbit", Batch([row], [], 1), [], "KRW", None, 1);
      && manual in after.trades
      && Abs(Walk(CoinLedger(after.trades, CoinKey(row))).qty - (balance + 1.0)) < QTY_QUANTUM
  {
    var row := BalanceRow(currency, Some(balance), None);
    var manual := TradeRow(CoinKey(row), Buy, 1.0, 1.0, 0.0, 0, None, None);
    var db := Db([], [manual], [], map[]);
    hide Upper, KeyOf, Batch, Synced, CoinLedger, Walk, CoinNet, LowestNet, WithoutTrades, FreshRows;
    OneRowLedger(manual, CoinKey(row));
    BatchOfOne(row);
    assert Reported(row);
    hide Reported;
    SyncedTrades(db, Batch([row], [], 1), [], None, 1);
    SyncedCoinLift(db, [row], [], [], None, 1, 0);
  }

  lemma BatchOfOne(row: BalanceRow)
    ensures DistinctIds(Batch([row], [], 1)) && DistinctCurrencies([row])
  {
    AdjustmentIds([row], [], 1);
    assert [row][..0] == [];
    hide AdjustmentFor;
    assert |Adjustments([row], [], 1)| <= 1;
  }

  lemma {:induction false} OneRowLedger(t: TradeRow, key: SymbolKey)
    requires t.symbol == key && t.side == Buy && t.qty == 1.0 && t.source == None
    ensures WithoutTrades([t], "upbit") == [t] && CoinNet([t], key) == 1.0
    ensures LowestNet(CoinLedger([t] + FreshRows("upbit", []), key)) == 0.0
  {
    OneRowKept(t, key);
    NothingFresh(t);
    hide WithoutTrades, CoinRows, CoinNet, FreshRows, SortBy, LowestNet;
    SortByFixpoint([LedgerRow(1, t)], DbOrder);
    OneBuyNeverDips(LedgerRow(1, t));
  }

  lemma NothingFresh(t: TradeRow)
    ensures [t] + FreshRows("upbit", []) == [t]
  {
    hide FreshRow;
  }

  lemma {:induction false} OneRowKept(t: TradeRow, key: SymbolKey)
    requires t.symbol == key && t.side == Buy && t.qty == 1.0 && t.source == None
    ensures WithoutTrades([t], "upbit") == [t] && CoinNet([t], key) == 1.0
    ensures CoinRows([t], key) == [LedgerRow(1, t)]
  {
    var rows := [t];
    assert rows[..0] == [];
    assert WithoutTrades(rows[..0], "upbit") == [] && CoinRows(rows[..0], key) == [];
    assert CoinNet(rows[..0], key) == 0.0;
  }

  lemma OneBuyNeverDips(x: Tx)
    requires x.side == Buy && x.qty == 1.0
    ensures LowestNet([x]) == 0.0
  {
    assert [x][..0] == [];
    assert Net([x]) == 1.0;
  }
}
