/**
 The exchange sync service: replacing a source's trades, recording its deposits and withdrawals, and pinning
 its cash balance with one reconcile row.
 */
module ExchangeSync {
  import opened Common
  import opened Ledger
  import opened UpbitAccount
  import opened CashFlow

  // ---- quantize with the default rounding ----

  /** The nearest multiple of the quantum; a tie goes to the even multiple. */
  function RoundHalfEven(x: real, quantum: real): real
    requires quantum > 0.0
  {
    NearestEven(x / quantum) as real * quantum
  }

  function NearestEven(s: real): int {
    var n := s.Floor;
    var rest := s - n as real;
    if rest < 0.5 then n else if rest > 0.5 then n + 1 else if n % 2 == 0 then n else n + 1
  }

  function CashQuantum(currency: string): (q: real)
    ensures q > 0.0
  {
    if currency == "KRW" then 1.0 else 0.00000001
  }

  lemma QuantumIs(currency: string)
    ensures CashQuantum(currency) / 2.0 == if currency == "KRW" then 0.5 else 0.000000005
  {}

  lemma HalfEvenError(x: real, quantum: real)
    requires quantum > 0.0
    ensures Abs(RoundHalfEven(x, quantum) - x) <= quantum / 2.0
  {
    NearestEvenError(x / quantum);
    DivMul(x, quantum);
    hide NearestEven;
    var n := NearestEven(x / quantum) as real;
    RoundedWithin(x, quantum, x / quantum, n, n * quantum, quantum / 2.0);
  }

  /** The nearest whole number; of two equally near ones the even. */
  lemma NearestEvenError(s: real)
    ensures -0.5 <= NearestEven(s) as real - s <= 0.5
    ensures NearestEven(s) as real - s == 0.5 || NearestEven(s) as real - s == -0.5 ==> NearestEven(s) % 2 == 0
  {}

  // ---- replacing a source's trades ----

  function AssetTypeFor(source: string): string {
    if source in {"upbit", "bithumb", "binance"} then "crypto"
    else if source in {"shinhan_investment", "toss_investment"} then "kr_stock"
    else "us_stock"
  }

  function ExchangeLabelFor(source: string): string {
    if source == "upbit" then "UPBIT"
    else if source == "bithumb" then "BITHUMB"
    else if source == "binance" then "BINANCE"
    else if source == "shinhan_investment" || source == "kis" then "KRX"
    else if source == "toss_investment" then ""
    else "NYSE"
  }

  function KeyOf(source: string, symbol: string): SymbolKey {
    SymbolKey(AssetTypeFor(source) + "/" + ExchangeLabelFor(source), symbol)
  }

  /** The trades of all other sources, manual ones included. */
  function WithoutTrades(rows: seq<TradeRow>, source: string): seq<TradeRow> {
    if rows == [] then []
    else
      var t := rows[|rows| - 1];
      WithoutTrades(rows[..|rows| - 1], source) + if t.source == Some(source) then [] else [t]
  }

  function FreshRow(source: string, t: ExternalTrade): TradeRow {
    TradeRow(KeyOf(source, t.symbol), t.side, t.quantity, t.price, t.fee, t.tradedAt, Some(source), Some(t.externalId))
  }

  function FreshRows(source: string, trades: seq<ExternalTrade>): seq<TradeRow> {
    seq(|trades|, i requires 0 <= i < |trades| => FreshRow(source, trades[i]))
  }

  /** A missing symbol is created with the quote currency of its first trade; a known one keeps its currency. */
  function Registered(
    currencyOf: map<SymbolKey, string>, source: string, trades: seq<ExternalTrade>): map<SymbolKey, string> {
    if trades == [] then currencyOf
    else
      var before := Registered(currencyOf, source, trades[..|trades| - 1]);
      var t := trades[|trades| - 1];
      if KeyOf(source, t.symbol) in before then before else before[KeyOf(source, t.symbol) := t.quoteCurrency]
  }

  /** The unique constraint on (source, external id) accepts the batch. */
  predicate DistinctIds(trades: seq<ExternalTrade>) {
    forall i, j | 0 <= i < j < |trades| :: trades[i].externalId != trades[j].externalId
  }

  function Replaced(db: Db, source: string, trades: seq<ExternalTrade>): Db {
    db.(trades := WithoutTrades(db.trades, source) + FreshRows(source, trades),
        currencyOf := Registered(db.currencyOf, source, trades))
  }

  // ---- deposits and withdrawals ----

  /** A normalised cash row of the adapter; `kind` is None when it names no known kind. */
  datatype RawCash = RawCash(externalId: string, kind: Option<CashKind>, amount: real, currency: string, at: int)

  predicate HasCashId(rows: seq<CashRow>, source: string, id: string) {
    exists i | 0 <= i < |rows| :: rows[i].source == Some(source) && rows[i].externalId == Some(id)
  }

  function CashRowOf(source: string, r: RawCash): CashRow
    requires r.kind.Some?
  {
    CashRow(r.kind.value, r.amount, 0.0, r.currency, r.at, Some(source), Some(r.externalId))
  }

  function Upserted(cash: seq<CashRow>, source: string, rows: seq<RawCash>): seq<CashRow> {
    if rows == [] then cash
    else
      var before := Upserted(cash, source, rows[..|rows| - 1]);
      var r := rows[|rows| - 1];
      if HasCashId(before, source, r.externalId) || r.kind == None then before
      else before + [CashRowOf(source, r)]
  }

  // ---- what is stored ----

  /** The listing under which each source's symbols are kept. */
  lemma ListingIs(symbol: string)
    ensures KeyOf("upbit", symbol) == SymbolKey("crypto/UPBIT", symbol)
    ensures KeyOf("bithumb", symbol) == SymbolKey("crypto/BITHUMB", symbol)
    ensures KeyOf("binance", symbol) == SymbolKey("crypto/BINANCE", symbol)
    ensures KeyOf("shinhan_investment", symbol) == SymbolKey("kr_stock/KRX", symbol)
    ensures KeyOf("toss_investment", symbol) == SymbolKey("kr_stock/", symbol)
    ensures KeyOf("kis", symbol) == SymbolKey("us_stock/KRX", symbol)
    ensures KeyOf("k_bank", symbol) == SymbolKey("us_stock/NYSE", symbol)
  {
    SourceNamesDiffer();
    ListingNames();
    hide KeyOf;
    ListingParts("upbit", symbol, "crypto", "UPBIT");
    ListingParts("bithumb", symbol, "crypto", "BITHUMB");
    ListingParts("binance", symbol, "crypto", "BINANCE");
    ListingParts("shinhan_investment", symbol, "kr_stock", "KRX");
    ListingParts("toss_investment", symbol, "kr_stock", "");
    ListingParts("kis", symbol, "us_stock", "KRX");
    ListingParts("k_bank", symbol, "us_stock", "NYSE");
  }

  lemma ListingNames()
    ensures "crypto" + "/" + "UPBIT" == "crypto/UPBIT" && "crypto" + "/" + "BITHUMB" == "crypto/BITHUMB"
    ensures "crypto" + "/" + "BINANCE" == "crypto/BINANCE" && "kr_stock" + "/" + "KRX" == "kr_stock/KRX"
    ensures "kr_stock" + "/" + "" == "kr_stock/" && "us_stock" + "/" + "KRX" == "us_stock/KRX"
    ensures "us_stock" + "/" + "NYSE" == "us_stock/NYSE"
  {}

  lemma ListingParts(source: string, symbol: string, group: string, board: string)
    requires AssetTypeFor(source) == group && ExchangeLabelFor(source) == board
    ensures KeyOf(source, symbol) == SymbolKey(group + "/" + board, symbol)
  {}

  lemma SourceNamesDiffer()
    ensures "upbit" != "bithumb" && "upbit" != "binance" && "bithumb" != "binance"
    ensures "upbit" != "shinhan_investment" && "upbit" != "toss_investment" && "upbit" != "kis" && "upbit" != "k_bank"
    ensures "bithumb" != "shinhan_investment" && "bithumb" != "toss_investment" && "bithumb" != "kis"
    ensures "binance" != "shinhan_investment" && "binance" != "toss_investment" && "binance" != "kis"
    ensures "k_bank" != "bithumb" && "k_bank" != "binance" && "k_bank" != "shinhan_investment"
    ensures "k_bank" != "toss_investment" && "k_bank" != "kis" && "shinhan_investment" != "toss_investment"
    ensures "shinhan_investment" != "kis" && "toss_investment" != "kis"
  {
    assert "bithumb"[1] == 'i' && "binance"[2] == 'n' && "bithumb"[2] == 't' && "k_bank"[1] == '_';
  }

  /** The stored row says what the trade says, under the source's listing, source and id. */
  lemma FreshRowSays(source: string, t: ExternalTrade)
    ensures var r := FreshRow(source, t);
      && r.symbol == KeyOf(source, t.symbol) && r.side == t.side && r.qty == t.quantity && r.price == t.price
      && r.fee == t.fee && r.at == t.tradedAt && r.source == Some(source) && r.externalId == Some(t.externalId)
  {
    hide KeyOf;
  }

  /** A symbol keeps its currency; a new one gets the quote currency of the first trade that names it. */
  lemma {:induction false} RegisteredIs(
    currencyOf: map<SymbolKey, string>, source: string, trades: seq<ExternalTrade>, key: SymbolKey)
    ensures key in currencyOf ==>
      key in Registered(currencyOf, source, trades) && Registered(currencyOf, source, trades)[key] == currencyOf[key]
    ensures key !in currencyOf && key in Registered(currencyOf, source, trades) ==> exists i ::
      && 0 <= i < |trades| && KeyOf(source, trades[i].symbol) == key
      && Registered(currencyOf, source, trades)[key] == trades[i].quoteCurrency
      && forall j | 0 <= j < i :: KeyOf(source, trades[j].symbol) != key
    ensures forall i | 0 <= i < |trades| :: KeyOf(source, trades[i].symbol) in Registered(currencyOf, source, trades)
  {
    hide KeyOf;
    if trades != [] {
      var n := |trades| - 1;
      var init := trades[..n];
      RegisteredIs(currencyOf, source, init, key);
      var before, all := Registered(currencyOf, source, init), Registered(currencyOf, source, trades);
      forall i | 0 <= i < n ensures KeyOf(source, trades[i].symbol) in all {
        assert init[i] == trades[i];
      }
      if key !in currencyOf && key in before {
        var i :| 0 <= i < n && KeyOf(source, init[i].symbol) == key && before[key] == init[i].quoteCurrency
          && forall j | 0 <= j < i :: KeyOf(source, init[j].symbol) != key;
        assert trades[i] == init[i];
        forall j | 0 <= j < i ensures KeyOf(source, trades[j].symbol) != key { assert trades[j] == init[j]; }
      } else if key !in currencyOf && key in all {
        forall j | 0 <= j < n ensures KeyOf(source, trades[j].symbol) != key { assert trades[j] == init[j]; }
      }
    }
  }

  /** A cash row is stored as reported, without withholding, under its source and id. */
  lemma {:induction false} CashRowSays(cash: seq<CashRow>, source: string, r: RawCash)
    requires r.kind.Some?
    requires forall i | 0 <= i < |cash| && cash[i].source == Some(source) :: cash[i].externalId != Some(r.externalId)
    ensures Upserted(cash, source, [r])
      == cash + [CashRow(r.kind.value, r.amount, 0.0, r.currency, r.at, Some(source), Some(r.externalId))]
  {
    assert [r][..0] == [];
    assert Upserted(cash, source, []) == cash;
  }

  /** A cash row of the exchange with a known kind and a new id moves its source's balance by its signed amount. */
  lemma {:induction false} UpsertMovesMoney(db: Db, source: string, r: RawCash, name: string, currency: string)
    ensures var after := db.(cash := Upserted(db.cash, source, [r]));
      var stored := r.kind.Some?
        && forall i | 0 <= i < |db.cash| && db.cash[i].source == Some(source) ::
            db.cash[i].externalId != Some(r.externalId);
      var inward := r.kind == Some(Deposit) || r.kind == Some(Interest) || r.kind == Some(TransferIn);
      Flow(Signals(after), name, currency) - Flow(Signals(db), name, currency)
      == if stored && Under(Some(source), name) && r.currency == currency
         then (if inward then r.amount else -r.amount) else 0.0
  {
    assert [r][..0] == [];
    hide Signals, Flow, Under;
    assert Upserted(db.cash, source, []) == db.cash;
    if r.kind.Some? {
      CashEffect(db, CashRowOf(source, r), name, currency);
    }
  }

  // ---- the reconcile row ----

  /** Position of the source's reconcile row. */
  function PinIndex(rows: seq<CashRow>, source: string): (k: Option<nat>)
    ensures k.Some? ==> k.value < |rows| && IsPin(rows[k.value], source)
    ensures k == None ==> forall i | 0 <= i < |rows| :: !IsPin(rows[i], source)
  {
    if rows == [] then None
    else
      var k := PinIndex(rows[..|rows| - 1], source);
      if k.Some? then k
      else if IsPin(rows[|rows| - 1], source) then Some(|rows| - 1)
      else None
  }

  /** The source's signed cash as the reconcile step measures it. */
  function Organic(signals: seq<Signal>, source: string, currency: string): real {
    if signals == [] then 0.0
    else
      var x := signals[|signals| - 1];
      Organic(signals[..|signals| - 1], source, currency)
      + if x.source == Some(source) && x.currency == currency then x.organic else 0.0
  }

  function PinnedAmount(deltaQ: real, currency: string, at: int, replaced: Option<CashRow>, source: string): CashRow {
    CashRow(
      if deltaQ > 0.0 then TransferIn else TransferOut, Abs(deltaQ),
      if replaced.Some? then replaced.value.withholding else 0.0,
      currency, at, Some(source), Some(ReconcileId(source)))
  }

  /** Delete, insert or overwrite the one reconcile row. */
  function WithPin(cash: seq<CashRow>, source: string, currency: string, deltaQ: real, at: int): seq<CashRow> {
    var k := PinIndex(cash, source);
    if deltaQ == 0.0 then if k == None then cash else cash[..k.value] + cash[k.value + 1..]
    else if k == None then cash + [PinnedAmount(deltaQ, currency, at, None, source)]
    else cash[k.value := PinnedAmount(deltaQ, currency, at, Some(cash[k.value]), source)]
  }

  function Delta(db: Db, source: string, currency: string, target: real): real {
    target - Organic(Signals(db), source, currency)
  }

  function DeltaQ(db: Db, source: string, currency: string, target: real): real {
    RoundHalfEven(Delta(db, source, currency, target), CashQuantum(currency))
  }

  function Reconciled(db: Db, source: string, currency: string, target: real, at: int): Db {
    db.(cash := WithPin(db.cash, source, currency, DeltaQ(db, source, currency, target), at))
  }

  // ---- the service ----

  /** The tables the service writes. */
  class SyncStore {
    var cash: seq<CashRow>
    var trades: seq<TradeRow>
    var dividends: seq<DividendRow>
    var currencyOf: map<SymbolKey, string>

    constructor (db: Db)
      ensures Value() == db
    {
      cash, trades, dividends, currencyOf := db.cash, db.trades, db.dividends, db.currencyOf;
    }

    function Value(): Db
      reads this
    {
      Db(cash, trades, dividends, currencyOf)
    }

    /** A repeated id breaks the unique constraint and rolls the whole call back. */
    method ReplaceTrades(source: string, batch: seq<ExternalTrade>) returns (inserted: Option<nat>)
      modifies this
      ensures inserted.Some? <==> DistinctIds(batch)
      ensures inserted.Some? ==> inserted.value == |batch| && Value() == Replaced(old(Value()), source, batch)
      ensures inserted == None ==> Value() == old(Value())
    {
      hide KeyOf, WithoutTrades, FreshRow;
      var kept := WithoutTrades(trades, source);
      var added: seq<TradeRow> := [];
      var symbols := currencyOf;
      for i := 0 to |batch|
        invariant trades == old(trades) && currencyOf == old(currencyOf)
        invariant cash == old(cash) && dividends == old(dividends)
        invariant added == FreshRows(source, batch[..i])
        invariant symbols == Registered(currencyOf, source, batch[..i])
        invariant forall j, k | 0 <= j < k < i :: batch[j].externalId != batch[k].externalId
      {
        var t := batch[i];
        RegisteredSnoc(currencyOf, source, batch, i);
        if exists j | 0 <= j < i :: batch[j].externalId == t.externalId {
          return None;
        }
        if KeyOf(source, t.symbol) !in symbols {
          symbols := symbols[KeyOf(source, t.symbol) := t.quoteCurrency];
        }
        added := added + [FreshRow(source, t)];
      }
      assert batch[..|batch|] == batch;
      trades, currencyOf := kept + added, symbols;
      inserted := Some(|batch|);
    }

    /** Inserts the rows whose id is new to the source and whose kind is known. */
    method UpsertCashTransactions(source: string, rows: seq<RawCash>) returns (inserted: nat)
      modifies this
      ensures Value() == old(Value()).(cash := Upserted(old(cash), source, rows))
      ensures inserted == |cash| - |old(cash)|
    {
      inserted := 0;
      for i := 0 to |rows|
        invariant Value() == old(Value()).(cash := Upserted(old(cash), source, rows[..i]))
        invariant inserted == |cash| - |old(cash)|
      {
        var r := rows[i];
        assert rows[..i + 1][..i] == rows[..i];
        if HasCashId(cash, source, r.externalId) || r.kind == None {
          continue;
        }
        cash := cash + [CashRowOf(source, r)];
        inserted := inserted + 1;
      }
      assert rows[..|rows|] == rows;
    }

    /** First query of the reconcile step: the source's cash rows but for its reconcile row. */
    method OrganicCash(source: string, currency: string) returns (net: real)
      ensures net == Organic(CashSignals(cash), source, currency)
    {
      hide Organic, ReconcileId;
      net := 0.0;
      OrganicNothing(source, currency);
      assert CashSignals(cash[..0]) == [];
      for i := 0 to |cash|
        invariant net == Organic(CashSignals(cash[..i]), source, currency)
      {
        var r := cash[i];
        OrganicSnoc(CashSignals(cash[..i]), CashSignal(r), source, currency);
        assert CashSignals(cash[..i + 1]) == CashSignals(cash[..i]) + [CashSignal(r)];
        if r.source == Some(source) && r.currency == currency && r.externalId.Some? && !IsPin(r, source) {
          net := if Credits(r.kind) then net + r.amount else net - r.amount;
        }
      }
      assert cash[..|cash|] == cash;
    }

    /** Second query: the source's trades quoted in the currency, but for its adjustments. */
    method OrganicTrades(source: string, currency: string) returns (net: real)
      ensures net == Organic(TradeSignals(trades, currencyOf), source, currency)
    {
      hide Organic, Gross, LikePrefix;
      net := 0.0;
      OrganicNothing(source, currency);
      assert TradeSignals(trades[..0], currencyOf) == [];
      for i := 0 to |trades|
        invariant net == Organic(TradeSignals(trades[..i], currencyOf), source, currency)
      {
        var t := trades[i];
        OrganicSnoc(TradeSignals(trades[..i], currencyOf), TradeSignal(t, currencyOf), source, currency);
        assert TradeSignals(trades[..i + 1], currencyOf)
          == TradeSignals(trades[..i], currencyOf) + [TradeSignal(t, currencyOf)];
        if t.source == Some(source) && t.symbol in currencyOf && currencyOf[t.symbol] == currency && OrganicTrade(t) {
          var gross := Gross(t);
          net := if t.side == Buy then net - gross else net + gross;
        }
      }
      assert trades[..|trades|] == trades;
    }

    /** Third query: the source's dividends in the currency. */
    method OrganicDividends(source: string, currency: string) returns (net: real)
      ensures net == Organic(DividendSignals(dividends), source, currency)
    {
      hide Organic;
      net := 0.0;
      OrganicNothing(source, currency);
      assert DividendSignals(dividends[..0]) == [];
      for i := 0 to |dividends|
        invariant net == Organic(DividendSignals(dividends[..i]), source, currency)
      {
        var d := dividends[i];
        OrganicSnoc(DividendSignals(dividends[..i]), DividendSignal(d), source, currency);
        assert DividendSignals(dividends[..i + 1]) == DividendSignals(dividends[..i]) + [DividendSignal(d)];
        if d.source == Some(source) && d.currency == currency {
          net := net + d.amount;
        }
      }
      assert dividends[..|dividends|] == dividends;
    }

    method OrganicNet(source: string, currency: string) returns (net: real)
      ensures net == Organic(Signals(Value()), source, currency)
    {
      hide Organic, CashSignals, TradeSignals, DividendSignals;
      net := OrganicCash(source, currency);
      var traded := OrganicTrades(source, currency);
      var paid := OrganicDividends(source, currency);
      net := net + traded + paid;
      OrganicParts(Value(), source, currency);
    }

    method ReconcileCashBalance(source: string, currency: string, target: real, at: int) returns (deltaQ: real)
      modifies this
      ensures Value() == Reconciled(old(Value()), source, currency, target, at)
      ensures deltaQ == DeltaQ(old(Value()), source, currency, target)
    {
      hide Organic, Signals, RoundHalfEven, CashQuantum, ReconcileId;
      var net := OrganicNet(source, currency);
      deltaQ := RoundHalfEven(target - net, CashQuantum(currency));
      var existing := PinIndex(cash, source);
      if deltaQ == 0.0 {
        if existing.Some? {
          cash := cash[..existing.value] + cash[existing.value + 1..];
        }
        return;
      }
      var kind := if deltaQ > 0.0 then TransferIn else TransferOut;
      if existing == None {
        cash := cash + [CashRow(kind, Abs(deltaQ), 0.0, currency, at, Some(source), Some(ReconcileId(source)))];
      } else {
        var k := existing.value;
        cash := cash[k := cash[k].(kind := kind, amount := Abs(deltaQ), currency := currency, at := at)];
      }
    }

    /** The sync route: replace, record cash rows, pin the balance when the exchange reported one. */
    method SyncUpbit(batch: seq<ExternalTrade>, cashRows: seq<RawCash>, krwBalance: Option<real>, now: int)
      returns (inserted: Option<nat>)
      modifies this
      ensures inserted.Some? <==> DistinctIds(batch)
      ensures Value() == Synced(old(Value()), "upbit", batch, cashRows, "KRW", krwBalance, now)
    {
      hide Replaced, Upserted, Reconciled;
      inserted := ReplaceTrades("upbit", batch);
      if inserted == None {
        return;
      }
      var _ := UpsertCashTransactions("upbit", cashRows);
      if krwBalance.Some? {
        var _ := ReconcileCashBalance("upbit", "KRW", krwBalance.value, now);
      }
    }
  }

  function Recorded(db: Db, source: string, trades: seq<ExternalTrade>, cashRows: seq<RawCash>): Db {
    var db1 := Replaced(db, source, trades);
    db1.(cash := Upserted(db1.cash, source, cashRows))
  }

  /** One whole sync as a function of the tables. */
  function Synced(
    db: Db, source: string, trades: seq<ExternalTrade>, cashRows: seq<RawCash>,
    currency: string, target: Option<real>, at: int): Db
  {
    if !DistinctIds(trades) then db
    else
      var db2 := Recorded(db, source, trades, cashRows);
      if target == None then db2 else Reconciled(db2, source, currency, target.value, at)
  }

  lemma {:induction false} OrganicSnoc(a: seq<Signal>, x: Signal, source: string, currency: string)
    ensures Organic(a + [x], source, currency)
      == Organic(a, source, currency) + if x.source == Some(source) && x.currency == currency then x.organic else 0.0
  {
    assert (a + [x])[..|a|] == a;
  }

  lemma {:induction false} OrganicConcat(a: seq<Signal>, b: seq<Signal>, source: string, currency: string)
    ensures Organic(a + b, source, currency) == Organic(a, source, currency) + Organic(b, source, currency)
  {
    if b == [] {
      assert a + b == a;
    } else {
      assert (a + b)[..|a + b| - 1] == a + b[..|b| - 1];
      OrganicConcat(a, b[..|b| - 1], source, currency);
    }
  }

  lemma {:induction false} OrganicNothing(source: string, currency: string)
    ensures Organic([], source, currency) == 0.0
  {}

  lemma {:induction false} OrganicParts(db: Db, source: string, currency: string)
    ensures Organic(Signals(db), source, currency)
      == Organic(CashSignals(db.cash), source, currency)
        + Organic(TradeSignals(db.trades, db.currencyOf), source, currency)
       + Organic(DividendSignals(db.dividends), source, currency)
  {
    hide Organic, CashSignals, TradeSignals, DividendSignals;
    var cash, traded := CashSignals(db.cash), TradeSignals(db.trades, db.currencyOf);
    OrganicConcat(cash + traded, DividendSignals(db.dividends), source, currency);
    OrganicConcat(cash, traded, source, currency);
  }

  // ---- what one row does to the measured cash ----

  lemma {:induction false} OrganicInserted(a: seq<Signal>, x: Signal, b: seq<Signal>, source: string, currency: string)
    ensures Organic(a + ([x] + b), source, currency) == Organic(a + b, source, currency)
      + if x.source == Some(source) && x.currency == currency then x.organic else 0.0
  {
    OrganicConcat(a, [x] + b, source, currency);
    OrganicConcat([x], b, source, currency);
    OrganicConcat(a, b, source, currency);
    OrganicSnoc([], x, source, currency);
    OrganicNothing(source, currency);
    assert [] + [x] == [x];
    hide Organic;
  }

  /**
   Only the source's own rows with an id count, its reconcile row excepted: a deposit, interest or transfer-in with
   its amount, the other kinds with minus their amount, whatever was withheld.
   */
  lemma {:induction false} OrganicCashEffect(db: Db, r: CashRow, source: string, currency: string)
    ensures var after := db.(cash := db.cash + [r]);
      var counts := r.source == Some(source) && r.currency == currency
        && r.externalId.Some? && r.externalId.value != source + ":cash:reconcile";
      var inward := r.kind == Deposit || r.kind == Interest || r.kind == TransferIn;
      Organic(Signals(after), source, currency) - Organic(Signals(db), source, currency)
      == if counts then (if inward then r.amount else -r.amount) else 0.0
  {
    var rest := MoreCash(db, r);
    hide Signals, Organic;
    OrganicInserted(CashSignals(db.cash), CashSignal(r), rest, source, currency);
  }

  /** A BUY costs quantity times price and a SELL brings it, fees aside, unless the id is missing or an adjustment's. */
  lemma {:induction false} OrganicTradeEffect(db: Db, t: TradeRow, source: string, currency: string)
    ensures var after := db.(trades := db.trades + [t]);
      var counts := t.source == Some(source) && t.symbol in db.currencyOf && db.currencyOf[t.symbol] == currency
        && t.externalId.Some? && !LikePrefix(t.externalId.value, source + ":adjust:");
      Organic(Signals(after), source, currency) - Organic(Signals(db), source, currency)
      == if counts then (if t.side == Buy then -(t.qty * t.price) else t.qty * t.price) else 0.0
  {
    var before, rest := MoreTrades(db, t);
    hide Signals, Organic, LikePrefix, Counted;
    OrganicInserted(before, TradeSignal(t, db.currencyOf), rest, source, currency);
  }

  /** A dividend counts in full. */
  lemma {:induction false} OrganicDividendEffect(db: Db, d: DividendRow, source: string, currency: string)
    ensures var after := db.(dividends := db.dividends + [d]);
      Organic(Signals(after), source, currency) - Organic(Signals(db), source, currency)
      == if d.source == Some(source) && d.currency == currency then d.amount else 0.0
  {
    MoreDividends(db, d);
    hide Signals, Organic;
    assert Signals(db) + [] == Signals(db);
    OrganicInserted(Signals(db), DividendSignal(d), [], source, currency);
  }

  lemma {:induction false} NothingOrganic(currencyOf: map<SymbolKey, string>, source: string, currency: string)
    ensures Organic(Signals(Db([], [], [], currencyOf)), source, currency) == 0.0
  {
    assert Signals(Db([], [], [], currencyOf)) == [];
  }

  // ---- the constraints of the cash table ----

  ghost predicate UniqueCash(rows: seq<CashRow>) {
    forall i, j | 0 <= i < j < |rows| && rows[i].source.Some? && rows[i].externalId.Some? ::
      rows[i].source != rows[j].source || rows[i].externalId != rows[j].externalId
  }

  /** Reconcile rows are written without withholding. */
  ghost predicate PinsClean(rows: seq<CashRow>) {
    forall i | 0 <= i < |rows| && rows[i].source.Some?
      && IsPin(rows[i], rows[i].source.value) :: rows[i].withholding == 0.0
  }

  lemma {:induction false} UpsertKeepsConstraints(cash: seq<CashRow>, source: string, rows: seq<RawCash>)
    requires UniqueCash(cash) && PinsClean(cash)
    ensures UniqueCash(Upserted(cash, source, rows)) && PinsClean(Upserted(cash, source, rows))
  {
    hide ReconcileId;
    if rows != [] {
      UpsertKeepsConstraints(cash, source, rows[..|rows| - 1]);
    }
  }

  lemma WithPinKeepsConstraints(cash: seq<CashRow>, source: string, currency: string, deltaQ: real, at: int)
    requires UniqueCash(cash) && PinsClean(cash)
    ensures UniqueCash(WithPin(cash, source, currency, deltaQ, at))
      && PinsClean(WithPin(cash, source, currency, deltaQ, at))
  {
    hide ReconcileId;
  }

  // ---- the cash table around the reconcile row ----

  function Unpinned(cash: seq<CashRow>, source: string): seq<CashRow> {
    var k := PinIndex(cash, source);
    if k == None then cash else cash[..k.value] + cash[k.value + 1..]
  }

  function UnpinnedDb(db: Db, source: string): Db { db.(cash := Unpinned(db.cash, source)) }

  /** Under the unique constraint the reconcile row has one place. */
  lemma {:induction false} PinAt(cash: seq<CashRow>, source: string, k: nat)
    requires UniqueCash(cash) && k < |cash| && IsPin(cash[k], source)
    ensures PinIndex(cash, source) == Some(k)
  {
    hide ReconcileId, PinIndex;
  }

  /** Writing the reconcile row touches nothing else. */
  lemma {:induction false} UnpinnedWithPin(cash: seq<CashRow>, source: string, currency: string, deltaQ: real, at: int)
    requires UniqueCash(cash)
    ensures Unpinned(WithPin(cash, source, currency, deltaQ, at), source) == Unpinned(cash, source)
    ensures PinIndex(WithPin(cash, source, currency, deltaQ, at), source) == None <==> deltaQ == 0.0
  {
    hide ReconcileId, PinIndex;
    var after, k := WithPin(cash, source, currency, deltaQ, at), PinIndex(cash, source);
    if deltaQ != 0.0 {
      var place := if k == None then |cash| else k.value;
      assert IsPin(after[place], source);
      UniqueAfterPin(cash, source, currency, deltaQ, at);
      PinAt(after, source, place);
    } else if k.Some? {
      assert forall i | 0 <= i < |after| :: after[i] == cash[if i < k.value then i else i + 1];
    }
  }

  lemma UniqueAfterPin(cash: seq<CashRow>, source: string, currency: string, deltaQ: real, at: int)
    requires UniqueCash(cash)
    ensures UniqueCash(WithPin(cash, source, currency, deltaQ, at))
  {
    hide ReconcileId;
  }

  /** Writing the reconcile row twice is writing it once. */
  lemma WithPinTwice(cash: seq<CashRow>, source: string, currency: string, deltaQ: real, at: int)
    requires UniqueCash(cash)
    ensures var once := WithPin(cash, source, currency, deltaQ, at);
      WithPin(once, source, currency, deltaQ, at) == once
  {
    hide ReconcileId, PinIndex;
    var once, k := WithPin(cash, source, currency, deltaQ, at), PinIndex(cash, source);
    UnpinnedWithPin(cash, source, currency, deltaQ, at);
    if deltaQ != 0.0 {
      var place := if k == None then |cash| else k.value;
      UniqueAfterPin(cash, source, currency, deltaQ, at);
      PinAt(once, source, place);
    }
  }

  function PinFlow(cash: seq<CashRow>, source: string, s: string, currency: string): real {
    var k := PinIndex(cash, source);
    if k == None then 0.0 else FlowOf(CashSignal(cash[k.value]), s, currency)
  }

  lemma SplitSignals(cash: seq<CashRow>, k: nat)
    requires k < |cash|
    ensures CashSignals(cash) == CashSignals(cash[..k]) + [CashSignal(cash[k])] + CashSignals(cash[k + 1..])
    ensures CashSignals(cash[..k] + cash[k + 1..]) == CashSignals(cash[..k]) + CashSignals(cash[k + 1..])
  {
    hide CashSignal;
  }

  lemma {:induction false} FlowAroundPin(cash: seq<CashRow>, source: string, s: string, currency: string)
    ensures Flow(CashSignals(cash), s, currency)
      == Flow(CashSignals(Unpinned(cash, source)), s, currency) + PinFlow(cash, source, s, currency)
  {
    hide CashSignals, CashSignal, Flow, FlowOf, PinIndex, ReconcileId;
    var k := PinIndex(cash, source);
    if k.Some? {
      SplitSignals(cash, k.value);
      var a, x, b := CashSignals(cash[..k.value]), CashSignal(cash[k.value]), CashSignals(cash[k.value + 1..]);
      FlowConcat(a + [x], b, s, currency);
      FlowSnoc(a, x, s, currency);
      FlowConcat(a, b, s, currency);
    }
  }

  /** The reconcile step does not see its own row. */
  lemma {:induction false} OrganicAroundPin(cash: seq<CashRow>, source: string, currency: string)
    ensures Organic(CashSignals(cash), source, currency)
      == Organic(CashSignals(Unpinned(cash, source)), source, currency)
  {
    hide CashSignals, Organic, PinIndex, ReconcileId;
    var k := PinIndex(cash, source);
    if k.Some? {
      SplitSignals(cash, k.value);
      var a, x, b := CashSignals(cash[..k.value]), CashSignal(cash[k.value]), CashSignals(cash[k.value + 1..]);
      OrganicConcat(a + [x], b, source, currency);
      OrganicSnoc(a, x, source, currency);
      OrganicConcat(a, b, source, currency);
    }
  }

  lemma {:induction false} DbAroundPin(db: Db, source: string, s: string, currency: string)
    ensures Flow(Signals(db), s, currency)
      == Flow(Signals(UnpinnedDb(db, source)), s, currency) + PinFlow(db.cash, source, s, currency)
    ensures Organic(Signals(db), source, currency) == Organic(Signals(UnpinnedDb(db, source)), source, currency)
  {
    hide CashSignals, TradeSignals, DividendSignals, Flow, Organic, PinIndex, PinFlow, Unpinned;
    FlowParts(db, s, currency);
    FlowParts(UnpinnedDb(db, source), s, currency);
    FlowAroundPin(db.cash, source, s, currency);
    OrganicParts(db, source, currency);
    OrganicParts(UnpinnedDb(db, source), source, currency);
    OrganicAroundPin(db.cash, source, currency);
  }

  lemma {:induction false} FlowParts(db: Db, s: string, currency: string)
    ensures Flow(Signals(db), s, currency)
      == Flow(CashSignals(db.cash), s, currency) + Flow(TradeSignals(db.trades, db.currencyOf), s, currency)
       + Flow(DividendSignals(db.dividends), s, currency)
  {
    hide Flow, CashSignals, TradeSignals, DividendSignals;
    var cash, traded := CashSignals(db.cash), TradeSignals(db.trades, db.currencyOf);
    FlowConcat(cash + traded, DividendSignals(db.dividends), s, currency);
    FlowConcat(cash, traded, s, currency);
  }

  // ---- where the reconciled balance lands ----

  /**
   What the cash-flow service books beyond the reconcile step: fees, withholding, and rows only one of them counts.
   */
  function DriftOf(x: Signal, source: string, currency: string): real {
    if x.source == Some(source) && x.currency == currency
    then (if x.flow.Some? then x.flow.value else 0.0) - x.organic else 0.0
  }

  function Drift(signals: seq<Signal>, source: string, currency: string): real {
    if signals == [] then 0.0
    else Drift(signals[..|signals| - 1], source, currency) + DriftOf(signals[|signals| - 1], source, currency)
  }

  lemma {:induction false} FlowSplits(signals: seq<Signal>, source: string, currency: string)
    requires source != "" && source != "manual"
    ensures Flow(signals, source, currency) == Organic(signals, source, currency) + Drift(signals, source, currency)
  {
    if signals != [] {
      FlowSplits(signals[..|signals| - 1], source, currency);
    }
  }

  lemma {:induction false} NoDrift(signals: seq<Signal>, source: string, currency: string)
    requires forall i | 0 <= i < |signals| :: DriftOf(signals[i], source, currency) == 0.0
    ensures Drift(signals, source, currency) == 0.0
  {
    hide DriftOf;
    if signals != [] {
      NoDrift(signals[..|signals| - 1], source, currency);
    }
  }

  lemma PinnedFlow(cash: seq<CashRow>, source: string, currency: string, deltaQ: real, at: int)
    requires UniqueCash(cash) && PinsClean(cash) && source != ""
    ensures PinFlow(WithPin(cash, source, currency, deltaQ, at), source, source, currency) == deltaQ
  {
    hide ReconcileId, PinIndex;
    UnpinnedWithPin(cash, source, currency, deltaQ, at);
    WithPinKeepsConstraints(cash, source, currency, deltaQ, at);
    var after, k := WithPin(cash, source, currency, deltaQ, at), PinIndex(cash, source);
    if deltaQ != 0.0 {
      PinAt(after, source, if k == None then |cash| else k.value);
    }
  }

  /**
   After reconciling, the reported balance misses the target by exactly the rounding of the delta plus the drift of
   the other rows, whatever the source, its rows and the old reconcile row.
   */
  lemma {:induction false} ReconcileGap(db: Db, source: string, currency: string, target: real, at: int)
    requires UniqueCash(db.cash) && PinsClean(db.cash) && source != "" && source != "manual"
    ensures var rounding := DeltaQ(db, source, currency, target) - Delta(db, source, currency, target);
      && Flow(Signals(Reconciled(db, source, currency, target, at)), source, currency)
         == target + rounding + Drift(Signals(UnpinnedDb(db, source)), source, currency)
      && Abs(rounding) <= if currency == "KRW" then 0.5 else 0.000000005
  {
    QuantumIs(currency);
    hide Signals, Flow, Organic, Drift, PinFlow, WithPin, Unpinned, UniqueCash, PinsClean, RoundHalfEven, CashQuantum;
    var deltaQ := DeltaQ(db, source, currency, target);
    HalfEvenError(Delta(db, source, currency, target), CashQuantum(currency));
    var after := Reconciled(db, source, currency, target, at);
    UnpinnedWithPin(db.cash, source, currency, deltaQ, at);
    assert UnpinnedDb(after, source) == UnpinnedDb(db, source);
    DbAroundPin(after, source, source, currency);
    DbAroundPin(db, source, source, currency);
    FlowSplits(Signals(UnpinnedDb(db, source)), source, currency);
    PinnedFlow(db.cash, source, currency, deltaQ, at);
  }

  /** Reconciling one currency takes the source's old reconcile row out of any other currency it was in. */
  lemma {:induction false} ReconcileUnpinsOtherCurrency(
    db: Db, source: string, currency: string, target: real, at: int, other: string)
    requires UniqueCash(db.cash) && other != currency
    ensures Flow(Signals(Reconciled(db, source, currency, target, at)), source, other)
      == Flow(Signals(db), source, other) - PinFlow(db.cash, source, source, other)
  {
    hide Signals, Flow, Organic, PinFlow, WithPin, Unpinned, UniqueCash, DeltaQ;
    var deltaQ := DeltaQ(db, source, currency, target);
    var after := Reconciled(db, source, currency, target, at);
    UnpinnedWithPin(db.cash, source, currency, deltaQ, at);
    assert UnpinnedDb(after, source) == UnpinnedDb(db, source);
    DbAroundPin(after, source, source, other);
    DbAroundPin(db, source, source, other);
    PinElsewhere(db.cash, source, currency, deltaQ, at, other);
  }

  lemma PinElsewhere(cash: seq<CashRow>, source: string, currency: string, deltaQ: real, at: int, other: string)
    requires UniqueCash(cash) && other != currency
    ensures PinFlow(WithPin(cash, source, currency, deltaQ, at), source, source, other) == 0.0
  {
    hide ReconcileId, PinIndex;
    UnpinnedWithPin(cash, source, currency, deltaQ, at);
    var after, k := WithPin(cash, source, currency, deltaQ, at), PinIndex(cash, source);
    if deltaQ != 0.0 {
      UniqueAfterPin(cash, source, currency, deltaQ, at);
      PinAt(after, source, if k == None then |cash| else k.value);
    }
  }

  /** With nothing but its own reconcile row, a source is left with one row that carries the target. */
  lemma ReconciledAlone(cash: seq<CashRow>, source: string, currency: string, target: real, at: int)
    requires cash == [] || (|cash| == 1 && IsPin(cash[0], source) && cash[0].withholding == 0.0)
    requires target > 0.0 && RoundHalfEven(target, CashQuantum(currency)) == target
    ensures Reconciled(Db(cash, [], [], map[]), source, currency, target, at)
      == Db([CashRow(TransferIn, target, 0.0, currency, at, Some(source), Some(ReconcileId(source)))], [], [], map[])
  {
    hide ReconcileId, RoundHalfEven, CashQuantum;
    var db := Db(cash, [], [], map[]);
    assert TradeSignals([], map[]) == [] && DividendSignals([]) == [];
    assert Signals(db) == CashSignals(cash);
    if cash == [] {
      assert Organic(CashSignals(cash), source, currency) == 0.0;
    } else {
      assert CashSignals(cash) == [CashSignal(cash[0])] && [CashSignal(cash[0])][..0] == [];
      assert Organic([CashSignal(cash[0])], source, currency) == 0.0;
    }
    assert PinIndex(cash, source) == if cash == [] then None else Some(0);
  }

  lemma {:induction false} OnePinFlow(r: CashRow, source: string, currency: string)
    requires r.kind == TransferIn && r.withholding == 0.0 && r.source == Some(source) && source != ""
    ensures Flow(Signals(Db([r], [], [], map[])), source, currency) == if currency == r.currency then r.amount else 0.0
  {
    assert Signals(Db([r], [], [], map[])) == [CashSignal(r)];
    FlowOne(CashSignal(r), source, currency);
  }

  /** A source reconciled to 100 KRW and then to 5 USD is left with 5 USD and no KRW. */
  lemma {:induction false} SecondCurrencyTakesThePin(source: string, at: int, later: int)
    requires source != ""
    ensures var first := Reconciled(Db([], [], [], map[]), source, "KRW", 100.0, at);
      var second := Reconciled(first, source, "USD", 5.0, later);
      && Flow(Signals(first), source, "KRW") == 100.0
      && Flow(Signals(second), source, "USD") == 5.0
      && Flow(Signals(second), source, "KRW") == 0.0
  {
    WholeAmounts();
    hide *;
    ReconciledAlone([], source, "KRW", 100.0, at);
    var krw := CashRow(TransferIn, 100.0, 0.0, "KRW", at, Some(source), Some(ReconcileId(source)));
    assert IsPin(krw, source) by { PinIsPin(krw, source); }
    ReconciledAlone([krw], source, "USD", 5.0, later);
    var usd := CashRow(TransferIn, 5.0, 0.0, "USD", later, Some(source), Some(ReconcileId(source)));
    OnePinFlow(krw, source, "KRW");
    OnePinFlow(usd, source, "USD");
    OnePinFlow(usd, source, "KRW");
    assert "KRW"[0] != "USD"[0];
  }

  lemma WholeAmounts()
    ensures RoundHalfEven(100.0, CashQuantum("KRW")) == 100.0 && RoundHalfEven(5.0, CashQuantum("USD")) == 5.0
  {
    assert "KRW"[0] != "USD"[0];
    assert 5.0 / 0.00000001 == 500000000.0;
  }

  lemma PinIsPin(r: CashRow, source: string)
    requires r.source == Some(source) && r.externalId == Some(ReconcileId(source))
    ensures IsPin(r, source)
  {}

  // ---- a whole sync pins the balance ----

  predicate CleanCash(r: CashRow, source: string) {
    r.source == Some(source) ==> r.externalId.Some? && r.withholding == 0.0
  }

  predicate CleanDividend(d: DividendRow, source: string) {
    d.source == Some(source) ==> d.withholding == 0.0
  }

  predicate CleanTrade(t: ExternalTrade) { t.fee == 0.0 && !LikePrefix(t.externalId, PDF_PREFIX) }

  lemma {:induction false} UpsertKeepsClean(cash: seq<CashRow>, source: string, rows: seq<RawCash>)
    requires forall i | 0 <= i < |cash| :: CleanCash(cash[i], source)
    ensures forall i | 0 <= i < |Upserted(cash, source, rows)| :: CleanCash(Upserted(cash, source, rows)[i], source)
  {
    if rows != [] {
      UpsertKeepsClean(cash, source, rows[..|rows| - 1]);
    }
  }

  lemma {:induction false} WithoutSource(rows: seq<TradeRow>, source: string)
    ensures forall i | 0 <= i < |WithoutTrades(rows, source)| :: WithoutTrades(rows, source)[i].source != Some(source)
  {
    if rows != [] {
      WithoutSource(rows[..|rows| - 1], source);
    }
  }

  lemma TradeDoesNotDrift(t: TradeRow, currencyOf: map<SymbolKey, string>, currency: string)
    requires t.source != Some("upbit") || (t.externalId.Some? && t.fee == 0.0
      && !LikePrefix(t.externalId.value, PDF_PREFIX))
    ensures DriftOf(TradeSignal(t, currencyOf), "upbit", currency) == 0.0
  {
    hide LikePrefix, SignedGross;
    assert "upbit" + ":adjust:" == ADJUST_PREFIX;
  }

  lemma TradesDoNotDrift(db: Db, trades: seq<ExternalTrade>, currency: string)
    requires forall i | 0 <= i < |trades| :: CleanTrade(trades[i])
    ensures var after := Replaced(db, "upbit", trades);
      forall i | 0 <= i < |after.trades| ::
        DriftOf(TradeSignal(after.trades[i], after.currencyOf), "upbit", currency) == 0.0
  {
    hide LikePrefix, KeyOf, WithoutTrades, DriftOf, TradeSignal, Registered;
    var after := Replaced(db, "upbit", trades);
    WithoutSource(db.trades, "upbit");
    forall i | 0 <= i < |after.trades|
      ensures DriftOf(TradeSignal(after.trades[i], after.currencyOf), "upbit", currency) == 0.0
    {
      TradeDoesNotDrift(after.trades[i], after.currencyOf, currency);
    }
  }

  lemma CashDoesNotDrift(r: CashRow, source: string, currency: string)
    requires CleanCash(r, source) && !IsPin(r, source)
    ensures DriftOf(CashSignal(r), source, currency) == 0.0
  {
    hide ReconcileId;
  }

  lemma UnpinnedHasNoPin(cash: seq<CashRow>, source: string)
    requires UniqueCash(cash)
    ensures forall i | 0 <= i < |Unpinned(cash, source)| ::
      Unpinned(cash, source)[i] in cash && !IsPin(Unpinned(cash, source)[i], source)
  {
    hide ReconcileId, PinIndex;
    var rest, k := Unpinned(cash, source), PinIndex(cash, source);
    if k.Some? {
      assert forall i | 0 <= i < |rest| :: rest[i] == cash[if i < k.value then i else i + 1];
    }
  }

  lemma {:induction false} DriftParts(db: Db, currency: string)
    requires forall i | 0 <= i < |db.cash| :: DriftOf(CashSignal(db.cash[i]), "upbit", currency) == 0.0
    requires forall i | 0 <= i < |db.trades| ::
      DriftOf(TradeSignal(db.trades[i], db.currencyOf), "upbit", currency) == 0.0
    requires forall i | 0 <= i < |db.dividends| :: DriftOf(DividendSignal(db.dividends[i]), "upbit", currency) == 0.0
    ensures Drift(Signals(db), "upbit", currency) == 0.0
  {
    hide DriftOf, CashSignal, TradeSignal, DividendSignal;
    NoDrift(Signals(db), "upbit", currency);
  }

  /** Nothing of a clean sync drifts. */
  lemma {:induction false} RecordedDoesNotDrift(
    db: Db, trades: seq<ExternalTrade>, cashRows: seq<RawCash>, currency: string)
    requires UniqueCash(db.cash) && PinsClean(db.cash)
    requires forall i | 0 <= i < |db.cash| :: CleanCash(db.cash[i], "upbit")
    requires forall i | 0 <= i < |db.dividends| :: CleanDividend(db.dividends[i], "upbit")
    requires forall i | 0 <= i < |trades| :: CleanTrade(trades[i])
    ensures Drift(Signals(UnpinnedDb(Recorded(db, "upbit", trades, cashRows), "upbit")), "upbit", currency) == 0.0
  {
    hide WithoutTrades, Registered, Upserted, Unpinned, UniqueCash, PinsClean, CashSignal, TradeSignal, CleanTrade,
      Signals;
    var after := Recorded(db, "upbit", trades, cashRows);
    UpsertKeepsClean(db.cash, "upbit", cashRows);
    UpsertKeepsConstraints(db.cash, "upbit", cashRows);
    TradesDoNotDrift(db, trades, currency);
    UnpinnedHasNoPin(after.cash, "upbit");
    var rest := UnpinnedDb(after, "upbit");
    hide DriftOf;
    forall i | 0 <= i < |rest.cash| ensures DriftOf(CashSignal(rest.cash[i]), "upbit", currency) == 0.0 {
      CashDoesNotDrift(rest.cash[i], "upbit", currency);
    }
    forall i | 0 <= i < |rest.dividends| ensures DriftOf(DividendSignal(rest.dividends[i]), "upbit", currency) == 0.0 {
      DividendDoesNotDrift(rest.dividends[i], currency);
    }
    DriftParts(rest, currency);
  }

  lemma DividendDoesNotDrift(d: DividendRow, currency: string)
    requires CleanDividend(d, "upbit")
    ensures DriftOf(DividendSignal(d), "upbit", currency) == 0.0
  {}

  /**
   After a sync whose rows carry no fees, no withholding and no statement transfers, the cash-flow service reports
   the exchange's KRW balance to within half a won.
   */
  lemma SyncPinsBalance(db: Db, trades: seq<ExternalTrade>, cashRows: seq<RawCash>, target: real, now: int)
    requires UniqueCash(db.cash) && PinsClean(db.cash)
    requires forall i | 0 <= i < |db.cash| :: CleanCash(db.cash[i], "upbit")
    requires forall i | 0 <= i < |db.dividends| :: CleanDividend(db.dividends[i], "upbit")
    requires DistinctIds(trades) && forall i | 0 <= i < |trades| :: CleanTrade(trades[i])
    ensures var after := Synced(db, "upbit", trades, cashRows, "KRW", Some(target), now);
      Abs(Flow(Signals(after), "upbit", "KRW") - target) <= 0.5
  {
    hide Replaced, Upserted, Signals, Flow, Drift, UniqueCash, PinsClean, UnpinnedDb, Reconciled, DeltaQ, Delta;
    RecordedDoesNotDrift(db, trades, cashRows, "KRW");
    UpsertKeepsConstraints(db.cash, "upbit", cashRows);
    ReplacedKeepsCash(db, "upbit", trades);
    ReconcileGap(Recorded(db, "upbit", trades, cashRows), "upbit", "KRW", target, now);
  }

  lemma ReplacedKeepsCash(db: Db, source: string, trades: seq<ExternalTrade>)
    ensures Replaced(db, source, trades).cash == db.cash
  {}

  // ---- repeating a sync ----

  lemma {:induction false} WithoutConcat(a: seq<TradeRow>, b: seq<TradeRow>, source: string)
    ensures WithoutTrades(a + b, source) == WithoutTrades(a, source) + WithoutTrades(b, source)
  {
    if b == [] {
      assert a + b == a;
    } else {
      assert (a + b)[..|a + b| - 1] == a + b[..|b| - 1];
      WithoutConcat(a, b[..|b| - 1], source);
    }
  }

  lemma {:induction false} WithoutTwice(rows: seq<TradeRow>, source: string)
    ensures WithoutTrades(WithoutTrades(rows, source), source) == WithoutTrades(rows, source)
  {
    if rows != [] {
      var init, t := rows[..|rows| - 1], rows[|rows| - 1];
      WithoutTwice(init, source);
      var kept := WithoutTrades(init, source);
      assert kept + [] == kept;
      assert (kept + [t])[..|kept|] == kept;
    }
  }

  lemma {:induction false} WithoutFresh(source: string, trades: seq<ExternalTrade>)
    ensures WithoutTrades(FreshRows(source, trades), source) == []
  {
    if trades != [] {
      var init := trades[..|trades| - 1];
      WithoutFresh(source, init);
      assert FreshRows(source, trades)[..|trades| - 1] == FreshRows(source, init);
    }
  }

  lemma {:induction false} RegisteredSnoc(
    currencyOf: map<SymbolKey, string>, source: string, trades: seq<ExternalTrade>, i: nat)
    requires i < |trades|
    ensures var before, key := Registered(currencyOf, source, trades[..i]), KeyOf(source, trades[i].symbol);
      Registered(currencyOf, source, trades[..i + 1])
      == if key in before then before else before[key := trades[i].quoteCurrency]
  {
    hide KeyOf;
    assert trades[..i + 1][..i] == trades[..i];
  }

  /** Registering keeps known symbols and covers the batch. */
  lemma {:induction false} RegisteredCovers(
    currencyOf: map<SymbolKey, string>, source: string, trades: seq<ExternalTrade>)
    ensures forall k | k in currencyOf ::
      k in Registered(currencyOf, source, trades) && Registered(currencyOf, source, trades)[k] == currencyOf[k]
    ensures forall i | 0 <= i < |trades| :: KeyOf(source, trades[i].symbol) in Registered(currencyOf, source, trades)
  {
    hide KeyOf;
    if trades != [] {
      RegisteredCovers(currencyOf, source, trades[..|trades| - 1]);
    }
  }

  lemma {:induction false} RegisteredTwice(
    currencyOf: map<SymbolKey, string>, source: string, trades: seq<ExternalTrade>)
    requires forall i | 0 <= i < |trades| :: KeyOf(source, trades[i].symbol) in currencyOf
    ensures Registered(currencyOf, source, trades) == currencyOf
  {
    hide KeyOf;
    if trades != [] {
      RegisteredTwice(currencyOf, source, trades[..|trades| - 1]);
    }
  }

  lemma ReplacedTwice(db: Db, source: string, trades: seq<ExternalTrade>, cash: seq<CashRow>)
    ensures var once := Replaced(db, source, trades).(cash := cash);
      Replaced(once, source, trades) == once
  {
    hide KeyOf, WithoutTrades, FreshRows, Registered;
    var kept, added := WithoutTrades(db.trades, source), FreshRows(source, trades);
    WithoutConcat(kept, added, source);
    WithoutTwice(db.trades, source);
    WithoutFresh(source, trades);
    assert kept + [] == kept;
    RegisteredCovers(db.currencyOf, source, trades);
    RegisteredTwice(Registered(db.currencyOf, source, trades), source, trades);
  }

  /** Every row of the batch with a known kind is stored under its id. */
  ghost predicate AllStored(cash: seq<CashRow>, source: string, rows: seq<RawCash>) {
    forall i | 0 <= i < |rows| && rows[i].kind.Some? :: HasCashId(cash, source, rows[i].externalId)
  }

  lemma {:induction false} UpsertStoresAll(cash: seq<CashRow>, source: string, rows: seq<RawCash>)
    ensures AllStored(Upserted(cash, source, rows), source, rows)
    ensures cash <= Upserted(cash, source, rows)
  {
    if rows != [] {
      var n := |rows| - 1;
      UpsertStoresAll(cash, source, rows[..n]);
      var before, after := Upserted(cash, source, rows[..n]), Upserted(cash, source, rows);
      assert before <= after;
      forall i | 0 <= i < |rows| && rows[i].kind.Some? ensures HasCashId(after, source, rows[i].externalId) {
        if i < n {
          assert rows[..n][i] == rows[i];
          var k :| 0 <= k < |before| && before[k].source == Some(source)
            && before[k].externalId == Some(rows[i].externalId);
          assert after[k] == before[k];
        } else if !HasCashId(before, source, rows[n].externalId) {
          assert after[|before|] == CashRowOf(source, rows[n]);
        }
      }
    }
  }

  lemma {:induction false} UpsertOfStored(cash: seq<CashRow>, source: string, rows: seq<RawCash>)
    requires AllStored(cash, source, rows)
    ensures Upserted(cash, source, rows) == cash
  {
    hide HasCashId;
    if rows != [] {
      UpsertOfStored(cash, source, rows[..|rows| - 1]);
    }
  }

  lemma PinKeepsId(cash: seq<CashRow>, source: string, currency: string, deltaQ: real, at: int, id: string)
    requires HasCashId(cash, source, id) && id != ReconcileId(source)
    ensures HasCashId(WithPin(cash, source, currency, deltaQ, at), source, id)
  {
    hide ReconcileId, PinIndex;
    var after, k := WithPin(cash, source, currency, deltaQ, at), PinIndex(cash, source);
    var i :| 0 <= i < |cash| && cash[i].source == Some(source) && cash[i].externalId == Some(id);
    var j := if deltaQ == 0.0 && k.Some? && i > k.value then i - 1 else i;
    assert after[j] == cash[i];
  }

  lemma PinKeepsStored(
    cash: seq<CashRow>, source: string, currency: string, deltaQ: real, at: int, rows: seq<RawCash>)
    requires AllStored(cash, source, rows)
    requires forall i | 0 <= i < |rows| :: rows[i].externalId != ReconcileId(source)
    ensures AllStored(WithPin(cash, source, currency, deltaQ, at), source, rows)
  {
    hide HasCashId, WithPin, ReconcileId;
    forall i | 0 <= i < |rows| && rows[i].kind.Some?
      ensures HasCashId(WithPin(cash, source, currency, deltaQ, at), source, rows[i].externalId)
    {
      PinKeepsId(cash, source, currency, deltaQ, at, rows[i].externalId);
    }
  }

  lemma ReconciledTwice(db: Db, source: string, currency: string, target: real, at: int)
    requires UniqueCash(db.cash)
    ensures var once := Reconciled(db, source, currency, target, at);
      Reconciled(once, source, currency, target, at) == once
  {
    hide Signals, Organic, Flow, WithPin, Unpinned, UniqueCash, RoundHalfEven, CashQuantum, PinFlow;
    var deltaQ := DeltaQ(db, source, currency, target);
    var once := Reconciled(db, source, currency, target, at);
    UnpinnedWithPin(db.cash, source, currency, deltaQ, at);
    assert UnpinnedDb(once, source) == UnpinnedDb(db, source);
    DbAroundPin(once, source, source, currency);
    DbAroundPin(db, source, source, currency);
    WithPinTwice(db.cash, source, currency, deltaQ, at);
  }

  /** Recording again on top of a recorded table, whatever the reconcile row became, changes nothing. */
  lemma RecordedTwice(db: Db, source: string, trades: seq<ExternalTrade>, rows: seq<RawCash>, cash: seq<CashRow>)
    requires AllStored(cash, source, rows)
    ensures var once := Recorded(db, source, trades, rows).(cash := cash);
      Recorded(once, source, trades, rows) == once
  {
    hide WithoutTrades, FreshRows, Registered, AllStored, Upserted;
    ReplacedTwice(db, source, trades, cash);
    UpsertOfStored(cash, source, rows);
  }

  /** Syncing twice with the same answers from the exchange is syncing once. */
  lemma SyncTwice(
    db: Db, source: string, trades: seq<ExternalTrade>, rows: seq<RawCash>, currency: string, target: Option<real>,
      at: int)
    requires UniqueCash(db.cash) && PinsClean(db.cash)
    requires forall i | 0 <= i < |rows| :: rows[i].externalId != ReconcileId(source)
    ensures var once := Synced(db, source, trades, rows, currency, target, at);
      Synced(once, source, trades, rows, currency, target, at) == once
  {
    if DistinctIds(trades) {
      hide DistinctIds, AllStored, UniqueCash, PinsClean, Upserted, WithPin, Replaced, DeltaQ, ReconcileId;
      var recorded := Recorded(db, source, trades, rows);
      ReplacedKeepsCash(db, source, trades);
      UpsertStoresAll(db.cash, source, rows);
      RecordedTwice(db, source, trades, rows, recorded.cash);
      assert recorded.(cash := recorded.cash) == recorded;
      if target.Some? {
        UpsertKeepsConstraints(db.cash, source, rows);
        var deltaQ := DeltaQ(recorded, source, currency, target.value);
        PinKeepsStored(recorded.cash, source, currency, deltaQ, at, rows);
        RecordedTwice(db, source, trades, rows, WithPin(recorded.cash, source, currency, deltaQ, at));
        ReconciledTwice(recorded, source, currency, target.value, at);
      }
    }
  }

  // ---- the rows of other sources ----

  function WithoutCash(rows: seq<CashRow>, source: string): seq<CashRow> {
    if rows == [] then []
    else
      var r := rows[|rows| - 1];
      WithoutCash(rows[..|rows| - 1], source) + if r.source == Some(source) then [] else [r]
  }

  lemma {:induction false} WithoutCashConcat(a: seq<CashRow>, b: seq<CashRow>, source: string)
    ensures WithoutCash(a + b, source) == WithoutCash(a, source) + WithoutCash(b, source)
  {
    if b == [] {
      assert a + b == a;
    } else {
      assert (a + b)[..|a + b| - 1] == a + b[..|b| - 1];
      WithoutCashConcat(a, b[..|b| - 1], source);
    }
  }

  lemma {:induction false} WithoutOwnRow(r: CashRow, source: string)
    requires r.source == Some(source)
    ensures WithoutCash([r], source) == []
  {
    assert [r][..0] == [];
  }

  lemma {:induction false} UpsertKeepsOthers(cash: seq<CashRow>, source: string, rows: seq<RawCash>)
    ensures WithoutCash(Upserted(cash, source, rows), source) == WithoutCash(cash, source)
  {
    if rows != [] {
      UpsertKeepsOthers(cash, source, rows[..|rows| - 1]);
      hide WithoutCash, HasCashId;
      var before, r := Upserted(cash, source, rows[..|rows| - 1]), rows[|rows| - 1];
      if !HasCashId(before, source, r.externalId) && r.kind.Some? {
        WithoutCashConcat(before, [CashRowOf(source, r)], source);
        WithoutOwnRow(CashRowOf(source, r), source);
      }
    }
  }

  lemma {:induction false} PinKeepsOthers(cash: seq<CashRow>, source: string, currency: string, deltaQ: real, at: int)
    ensures WithoutCash(WithPin(cash, source, currency, deltaQ, at), source) == WithoutCash(cash, source)
  {
    hide WithoutCash, PinIndex, ReconcileId;
    var after, k := WithPin(cash, source, currency, deltaQ, at), PinIndex(cash, source);
    if k.Some? {
      var a, x, b := cash[..k.value], cash[k.value], cash[k.value + 1..];
      assert cash == a + ([x] + b);
      WithoutCashConcat(a, [x] + b, source);
      WithoutCashConcat([x], b, source);
      WithoutOwnRow(x, source);
      WithoutCashConcat(a, b, source);
      if deltaQ != 0.0 {
        var y := after[k.value];
        assert after == a + ([y] + b);
        WithoutCashConcat(a, [y] + b, source);
        WithoutCashConcat([y], b, source);
        WithoutOwnRow(y, source);
      }
    } else if deltaQ != 0.0 {
      var y := after[|cash|];
      assert after == cash + [y];
      WithoutCashConcat(cash, [y], source);
      WithoutOwnRow(y, source);
    }
  }

  lemma {:induction false} ReplaceKeepsOthers(db: Db, source: string, trades: seq<ExternalTrade>)
    ensures WithoutTrades(Replaced(db, source, trades).trades, source) == WithoutTrades(db.trades, source)
  {
    hide WithoutTrades, FreshRows, Registered;
    WithoutConcat(WithoutTrades(db.trades, source), FreshRows(source, trades), source);
    WithoutTwice(db.trades, source);
    WithoutFresh(source, trades);
  }

  /** A sync leaves the trades and cash rows of every other source, manual ones included, in place and in order. */
  lemma {:induction false} SyncKeepsOthers(
    db: Db, source: string, trades: seq<ExternalTrade>, rows: seq<RawCash>, currency: string, target: Option<real>,
      at: int)
    ensures var after := Synced(db, source, trades, rows, currency, target, at);
      && WithoutTrades(after.trades, source) == WithoutTrades(db.trades, source)
      && WithoutCash(after.cash, source) == WithoutCash(db.cash, source)
      && after.dividends == db.dividends
      && forall k | k in db.currencyOf :: k in after.currencyOf && after.currencyOf[k] == db.currencyOf[k]
  {
    hide WithoutTrades, WithoutCash, WithPin, Upserted, FreshRows, DeltaQ, DistinctIds, Registered;
    ReplaceKeepsOthers(db, source, trades);
    RegisteredCovers(db.currencyOf, source, trades);
    UpsertKeepsOthers(db.cash, source, rows);
    if target.Some? && DistinctIds(trades) {
      var recorded := Recorded(db, source, trades, rows);
      PinKeepsOthers(recorded.cash, source, currency, DeltaQ(recorded, source, currency, target.value), at);
    }
  }

  // ---- the batch of a sync ----

  /** An order of the exchange: free of fees, and its id is neither a statement transfer's nor an adjustment's. */
  predicate CleanOrder(t: ExternalTrade) { CleanTrade(t) && !LikePrefix(t.externalId, ADJUST_PREFIX) }

  function AdjustId(symbol: string): string { "upbit:adjust:" + symbol }

  lemma AdjustIdShape(a: string, b: string)
    ensures AdjustId(a) == AdjustId(b) ==> a == b
    ensures LikePrefix(AdjustId(a), ADJUST_PREFIX) && !LikePrefix(AdjustId(a), PDF_PREFIX)
  {
    assert AdjustId(a)[13..] == a && AdjustId(b)[13..] == b;
    assert AdjustId(a)[5] == ':' && PDF_PREFIX[5] == '-';
  }

  lemma AdjustmentIs(row: BalanceRow, history: seq<ExternalTrade>, now: int)
    ensures var a := AdjustmentFor(row, history, now);
      a.Some? ==> a.value.externalId == AdjustId(Upper(row.currency)) && a.value.fee == 0.0
  {}

  lemma {:induction false} AdjustmentIds(rows: seq<BalanceRow>, history: seq<ExternalTrade>, now: int)
    ensures forall a | a in Adjustments(rows, history, now) ::
      a.fee == 0.0 && exists i :: 0 <= i < |rows| && a.externalId == AdjustId(Upper(rows[i].currency))
    ensures DistinctCurrencies(rows) ==> DistinctIds(Adjustments(rows, history, now))
  {
    hide AdjustmentFor, Upper, AdjustId;
    if rows != [] {
      var n := |rows| - 1;
      AdjustmentIds(rows[..n], history, now);
      AdjustmentIs(rows[n], history, now);
      var before, out := Adjustments(rows[..n], history, now), Adjustments(rows, history, now);
      forall a | a in out ensures exists i :: 0 <= i < |rows| && a.externalId == AdjustId(Upper(rows[i].currency)) {
        if a in before {
          var i :| 0 <= i < n && a.externalId == AdjustId(Upper(rows[..n][i].currency));
          assert rows[..n][i] == rows[i];
        } else {
          assert a.externalId == AdjustId(Upper(rows[n].currency));
        }
      }
      if DistinctCurrencies(rows) {
        forall i, j | 0 <= i < j < |out| ensures out[i].externalId != out[j].externalId {
          if j == |before| {
            assert out[i] in before;
            var k :| 0 <= k < n && out[i].externalId == AdjustId(Upper(rows[..n][k].currency));
            assert Upper(rows[k].currency) != Upper(rows[n].currency);
            AdjustIdShape(Upper(rows[k].currency), Upper(rows[n].currency));
          }
        }
      }
    }
  }

  /** The batch a sync hands over meets the unique constraint and moves no cash beyond its gross. */
  lemma {:induction false} BatchIsClean(rows: seq<BalanceRow>, history: seq<ExternalTrade>, now: int)
    requires DistinctCurrencies(rows) && DistinctIds(history)
    requires forall i | 0 <= i < |history| :: CleanOrder(history[i])
    ensures var batch := history + Adjustments(rows, history, now);
      DistinctIds(batch) && forall i | 0 <= i < |batch| :: CleanTrade(batch[i])
  {
    hide Adjustments, Upper, AdjustId, LikePrefix, DistinctCurrencies;
    AdjustmentIds(rows, history, now);
    var n, out := |history|, Adjustments(rows, history, now);
    var batch := history + out;
    forall j | n <= j < |batch|
      ensures CleanTrade(batch[j]) && LikePrefix(batch[j].externalId, ADJUST_PREFIX)
    {
      assert out[j - n] in out;
      var k :| 0 <= k < |rows| && out[j - n].externalId == AdjustId(Upper(rows[k].currency));
      AdjustIdShape(Upper(rows[k].currency), "");
    }
    forall i, j | 0 <= i < j < |batch| ensures batch[i].externalId != batch[j].externalId {
      if n <= i {
        assert out[i - n].externalId != out[j - n].externalId;
      }
    }
  }
}
