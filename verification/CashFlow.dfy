/**
 The cash-flow service: the cash, trade and dividend tables, and the balances they add up to per currency
 and per source.
 */
module CashFlow {
  import opened Common
  import opened Ledger

  datatype CashKind = Deposit | Withdraw | Interest | InterestTax | TransferIn | TransferOut

  predicate Credits(k: CashKind) { k == Deposit || k == Interest || k == TransferIn }

  datatype CashRow = CashRow(
    kind: CashKind, amount: real, withholding: real, currency: string, at: int,
    source: Option<string>, externalId: Option<string>)

  /** Asset type with exchange label, and ticker: what identifies an asset symbol. */
  datatype SymbolKey = SymbolKey(listing: string, symbol: string)

  datatype TradeRow = TradeRow(
    symbol: SymbolKey, side: Side, qty: real, price: real, fee: real, at: int,
    source: Option<string>, externalId: Option<string>)

  datatype DividendRow = DividendRow(
    symbol: SymbolKey, exDate: int, amount: real, withholding: real, currency: string,
    source: Option<string>, externalId: Option<string>)

  datatype Db = Db(
    cash: seq<CashRow>, trades: seq<TradeRow>, dividends: seq<DividendRow>, currencyOf: map<SymbolKey, string>)

  // ---- SQL conditions on nullable ids ----

  /** LIKE 'pattern%', where an underscore in the pattern matches any character. */
  predicate LikePrefix(s: string, pattern: string) {
    |pattern| <= |s| && forall i | 0 <= i < |pattern| :: pattern[i] == '_' || s[i] == pattern[i]
  }

  const ADJUST_PREFIX := "upbit:adjust:"
  const PDF_PREFIX := "upbit-pdf-transfer-"

  /** NOT LIKE is not true of NULL, so a row without an id is filtered out like a reconciliation row. */
  predicate Counted(externalId: Option<string>) {
    externalId.Some? && !LikePrefix(externalId.value, ADJUST_PREFIX) && !LikePrefix(externalId.value, PDF_PREFIX)
  }

  function ReconcileId(source: string): string { source + ":cash:reconcile" }

  predicate IsPin(r: CashRow, source: string) {
    r.source == Some(source) && r.externalId == Some(ReconcileId(source))
  }

  // ---- what each row contributes ----

  /**
   One row's contribution: `flow` as the cash-flow service books it (None when its query drops the row), and
   `organic` as the reconcile step of the row's own source books it.
   */
  datatype Signal = Signal(source: Option<string>, currency: string, flow: Option<real>, organic: real)

  function SignedAmount(r: CashRow): real { if Credits(r.kind) then r.amount else -r.amount }

  function Gross(t: TradeRow): real { t.qty * t.price }

  function SignedGross(t: TradeRow): real { if t.side == Buy then -Gross(t) else Gross(t) }

  function CashSignal(r: CashRow): Signal {
    Signal(
      r.source, r.currency, Some(if Credits(r.kind) then r.amount - r.withholding else -r.amount),
      if r.source == None || r.externalId == None || IsPin(r, r.source.value) then 0.0 else SignedAmount(r))
  }

  /** The reconcile step leaves out the adjustments of its own source. */
  predicate OrganicTrade(t: TradeRow) {
    t.source.Some? && t.externalId.Some? && !LikePrefix(t.externalId.value, t.source.value + ":adjust:")
  }

  function TradeSignal(t: TradeRow, currencyOf: map<SymbolKey, string>): Signal {
    if t.symbol !in currencyOf then Signal(t.source, "", None, 0.0)
    else Signal(
      t.source, currencyOf[t.symbol],
      if Counted(t.externalId) then Some(SignedGross(t) - t.fee) else None,
      if OrganicTrade(t) then SignedGross(t) else 0.0)
  }

  function DividendSignal(d: DividendRow): Signal {
    Signal(d.source, d.currency, Some(d.amount - d.withholding), d.amount)
  }

  function CashSignals(rows: seq<CashRow>): seq<Signal> {
    seq(|rows|, i requires 0 <= i < |rows| => CashSignal(rows[i]))
  }

  function TradeSignals(rows: seq<TradeRow>, currencyOf: map<SymbolKey, string>): seq<Signal> {
    seq(|rows|, i requires 0 <= i < |rows| => TradeSignal(rows[i], currencyOf))
  }

  function DividendSignals(rows: seq<DividendRow>): seq<Signal> {
    seq(|rows|, i requires 0 <= i < |rows| => DividendSignal(rows[i]))
  }

  function Signals(db: Db): seq<Signal> {
    CashSignals(db.cash) + TradeSignals(db.trades, db.currencyOf) + DividendSignals(db.dividends)
  }

  // ---- balances ----

  /** Rows without a source, or with an empty one, go under "manual". */
  function SourceName(source: Option<string>): string {
    if source == None || source.value == "" then "manual" else source.value
  }

  function FlowOf(x: Signal, source: string, currency: string): real {
    if SourceName(x.source) == source && x.currency == currency && x.flow.Some? then x.flow.value else 0.0
  }

  /** The balance of one source in one currency. */
  function Flow(signals: seq<Signal>, source: string, currency: string): real {
    if signals == [] then 0.0
    else Flow(signals[..|signals| - 1], source, currency) + FlowOf(signals[|signals| - 1], source, currency)
  }

  /** The balance of one currency over all sources. */
  function CurrencyFlow(signals: seq<Signal>, currency: string): real {
    if signals == [] then 0.0
    else
      var x := signals[|signals| - 1];
      CurrencyFlow(signals[..|signals| - 1], currency)
      + if x.currency == currency && x.flow.Some? then x.flow.value else 0.0
  }

  ghost function Touched(signals: seq<Signal>): set<(string, string)> {
    set x | x in signals && x.flow.Some? :: (SourceName(x.source), x.currency)
  }

  lemma {:induction false} FlowConcat(a: seq<Signal>, b: seq<Signal>, source: string, currency: string)
    ensures Flow(a + b, source, currency) == Flow(a, source, currency) + Flow(b, source, currency)
  {
    hide FlowOf;
    if b == [] {
      assert a + b == a;
    } else {
      assert (a + b)[..|a + b| - 1] == a + b[..|b| - 1];
      FlowConcat(a, b[..|b| - 1], source, currency);
    }
  }

  lemma {:induction false} FlowOne(x: Signal, source: string, currency: string)
    ensures Flow([x], source, currency) == FlowOf(x, source, currency)
  {
    assert [x][..0] == [];
  }

  lemma {:induction false} FlowSnoc(a: seq<Signal>, x: Signal, source: string, currency: string)
    ensures Flow(a + [x], source, currency) == Flow(a, source, currency) + FlowOf(x, source, currency)
  {
    FlowConcat(a, [x], source, currency);
    FlowOne(x, source, currency);
  }

  // ---- the per-source dictionary ----

  type Balances = map<string, map<string, real>>

  predicate HasEntry(result: Balances, source: string, currency: string) {
    source in result && currency in result[source]
  }

  function Entry(result: Balances, source: string, currency: string): real {
    if HasEntry(result, source, currency) then result[source][currency] else 0.0
  }

  /** The dictionary has one entry per booked (source, currency), and the entry is the balance. */
  ghost predicate Tallies(result: Balances, signals: seq<Signal>) {
    && (forall s, c :: Entry(result, s, c) == Flow(signals, s, c))
    && (forall s, c :: HasEntry(result, s, c) <==> (s, c) in Touched(signals))
  }

  function Bump(result: Balances, source: Option<string>, currency: string, delta: real): Balances {
    var s := SourceName(source);
    var byCurrency := if s in result then result[s] else map[];
    result[s := byCurrency[currency := (if currency in byCurrency then byCurrency[currency] else 0.0) + delta]]
  }

  lemma BumpEntries(result: Balances, source: Option<string>, currency: string, delta: real)
    ensures var after := Bump(result, source, currency, delta);
      forall s, c ::
        var hit := s == SourceName(source) && c == currency;
        && Entry(after, s, c) == Entry(result, s, c) + (if hit then delta else 0.0)
        && (HasEntry(after, s, c) <==> HasEntry(result, s, c) || hit)
  {
    hide SourceName;
  }

  lemma TalliesStep(result: Balances, signals: seq<Signal>, x: Signal)
    requires Tallies(result, signals)
    ensures x.flow.Some? ==> Tallies(Bump(result, x.source, x.currency, x.flow.value), signals + [x])
    ensures x.flow == None ==> Tallies(result, signals + [x])
  {
    forall s, c ensures Flow(signals + [x], s, c) == Flow(signals, s, c) + FlowOf(x, s, c) {
      FlowSnoc(signals, x, s, c);
    }
    hide Flow;
    assert Touched(signals + [x])
        == Touched(signals) + if x.flow.Some? then {(SourceName(x.source), x.currency)} else {};
    hide Touched, Bump, Entry, HasEntry, SourceName;
    if x.flow.Some? {
      BumpEntries(result, x.source, x.currency, x.flow.value);
    }
  }

  lemma SignalsSnoc(db: Db)
    ensures forall i | 0 <= i < |db.cash| ::
      CashSignals(db.cash[..i + 1]) == CashSignals(db.cash[..i]) + [CashSignal(db.cash[i])]
    ensures forall i | 0 <= i < |db.trades| ::
      TradeSignals(db.trades[..i + 1], db.currencyOf)
      == TradeSignals(db.trades[..i], db.currencyOf) + [TradeSignal(db.trades[i], db.currencyOf)]
    ensures forall i | 0 <= i < |db.dividends| ::
      DividendSignals(db.dividends[..i + 1]) == DividendSignals(db.dividends[..i]) + [DividendSignal(db.dividends[i])]
  {}

  lemma WholeTables(db: Db)
    ensures db.cash[..|db.cash|] == db.cash && db.trades[..|db.trades|] == db.trades
    ensures db.dividends[..|db.dividends|] == db.dividends
    ensures CashSignals(db.cash[..0]) == [] && TradeSignals(db.trades[..0], db.currencyOf) == []
    ensures DividendSignals(db.dividends[..0]) == []
  {}

  /** net_cash_by_source_and_currency: three passes over the tables. */
  method NetCashBySourceAndCurrency(db: Db) returns (result: Balances)
    ensures Tallies(result, Signals(db))
  {
    hide Tallies, CashSignals, TradeSignals, DividendSignals, Flow, Bump, LikePrefix;
    SignalsSnoc(db);
    WholeTables(db);
    result := map[];
    assert Tallies(result, []) by { NothingTallied(); }
    ghost var done: seq<Signal> := [];
    for i := 0 to |db.cash|
      invariant done == CashSignals(db.cash[..i]) && Tallies(result, done)
    {
      var r := db.cash[i];
      TalliesStep(result, done, CashSignal(r));
      if Credits(r.kind) {
        result := Bump(result, r.source, r.currency, r.amount - r.withholding);
      } else {
        result := Bump(result, r.source, r.currency, -r.amount);
      }
      done := done + [CashSignal(r)];
    }
    ghost var cash := done;
    assert done == cash + [];
    for i := 0 to |db.trades|
      invariant done == cash + TradeSignals(db.trades[..i], db.currencyOf) && Tallies(result, done)
    {
      var t := db.trades[i];
      TalliesStep(result, done, TradeSignal(t, db.currencyOf));
      done := done + [TradeSignal(t, db.currencyOf)];
      if t.symbol in db.currencyOf && Counted(t.externalId) {
        var gross := Gross(t);
        if t.side == Buy {
          result := Bump(result, t.source, db.currencyOf[t.symbol], -gross - t.fee);
        } else {
          result := Bump(result, t.source, db.currencyOf[t.symbol], gross - t.fee);
        }
      }
    }
    ghost var traded := done;
    assert done == traded + [];
    for i := 0 to |db.dividends|
      invariant done == traded + DividendSignals(db.dividends[..i]) && Tallies(result, done)
    {
      var d := db.dividends[i];
      TalliesStep(result, done, DividendSignal(d));
      result := Bump(result, d.source, d.currency, d.amount - d.withholding);
      done := done + [DividendSignal(d)];
    }
  }

  lemma NothingTallied()
    ensures Tallies(map[], [])
  {}

  /** Every currency's entry is its balance. */
  ghost predicate Sums(balances: map<string, real>, signals: seq<Signal>) {
    forall c :: (if c in balances then balances[c] else 0.0) == CurrencyFlow(signals, c)
  }

  function Credited(balances: map<string, real>, currency: string, delta: real): map<string, real> {
    balances[currency := (if currency in balances then balances[currency] else 0.0) + delta]
  }

  lemma SumsStep(balances: map<string, real>, signals: seq<Signal>, x: Signal)
    requires Sums(balances, signals)
    ensures x.flow.Some? ==> Sums(Credited(balances, x.currency, x.flow.value), signals + [x])
    ensures x.flow == None ==> Sums(balances, signals + [x])
  {
    assert (signals + [x])[..|signals|] == signals;
  }

  /** net_cash_by_currency: the same passes, without the source. */
  method NetCashByCurrency(db: Db) returns (balances: map<string, real>)
    ensures Sums(balances, Signals(db))
  {
    hide Sums, CashSignals, TradeSignals, DividendSignals, Credited, LikePrefix;
    SignalsSnoc(db);
    WholeTables(db);
    balances := map[];
    assert Sums(balances, []) by { NothingSummed(); }
    ghost var done: seq<Signal> := [];
    for i := 0 to |db.cash|
      invariant done == CashSignals(db.cash[..i]) && Sums(balances, done)
    {
      var r := db.cash[i];
      SumsStep(balances, done, CashSignal(r));
      done := done + [CashSignal(r)];
      balances := Credited(balances, r.currency, if Credits(r.kind) then r.amount - r.withholding else -r.amount);
    }
    ghost var cash := done;
    assert done == cash + [];
    for i := 0 to |db.trades|
      invariant done == cash + TradeSignals(db.trades[..i], db.currencyOf) && Sums(balances, done)
    {
      var t := db.trades[i];
      SumsStep(balances, done, TradeSignal(t, db.currencyOf));
      done := done + [TradeSignal(t, db.currencyOf)];
      if t.symbol in db.currencyOf && Counted(t.externalId) {
        var gross := Gross(t);
        balances := Credited(balances, db.currencyOf[t.symbol], (if t.side == Buy then -gross else gross) - t.fee);
      }
    }
    ghost var traded := done;
    assert done == traded + [];
    for i := 0 to |db.dividends|
      invariant done == traded + DividendSignals(db.dividends[..i]) && Sums(balances, done)
    {
      var d := db.dividends[i];
      SumsStep(balances, done, DividendSignal(d));
      done := done + [DividendSignal(d)];
      balances := Credited(balances, d.currency, d.amount - d.withholding);
    }
  }

  lemma NothingSummed()
    ensures Sums(map[], [])
  {}

  // ---- the two views agree ----

  ghost function PerSource(sources: set<string>, signals: seq<Signal>, currency: string): map<string, real> {
    map s | s in sources :: Flow(signals, s, currency)
  }

  /** A currency's balance is the sum of its balances over the sources. */
  lemma {:induction false} SourcesAddUp(sources: set<string>, signals: seq<Signal>, currency: string)
    requires forall x | x in signals && x.flow.Some? :: SourceName(x.source) in sources
    ensures Total(PerSource(sources, signals, currency)) == CurrencyFlow(signals, currency)
  {
    if signals == [] {
      AllZero(PerSource(sources, signals, currency));
    } else {
      var init, x := signals[..|signals| - 1], signals[|signals| - 1];
      assert forall y | y in init :: y in signals;
      assert x in signals;
      SourcesAddUp(sources, init, currency);
      PerSourceStep(sources, signals, currency);
      hide PerSource, Flow, Total, SourceName;
      var before := PerSource(sources, init, currency);
      if x.flow.Some? {
        var s := SourceName(x.source);
        TotalUpdate(before, s, before[s] + FlowOf(x, s, currency));
      }
    }
  }

  /** One more row moves the balance of its own source alone. */
  lemma PerSourceStep(sources: set<string>, signals: seq<Signal>, currency: string)
    requires signals != [] && forall x | x in signals && x.flow.Some? :: SourceName(x.source) in sources
    ensures var init, x := signals[..|signals| - 1], signals[|signals| - 1];
      var before, s := PerSource(sources, init, currency), SourceName(x.source);
      && before.Keys == sources
      && PerSource(sources, signals, currency)
         == if x.flow.Some? then before[s := before[s] + FlowOf(x, s, currency)] else before
  {
    hide SourceName;
    assert signals[|signals| - 1] in signals;
  }

  // ---- what one row does to the balances ----

  /** The name a row is booked under: its source, or "manual" when that is missing or empty. */
  predicate Under(source: Option<string>, name: string) {
    (source == Some(name) && name != "") || ((source == None || source == Some("")) && name == "manual")
  }

  lemma {:induction false} CurrencyConcat(a: seq<Signal>, b: seq<Signal>, currency: string)
    ensures CurrencyFlow(a + b, currency) == CurrencyFlow(a, currency) + CurrencyFlow(b, currency)
  {
    if b == [] {
      assert a + b == a;
    } else {
      assert (a + b)[..|a + b| - 1] == a + b[..|b| - 1];
      CurrencyConcat(a, b[..|b| - 1], currency);
    }
  }

  lemma {:induction false} CurrencyOne(x: Signal, currency: string)
    ensures CurrencyFlow([x], currency) == if x.currency == currency && x.flow.Some? then x.flow.value else 0.0
  {
    assert [x][..0] == [];
  }

  /** A row anywhere in the tables adds its own flow and leaves the others'. */
  lemma {:induction false} Inserted(a: seq<Signal>, x: Signal, b: seq<Signal>, name: string, currency: string)
    ensures Flow(a + ([x] + b), name, currency) == Flow(a + b, name, currency)
      + if Under(x.source, name) && x.currency == currency && x.flow.Some? then x.flow.value else 0.0
    ensures CurrencyFlow(a + ([x] + b), currency) == CurrencyFlow(a + b, currency)
      + if x.currency == currency && x.flow.Some? then x.flow.value else 0.0
  {
    FlowConcat(a, [x] + b, name, currency);
    FlowConcat([x], b, name, currency);
    FlowConcat(a, b, name, currency);
    FlowOne(x, name, currency);
    CurrencyConcat(a, [x] + b, currency);
    CurrencyConcat([x], b, currency);
    CurrencyConcat(a, b, currency);
    CurrencyOne(x, currency);
    hide Flow, CurrencyFlow;
  }

  lemma MoreCash(db: Db, r: CashRow) returns (rest: seq<Signal>)
    ensures Signals(db) == CashSignals(db.cash) + rest
    ensures Signals(db.(cash := db.cash + [r])) == CashSignals(db.cash) + ([CashSignal(r)] + rest)
  {
    hide CashSignal;
    rest := TradeSignals(db.trades, db.currencyOf) + DividendSignals(db.dividends);
    assert CashSignals(db.cash + [r]) == CashSignals(db.cash) + [CashSignal(r)];
  }

  lemma MoreTrades(db: Db, t: TradeRow) returns (before: seq<Signal>, rest: seq<Signal>)
    ensures Signals(db) == before + rest
    ensures Signals(db.(trades := db.trades + [t])) == before + ([TradeSignal(t, db.currencyOf)] + rest)
  {
    hide TradeSignal;
    before, rest := CashSignals(db.cash) + TradeSignals(db.trades, db.currencyOf), DividendSignals(db.dividends);
    assert TradeSignals(db.trades + [t], db.currencyOf)
        == TradeSignals(db.trades, db.currencyOf) + [TradeSignal(t, db.currencyOf)];
  }

  lemma MoreDividends(db: Db, d: DividendRow)
    ensures Signals(db.(dividends := db.dividends + [d])) == Signals(db) + ([DividendSignal(d)] + [])
  {
    hide DividendSignal;
    assert DividendSignals(db.dividends + [d]) == DividendSignals(db.dividends) + [DividendSignal(d)];
  }

  /** Without rows every balance is zero. */
  lemma {:induction false} EmptyBooks(currencyOf: map<SymbolKey, string>, name: string, currency: string)
    ensures Flow(Signals(Db([], [], [], currencyOf)), name, currency) == 0.0
    ensures CurrencyFlow(Signals(Db([], [], [], currencyOf)), currency) == 0.0
  {
    assert Signals(Db([], [], [], currencyOf)) == [];
  }

  /** A deposit, interest or transfer-in credits its amount less withholding, the other kinds debit their amount. */
  function Moved(r: CashRow): real {
    match r.kind
    case Deposit => r.amount - r.withholding
    case Interest => r.amount - r.withholding
    case TransferIn => r.amount - r.withholding
    case Withdraw => -r.amount
    case InterestTax => -r.amount
    case TransferOut => -r.amount
  }

  /** One more cash row moves exactly the balance of its own source and currency, and that currency's balance. */
  lemma {:induction false} CashEffect(db: Db, r: CashRow, name: string, currency: string)
    ensures var after := db.(cash := db.cash + [r]);
      && Flow(Signals(after), name, currency) - Flow(Signals(db), name, currency)
         == (if Under(r.source, name) && r.currency == currency then Moved(r) else 0.0)
      && CurrencyFlow(Signals(after), currency) - CurrencyFlow(Signals(db), currency)
         == (if r.currency == currency then Moved(r) else 0.0)
  {
    var rest := MoreCash(db, r);
    hide Signals, Flow, CurrencyFlow, Under;
    Inserted(CashSignals(db.cash), CashSignal(r), rest, name, currency);
  }

  /** One more dividend credits its amount less withholding. */
  lemma {:induction false} DividendEffect(db: Db, d: DividendRow, name: string, currency: string)
    ensures var after := db.(dividends := db.dividends + [d]);
      && Flow(Signals(after), name, currency) - Flow(Signals(db), name, currency)
         == (if Under(d.source, name) && d.currency == currency then d.amount - d.withholding else 0.0)
      && CurrencyFlow(Signals(after), currency) - CurrencyFlow(Signals(db), currency)
         == (if d.currency == currency then d.amount - d.withholding else 0.0)
  {
    MoreDividends(db, d);
    hide Signals, Flow, CurrencyFlow, Under;
    assert Signals(db) + [] == Signals(db);
    Inserted(Signals(db), DividendSignal(d), [], name, currency);
  }

  /** A trade with an id that is not one of a balance adjustment or of a coin moved from or to a wallet. */
  predicate Booked(externalId: Option<string>) {
    externalId.Some? && !("upbit:adjust:" <= externalId.value) && !("upbit-pdf-transfer-" <= externalId.value)
  }

  /** Without underscores in it a LIKE pattern is a plain prefix. */
  lemma LikeIsPrefix(s: string, pattern: string)
    requires '_' !in pattern
    ensures LikePrefix(s, pattern) <==> pattern <= s
  {}

  /** An underscore in the pattern stands for any one character. */
  lemma UnderscoreIsAny(a: string, c: char, b: string, tail: string)
    ensures LikePrefix(a + [c] + b + tail, a + "_" + b)
  {}

  lemma CountedIsBooked(externalId: Option<string>)
    ensures Counted(externalId) <==> Booked(externalId)
  {
    hide LikePrefix;
    if externalId.Some? {
      LikeIsPrefix(externalId.value, ADJUST_PREFIX);
      LikeIsPrefix(externalId.value, PDF_PREFIX);
    }
  }

  /**
   One more trade moves exactly its own source and the currency of its symbol: a BUY by minus quantity times price,
   a SELL by plus that, both less the fee. It moves nothing if its id is missing or not counted, or its symbol unknown.
   */
  lemma {:induction false} TradeEffect(db: Db, t: TradeRow, name: string, currency: string)
    ensures var after := db.(trades := db.trades + [t]);
      var seen := t.symbol in db.currencyOf && db.currencyOf[t.symbol] == currency && Booked(t.externalId);
      var moved := if t.side == Buy then -(t.qty * t.price) - t.fee else t.qty * t.price - t.fee;
      && Flow(Signals(after), name, currency) - Flow(Signals(db), name, currency)
         == (if seen && Under(t.source, name) then moved else 0.0)
      && CurrencyFlow(Signals(after), currency) - CurrencyFlow(Signals(db), currency)
         == (if seen then moved else 0.0)
  {
    CountedIsBooked(t.externalId);
    var before, rest := MoreTrades(db, t);
    hide Signals, Flow, CurrencyFlow, Under, Counted, Booked, LikePrefix;
    Inserted(before, TradeSignal(t, db.currencyOf), rest, name, currency);
  }

  /** A manually entered BUY, which has no external id, leaves the "manual" balance at zero. */
  lemma ManualTradeIsDropped()
    ensures var key := SymbolKey("us_stock", "AAPL");
      var t := TradeRow(key, Buy, 1.0, 100.0, 0.0, 0, None, None);
      Flow(Signals(Db([], [t], [], map[key := "USD"])), "manual", "USD") == 0.0
  {
    hide LikePrefix;
    var key := SymbolKey("us_stock", "AAPL");
    var t := TradeRow(key, Buy, 1.0, 100.0, 0.0, 0, None, None);
    var db := Db([], [], [], map[key := "USD"]);
    TradeEffect(db, t, "manual", "USD");
    assert [] + [t] == [t];
    EmptyBooks(db.currencyOf, "manual", "USD");
  }
}
