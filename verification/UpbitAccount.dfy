/**
 The Upbit account adapter: backward paging through closed orders, the mapping of a native order to a trade,
 and the balance adjustments that close the gap to the reported balances.
 */
module UpbitAccount {
  import opened Common
  import opened Ledger

  // ---- rounding to a column's precision ----

  const QTY_QUANTUM := 0.0000000001
  const PRICE_QUANTUM := 0.000001

  /** The nearest multiple of the quantum, a half rounded up; used on non-negative values. */
  function RoundHalfUp(x: real, quantum: real): real
    requires quantum > 0.0
  {
    (x / quantum + 0.5).Floor as real * quantum
  }

  lemma RoundingError(x: real, quantum: real)
    requires quantum > 0.0
    ensures -quantum / 2.0 <= RoundHalfUp(x, quantum) - x <= quantum / 2.0
  {
    var s := x / quantum;
    DivMul(x, quantum);
    FloorError(s);
    var n := (s + 0.5).Floor as real;
    RoundedWithin(x, quantum, s, n, n * quantum, quantum / 2.0);
  }

  lemma FloorError(s: real)
    ensures -0.5 <= (s + 0.5).Floor as real - s <= 0.5
  {}

  // ---- native orders ----

  datatype RawOrder = RawOrder(
    uuid: string, createdAt: int,
    side: Option<string>, market: Option<string>, state: Option<string>,
    executedVolume: Option<real>, avgPrice: Option<real>, price: Option<real>)

  datatype ExternalTrade = ExternalTrade(
    externalId: string, symbol: string, quoteCurrency: string,
    side: Side, quantity: real, price: real, tradedAt: int, fee: real)

  function UpperChar(c: char): char { if 'a' <= c <= 'z' then (c as int - 32) as char else c }

  function Upper(s: string): string {
    if s == "" then "" else [UpperChar(s[0])] + Upper(s[1..])
  }

  const SMALL := "abcdefghijklmnopqrstuvwxyz"
  const CAPITALS := "ABCDEFGHIJKLMNOPQRSTUVWXYZ"

  /** d is the capital of the small letter c, or c itself when c is none. */
  ghost predicate Capital(d: char, c: char) {
    if c in SMALL then exists k: nat :: k < 26 && c == SMALL[k] && d == CAPITALS[k] else d == c
  }

  lemma UpperCharIs(c: char)
    ensures Capital(UpperChar(c), c)
  {
    if 'a' <= c <= 'z' {
      LetterAt(c as int - 97);
    }
    forall k | 0 <= k < 26 ensures 'a' <= SMALL[k] <= 'z' { LetterAt(k); }
  }

  lemma LetterAt(k: nat)
    requires k < 26
    ensures SMALL[k] as int == 97 + k && CAPITALS[k] as int == 65 + k
  {}

  /** Every small letter becomes its capital, every other character stays. */
  lemma {:induction false} UpperIs(s: string)
    ensures |Upper(s)| == |s|
    ensures forall i | 0 <= i < |s| :: Capital(Upper(s)[i], s[i])
  {
    if s != "" {
      hide UpperChar, Capital;
      UpperCharIs(s[0]);
      UpperIs(s[1..]);
      assert Upper(s)[1..] == Upper(s[1..]);
    }
  }

  /** The parts before and after the first dash. */
  function Partition(s: string): Option<(string, string)> {
    if s == "" then None
    else if s[0] == '-' then Some(("", s[1..]))
    else
      var rest := Partition(s[1..]);
      if rest == None then None else Some(([s[0]] + rest.value.0, rest.value.1))
  }

  /** The executed average price, or the limit price when the average is missing or zero. */
  function OrderPrice(o: RawOrder): Option<real> {
    if o.avgPrice.Some? && o.avgPrice.value != 0.0 then o.avgPrice else o.price
  }

  /**
   A done bid or ask on a QUOTE-BASE market with positive volume and price becomes a trade; anything else is
   dropped.
   */
  function MapNativeOrder(o: RawOrder): Option<ExternalTrade> {
    if o.side == None || o.market == None || o.state == None then None
    else if o.state.value != "done" || (o.side.value != "bid" && o.side.value != "ask") then None
    else
      var parts := Partition(o.market.value);
      var qty, price := o.executedVolume, OrderPrice(o);
      if parts == None || parts.value.0 == "" || parts.value.1 == "" then None
      else if qty == None || price == None || qty.value <= 0.0 || price.value <= 0.0 then None
      else Some(ExternalTrade(
        o.uuid, Upper(parts.value.1), Upper(parts.value.0),
        if o.side.value == "bid" then Buy else Sell,
        RoundHalfUp(qty.value, QTY_QUANTUM), RoundHalfUp(price.value, PRICE_QUANTUM), o.createdAt, 0.0))
  }

  /** Rounding keeps a positive value positive exactly from half a quantum on. */
  lemma RoundsToPositiveIff(x: real, quantum: real)
    requires quantum > 0.0
    ensures RoundHalfUp(x, quantum) > 0.0 <==> x >= quantum / 2.0
  {
    var s := x / quantum;
    DivMul(x, quantum);
    var n := (s + 0.5).Floor as real;
    if n >= 1.0 {
      MulMono(quantum, 1.0, n);
      MulMono(quantum, 0.5, s);
    } else {
      MulMono(quantum, n, 0.0);
      MulStrict(quantum, s, 0.5);
    }
  }

  /** A mapped order is a valid ledger row exactly when neither its volume nor its price rounds away. */
  lemma MappedIsPositiveIff(o: RawOrder)
    requires MapNativeOrder(o).Some?
    ensures var t := MapNativeOrder(o).value;
      t.quantity > 0.0 && t.price > 0.0
      <==> o.executedVolume.value >= QTY_QUANTUM / 2.0 && OrderPrice(o).value >= PRICE_QUANTUM / 2.0
  {
    RoundsToPositiveIff(o.executedVolume.value, QTY_QUANTUM);
    RoundsToPositiveIff(OrderPrice(o).value, PRICE_QUANTUM);
    hide RoundHalfUp;
  }

  /** A coin below half a price quantum: a thousand units at 0.00000034 BTC are stored as bought for nothing. */
  lemma {:induction false} CheapCoinIsStoredFree(coin: string, uuid: string, createdAt: int)
    requires coin != ""
    ensures var market, done := Some("BTC" + ("-" + coin)), Some("done");
      MapNativeOrder(RawOrder(uuid, createdAt, Some("bid"), market, done, Some(1000.0), Some(0.00000034), None))
      == Some(ExternalTrade(uuid, Upper(coin), Upper("BTC"), Buy, 1000.0, 0.0, createdAt, 0.0))
  {
    MarketParts("BTC", coin);
    assert 1000.0 / QTY_QUANTUM == 10000000000000.0;
    assert (0.00000034 / PRICE_QUANTUM + 0.5).Floor == 0;
    hide Upper, Partition;
  }

  lemma {:induction false} MarketParts(quote: string, base: string)
    requires '-' !in quote
    ensures Partition(quote + ("-" + base)) == Some((quote, base))
  {
    var market := quote + ("-" + base);
    if quote == "" {
      assert market == "-" + base && ("-" + base)[1..] == base;
    } else {
      MarketParts(quote[1..], base);
      assert market[1..] == quote[1..] + ("-" + base) && [quote[0]] + quote[1..] == quote;
    }
  }

  // ---- what an order says, and what becomes of it ----

  /** The market name is the quote currency, its first dash, and the base currency, both not empty. */
  predicate Market(market: string, quote: string, base: string) {
    market == quote + ("-" + base) && '-' !in quote && quote != "" && base != ""
  }

  /** The price paid: the executed average, or the limit price when the average is missing or zero. */
  predicate PaidPrice(o: RawOrder, price: real) {
    || (o.avgPrice == Some(price) && price != 0.0)
    || ((o.avgPrice == None || o.avgPrice == Some(0.0)) && o.price == Some(price))
  }

  /** A done bid or ask on a named market with a positive volume and a positive price. */
  ghost predicate Importable(o: RawOrder) {
    && o.state == Some("done") && (o.side == Some("bid") || o.side == Some("ask"))
    && o.executedVolume.Some? && o.executedVolume.value > 0.0
    && (exists price :: PaidPrice(o, price) && price > 0.0)
    && o.market.Some? && exists quote, base :: Market(o.market.value, quote, base)
  }

  /** A multiple of the quantum with x within half a quantum of it, the lower end of that range included. */
  ghost predicate Nearest(rounded: real, x: real, quantum: real) {
    && (exists n: int :: Multiple(n, quantum) == rounded)
    && rounded - quantum / 2.0 <= x < rounded + quantum / 2.0
  }

  function Multiple(n: int, quantum: real): real { n as real * quantum }

  /** The trade says what the order says: a bid is a BUY and an ask a SELL, ten decimals of volume, six of price. */
  ghost predicate Reports(t: ExternalTrade, o: RawOrder) {
    && t.externalId == o.uuid && t.tradedAt == o.createdAt && t.fee == 0.0
    && (t.side == Buy <==> o.side == Some("bid")) && (t.side == Sell <==> o.side == Some("ask"))
    && o.executedVolume.Some? && Nearest(t.quantity, o.executedVolume.value, 0.0000000001)
    && (exists price :: PaidPrice(o, price) && Nearest(t.price, price, 0.000001))
    && o.market.Some? && exists quote, base ::
         Market(o.market.value, quote, base) && t.quoteCurrency == Upper(quote) && t.symbol == Upper(base)
  }

  lemma RoundsToNearest(x: real, quantum: real)
    requires quantum > 0.0
    ensures Nearest(RoundHalfUp(x, quantum), x, quantum)
  {
    RoundIsMultiple(x, quantum);
    DivMul(x, quantum);
    FloorBelow(x / quantum);
    hide RoundHalfUp, Multiple;
    var s, n := x / quantum, (x / quantum + 0.5).Floor;
    MultipleIs(n, quantum);
    HalfOpen(x, quantum, s, n as real, Multiple(n, quantum), quantum / 2.0);
  }

  lemma RoundIsMultiple(x: real, quantum: real)
    requires quantum > 0.0
    ensures RoundHalfUp(x, quantum) == Multiple((x / quantum + 0.5).Floor, quantum)
  {}

  lemma MultipleIs(n: int, quantum: real)
    ensures Multiple(n, quantum) == n as real * quantum
  {}

  lemma FloorBelow(s: real)
    ensures (s + 0.5).Floor as real - 0.5 <= s < (s + 0.5).Floor as real + 0.5
  {}

  lemma HalfOpen(x: real, quantum: real, s: real, n: real, rounded: real, half: real)
    requires quantum > 0.0 && half == quantum / 2.0 && n - 0.5 <= s < n + 0.5
    requires x == s * quantum && rounded == n * quantum
    ensures rounded - half <= x < rounded + half
  {
    DiffTimes(s - n, s, n, quantum);
    HalfOpenGap(s - n, quantum, x - rounded, half);
  }

  lemma HalfOpenGap(d: real, quantum: real, gap: real, half: real)
    requires quantum > 0.0 && half == quantum / 2.0 && -0.5 <= d < 0.5 && gap == quantum * d
    ensures -half <= gap < half
  {
    MulMono(quantum, -0.5, d);
    MulStrict(quantum, d, 0.5);
  }

  lemma {:induction false} PartsAroundDash(s: string)
    ensures Partition(s) == None <==> '-' !in s
    ensures Partition(s).Some? ==>
      s == Partition(s).value.0 + ("-" + Partition(s).value.1) && '-' !in Partition(s).value.0
  {
    if s != "" {
      assert s == [s[0]] + s[1..];
      if s[0] != '-' {
        PartsAroundDash(s[1..]);
        if Partition(s[1..]).Some? {
          var rest := Partition(s[1..]).value;
          assert ([s[0]] + rest.0) + ("-" + rest.1) == [s[0]] + (rest.0 + ("-" + rest.1));
        }
      }
    }
  }

  /** The market has a name exactly when partitioning yields two non-empty parts, and then they are its parts. */
  lemma {:induction false} MarketIsPartition(market: string)
    ensures (exists quote, base :: Market(market, quote, base))
      <==> Partition(market).Some? && Partition(market).value.0 != "" && Partition(market).value.1 != ""
    ensures forall quote, base | Market(market, quote, base) :: Partition(market) == Some((quote, base))
  {
    PartsAroundDash(market);
    forall quote, base | Market(market, quote, base) ensures Partition(market) == Some((quote, base)) {
      MarketParts(quote, base);
    }
    hide Partition;
    if Partition(market).Some? && Partition(market).value.0 != "" && Partition(market).value.1 != "" {
      assert Market(market, Partition(market).value.0, Partition(market).value.1);
    }
  }

  lemma PaidPriceIs(o: RawOrder)
    ensures forall price :: PaidPrice(o, price) <==> OrderPrice(o) == Some(price)
  {}

  /** Exactly the importable orders are mapped, each to a trade that reports it. */
  lemma MappedReports(o: RawOrder)
    ensures MapNativeOrder(o).Some? <==> Importable(o)
    ensures MapNativeOrder(o).Some? ==> Reports(MapNativeOrder(o).value, o)
  {
    PaidPriceIs(o);
    if o.market.Some? {
      MarketIsPartition(o.market.value);
    }
    hide Partition, Upper, RoundHalfUp, PaidPrice, OrderPrice, Market, Nearest;
    if MapNativeOrder(o).Some? {
      var parts := Partition(o.market.value).value;
      var quote, base :| Market(o.market.value, quote, base);
      RoundsToNearest(o.executedVolume.value, QTY_QUANTUM);
      RoundsToNearest(OrderPrice(o).value, PRICE_QUANTUM);
      assert PaidPrice(o, OrderPrice(o).value);
    }
  }

  lemma MappedKeepsUuid(o: RawOrder)
    ensures MapNativeOrder(o).Some? ==> MapNativeOrder(o).value.externalId == o.uuid
  {}

  // ---- paging ----

  const FETCH_LIMIT := 100
  const MAX_PAGES := 200

  datatype Stop = Failed | EmptyPage | ShortPage | NoCursor | Stuck | PageCap

  predicate Eligible(o: RawOrder, endTime: Option<int>) {
    endTime.Some? ==> o.createdAt <= endTime.value
  }

  predicate NoRepeats(page: seq<RawOrder>) {
    forall i, j | 0 <= i < j < |page| :: page[i] != page[j]
  }

  /** What the exchange answers: the newest orders at or before the end time, at most a page of them. */
  ghost predicate NewestPage(orders: set<RawOrder>, endTime: Option<int>, page: seq<RawOrder>) {
    && |page| <= 100 && NoRepeats(page)
    && (forall o | o in page :: o in orders && Eligible(o, endTime))
    && (|page| < 100 ==> forall o | o in orders && Eligible(o, endTime) :: o in page)
    && (forall o, p | o in orders && Eligible(o, endTime) && o !in page && p in page :: o.createdAt <= p.createdAt)
  }

  /** Order ids are unique. */
  ghost predicate UniqueIds(orders: set<RawOrder>) {
    forall o, p | o in orders && p in orders && o.uuid == p.uuid :: o == p
  }

  ghost function OrdersAt(orders: set<RawOrder>, t: int): set<RawOrder> {
    set o | o in orders && o.createdAt == t
  }

  /** Fewer than a page of orders share any timestamp. */
  ghost predicate Sparse(orders: set<RawOrder>) {
    forall t: int :: |OrdersAt(orders, t)| < 100
  }

  lemma {:induction false} SetOfDistinct(page: seq<RawOrder>)
    requires NoRepeats(page)
    ensures |set o | o in page| == |page|
  {
    if page != [] {
      var init, last := page[..|page| - 1], page[|page| - 1];
      SetOfDistinct(init);
      assert (set o | o in page) == (set o | o in init) + {last};
      assert last !in init;
    }
  }

  lemma {:induction false} SubsetIsSmaller(a: set<RawOrder>, b: set<RawOrder>)
    requires a <= b
    ensures |a| <= |b|
    decreases |a|
  {
    if a != {} {
      var x :| x in a;
      SubsetIsSmaller(a - {x}, b - {x});
    }
  }

  /** A full page reaches past the time it was asked for. */
  lemma FullPageReachesBack(orders: set<RawOrder>, endTime: int, page: seq<RawOrder>)
    requires NewestPage(orders, Some(endTime), page) && Sparse(orders) && |page| == FETCH_LIMIT
    ensures exists o :: o in page && o.createdAt < endTime
  {
    SetOfDistinct(page);
    var all := set o | o in page;
    var there := OrdersAt(orders, endTime);
    assert |there| < |all|;
    if all <= there {
      SubsetIsSmaller(all, there);
      assert false;
    }
  }

  /** Some trade of the list reports the order. */
  ghost predicate Taken(o: RawOrder, trades: seq<ExternalTrade>) { exists t :: t in trades && Reports(t, o) }

  /** The trade reports an importable order. */
  ghost predicate Stems(t: ExternalTrade, orders: set<RawOrder>) {
    exists o :: o in orders && Importable(o) && Reports(t, o)
  }

  /** The trades report the importable orders among those seen, each once. */
  ghost predicate Collected(orders: set<RawOrder>, seen: set<string>, trades: seq<ExternalTrade>) {
    && (forall i, j | 0 <= i < j < |trades| :: trades[i].externalId != trades[j].externalId)
    && (forall o | o in orders && o.uuid in seen && Importable(o) :: Taken(o, trades))
    && (forall t | t in trades :: t.externalId in seen && Stems(t, orders))
  }

  /** Everything newer than the cursor has been seen, and nothing older. */
  ghost predicate SeenDownTo(orders: set<RawOrder>, seen: set<string>, endTime: Option<int>) {
    && (endTime == None ==> seen == {})
    && (endTime.Some? ==>
          && (forall o | o in orders && o.createdAt > endTime.value :: o.uuid in seen)
          && (forall o | o in orders && o.uuid in seen :: o.createdAt >= endTime.value))
  }

  /** The oldest time among the page's orders that had not been seen before. */
  ghost predicate OldestUnseen(page: seq<RawOrder>, seen: set<string>, oldest: Option<int>) {
    && (forall o | o in page && o.uuid !in seen :: oldest.Some? && oldest.value <= o.createdAt)
    && (oldest.Some? ==> exists o :: o in page && o.uuid !in seen && o.createdAt == oldest.value)
  }

  lemma CollectStep(orders: set<RawOrder>, seen: set<string>, trades: seq<ExternalTrade>, o: RawOrder)
    requires UniqueIds(orders) && Collected(orders, seen, trades) && o in orders && o.uuid !in seen
    ensures Collected(orders, seen + {o.uuid}, trades
      + if MapNativeOrder(o).Some? then [MapNativeOrder(o).value] else [])
  {
    MappedReports(o);
    MappedKeepsUuid(o);
    hide MapNativeOrder, Importable, Reports;
    var mapped := MapNativeOrder(o);
    var trades' := trades + if mapped.Some? then [mapped.value] else [];
    forall p | p in orders && p.uuid in seen + {o.uuid} && Importable(p) ensures Taken(p, trades') {
      if p.uuid == o.uuid {
        assert p == o && mapped.value in trades';
      } else {
        var t :| t in trades && Reports(t, p);
        assert t in trades';
      }
    }
    forall i, j | 0 <= i < j < |trades'| ensures trades'[i].externalId != trades'[j].externalId {
      if j == |trades| { assert trades[i] in trades; }
    }
  }

  ghost function Uuids(page: seq<RawOrder>): set<string> { set o | o in page :: o.uuid }

  /** The next order of a page brings an id that the page has not had yet. */
  lemma NextUuid(page: seq<RawOrder>, i: nat, orders: set<RawOrder>)
    requires UniqueIds(orders) && NoRepeats(page) && (forall o | o in page :: o in orders) && i < |page|
    ensures page[..i + 1] == page[..i] + [page[i]] && page[i] in page && page[i] in orders
    ensures page[i].uuid !in Uuids(page[..i]) && Uuids(page[..i + 1]) == Uuids(page[..i]) + {page[i].uuid}
  {
    forall k | 0 <= k < i ensures page[k].uuid != page[i].uuid {
      assert page[k] in page && page[k] != page[i];
    }
  }

  lemma OldestOfNext(page: seq<RawOrder>, o: RawOrder, seen: set<string>, oldest: Option<int>)
    requires OldestUnseen(page, seen, oldest)
    ensures OldestUnseen(page + [o], seen,
      if o.uuid !in seen && (oldest == None || o.createdAt < oldest.value) then Some(o.createdAt) else oldest)
  {
    assert o in page + [o] && forall p | p in page :: p in page + [o];
  }

  /** Adds the unseen orders of one page. */
  method CollectPage(page: seq<RawOrder>, seen: set<string>, trades: seq<ExternalTrade>, ghost orders: set<RawOrder>)
    returns (seen': set<string>, trades': seq<ExternalTrade>, oldest: Option<int>)
    requires UniqueIds(orders) && Collected(orders, seen, trades)
    requires NoRepeats(page) && forall o | o in page :: o in orders
    ensures Collected(orders, seen', trades')
    ensures seen' == seen + Uuids(page)
    ensures OldestUnseen(page, seen, oldest)
  {
    seen', trades', oldest := seen, trades, None;
    for i := 0 to |page|
      invariant Collected(orders, seen', trades')
      invariant seen' == seen + Uuids(page[..i])
      invariant OldestUnseen(page[..i], seen, oldest)
    {
      hide Collected, MapNativeOrder, Importable, Taken, Stems, OldestUnseen, Uuids, UniqueIds, NoRepeats;
      var raw := page[i];
      OldestOfNext(page[..i], raw, seen, oldest);
      NextUuid(page, i, orders);
      if raw.uuid !in seen' {
        CollectStep(orders, seen', trades', raw);
        seen' := seen' + {raw.uuid};
        var mapped := MapNativeOrder(raw);
        if mapped.Some? {
          trades' := trades' + [mapped.value];
        } else {
          assert trades' + [] == trades';
        }
        if oldest == None || raw.createdAt < oldest.value {
          oldest := Some(raw.createdAt);
        }
      }
    }
    assert page[..|page|] == page;
  }

  lemma CursorMovesBack(
    orders: set<RawOrder>, seen: set<string>, endTime: Option<int>, page: seq<RawOrder>, oldest: Option<int>)
    requires UniqueIds(orders) && NewestPage(orders, endTime, page) && Sparse(orders) && |page| == FETCH_LIMIT
    requires SeenDownTo(orders, seen, endTime) && OldestUnseen(page, seen, oldest)
    ensures oldest.Some? && (endTime.Some? ==> oldest.value < endTime.value)
    ensures SeenDownTo(orders, seen + Uuids(page), oldest)
  {
    if endTime.Some? {
      FullPageReachesBack(orders, endTime.value, page);
      var o :| o in page && o.createdAt < endTime.value;
      assert o.uuid !in seen;
    } else {
      assert page[0] in page && page[0].uuid !in seen;
    }
    var seen' := seen + Uuids(page);
    var last :| last in page && last.uuid !in seen && last.createdAt == oldest.value;
    assert forall o | o in orders && Eligible(o, endTime) && o !in page :: o.createdAt <= last.createdAt;
    forall o | o in orders && o.uuid in seen' ensures o.createdAt >= oldest.value {
      if o.uuid !in seen {
        var p :| p in page && p.uuid == o.uuid;
        assert p == o;
      }
    }
  }

  lemma LastPageCompletes(orders: set<RawOrder>, seen: set<string>, endTime: Option<int>, page: seq<RawOrder>)
    requires NewestPage(orders, endTime, page) && |page| < FETCH_LIMIT && SeenDownTo(orders, seen, endTime)
    ensures forall o | o in orders :: o.uuid in seen + Uuids(page)
  {}

  /**
   Pages backward until a short page. Whatever happens, every trade stems from one order and none is taken
   twice. When fewer than a page of orders share a timestamp, every full page moves the cursor strictly
   back, the run never gets stuck, and a run that ends on a short or empty page has every mappable order.
   */
  method FetchAllClosedOrders(fetch: Option<int> -> Option<seq<RawOrder>>, ghost orders: set<RawOrder>)
    returns (trades: seq<ExternalTrade>, stop: Stop, cursors: seq<int>)
    requires UniqueIds(orders)
    requires forall e: Option<int> :: fetch(e).Some? ==> NewestPage(orders, e, fetch(e).value)
    ensures forall i, j | 0 <= i < j < |trades| :: trades[i].externalId != trades[j].externalId
    ensures forall t | t in trades :: Stems(t, orders)
    ensures Sparse(orders) ==> stop != Stuck && stop != NoCursor
    ensures Sparse(orders) ==> forall i, j | 0 <= i < j < |cursors| :: cursors[i] > cursors[j]
    ensures Sparse(orders) && (stop == ShortPage || stop == EmptyPage) ==>
      forall o | o in orders && Importable(o) :: Taken(o, trades)
    ensures stop == PageCap ==> |cursors| == 200
  {
    hide Importable, Taken, Stems, NewestPage, Sparse, SeenDownTo, OldestUnseen;
    trades, cursors := [], [];
    var seen: set<string> := {};
    var endTime: Option<int> := None;
    NothingSeen(orders);
    for page_ := 0 to MAX_PAGES
      invariant |cursors| == page_
      invariant Collected(orders, seen, trades)
      invariant Sparse(orders) ==> SeenDownTo(orders, seen, endTime)
      invariant endTime == if cursors == [] then None else Some(cursors[|cursors| - 1])
      invariant Sparse(orders) ==> forall i, j | 0 <= i < j < |cursors| :: cursors[i] > cursors[j]
    {
      var answer := fetch(endTime);
      if answer == None {
        return trades, Failed, cursors;
      }
      var page := answer.value;
      PageShape(orders, endTime, page);
      if page == [] {
        if Sparse(orders) {
          LastPageCompletes(orders, seen, endTime, page);
          assert Uuids(page) == {};
        }
        return trades, EmptyPage, cursors;
      }
      ghost var seen0 := seen;
      var oldest;
      seen, trades, oldest := CollectPage(page, seen, trades, orders);
      if |page| < FETCH_LIMIT {
        if Sparse(orders) { LastPageCompletes(orders, seen0, endTime, page); }
        return trades, ShortPage, cursors;
      }
      if Sparse(orders) { CursorMovesBack(orders, seen0, endTime, page, oldest); }
      if oldest == None {
        return trades, NoCursor, cursors;
      }
      if oldest == endTime {
        return trades, Stuck, cursors;
      }
      endTime := oldest;
      cursors := cursors + [oldest.value];
    }
    stop := PageCap;
  }

  lemma NothingSeen(orders: set<RawOrder>)
    ensures Collected(orders, {}, []) && SeenDownTo(orders, {}, None)
  {}

  lemma PageShape(orders: set<RawOrder>, endTime: Option<int>, page: seq<RawOrder>)
    requires NewestPage(orders, endTime, page)
    ensures NoRepeats(page) && |page| <= FETCH_LIMIT && forall o | o in page :: o in orders
  {}

  // ---- balance adjustments ----

  datatype BalanceRow = BalanceRow(currency: string, balance: Option<real>, avgBuyPrice: Option<real>)

  function SignedQty(t: ExternalTrade): real { if t.side == Buy then t.quantity else -t.quantity }

  /** Bought minus sold of one symbol. */
  function HistoryQty(trades: seq<ExternalTrade>, symbol: string): real {
    if trades == [] then 0.0
    else
      var t := trades[|trades| - 1];
      HistoryQty(trades[..|trades| - 1], symbol) + if t.symbol == symbol then SignedQty(t) else 0.0
  }

  /** Rows that take part: any currency but KRW with a known, non-negative balance. */
  predicate Reported(row: BalanceRow) {
    Upper(row.currency) != "KRW" && row.balance.Some? && row.balance.value >= 0.0
  }

  /** The one synthetic trade that closes the gap of a row, if the gap is at least one quantum. */
  function AdjustmentFor(row: BalanceRow, history: seq<ExternalTrade>, now: int): Option<ExternalTrade> {
    if !Reported(row) then None
    else
      var symbol := Upper(row.currency);
      var diff := row.balance.value - HistoryQty(history, symbol);
      if Abs(diff) < QTY_QUANTUM then None
      else
        var avgBuy := if row.avgBuyPrice == None || row.avgBuyPrice.value <= 0.0 then 1.0 else row.avgBuyPrice.value;
        Some(ExternalTrade(
          "upbit:adjust:" + symbol, symbol, "KRW", if diff > 0.0 then Buy else Sell,
          RoundHalfUp(Abs(diff), QTY_QUANTUM), RoundHalfUp(avgBuy, PRICE_QUANTUM), now, 0.0))
  }

  /** One closing trade: its condition, its direction and everything it is stored with. */
  lemma {:induction false} AdjustmentSays(row: BalanceRow, history: seq<ExternalTrade>, now: int)
    ensures var coin, a := Upper(row.currency), AdjustmentFor(row, history, now);
      var have := HistoryQty(history, coin);
      && (a.Some? <==> coin != "KRW" && row.balance.Some? && row.balance.value >= 0.0
                       && Abs(row.balance.value - have) >= 0.0000000001)
      && (a.Some? ==>
            var t := a.value;
            && t.externalId == "upbit:adjust:" + coin && t.symbol == coin && t.quoteCurrency == "KRW"
            && t.tradedAt == now && t.fee == 0.0
            && (t.side == Buy <==> row.balance.value > have)
            && Nearest(t.quantity, Abs(row.balance.value - have), 0.0000000001)
            && Nearest(
                 t.price,
                 if row.avgBuyPrice.Some? && row.avgBuyPrice.value > 0.0 then row.avgBuyPrice.value else 1.0, 0.000001))
  {
    hide Upper, HistoryQty, RoundHalfUp, Nearest;
    if row.balance.Some? {
      RoundsToNearest(Abs(row.balance.value - HistoryQty(history, Upper(row.currency))), QTY_QUANTUM);
    }
    RoundsToNearest(1.0, PRICE_QUANTUM);
    if row.avgBuyPrice.Some? {
      RoundsToNearest(row.avgBuyPrice.value, PRICE_QUANTUM);
    }
  }

  function Adjustments(rows: seq<BalanceRow>, history: seq<ExternalTrade>, now: int): seq<ExternalTrade> {
    if rows == [] then []
    else
      var a := AdjustmentFor(rows[|rows| - 1], history, now);
      Adjustments(rows[..|rows| - 1], history, now) + if a.Some? then [a.value] else []
  }

  method HistoryQuantities(history: seq<ExternalTrade>) returns (qty: map<string, real>)
    ensures forall s :: HistoryQty(history, s) == if s in qty then qty[s] else 0.0
  {
    qty := map[];
    for i := 0 to |history|
      invariant forall s :: HistoryQty(history[..i], s) == if s in qty then qty[s] else 0.0
    {
      var t := history[i];
      assert history[..i + 1][..i] == history[..i];
      var delta := if t.side == Buy then t.quantity else -t.quantity;
      qty := qty[t.symbol := (if t.symbol in qty then qty[t.symbol] else 0.0) + delta];
    }
    assert history[..|history|] == history;
  }

  method BalanceAdjustments(
    rows: seq<BalanceRow>, history: seq<ExternalTrade>, now: int) returns (out: seq<ExternalTrade>)
    ensures out == Adjustments(rows, history, now)
  {
    var historyQty := HistoryQuantities(history);
    out := [];
    for i := 0 to |rows|
      invariant out == Adjustments(rows[..i], history, now)
    {
      hide RoundHalfUp, HistoryQty, Upper;
      var row := rows[i];
      assert rows[..i + 1][..i] == rows[..i];
      if Upper(row.currency) == "KRW" || row.balance == None || row.balance.value < 0.0 {
        continue;
      }
      var symbol := Upper(row.currency);
      var diff := row.balance.value - if symbol in historyQty then historyQty[symbol] else 0.0;
      if Abs(diff) < QTY_QUANTUM {
        continue;
      }
      var avgBuy := if row.avgBuyPrice == None || row.avgBuyPrice.value <= 0.0 then 1.0 else row.avgBuyPrice.value;
      out := out + [ExternalTrade(
        "upbit:adjust:" + symbol, symbol, "KRW", if diff > 0.0 then Buy else Sell,
        RoundHalfUp(Abs(diff), QTY_QUANTUM), RoundHalfUp(avgBuy, PRICE_QUANTUM), now, 0.0)];
    }
    assert rows[..|rows|] == rows;
  }

  predicate DistinctCurrencies(rows: seq<BalanceRow>) {
    forall i, j | 0 <= i < j < |rows| :: Upper(rows[i].currency) != Upper(rows[j].currency)
  }

  lemma {:induction false} HistoryQtyConcat(a: seq<ExternalTrade>, b: seq<ExternalTrade>, symbol: string)
    ensures HistoryQty(a + b, symbol) == HistoryQty(a, symbol) + HistoryQty(b, symbol)
  {
    if b == [] {
      assert a + b == a;
    } else {
      assert (a + b)[..|a + b| - 1] == a + b[..|b| - 1];
      HistoryQtyConcat(a, b[..|b| - 1], symbol);
    }
  }

  function AdjustedBy(row: BalanceRow, history: seq<ExternalTrade>, now: int): real {
    var a := AdjustmentFor(row, history, now);
    if a.Some? then SignedQty(a.value) else 0.0
  }

  /** Among distinct currencies each symbol is adjusted by its own row alone. */
  lemma {:induction false} AdjustedNowhere(
    rows: seq<BalanceRow>, history: seq<ExternalTrade>, now: int, symbol: string)
    requires forall i | 0 <= i < |rows| :: Upper(rows[i].currency) != symbol
    ensures HistoryQty(Adjustments(rows, history, now), symbol) == 0.0
  {
    hide Upper;
    if rows == [] {
      assert Adjustments(rows, history, now) == [];
    } else {
      AdjustedNowhere(rows[..|rows| - 1], history, now, symbol);
      AdjustmentAdds(rows, history, now, symbol);
    }
  }

  /** The one row of a currency adjusts its symbol. */
  lemma {:induction false} AdjustedOnce(rows: seq<BalanceRow>, history: seq<ExternalTrade>, now: int, i: nat)
    requires DistinctCurrencies(rows) && i < |rows|
    ensures HistoryQty(Adjustments(rows, history, now), Upper(rows[i].currency)) == AdjustedBy(rows[i], history, now)
  {
    hide Upper, HistoryQty, Adjustments, AdjustedBy;
    var init, symbol := rows[..|rows| - 1], Upper(rows[i].currency);
    AdjustmentAdds(rows, history, now, symbol);
    if i < |rows| - 1 {
      AdjustedOnce(init, history, now, i);
    } else {
      AdjustedNowhere(init, history, now, symbol);
    }
  }

  lemma AdjustmentAdds(rows: seq<BalanceRow>, history: seq<ExternalTrade>, now: int, symbol: string)
    requires rows != []
    ensures var n := |rows| - 1;
      HistoryQty(Adjustments(rows, history, now), symbol) == HistoryQty(Adjustments(rows[..n], history, now), symbol)
        + if Upper(rows[n].currency) == symbol then AdjustedBy(rows[n], history, now) else 0.0
  {
    var n := |rows| - 1;
    AdjustmentShape(rows[n], history, now);
    hide AdjustmentFor, Upper;
    var before := Adjustments(rows[..n], history, now);
    var a := AdjustmentFor(rows[n], history, now);
    if a.Some? {
      assert (before + [a.value])[..|before|] == before;
    } else {
      assert before + [] == before;
    }
  }

  lemma AdjustmentShape(row: BalanceRow, history: seq<ExternalTrade>, now: int)
    ensures var a := AdjustmentFor(row, history, now);
      a.Some? ==> a.value.symbol == Upper(row.currency) && a.value.tradedAt == now
  {}

  lemma {:induction false} AdjustmentClosesGap(row: BalanceRow, history: seq<ExternalTrade>, now: int)
    requires Reported(row)
    ensures Abs(HistoryQty(history, Upper(row.currency))
      + AdjustedBy(row, history, now) - row.balance.value) < QTY_QUANTUM
  {
    hide Upper, HistoryQty;
    var diff := row.balance.value - HistoryQty(history, Upper(row.currency));
    RoundingError(Abs(diff), QTY_QUANTUM);
    hide RoundHalfUp;
  }

  /**
   For distinct currencies, history plus adjustments lands within one quantity quantum of every reported balance,
   and symbols that are not reported keep their history.
   */
  lemma {:induction false} AdjustmentsPinBalances(rows: seq<BalanceRow>, history: seq<ExternalTrade>, now: int)
    requires DistinctCurrencies(rows)
    ensures forall i | 0 <= i < |rows| && Reported(rows[i]) ::
      Abs(HistoryQty(history
        + Adjustments(rows, history, now), Upper(rows[i].currency)) - rows[i].balance.value) < QTY_QUANTUM
    ensures forall s: string | (forall i | 0 <= i < |rows| :: Upper(rows[i].currency) != s) ::
      HistoryQty(history + Adjustments(rows, history, now), s) == HistoryQty(history, s)
  {
    hide Upper, HistoryQty, AdjustmentFor, Adjustments, AdjustedBy;
    var out := Adjustments(rows, history, now);
    forall i | 0 <= i < |rows| && Reported(rows[i])
      ensures Abs(HistoryQty(history + out, Upper(rows[i].currency)) - rows[i].balance.value) < QTY_QUANTUM
    {
      HistoryQtyConcat(history, out, Upper(rows[i].currency));
      AdjustedOnce(rows, history, now, i);
      AdjustmentClosesGap(rows[i], history, now);
    }
    forall s: string | (forall i | 0 <= i < |rows| :: Upper(rows[i].currency) != s)
      ensures HistoryQty(history + out, s) == HistoryQty(history, s)
    {
      HistoryQtyConcat(history, out, s);
      AdjustedNowhere(rows, history, now, s);
    }
  }

  // ---- quantities of ten decimals ----

  function Steps(n: int): real { n as real * QTY_QUANTUM }

  /** A whole number of quantity quanta, as every mapped quantity is. */
  ghost predicate OnGrid(x: real) { exists n: int :: x == Steps(n) }

  lemma MappedOnGrid(o: RawOrder)
    ensures MapNativeOrder(o).Some? ==> OnGrid(MapNativeOrder(o).value.quantity)
  {
    if MapNativeOrder(o).Some? {
      assert MapNativeOrder(o).value.quantity == Steps((o.executedVolume.value / QTY_QUANTUM + 0.5).Floor);
    }
  }

  lemma GridSum(a: real, b: real)
    requires OnGrid(a) && OnGrid(b)
    ensures OnGrid(a + b) && OnGrid(a - b)
  {
    var m: int :| a == Steps(m);
    var n: int :| b == Steps(n);
    assert a + b == Steps(m + n) && a - b == Steps(m - n);
  }

  lemma GridRounds(x: real)
    requires OnGrid(x)
    ensures RoundHalfUp(Abs(x), QTY_QUANTUM) == Abs(x) && (Abs(x) < QTY_QUANTUM ==> x == 0.0)
  {
    var n: int :| x == Steps(n);
    StepsRound(if n < 0 then -n else n);
  }

  lemma StepsRound(n: nat)
    ensures RoundHalfUp(Steps(n), QTY_QUANTUM) == Steps(n)
  {
    MultipleRounds(n, QTY_QUANTUM);
  }

  lemma MultipleRounds(n: int, quantum: real)
    requires quantum > 0.0
    ensures RoundHalfUp(n as real * quantum, quantum) == n as real * quantum
  {
    hide RoundHalfUp;
    QuotientOf(n as real * quantum, n as real, quantum);
    RoundsFrom(n as real * quantum, quantum, n);
  }

  lemma RoundsFrom(x: real, quantum: real, n: int)
    requires quantum > 0.0 && x / quantum == n as real
    ensures RoundHalfUp(x, quantum) == n as real * quantum
  {
    FloorOfHalf(n);
    SameProduct((x / quantum + 0.5).Floor as real, quantum, n as real, quantum);
  }

  lemma FloorOfHalf(n: int)
    ensures (n as real + 0.5).Floor == n
  {}

  lemma QuotientOf(x: real, a: real, quantum: real)
    requires quantum > 0.0 && x == a * quantum
    ensures x / quantum == a
  {
    DivMul(x, quantum);
    var s := x / quantum;
    if s < a {
      MulStrict(quantum, s, a);
    } else if s > a {
      MulStrict(quantum, a, s);
    }
  }

  lemma {:induction false} HistoryOnGrid(trades: seq<ExternalTrade>, symbol: string)
    requires forall t | t in trades :: OnGrid(t.quantity)
    ensures OnGrid(HistoryQty(trades, symbol))
  {
    assert 0.0 == Steps(0);
    if trades != [] {
      var init, t := trades[..|trades| - 1], trades[|trades| - 1];
      HistoryOnGrid(init, symbol);
      assert t in trades;
      hide OnGrid;
      GridSum(HistoryQty(init, symbol), t.quantity);
    }
  }

  lemma {:induction false} AdjustmentMeetsGap(row: BalanceRow, history: seq<ExternalTrade>, now: int)
    requires Reported(row) && OnGrid(row.balance.value) && forall t | t in history :: OnGrid(t.quantity)
    ensures HistoryQty(history, Upper(row.currency)) + AdjustedBy(row, history, now) == row.balance.value
  {
    HistoryOnGrid(history, Upper(row.currency));
    hide Upper, HistoryQty, OnGrid, RoundHalfUp;
    var have := HistoryQty(history, Upper(row.currency));
    GridSum(row.balance.value, have);
    GridRounds(row.balance.value - have);
  }

  /** With ten decimals on both sides history plus adjustments is every reported balance exactly. */
  lemma {:induction false} AdjustmentsMeetBalances(rows: seq<BalanceRow>, history: seq<ExternalTrade>, now: int, i: nat)
    requires DistinctCurrencies(rows) && i < |rows| && Reported(rows[i])
    requires OnGrid(rows[i].balance.value) && forall t | t in history :: OnGrid(t.quantity)
    ensures HistoryQty(history + Adjustments(rows, history, now), Upper(rows[i].currency)) == rows[i].balance.value
  {
    hide Upper, HistoryQty, AdjustmentFor, Adjustments, AdjustedBy, OnGrid;
    HistoryQtyConcat(history, Adjustments(rows, history, now), Upper(rows[i].currency));
    AdjustedOnce(rows, history, now, i);
    AdjustmentMeetsGap(rows[i], history, now);
  }
}
