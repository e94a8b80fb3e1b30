/**
 Bulk import of transactions: the running-balance check over the merged timeline, the all-or-nothing insert,
 and what an accepted batch guarantees about the stored ledger.
 */
module BulkImport {
  import opened Common
  import opened Ordering
  import opened Ledger
  import opened MovingAverage

  // ---- signed sums up to a time ----

  /** Bought minus sold by the rows traded at or before T. */
  function NetUpto(txs: seq<Tx>, T: int): real {
    if txs == [] then 0.0
    else
      var t := txs[|txs| - 1];
      NetUpto(txs[..|txs| - 1], T) + (if t.at <= T then Signed(t) else 0.0)
  }

  /** At no instant has more been sold than bought. */
  ghost predicate CoveredAtAllTimes(txs: seq<Tx>) {
    forall T: int :: NetUpto(txs, T) >= 0.0
  }

  lemma {:induction false} NetUptoConcat(a: seq<Tx>, b: seq<Tx>, T: int)
    ensures NetUpto(a + b, T) == NetUpto(a, T) + NetUpto(b, T)
  {
    if b == [] {
      assert a + b == a;
    } else {
      assert (a + b)[..|a + b| - 1] == a + b[..|b| - 1];
      NetUptoConcat(a, b[..|b| - 1], T);
    }
  }

  /** The sums do not depend on the order of the rows. */
  lemma {:induction false} NetUptoPermutes(a: seq<Tx>, b: seq<Tx>, T: int)
    requires multiset(a) == multiset(b)
    ensures NetUpto(a, T) == NetUpto(b, T)
    decreases |a|
  {
    SameLength(a, b);
    if a != [] {
      var init, x := a[..|a| - 1], a[|a| - 1];
      assert a == init + [x];
      assert x in multiset(b);
      var l, r := TakeOut(b, x);
      NetUptoPermutes(init, l + r, T);
      NetUptoConcat(l, r, T);
      NetUptoConcat(l, [x] + r, T);
      NetUptoConcat([x], r, T);
    }
  }

  lemma {:induction false} NetUptoIsNet(txs: seq<Tx>, T: int)
    requires forall t | t in txs :: t.at <= T
    ensures NetUpto(txs, T) == Net(txs)
  {
    if txs != [] {
      NetUptoIsNet(txs[..|txs| - 1], T);
    }
  }

  /** In a time-ordered list the sum up to T is the sum of a prefix. */
  lemma {:induction false} NetUptoIsPrefix(txs: seq<Tx>, T: int)
    requires SortedBy(txs, ByTime)
    ensures exists k :: 0 <= k <= |txs| && NetUpto(txs, T) == Net(txs[..k])
  {
    if txs == [] || txs[|txs| - 1].at <= T {
      forall t | t in txs ensures t.at <= T {
        var i :| 0 <= i < |txs| && txs[i] == t;
        assert i < |txs| - 1 ==> ByTime(txs[i], txs[|txs| - 1]);
      }
      NetUptoIsNet(txs, T);
      assert txs[..|txs|] == txs;
    } else {
      var init := txs[..|txs| - 1];
      NetUptoIsPrefix(init, T);
      var k :| 0 <= k <= |init| && NetUpto(init, T) == Net(init[..k]);
      assert init[..k] == txs[..k];
    }
  }

  /** The check's verdict on a time-ordered timeline covers every instant. */
  lemma NeverOversoldCovers(timeline: seq<Tx>)
    requires SortedBy(timeline, ByTime) && NeverOversold(timeline)
    ensures CoveredAtAllTimes(timeline)
  {
    forall T: int ensures NetUpto(timeline, T) >= 0.0 {
      NetUptoIsPrefix(timeline, T);
    }
  }

  /** Time order with BUYs before SELLs within an instant, whatever the ids. */
  predicate BuysFirst(a: Tx, b: Tx) { a.at < b.at || (a.at == b.at && Rank(a.side) <= Rank(b.side)) }

  /** With BUYs first within each instant, no prefix dips below the instants' sums. */
  lemma {:induction false} CoveredNeverDips(txs: seq<Tx>, k: nat)
    requires SortedBy(txs, BuysFirst) && Positive(txs) && CoveredAtAllTimes(txs) && k <= |txs|
    ensures Net(txs[..k]) >= 0.0
    decreases k
  {
    if k > 0 {
      var t := txs[k - 1];
      assert t in txs;
      assert txs[..k][..k - 1] == txs[..k - 1];
      if t.side == Buy {
        CoveredNeverDips(txs, k - 1);
      } else {
        var pre, post := txs[..k], txs[k..];
        assert txs == pre + post;
        forall p | p in pre ensures p.at <= t.at {
          var i :| 0 <= i < k && txs[i] == p;
          assert i < k - 1 ==> BuysFirst(txs[i], txs[k - 1]);
        }
        forall p | p in post ensures p.at <= t.at ==> p.side == Sell && p.qty > 0.0 {
          var i :| k <= i < |txs| && txs[i] == p;
          assert BuysFirst(txs[k - 1], txs[i]) && txs[i] in txs;
        }
        NetUptoConcat(pre, post, t.at);
        NetUptoIsNet(pre, t.at);
        OnlySells(post, t.at);
        assert NetUpto(txs, t.at) >= 0.0;
      }
    }
  }

  lemma {:induction false} OnlySells(txs: seq<Tx>, T: int)
    requires forall p | p in txs :: p.at <= T ==> p.side == Sell && p.qty > 0.0
    ensures NetUpto(txs, T) <= 0.0
  {
    if txs != [] {
      OnlySells(txs[..|txs| - 1], T);
      assert txs[|txs| - 1] in txs;
    }
  }

  /** With BUYs first within each instant, no prefix is negative exactly when every instant is covered. */
  lemma BuysFirstNeverOversoldIff(txs: seq<Tx>)
    requires SortedBy(txs, BuysFirst) && Positive(txs)
    ensures NeverOversold(txs) <==> CoveredAtAllTimes(txs)
  {
    if CoveredAtAllTimes(txs) {
      forall k | 0 <= k <= |txs| ensures Net(txs[..k]) >= 0.0 {
        CoveredNeverDips(txs, k);
      }
    }
    if NeverOversold(txs) {
      assert SortedBy(txs, ByTime) by {
        forall i, j | 0 <= i < j < |txs| ensures ByTime(txs[i], txs[j]) {
          assert BuysFirst(txs[i], txs[j]);
        }
      }
      NeverOversoldCovers(txs);
    }
  }

  /** A ledger in the stored order never caps a SELL exactly when it is covered at every instant. */
  lemma StoredOrderNeverOversoldIff(txs: seq<Tx>)
    requires SortedBy(txs, DbOrder) && Positive(txs)
    ensures NeverOversold(txs) <==> CoveredAtAllTimes(txs)
  {
    forall i, j | 0 <= i < j < |txs| ensures BuysFirst(txs[i], txs[j]) {
      assert DbOrder(txs[i], txs[j]);
    }
    BuysFirstNeverOversoldIff(txs);
  }

  /** The same for rows in any order: their stored ledger never caps exactly when they are covered at every instant. */
  lemma {:induction false} StoredNeverOversoldIff(rows: seq<Tx>)
    requires Positive(rows)
    ensures NeverOversold(SortBy(rows, DbOrder)) <==> CoveredAtAllTimes(rows)
  {
    OrdersAreTotal();
    SortByCorrect(rows, DbOrder);
    var stored := SortBy(rows, DbOrder);
    forall t | t in stored ensures t.qty > 0.0 && t.price > 0.0 {
      assert t in multiset(stored);
      assert t in rows;
    }
    StoredOrderNeverOversoldIff(stored);
    SameCover(rows, stored);
  }

  lemma SameCover(a: seq<Tx>, b: seq<Tx>)
    requires multiset(a) == multiset(b)
    ensures CoveredAtAllTimes(a) <==> CoveredAtAllTimes(b)
  {
    forall T: int ensures NetUpto(a, T) == NetUpto(b, T) {
      NetUptoPermutes(a, b, T);
    }
    assert CoveredAtAllTimes(a) ==> forall T: int :: NetUpto(a, T) >= 0.0;
    assert CoveredAtAllTimes(b) ==> forall T: int :: NetUpto(b, T) >= 0.0;
  }

  // ---- the import ----

  /** A validated row whose (symbol, exchange) pair has been looked up; None when no such asset is registered. */
  datatype NewRow = NewRow(asset: Option<int>, side: Side, qty: real, price: real, at: int)

  datatype ImportError =
    | NoRows
    | TooManyRows(count: nat)
    | UnknownSymbol(row: nat)
    | NegativeBalance(row: nat, at: int, net: real)

  datatype ImportResult = Rejected(errors: seq<ImportError>) | Imported(count: nat, preview: seq<Tx>)

  const MAX_ROWS := 500

  predicate ValidRows(rows: seq<NewRow>) {
    forall r | r in rows :: r.qty > 0.0 && r.price > 0.0
  }

  /** A timeline entry: the transaction and the 1-based number of its import row, 0 for an existing row. */
  datatype Proxy = Proxy(tx: Tx, row: nat)

  predicate ProxyByTime(a: Proxy, b: Proxy) { a.tx.at <= b.tx.at }

  function TxsOf(ps: seq<Proxy>): seq<Tx> {
    if ps == [] then [] else TxsOf(ps[..|ps| - 1]) + [ps[|ps| - 1].tx]
  }

  lemma {:induction false} TxsOfAt(ps: seq<Proxy>)
    ensures |TxsOf(ps)| == |ps|
    ensures forall i | 0 <= i < |ps| :: TxsOf(ps)[i] == ps[i].tx
    ensures forall k | 0 <= k <= |ps| :: TxsOf(ps[..k]) == TxsOf(ps)[..k]
  {
    if ps != [] {
      var init := ps[..|ps| - 1];
      TxsOfAt(init);
      forall k | 0 <= k <= |ps| ensures TxsOf(ps[..k]) == TxsOf(ps)[..k] {
        if k < |ps| { assert ps[..k] == init[..k]; } else { assert ps[..k] == ps; }
      }
    }
  }

  lemma {:induction false} TxsOfConcat(a: seq<Proxy>, b: seq<Proxy>)
    ensures TxsOf(a + b) == TxsOf(a) + TxsOf(b)
  {
    if b == [] {
      assert a + b == a;
    } else {
      assert (a + b)[..|a + b| - 1] == a + b[..|b| - 1];
      TxsOfConcat(a, b[..|b| - 1]);
    }
  }

  lemma {:induction false} TxsOfPermutes(a: seq<Proxy>, b: seq<Proxy>)
    requires multiset(a) == multiset(b)
    ensures multiset(TxsOf(a)) == multiset(TxsOf(b))
    decreases |a|
  {
    SameLength(a, b);
    if a != [] {
      var init, x := a[..|a| - 1], a[|a| - 1];
      assert a == init + [x];
      assert x in multiset(b);
      var l, r := TakeOut(b, x);
      TxsOfPermutes(init, l + r);
      TxsOfConcat(l, r);
      TxsOfConcat(l, [x] + r);
      TxsOfConcat([x], r);
      assert TxsOf([x]) == [x.tx] by { assert [x][..0] == []; }
    }
  }

  /** The rows of the batch as they will be stored: ids follow the existing ones in batch order. */
  function Stamped(rows: seq<NewRow>, nextId: int): seq<Tx> {
    if rows == [] then []
    else
      var r := rows[|rows| - 1];
      Stamped(rows[..|rows| - 1], nextId)
      + if r.asset.Some? then [Tx(nextId + |rows| - 1, r.asset.value, r.side, r.qty, r.price, r.at)] else []
  }

  /** The proxies of one asset's rows in the batch. */
  function NewProxies(rows: seq<NewRow>, nextId: int, asset: int): seq<Proxy> {
    if rows == [] then []
    else
      var r := rows[|rows| - 1];
      NewProxies(rows[..|rows| - 1], nextId, asset)
      + if r.asset == Some(asset)
        then [Proxy(Tx(nextId + |rows| - 1, asset, r.side, r.qty, r.price, r.at), |rows|)] else []
  }

  lemma {:induction false} NewProxiesAreStampedRows(rows: seq<NewRow>, nextId: int, asset: int)
    ensures TxsOf(NewProxies(rows, nextId, asset)) == Only(Stamped(rows, nextId), asset)
  {
    if rows != [] {
      var init := rows[..|rows| - 1];
      NewProxiesAreStampedRows(init, nextId, asset);
      var p := NewProxies(init, nextId, asset);
      var s := Stamped(init, nextId);
      var r := rows[|rows| - 1];
      if r.asset.Some? {
        var t := Tx(nextId + |rows| - 1, r.asset.value, r.side, r.qty, r.price, r.at);
        OnlySnoc(s, t, asset);
        if r.asset.value == asset {
          assert (p + [Proxy(t, |rows|)])[..|p|] == p;
        }
      }
      assert p + [] == p && s + [] == s;
    }
  }

  function Existing(txs: seq<Tx>): seq<Proxy> {
    if txs == [] then [] else Existing(txs[..|txs| - 1]) + [Proxy(txs[|txs| - 1], 0)]
  }

  lemma {:induction false} ExistingTxs(txs: seq<Tx>)
    ensures TxsOf(Existing(txs)) == txs
  {
    if txs != [] {
      var init, t := txs[..|txs| - 1], txs[|txs| - 1];
      ExistingTxs(init);
      var e := Existing(init);
      assert (e + [Proxy(t, 0)])[..|e|] == e;
      hide Existing;
      assert txs == init + [t];
    }
  }

  /** One asset's stored rows in the stored order. */
  function StoredFor(rows: seq<Tx>, asset: int): seq<Tx> { SortBy(Only(rows, asset), DbOrder) }

  /** The merged timeline that the check walks: existing rows, then new ones, stably sorted by time. */
  function Timeline(stored: seq<Tx>, rows: seq<NewRow>, nextId: int, asset: int): seq<Proxy> {
    SortBy(Existing(StoredFor(stored, asset)) + NewProxies(rows, nextId, asset), ProxyByTime)
  }

  /** The assets of the batch, in order of first appearance. */
  function Involved(rows: seq<NewRow>): seq<int> {
    if rows == [] then []
    else
      var r := rows[|rows| - 1];
      var before := Involved(rows[..|rows| - 1]);
      before + if r.asset.Some? && r.asset.value !in before then [r.asset.value] else []
  }

  /** The error reported for one asset: its first entry with a negative running balance. */
  function FirstOverdraft(timeline: seq<Proxy>): (e: Option<ImportError>)
    ensures e.Some? ==> e.value.NegativeBalance?
  {
    if timeline == [] then None
    else
      var before := FirstOverdraft(timeline[..|timeline| - 1]);
      var p := timeline[|timeline| - 1];
      if before.Some? then before
      else if Net(TxsOf(timeline)) < 0.0 then Some(NegativeBalance(p.row, p.tx.at, Net(TxsOf(timeline))))
      else None
  }

  lemma {:induction false} FirstOverdraftIff(timeline: seq<Proxy>)
    ensures FirstOverdraft(timeline) == None <==> NeverOversold(TxsOf(timeline))
  {
    if timeline != [] {
      var n := |timeline| - 1;
      var txs := TxsOf(timeline);
      TxsOfAt(timeline);
      FirstOverdraftIff(timeline[..n]);
      assert TxsOf(timeline[..n]) == txs[..n];
      hide TxsOf;
      OverdraftStep(txs);
    }
  }

  lemma {:induction false} OverdraftStep(txs: seq<Tx>)
    requires txs != []
    ensures NeverOversold(txs) <==> NeverOversold(txs[..|txs| - 1]) && Net(txs) >= 0.0
  {
    assert txs[..|txs|] == txs;
    if NeverOversold(txs) {
      NeverOversoldPrefix(txs, |txs| - 1);
    }
    if NeverOversold(txs[..|txs| - 1]) && Net(txs) >= 0.0 {
      forall k | 0 <= k <= |txs| ensures Net(txs[..k]) >= 0.0 {
        if k < |txs| { assert txs[..|txs| - 1][..k] == txs[..k]; }
      }
    }
  }

  /** One error per failing asset, in order of first appearance. */
  function BalanceErrors(stored: seq<Tx>, rows: seq<NewRow>, nextId: int, assets: seq<int>): seq<ImportError> {
    if assets == [] then []
    else
      var e := FirstOverdraft(Timeline(stored, rows, nextId, assets[|assets| - 1]));
      BalanceErrors(stored, rows, nextId, assets[..|assets| - 1]) + if e.Some? then [e.value] else []
  }

  lemma {:induction false} NoBalanceErrors(stored: seq<Tx>, rows: seq<NewRow>, nextId: int, assets: seq<int>)
    ensures BalanceErrors(stored, rows, nextId, assets) == []
      <==> forall a | a in assets :: NeverOversold(TxsOf(Timeline(stored, rows, nextId, a)))
  {
    if assets != [] {
      var init, last := assets[..|assets| - 1], assets[|assets| - 1];
      assert assets == init + [last];
      NoBalanceErrors(stored, rows, nextId, init);
      FirstOverdraftIff(Timeline(stored, rows, nextId, last));
    }
  }

  lemma ProxyOrderIsTotal()
    ensures TotalPreorder(ProxyByTime)
  {}

  /** The timeline holds the rows that the asset will have, in time order. */
  lemma {:induction false} TimelineIsFutureLedger(stored: seq<Tx>, rows: seq<NewRow>, nextId: int, asset: int)
    ensures SortedBy(TxsOf(Timeline(stored, rows, nextId, asset)), ByTime)
    ensures multiset(TxsOf(Timeline(stored, rows, nextId, asset)))
      == multiset(StoredFor(stored + Stamped(rows, nextId), asset))
  {
    ProxyOrderIsTotal();
    OrdersAreTotal();
    hide SortBy, Only, Stamped, NewProxies, TxsOf, Existing;
    var e, n := Existing(StoredFor(stored, asset)), NewProxies(rows, nextId, asset);
    var line := Timeline(stored, rows, nextId, asset);
    SortByCorrect(e + n, ProxyByTime);
    TxsOfAt(line);
    forall i, j | 0 <= i < j < |TxsOf(line)| ensures ByTime(TxsOf(line)[i], TxsOf(line)[j]) {
      assert ProxyByTime(line[i], line[j]);
    }
    TxsOfPermutes(line, e + n);
    TxsOfConcat(e, n);
    ExistingTxs(StoredFor(stored, asset));
    NewProxiesAreStampedRows(rows, nextId, asset);
    SortByCorrect(Only(stored, asset), DbOrder);
    OnlyConcat(stored, Stamped(rows, nextId), asset);
    SortByCorrect(Only(stored + Stamped(rows, nextId), asset), DbOrder);
  }

  lemma {:induction false} OnlyConcat(a: seq<Tx>, b: seq<Tx>, asset: int)
    ensures Only(a + b, asset) == Only(a, asset) + Only(b, asset)
  {
    if b == [] {
      assert a + b == a;
    } else {
      assert (a + b)[..|a + b| - 1] == a + b[..|b| - 1];
      OnlyConcat(a, b[..|b| - 1], asset);
    }
  }

  lemma {:induction false} StoredForShape(rows: seq<Tx>, asset: int)
    requires Positive(rows)
    ensures SortedBy(StoredFor(rows, asset), DbOrder) && Positive(StoredFor(rows, asset))
    ensures multiset(StoredFor(rows, asset)) == multiset(Only(rows, asset))
  {
    OrdersAreTotal();
    SortByCorrect(Only(rows, asset), DbOrder);
    OnlySound(rows, asset);
    forall t | t in StoredFor(rows, asset) ensures t.qty > 0.0 && t.price > 0.0 {
      assert t in multiset(StoredFor(rows, asset));
      assert t in Only(rows, asset);
    }
  }

  lemma UncappedWalk(rows: seq<Tx>, asset: int)
    requires Positive(rows) && NeverOversold(StoredFor(rows, asset))
    ensures var ledger := StoredFor(rows, asset); Walk(ledger).qty == Bought(ledger) - Sold(ledger)
  {
    var ledger := StoredFor(rows, asset);
    StoredForShape(rows, asset);
    NeverOversoldIffUncapped(ledger);
    WalkQuantity(ledger);
    NetIsBoughtLessSold(ledger);
  }

  /** Accepting one asset's timeline means that its stored ledger will never cap a SELL. */
  lemma {:induction false} AcceptedTimelineNeverCaps(stored: seq<Tx>, rows: seq<NewRow>, nextId: int, asset: int)
    requires Positive(stored + Stamped(rows, nextId))
    requires NeverOversold(TxsOf(Timeline(stored, rows, nextId, asset)))
    ensures var ledger := StoredFor(stored + Stamped(rows, nextId), asset);
      NeverOversold(ledger) && Walk(ledger).qty == Bought(ledger) - Sold(ledger)
  {
    var line := TxsOf(Timeline(stored, rows, nextId, asset));
    var ledger := StoredFor(stored + Stamped(rows, nextId), asset);
    TimelineIsFutureLedger(stored, rows, nextId, asset);
    NeverOversoldCovers(line);
    forall T: int ensures NetUpto(ledger, T) >= 0.0 {
      NetUptoPermutes(line, ledger, T);
      assert NetUpto(line, T) >= 0.0;
    }
    StoredForShape(stored + Stamped(rows, nextId), asset);
    StoredOrderNeverOversoldIff(ledger);
    UncappedWalk(stored + Stamped(rows, nextId), asset);
  }

  lemma {:induction false} StampedShape(rows: seq<NewRow>, nextId: int)
    requires ValidRows(rows)
    ensures Positive(Stamped(rows, nextId))
    ensures forall t | t in Stamped(rows, nextId) :: t.asset in Involved(rows)
    ensures forall t | t in Stamped(rows, nextId) :: nextId <= t.id < nextId + |rows|
  {
    if rows != [] {
      StampedShape(rows[..|rows| - 1], nextId);
      assert rows[|rows| - 1] in rows;
    }
  }

  predicate AllKnown(rows: seq<NewRow>) { forall r | r in rows :: r.asset.Some? }

  function UnknownSymbols(rows: seq<NewRow>): seq<ImportError> {
    if rows == [] then []
    else UnknownSymbols(rows[..|rows| - 1]) + if rows[|rows| - 1].asset == None then [UnknownSymbol(|rows|)] else []
  }

  lemma {:induction false} UnknownSymbolsIff(rows: seq<NewRow>)
    ensures UnknownSymbols(rows) == [] <==> AllKnown(rows)
  {
    if rows != [] {
      UnknownSymbolsIff(rows[..|rows| - 1]);
      assert rows == rows[..|rows| - 1] + [rows[|rows| - 1]];
    }
  }

  /** One error per unknown row, in row order, with its number counted from one. */
  lemma {:induction false} UnknownSymbolsAre(rows: seq<NewRow>)
    ensures forall e | e in UnknownSymbols(rows) ::
      e.UnknownSymbol? && 1 <= e.row <= |rows| && rows[e.row - 1].asset == None
    ensures forall i | 0 <= i < |rows| && rows[i].asset == None :: UnknownSymbol(i + 1) in UnknownSymbols(rows)
    ensures forall i, j | 0 <= i < j < |UnknownSymbols(rows)| ::
        UnknownSymbols(rows)[i].row < UnknownSymbols(rows)[j].row
  {
    if rows != [] {
      var init, before := rows[..|rows| - 1], UnknownSymbols(rows[..|rows| - 1]);
      UnknownSymbolsAre(init);
      forall e | e in before ensures e.UnknownSymbol? && 1 <= e.row < |rows| && rows[e.row - 1].asset == None {
        assert init[e.row - 1] == rows[e.row - 1];
      }
      forall i | 0 <= i < |rows| && rows[i].asset == None ensures UnknownSymbol(i + 1) in UnknownSymbols(rows) {
        if i < |init| { assert init[i].asset == None; }
      }
      forall k | 0 <= k < |before| ensures before[k].row < |rows| {
        assert before[k] in before;
      }
    }
  }

  function First10(txs: seq<Tx>): seq<Tx> { if |txs| < 10 then txs else txs[..10] }

  lemma {:induction false} PreviewOf(txs: seq<Tx>)
    ensures First10(SortBy(txs, ByTime)) <= SortBy(txs, ByTime)
    ensures |First10(SortBy(txs, ByTime))| == if |txs| < 10 then |txs| else 10
  {
    OrdersAreTotal();
    SortByCorrect(txs, ByTime);
    SameLength(SortBy(txs, ByTime), txs);
  }

  // ---- what an upload makes of the table ----

  datatype Upload = JsonFile(batch: seq<NewRow>) | CsvFile(asset: int, batch: seq<NewRow>)

  datatype Table = Table(rows: seq<Tx>, nextId: int)

  predicate ValidUpload(u: Upload) {
    ValidRows(u.batch) && (u.CsvFile? ==> forall r | r in u.batch :: r.asset == Some(u.asset))
  }

  /** The two imports' acceptance conditions. */
  ghost predicate Accepts(t: Table, u: Upload) {
    match u
    case JsonFile(batch) =>
      && 0 < |batch| <= MAX_ROWS && AllKnown(batch)
      && forall a | a in Involved(batch) :: NeverOversold(TxsOf(Timeline(t.rows, batch, t.nextId, a)))
    case CsvFile(asset, batch) => NeverOversold(TxsOf(Timeline(t.rows, batch, t.nextId, asset)))
  }

  ghost function Uploaded(t: Table, u: Upload): Table {
    if Accepts(t, u) then Table(t.rows + Stamped(u.batch, t.nextId), t.nextId + |u.batch|) else t
  }

  /** The table after a run of uploads into an empty one. */
  ghost function UploadAll(uploads: seq<Upload>): Table {
    if uploads == [] then Table([], 1) else Uploaded(UploadAll(uploads[..|uploads| - 1]), uploads[|uploads| - 1])
  }

  lemma {:induction false} InvolvedFrom(rows: seq<NewRow>)
    ensures forall a | a in Involved(rows) :: exists r :: r in rows && r.asset == Some(a)
  {
    if rows != [] {
      var init, last := rows[..|rows| - 1], rows[|rows| - 1];
      InvolvedFrom(init);
      assert rows == init + [last];
    }
  }

  lemma {:induction false} UntouchedAsset(stored: seq<Tx>, rows: seq<NewRow>, nextId: int, asset: int)
    requires ValidRows(rows) && asset !in Involved(rows)
    ensures StoredFor(stored + Stamped(rows, nextId), asset) == StoredFor(stored, asset)
  {
    StampedShape(rows, nextId);
    hide Stamped, Involved, SortBy;
    var newTxs := Stamped(rows, nextId);
    OnlyConcat(stored, newTxs, asset);
    OnlySound(newTxs, asset);
    hide Only;
    assert asset !in Assets(newTxs);
    assert Only(stored, asset) + [] == Only(stored, asset);
  }

  /** One upload keeps every asset's stored ledger from capping. */
  lemma UploadKeepsCover(t: Table, u: Upload, asset: int)
    requires Positive(t.rows) && ValidUpload(u) && NeverOversold(StoredFor(t.rows, asset))
    ensures Positive(Uploaded(t, u).rows) && NeverOversold(StoredFor(Uploaded(t, u).rows, asset))
  {
    StampedShape(u.batch, t.nextId);
    InvolvedFrom(u.batch);
    hide StoredFor, Stamped, Timeline, TxsOf, NeverOversold;
    if Accepts(t, u) {
      if asset !in Involved(u.batch) {
        UntouchedAsset(t.rows, u.batch, t.nextId, asset);
      } else {
        assert u.CsvFile? ==> u.asset == asset;
        AcceptedTimelineNeverCaps(t.rows, u.batch, t.nextId, asset);
      }
    }
  }

  lemma NothingStored(asset: int)
    ensures NeverOversold(StoredFor([], asset))
  {
    assert Only([], asset) == [];
    SortByFixpoint([], DbOrder);
    assert Net([]) == 0.0;
  }

  /**
   Over every run of uploads into an empty table, accepted and refused ones, no asset's stored ledger ever caps: its
   walked holding is Σ bought − Σ sold.
   */
  lemma {:induction false} UploadsNeverCap(uploads: seq<Upload>, asset: int)
    requires forall u | u in uploads :: ValidUpload(u)
    ensures var ledger := StoredFor(UploadAll(uploads).rows, asset);
      && Positive(UploadAll(uploads).rows) && NeverOversold(ledger)
      && Walk(ledger).qty == Bought(ledger) - Sold(ledger)
  {
    hide StoredFor, NeverOversold, Uploaded, Walk, ValidUpload;
    if uploads == [] {
      NothingStored(asset);
    } else {
      var init, last := uploads[..|uploads| - 1], uploads[|uploads| - 1];
      assert last in uploads;
      UploadsNeverCap(init, asset);
      UploadKeepsCover(UploadAll(init), last, asset);
    }
    UncappedWalk(UploadAll(uploads).rows, asset);
  }

  /** The transactions table; ids are handed out in insertion order. */
  class TransactionTable {
    var rows: seq<Tx>
    var nextId: int

    predicate Valid()
      reads this
    {
      Positive(rows) && forall t | t in rows :: t.id < nextId
    }

    ghost function Contents(): Table
      reads this
    {
      Table(rows, nextId)
    }

    constructor ()
      ensures Valid() && Contents() == UploadAll([])
    {
      rows, nextId := [], 1;
    }

    /** Σ bought − Σ sold of one asset, as SQL sums it. */
    method GetRemainingQuantity(asset: int) returns (remaining: real)
      ensures remaining == Net(Only(rows, asset))
    {
      var bought, cost, sold, value := GetSummary(Only(rows, asset));
      NetIsBoughtLessSold(Only(rows, asset));
      remaining := bought - sold;
    }

    /** Walks each involved asset's merged timeline; at most one error per asset. */
    method ValidateRunningBalance(batch: seq<NewRow>) returns (errors: seq<ImportError>)
      ensures errors == BalanceErrors(rows, batch, nextId, Involved(batch))
    {
      errors := [];
      var assets := Involved(batch);
      for i := 0 to |assets|
        invariant errors == BalanceErrors(rows, batch, nextId, assets[..i])
      {
        var timeline := Timeline(rows, batch, nextId, assets[i]);
        var e := WalkTimeline(timeline);
        assert assets[..i + 1][..i] == assets[..i];
        if e.Some? {
          errors := errors + [e.value];
        }
      }
      assert assets[..|assets|] == assets;
    }

    method WalkTimeline(timeline: seq<Proxy>) returns (error: Option<ImportError>)
      ensures error == FirstOverdraft(timeline)
    {
      var running := 0.0;
      NothingWalked(timeline);
      hide Net, TxsOf, FirstOverdraft;
      for i := 0 to |timeline|
        invariant running == Net(TxsOf(timeline[..i]))
        invariant FirstOverdraft(timeline[..i]) == None
      {
        var p := timeline[i];
        NetOfNext(timeline, i);
        if p.tx.side == Buy {
          running := running + p.tx.qty;
        } else {
          running := running - p.tx.qty;
        }
        if running < 0.0 {
          error := Some(NegativeBalance(p.row, p.tx.at, running));
          OverdraftStays(timeline, i + 1);
          return;
        }
      }
      assert timeline[..|timeline|] == timeline;
      error := None;
    }

    /**
     Imports the whole batch or nothing. A rejected batch changes no row. After an accepted one, every
     asset of the batch has a stored ledger that never caps, so its walked holding is Σ bought − Σ sold as
     SQL computes it; the rows of other assets are as they were.
     */
    method ImportJson(batch: seq<NewRow>) returns (result: ImportResult)
      requires Valid() && ValidRows(batch)
      modifies this
      ensures Valid() && Contents() == Uploaded(old(Contents()), JsonFile(batch))
      ensures result.Rejected? ==> rows == old(rows) && nextId == old(nextId) && result.errors != []
      ensures batch == [] ==> result == Rejected([NoRows])
      ensures |batch| > 500 ==> result == Rejected([TooManyRows(|batch|)])
      ensures 0 < |batch| <= 500 && !AllKnown(batch) ==> result == Rejected(UnknownSymbols(batch))
      ensures 0 < |batch| <= 500 && AllKnown(batch) && result.Rejected? ==>
        result.errors == BalanceErrors(old(rows), batch, old(nextId), Involved(batch))
      ensures result.Imported? <==>
        && 0 < |batch| <= 500 && AllKnown(batch)
        && forall a | a in Involved(batch) :: NeverOversold(TxsOf(Timeline(old(rows), batch, old(nextId), a)))
      ensures result.Imported? ==>
        && rows == old(rows) + Stamped(batch, old(nextId))
        && result.count == |batch|
        && result.preview <= SortBy(Stamped(batch, old(nextId)), ByTime)
        && |result.preview| == (if |batch| < 10 then |batch| else 10)
      ensures result.Imported? ==> forall a | a in Involved(batch) ::
        && NeverOversold(StoredFor(rows, a))
        && Walk(StoredFor(rows, a)).qty == Bought(StoredFor(rows, a)) - Sold(StoredFor(rows, a))
      ensures forall a | a !in Involved(batch) :: StoredFor(rows, a) == StoredFor(old(rows), a)
    {
      hide SortBy, Only, Stamped, TxsOf, Timeline, Involved, BalanceErrors, UnknownSymbols, Bought, Sold, Walk,
        NeverOversold;
      if batch == [] {
        return Rejected([NoRows]);
      }
      if |batch| > MAX_ROWS {
        return Rejected([TooManyRows(|batch|)]);
      }
      var errors := UnknownSymbols(batch);
      UnknownSymbolsIff(batch);
      if errors != [] {
        return Rejected(errors);
      }
      var balanceErrors := ValidateRunningBalance(batch);
      NoBalanceErrors(rows, batch, nextId, Involved(batch));
      if balanceErrors != [] {
        return Rejected(balanceErrors);
      }
      var newTxs := Stamped(batch, nextId);
      StampedShape(batch, nextId);
      StampedLength(batch, nextId);
      forall a | a in Involved(batch)
        ensures NeverOversold(StoredFor(rows + newTxs, a))
        ensures Walk(StoredFor(rows + newTxs, a)).qty
          == Bought(StoredFor(rows + newTxs, a)) - Sold(StoredFor(rows + newTxs, a))
      {
        AcceptedTimelineNeverCaps(rows, batch, nextId, a);
      }
      forall a | a !in Involved(batch) ensures StoredFor(rows + newTxs, a) == StoredFor(rows, a) {
        UntouchedAsset(rows, batch, nextId, a);
      }
      rows := rows + newTxs;
      nextId := nextId + |batch|;
      PreviewOf(newTxs);
      result := Imported(|newTxs|, First10(SortBy(newTxs, ByTime)));
    }

    /** The import into one asset: the same walk, no row limit, and an empty file is imported as it is. */
    method ImportCsv(asset: int, batch: seq<NewRow>) returns (result: ImportResult)
      requires Valid() && ValidRows(batch) && forall r | r in batch :: r.asset == Some(asset)
      modifies this
      ensures Valid() && Contents() == Uploaded(old(Contents()), CsvFile(asset, batch))
      ensures result.Rejected? ==>
        && rows == old(rows) && nextId == old(nextId)
        && FirstOverdraft(Timeline(old(rows), batch, old(nextId), asset)).Some?
        && result.errors == [FirstOverdraft(Timeline(old(rows), batch, old(nextId), asset)).value.(row := 0)]
      ensures result.Imported? <==> NeverOversold(TxsOf(Timeline(old(rows), batch, old(nextId), asset)))
      ensures result.Imported? ==>
        && rows == old(rows) + Stamped(batch, old(nextId))
        && result.count == |batch|
        && result.preview <= SortBy(Stamped(batch, old(nextId)), ByTime)
        && |result.preview| == (if |batch| < 10 then |batch| else 10)
        && NeverOversold(StoredFor(rows, asset))
        && Walk(StoredFor(rows, asset)).qty == Bought(StoredFor(rows, asset)) - Sold(StoredFor(rows, asset))
    {
      hide SortBy, Only, Stamped, TxsOf, Timeline, Bought, Sold, Walk, NeverOversold, StoredFor;
      var timeline := Timeline(rows, batch, nextId, asset);
      var overdraft := WalkTimeline(timeline);
      FirstOverdraftIff(timeline);
      if overdraft.Some? {
        return Rejected([overdraft.value.(row := 0)]);
      }
      var newTxs := Stamped(batch, nextId);
      StampedShape(batch, nextId);
      StampedLength(batch, nextId);
      AcceptedTimelineNeverCaps(rows, batch, nextId, asset);
      rows := rows + newTxs;
      nextId := nextId + |batch|;
      PreviewOf(newTxs);
      result := Imported(|newTxs|, First10(SortBy(newTxs, ByTime)));
    }
  }

  lemma NothingWalked(timeline: seq<Proxy>)
    ensures Net(TxsOf(timeline[..0])) == 0.0 && FirstOverdraft(timeline[..0]) == None
  {}

  lemma NetOfNext(timeline: seq<Proxy>, i: nat)
    requires i < |timeline|
    ensures Net(TxsOf(timeline[..i + 1])) == Net(TxsOf(timeline[..i]))
      + if timeline[i].tx.side == Buy then timeline[i].tx.qty else -timeline[i].tx.qty
    ensures FirstOverdraft(timeline[..i]) == None && Net(TxsOf(timeline[..i + 1])) >= 0.0 ==>
      FirstOverdraft(timeline[..i + 1]) == None
    ensures FirstOverdraft(timeline[..i]) == None && Net(TxsOf(timeline[..i + 1])) < 0.0 ==>
      FirstOverdraft(timeline[..i + 1])
      == Some(NegativeBalance(timeline[i].row, timeline[i].tx.at, Net(TxsOf(timeline[..i + 1]))))
  {
    assert timeline[..i + 1][..i] == timeline[..i];
    var pre := TxsOf(timeline[..i]);
    assert (pre + [timeline[i].tx])[..|pre|] == pre;
  }

  lemma {:induction false} StampedLength(rows: seq<NewRow>, nextId: int)
    requires AllKnown(rows)
    ensures |Stamped(rows, nextId)| == |rows|
  {
    if rows != [] {
      assert rows[|rows| - 1] in rows;
      StampedLength(rows[..|rows| - 1], nextId);
    }
  }

  lemma {:induction false} OverdraftStays(timeline: seq<Proxy>, n: nat)
    requires n <= |timeline| && FirstOverdraft(timeline[..n]).Some?
    ensures FirstOverdraft(timeline) == FirstOverdraft(timeline[..n])
    decreases |timeline|
  {
    if n < |timeline| {
      assert timeline[..|timeline| - 1][..n] == timeline[..n];
      OverdraftStays(timeline[..|timeline| - 1], n);
    } else {
      assert timeline[..n] == timeline;
    }
  }

  // ---- what the check does not promise ----

  /**
   The check is stricter than the stored order needs: a batch that lists a SELL before the BUY of the same
   instant is refused, although the stored ledger would never cap.
   */
  lemma CheckIsStricterThanNeeded()
    ensures var batch := [NewRow(Some(7), Sell, 1.0, 1.0, 0), NewRow(Some(7), Buy, 1.0, 1.0, 0)];
      && FirstOverdraft(Timeline([], batch, 1, 7)) == Some(NegativeBalance(1, 0, -1.0))
      && NeverOversold(StoredFor(Stamped(batch, 1), 7))
  {
    var rs, rb := NewRow(Some(7), Sell, 1.0, 1.0, 0), NewRow(Some(7), Buy, 1.0, 1.0, 0);
    var s, b := Tx(1, 7, Sell, 1.0, 1.0, 0), Tx(2, 7, Buy, 1.0, 1.0, 0);
    PairIsStamped(rs, rb, s, b);
    PairIsOverdrawn(s, b);
    PairSorts(s, b);
    PairNet(b, s);
  }

  predicate Becomes(r: NewRow, t: Tx) { r == NewRow(Some(7), t.side, t.qty, t.price, t.at) && t.asset == 7 }

  lemma PairIsStamped(rx: NewRow, ry: NewRow, x: Tx, y: Tx)
    requires Becomes(rx, x) && Becomes(ry, y) && x.id == 1 && y.id == 2 && x.at <= y.at
    ensures Only(Stamped([rx, ry], 1), 7) == [x, y]
    ensures Timeline([], [rx, ry], 1, 7) == [Proxy(x, 1), Proxy(y, 2)]
  {
    StampedPair(rx, ry, x, y);
    OnlyPair(x, y);
    ProxiesPair(rx, ry, x, y);
    NewTimeline([rx, ry], [Proxy(x, 1), Proxy(y, 2)], 7);
  }

  /** Without stored rows the timeline of incoming rows in time order is their list. */
  lemma {:induction false} NewTimeline(rows: seq<NewRow>, line: seq<Proxy>, asset: int)
    requires NewProxies(rows, 1, asset) == line && SortedBy(line, ProxyByTime)
    ensures Timeline([], rows, 1, asset) == line
  {
    assert Only([], asset) == [];
    SortByFixpoint([], DbOrder);
    assert Existing([]) == [];
    hide NewProxies, SortBy, Existing, Only;
    assert [] + line == line;
    SortByFixpoint(line, ProxyByTime);
  }

  lemma StampedPair(rx: NewRow, ry: NewRow, x: Tx, y: Tx)
    requires Becomes(rx, x) && Becomes(ry, y) && x.id == 1 && y.id == 2
    ensures Stamped([rx, ry], 1) == [x, y]
  {
    assert [rx, ry][..1] == [rx] && [rx][..0] == [];
    assert Stamped([rx][..0], 1) == [];
    assert Stamped([rx], 1) == [] + [x];
  }

  lemma OnlyPair(x: Tx, y: Tx)
    requires x.asset == y.asset == 7
    ensures Only([x, y], 7) == [x, y]
  {
    assert [x, y][..1] == [x] && [x][..0] == [];
    assert Only([x], 7) == [x];
  }

  lemma ProxiesPair(rx: NewRow, ry: NewRow, x: Tx, y: Tx)
    requires Becomes(rx, x) && Becomes(ry, y) && x.id == 1 && y.id == 2
    ensures NewProxies([rx, ry], 1, 7) == [Proxy(x, 1), Proxy(y, 2)]
  {
    assert [rx, ry][..1] == [rx] && [rx][..0] == [];
    assert NewProxies([rx][..0], 1, 7) == [];
    assert NewProxies([rx], 1, 7) == [] + [Proxy(x, 1)];
  }

  lemma PairIsOverdrawn(x: Tx, y: Tx)
    requires x.side == Sell && x.qty == 1.0 && x.at == 0
    ensures FirstOverdraft([Proxy(x, 1), Proxy(y, 2)]) == Some(NegativeBalance(1, 0, -1.0))
  {
    var p, q := Proxy(x, 1), Proxy(y, 2);
    assert [p, q][..1] == [p] && [p][..0] == [];
    assert TxsOf([p]) == [x] && [x][..0] == [];
    assert Net([x]) == -1.0;
    assert FirstOverdraft([p]) == Some(NegativeBalance(1, 0, -1.0));
  }

  /** No incoming BUY of the asset shares its instant with a stored SELL or with a SELL listed before it. */
  ghost predicate BuysLead(stored: seq<Tx>, rows: seq<NewRow>, asset: int) {
    && (forall t, j | t in stored && t.asset == asset && t.side == Sell
          && 0 <= j < |rows| && rows[j].asset == Some(asset) && rows[j].side == Buy :: t.at != rows[j].at)
    && (forall i, j | 0 <= i < j < |rows| && rows[i].asset == Some(asset) && rows[i].side == Sell
          && rows[j].asset == Some(asset) && rows[j].side == Buy :: rows[i].at != rows[j].at)
  }

  predicate ProxyBuysFirst(a: Proxy, b: Proxy) { BuysFirst(a.tx, b.tx) }

  lemma {:induction false} NewProxiesSound(rows: seq<NewRow>, nextId: int, asset: int)
    ensures forall p | p in NewProxies(rows, nextId, asset) ::
      exists j :: 0 <= j < |rows| && rows[j].asset == Some(asset) && rows[j].side == p.tx.side && rows[j].at == p.tx.at
  {
    if rows != [] {
      NewProxiesSound(rows[..|rows| - 1], nextId, asset);
    }
  }

  lemma {:induction false} NewProxiesLead(stored: seq<Tx>, rows: seq<NewRow>, nextId: int, asset: int)
    requires BuysLead(stored, rows, asset)
    ensures TiesKeep(NewProxies(rows, nextId, asset), ProxyByTime, ProxyBuysFirst)
  {
    if rows != [] {
      var n := |rows| - 1;
      NewProxiesLead(stored, rows[..n], nextId, asset);
      NewProxiesSound(rows[..n], nextId, asset);
      var before, after := NewProxies(rows[..n], nextId, asset), NewProxies(rows, nextId, asset);
      forall i | 0 <= i < |before| && rows[n].asset == Some(asset) && Tie(before[i], after[|before|], ProxyByTime)
        ensures ProxyBuysFirst(before[i], after[|before|])
      {
        assert before[i] in before;
        var j :| 0 <= j < n && rows[..n][j].asset == Some(asset) && rows[..n][j].side == before[i].tx.side
          && rows[..n][j].at == before[i].tx.at;
        assert rows[j] == rows[..n][j];
      }
    }
  }

  lemma {:induction false} ExistingAt(txs: seq<Tx>)
    ensures |Existing(txs)| == |txs| && forall i | 0 <= i < |txs| :: Existing(txs)[i] == Proxy(txs[i], 0)
  {
    if txs != [] {
      ExistingAt(txs[..|txs| - 1]);
    }
  }

  lemma LedgerLeads(stored: seq<Tx>, asset: int)
    ensures TiesKeep(Existing(StoredFor(stored, asset)), ProxyByTime, ProxyBuysFirst)
  {
    var ledger := StoredFor(stored, asset);
    OrdersAreTotal();
    SortByCorrect(Only(stored, asset), DbOrder);
    ExistingAt(ledger);
    hide StoredFor, Existing;
    forall i, j | 0 <= i < j < |ledger| ensures BuysFirst(ledger[i], ledger[j]) {
      assert DbOrder(ledger[i], ledger[j]);
    }
  }

  /** A stored row ties with an incoming one only in the order that the stored ledger will have. */
  lemma {:induction false} CrossTieLeads(stored: seq<Tx>, rows: seq<NewRow>, nextId: int, asset: int, x: Tx, p: Proxy)
    requires BuysLead(stored, rows, asset)
    requires x in StoredFor(stored, asset) && p in NewProxies(rows, nextId, asset) && x.at == p.tx.at
    ensures BuysFirst(x, p.tx)
  {
    OrdersAreTotal();
    SortByCorrect(Only(stored, asset), DbOrder);
    assert x in multiset(StoredFor(stored, asset));
    OnlySound(stored, asset);
    NewProxiesSound(rows, nextId, asset);
    hide NewProxies, Only, StoredFor;
    var k :| 0 <= k < |rows| && rows[k].asset == Some(asset) && rows[k].side == p.tx.side && rows[k].at == p.tx.at;
    assert x in stored && x.asset == asset;
  }

  lemma {:induction false} MergedLeads(stored: seq<Tx>, rows: seq<NewRow>, nextId: int, asset: int)
    requires BuysLead(stored, rows, asset)
    ensures TiesKeep(Existing(StoredFor(stored, asset)) + NewProxies(rows, nextId, asset), ProxyByTime, ProxyBuysFirst)
  {
    var ledger, incoming := StoredFor(stored, asset), NewProxies(rows, nextId, asset);
    LedgerLeads(stored, asset);
    NewProxiesLead(stored, rows, nextId, asset);
    ExistingAt(ledger);
    hide StoredFor, Existing, NewProxies, BuysFirst, BuysLead, TiesKeep;
    forall x, y | x in Existing(ledger) && y in incoming && Tie(x, y, ProxyByTime) ensures ProxyBuysFirst(x, y) {
      var i :| 0 <= i < |ledger| && Existing(ledger)[i] == x;
      CrossTieLeads(stored, rows, nextId, asset, x.tx, y);
    }
    TiesKeepConcat(Existing(ledger), incoming, ProxyByTime, ProxyBuysFirst);
  }

  /**
   When no incoming BUY shares its instant with a stored SELL or an earlier listed one, the check is exact: it
   passes an asset if and only if the asset's stored ledger will never cap.
   */
  lemma {:induction false} CheckIsExactWhenBuysLead(stored: seq<Tx>, rows: seq<NewRow>, nextId: int, asset: int)
    requires Positive(stored) && ValidRows(rows) && BuysLead(stored, rows, asset)
    ensures FirstOverdraft(Timeline(stored, rows, nextId, asset)) == None
      <==> NeverOversold(StoredFor(stored + Stamped(rows, nextId), asset))
  {
    var line, ledger := Timeline(stored, rows, nextId, asset), StoredFor(stored + Stamped(rows, nextId), asset);
    FirstOverdraftIff(line);
    TimelineIsFutureLedger(stored, rows, nextId, asset);
    MergedLeads(stored, rows, nextId, asset);
    ProxyOrderIsTotal();
    SortKeepsTies(Existing(StoredFor(stored, asset)) + NewProxies(rows, nextId, asset), ProxyByTime, ProxyBuysFirst);
    StampedShape(rows, nextId);
    assert Positive(stored + Stamped(rows, nextId));
    StoredForShape(stored + Stamped(rows, nextId), asset);
    hide SortBy, StoredFor, Stamped, TxsOf, Timeline, NeverOversold, CoveredAtAllTimes, FirstOverdraft;
    TimelineBuysFirst(line);
    PositivePermutes(ledger, TxsOf(line));
    BuysFirstNeverOversoldIff(TxsOf(line));
    StoredOrderNeverOversoldIff(ledger);
    SameCover(TxsOf(line), ledger);
  }

  /** The SELL at i overdraws the list, and a BUY of its own instant is listed later. */
  predicate LeansOnLaterBuy(line: seq<Tx>, i: nat) {
    && i < |line| && line[i].side == Sell && Net(line[..i + 1]) < 0.0
    && exists j :: i < j < |line| && line[j].side == Buy && line[j].at == line[i].at
  }

  lemma {:induction false} FirstDip(line: seq<Tx>, k: nat) returns (i: nat)
    requires k <= |line| && Net(line[..k]) < 0.0
    ensures i < k && Net(line[..i]) >= 0.0 && Net(line[..i + 1]) < 0.0
  {
    if Net(line[..k - 1]) < 0.0 {
      i := FirstDip(line, k - 1);
    } else {
      i := k - 1;
    }
  }

  /** In a covered list a negative prefix is made up for by the rest of the instant it ends in. */
  lemma RestOfInstantCovers(line: seq<Tx>, i: nat)
    requires SortedBy(line, ByTime) && CoveredAtAllTimes(line) && i < |line| && Net(line[..i + 1]) < 0.0
    ensures NetUpto(line[i + 1..], line[i].at) > 0.0
  {
    var t, pre, post := line[i].at, line[..i + 1], line[i + 1..];
    assert line == pre + post;
    assert NetUpto(line, t) >= 0.0;
    hide Net, NetUpto, CoveredAtAllTimes;
    forall p | p in pre ensures p.at <= t {
      var k :| 0 <= k <= i && line[k] == p;
      assert k < i ==> ByTime(line[k], line[i]);
    }
    NetUptoConcat(pre, post, t);
    NetUptoIsNet(pre, t);
  }

  lemma {:induction false} SomeBuyUpto(txs: seq<Tx>, T: int) returns (j: nat)
    requires Positive(txs) && NetUpto(txs, T) > 0.0
    ensures j < |txs| && txs[j].side == Buy && txs[j].at <= T
  {
    var t := txs[|txs| - 1];
    if t.side == Buy && t.at <= T {
      j := |txs| - 1;
    } else {
      assert t in txs;
      j := SomeBuyUpto(txs[..|txs| - 1], T);
    }
  }

  /** A covered list that dips does so at a SELL that leans on a later BUY of its instant. */
  lemma DipLeans(line: seq<Tx>)
    requires SortedBy(line, ByTime) && Positive(line) && CoveredAtAllTimes(line) && !NeverOversold(line)
    ensures exists i :: LeansOnLaterBuy(line, i)
  {
    var k :| 0 <= k <= |line| && Net(line[..k]) < 0.0;
    var i := FirstDip(line, k);
    assert line[..i + 1][..i] == line[..i] && line[i] in line;
    assert line[i].side == Sell;
    hide Net, CoveredAtAllTimes;
    RestOfInstantCovers(line, i);
    var j := SomeBuyUpto(line[i + 1..], line[i].at);
    assert ByTime(line[i], line[i + 1 + j]);
    assert LeansOnLaterBuy(line, i);
  }

  /**
   An asset is refused although its stored ledger would never cap if and only if its rows are covered at every
   instant and the merged timeline lists a SELL that leans on a BUY of the same instant listed after it.
   */
  lemma {:induction false} RefusedThoughCoveredIff(stored: seq<Tx>, rows: seq<NewRow>, nextId: int, asset: int)
    requires Positive(stored) && ValidRows(rows)
    ensures var line, future := Timeline(stored, rows, nextId, asset), stored + Stamped(rows, nextId);
      FirstOverdraft(line).Some? && NeverOversold(StoredFor(future, asset))
      <==> CoveredAtAllTimes(Only(future, asset)) && exists i :: LeansOnLaterBuy(TxsOf(line), i)
  {
    var line, future := Timeline(stored, rows, nextId, asset), stored + Stamped(rows, nextId);
    FirstOverdraftIff(line);
    TimelineIsFutureLedger(stored, rows, nextId, asset);
    StampedShape(rows, nextId);
    assert Positive(future);
    StoredForShape(future, asset);
    hide SortBy, StoredFor, Stamped, TxsOf, Timeline, Only, CoveredAtAllTimes, FirstOverdraft;
    var txs, ledger := TxsOf(line), StoredFor(future, asset);
    PositivePermutes(ledger, txs);
    StoredOrderNeverOversoldIff(ledger);
    SameCover(ledger, Only(future, asset));
    SameCover(ledger, txs);
    if CoveredAtAllTimes(txs) && !NeverOversold(txs) {
      DipLeans(txs);
    }
    if i :| LeansOnLaterBuy(txs, i) {
      assert Net(txs[..i + 1]) < 0.0;
    }
  }

  lemma PositivePermutes(a: seq<Tx>, b: seq<Tx>)
    requires Positive(a) && multiset(a) == multiset(b)
    ensures Positive(b)
  {
    forall t | t in b ensures t.qty > 0.0 && t.price > 0.0 {
      assert t in multiset(b);
      assert t in a;
    }
  }

  lemma {:induction false} TimelineBuysFirst(line: seq<Proxy>)
    requires SortedBy(TxsOf(line), ByTime) && TiesKeep(line, ProxyByTime, ProxyBuysFirst)
    ensures SortedBy(TxsOf(line), BuysFirst)
  {
    TxsOfAt(line);
    hide TxsOf;
    forall i, j | 0 <= i < j < |TxsOf(line)| ensures BuysFirst(TxsOf(line)[i], TxsOf(line)[j]) {
      assert ByTime(TxsOf(line)[i], TxsOf(line)[j]);
      if TxsOf(line)[i].at == TxsOf(line)[j].at {
        assert Tie(line[i], line[j], ProxyByTime);
        assert ProxyBuysFirst(line[i], line[j]);
      }
    }
  }

  /** A pair never oversells exactly when neither its first row nor the two together do. */
  lemma PairNet(x: Tx, y: Tx)
    ensures NeverOversold([x, y]) <==> Signed(x) >= 0.0 && Signed(x) + Signed(y) >= 0.0
  {
    hide Signed;
    var p := [x, y];
    assert p[..0] == [] && p[..1] == [x] && p[..2] == p && [x][..0] == [];
    assert Net([]) == 0.0 && Net([x]) == Net([x][..0]) + Signed(x) && Net(p) == Net(p[..1]) + Signed(p[1]);
  }

  lemma PairSorts(x: Tx, y: Tx)
    requires !DbOrder(x, y)
    ensures SortBy([x, y], DbOrder) == [y, x]
  {
    assert [x, y][..1] == [x] && [x][..0] == [];
    assert SortBy([x], DbOrder) == [x];
    assert InsertBy([x], y, DbOrder) == [y, x];
  }
}
