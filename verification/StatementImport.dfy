/**
 Importing broker statements: cash rows with the opening-balance collapse, and dividends under their two unique keys.
 */
module StatementImport {
  import opened Common
  import opened CashFlow
  import opened ExchangeSync

  // ---- cash rows ----

  datatype ParsedCash = ParsedCash(
    kind: string, amount: real, withholding: real, currency: string, at: int, externalId: string)

  /** An unknown kind is booked as interest. */
  function KindOf(kind: string): CashKind {
    if kind == "interest_tax" then InterestTax
    else if kind == "deposit" then Deposit
    else if kind == "withdraw" then Withdraw
    else if kind == "transfer_in" then TransferIn
    else if kind == "transfer_out" then TransferOut
    else Interest
  }

  function ImportedRow(source: string, p: ParsedCash): CashRow {
    CashRow(KindOf(p.kind), p.amount, p.withholding, p.currency, p.at, Some(source), Some(p.externalId))
  }

  /** Rows whose id is new to the source are appended. */
  function Imported(cash: seq<CashRow>, source: string, batch: seq<ParsedCash>): seq<CashRow> {
    if batch == [] then cash
    else
      var before := Imported(cash, source, batch[..|batch| - 1]);
      var p := batch[|batch| - 1];
      if HasCashId(before, source, p.externalId) then before else before + [ImportedRow(source, p)]
  }

  const OPENING_PREFIX := "toss-opening-"

  predicate IsOpening(r: CashRow, source: string) {
    r.source == Some(source) && r.externalId.Some? && LikePrefix(r.externalId.value, OPENING_PREFIX)
  }

  /** Position of the earliest opening row, the first one stored among equals. */
  function EarliestOpening(cash: seq<CashRow>, source: string): (k: Option<nat>)
    ensures k.Some? ==> k.value < |cash| && IsOpening(cash[k.value], source)
    ensures forall i | 0 <= i < |cash| && IsOpening(cash[i], source) :: k.Some? && cash[k.value].at <= cash[i].at
  {
    if cash == [] then None
    else
      var last := |cash| - 1;
      var k := EarliestOpening(cash[..last], source);
      if !IsOpening(cash[last], source) then k
      else if k.Some? && cash[k.value].at <= cash[last].at then k
      else Some(last)
  }

  lemma {:induction false} EarliestOfNext(cash: seq<CashRow>, source: string, i: nat)
    requires i < |cash|
    ensures var k := EarliestOpening(cash[..i], source);
      EarliestOpening(cash[..i + 1], source)
      == if !IsOpening(cash[i], source) || (k.Some? && cash[k.value].at <= cash[i].at) then k else Some(i)
  {
    hide IsOpening;
    assert cash[..i + 1][..i] == cash[..i];
  }

  /** Every opening row but the one at position k is deleted. */
  function DropOpenings(cash: seq<CashRow>, source: string, k: nat): seq<CashRow> {
    if cash == [] then []
    else
      var last := |cash| - 1;
      DropOpenings(cash[..last], source, k) + if IsOpening(cash[last], source) && last != k then [] else [cash[last]]
  }

  function Collapsed(cash: seq<CashRow>, source: string): seq<CashRow> {
    var k := EarliestOpening(cash, source);
    if k == None then cash else DropOpenings(cash, source, k.value)
  }

  /** One statement: an empty one is ignored before the collapse. */
  function AfterStatement(cash: seq<CashRow>, source: string, batch: seq<ParsedCash>): seq<CashRow> {
    if batch == [] then cash else Collapsed(Imported(cash, source, batch), source)
  }

  // ---- dividends ----

  datatype ParsedDividend = ParsedDividend(
    symbol: SymbolKey, gross: real, withholding: real, currency: string, at: int, externalId: string)

  /** The calendar day in Korea, nine hours ahead of UTC. */
  function KoreanDay(at: int): int { (at + 32400) / 86400 }

  /** The symbol a statement names and the stored symbol it resolves to. */
  type Resolver = SymbolKey -> SymbolKey

  function PairOf(d: ParsedDividend, resolve: Resolver): (SymbolKey, int) { (resolve(d.symbol), KoreanDay(d.at)) }

  function RowPair(r: DividendRow): (SymbolKey, int) { (r.symbol, r.exDate) }

  function DividendOf(source: string, d: ParsedDividend, resolve: Resolver): DividendRow {
    DividendRow(resolve(d.symbol), KoreanDay(d.at), d.gross, d.withholding, d.currency, Some(source),
      Some(d.externalId))
  }

  predicate HasDividendId(rows: seq<DividendRow>, source: string, id: string) {
    exists i | 0 <= i < |rows| :: rows[i].source == Some(source) && rows[i].externalId == Some(id)
  }

  predicate HasPair(rows: seq<DividendRow>, pair: (SymbolKey, int)) {
    exists i | 0 <= i < |rows| :: RowPair(rows[i]) == pair
  }

  /** A dividend is stored unless its id or its (symbol, day) is already there. */
  function WithDividends(
    rows: seq<DividendRow>, source: string, batch: seq<ParsedDividend>, resolve: Resolver): seq<DividendRow> {
    if batch == [] then rows
    else
      var before := WithDividends(rows, source, batch[..|batch| - 1], resolve);
      var d := batch[|batch| - 1];
      if HasDividendId(before, source, d.externalId) || HasPair(before, PairOf(d, resolve)) then before
      else before + [DividendOf(source, d, resolve)]
  }

  // ---- the service ----

  /** The tables a statement import writes. */
  class StatementStore {
    var cash: seq<CashRow>
    var dividends: seq<DividendRow>

    constructor (cashRows: seq<CashRow>, dividendRows: seq<DividendRow>)
      ensures cash == cashRows && dividends == dividendRows
    {
      cash, dividends := cashRows, dividendRows;
    }

    /** Dedupes on the ids known before the batch plus those the batch adds, then collapses the openings. */
    method ImportParsedCashTxs(source: string, batch: seq<ParsedCash>) returns (inserted: nat)
      modifies this`cash
      ensures cash == AfterStatement(old(cash), source, batch)
      ensures inserted == |Imported(old(cash), source, batch)| - |old(cash)|
    {
      inserted := 0;
      if batch == [] {
        return;
      }
      var existingIds := set i | 0 <= i < |batch|
        && HasCashId(cash, source, batch[i].externalId) :: batch[i].externalId;
      for i := 0 to |batch|
        invariant cash == Imported(old(cash), source, batch[..i])
        invariant inserted == |cash| - |old(cash)|
        invariant forall j | 0 <= j < |batch| ::
          batch[j].externalId in existingIds <==> HasCashId(cash, source, batch[j].externalId)
      {
        var p := batch[i];
        assert batch[..i + 1][..i] == batch[..i];
        if p.externalId in existingIds {
          continue;
        }
        ghost var before := cash;
        cash := cash + [ImportedRow(source, p)];
        existingIds := existingIds + {p.externalId};
        forall j | 0 <= j < |batch|
          ensures HasCashId(cash, source, batch[j].externalId)
            <==> HasCashId(before, source, batch[j].externalId) || batch[j].externalId == p.externalId
        {
          IdOfSnoc(before, ImportedRow(source, p), source, batch[j].externalId);
        }
        hide HasCashId;
        inserted := inserted + 1;
      }
      assert batch[..|batch|] == batch;
      CollapseOpeningBalances(source);
    }

    /** The query behind the collapse: how many openings there are, and which is the earliest. */
    method OpeningRows(source: string) returns (count: nat, keep: nat)
      ensures EarliestOpening(cash, source) == if count == 0 then None else Some(keep)
      ensures count <= 1 ==> forall j | 0 <= j < |cash| && IsOpening(cash[j], source) :: j == keep
    {
      count, keep := 0, 0;
      for i := 0 to |cash|
        invariant EarliestOpening(cash[..i], source) == if count == 0 then None else Some(keep)
        invariant count > 0 ==> keep < i
        invariant count <= 1 ==> forall j | 0 <= j < i && IsOpening(cash[j], source) :: count == 1 && j == keep
      {
        hide IsOpening, EarliestOpening;
        EarliestOfNext(cash, source, i);
        if IsOpening(cash[i], source) {
          if count == 0 || cash[i].at < cash[keep].at {
            keep := i;
          }
          count := count + 1;
        }
      }
      assert cash[..|cash|] == cash;
    }

    /** Keeps the earliest opening row of the source; up to one opening there is nothing to do. */
    method CollapseOpeningBalances(source: string)
      modifies this`cash
      ensures cash == Collapsed(old(cash), source)
    {
      hide IsOpening, EarliestOpening;
      var count, keep := OpeningRows(source);
      if count <= 1 {
        NothingToDrop(cash, source, keep);
        return;
      }
      var kept: seq<CashRow> := [];
      for i := 0 to |cash|
        invariant kept == DropOpenings(cash[..i], source, keep)
      {
        assert cash[..i + 1][..i] == cash[..i];
        if !(IsOpening(cash[i], source) && i != keep) {
          kept := kept + [cash[i]];
        }
      }
      assert cash[..|cash|] == cash;
      cash := kept;
    }

    /** Dedupes on ids, on the pairs seen in this batch, and on the pairs stored before it. */
    method ImportParsedDividends(source: string, batch: seq<ParsedDividend>, resolve: Resolver) returns (inserted: nat)
      modifies this`dividends
      ensures dividends == WithDividends(old(dividends), source, batch, resolve)
      ensures inserted == |dividends| - |old(dividends)|
    {
      inserted := 0;
      var stored := dividends;
      var existingIds := set i | 0 <= i < |batch|
        && HasDividendId(stored, source, batch[i].externalId) :: batch[i].externalId;
      var seenPairs: set<(SymbolKey, int)> := {};
      for i := 0 to |batch|
        invariant dividends == WithDividends(stored, source, batch[..i], resolve)
        invariant inserted == |dividends| - |stored|
        invariant forall j | 0 <= j < |batch| ::
          batch[j].externalId in existingIds <==> HasDividendId(dividends, source, batch[j].externalId)
        invariant forall p :: HasPair(dividends, p) <==> HasPair(stored, p) || p in seenPairs
      {
        var d := batch[i];
        assert batch[..i + 1][..i] == batch[..i];
        if d.externalId in existingIds {
          continue;
        }
        var pair := PairOf(d, resolve);
        if pair in seenPairs {
          continue;
        }
        if HasPair(stored, pair) {
          seenPairs := seenPairs + {pair};
          continue;
        }
        ghost var before := dividends;
        dividends := dividends + [DividendOf(source, d, resolve)];
        DividendSnoc(before, DividendOf(source, d, resolve), source);
        hide HasDividendId, HasPair;
        existingIds := existingIds + {d.externalId};
        seenPairs := seenPairs + {pair};
        inserted := inserted + 1;
      }
      assert batch[..|batch|] == batch;
    }
  }

  lemma IdOfSnoc(rows: seq<CashRow>, r: CashRow, source: string, id: string)
    ensures HasCashId(rows + [r], source, id)
      <==> HasCashId(rows, source, id) || (r.source == Some(source) && r.externalId == Some(id))
  {
    var more := rows + [r];
    assert more[|rows|] == r;
    if HasCashId(rows, source, id) {
      var i :| 0 <= i < |rows| && rows[i].source == Some(source) && rows[i].externalId == Some(id);
      assert more[i] == rows[i];
    }
  }

  lemma DividendSnoc(rows: seq<DividendRow>, r: DividendRow, source: string)
    ensures forall id ::
      (HasDividendId(rows + [r], source, id)
       <==> HasDividendId(rows, source, id) || (r.source == Some(source) && r.externalId == Some(id)))
    ensures forall p :: (HasPair(rows + [r], p) <==> HasPair(rows, p) || RowPair(r) == p)
  {
    var more := rows + [r];
    assert more[|rows|] == r;
    forall id | HasDividendId(rows, source, id) ensures HasDividendId(more, source, id) {
      var i :| 0 <= i < |rows| && rows[i].source == Some(source) && rows[i].externalId == Some(id);
      assert more[i] == rows[i];
    }
    forall p | HasPair(rows, p) ensures HasPair(more, p) {
      var i :| 0 <= i < |rows| && RowPair(rows[i]) == p;
      assert more[i] == rows[i];
    }
  }

  lemma {:induction false} NothingToDrop(cash: seq<CashRow>, source: string, k: nat)
    requires forall j | 0 <= j < |cash| && IsOpening(cash[j], source) :: j == k
    ensures DropOpenings(cash, source, k) == cash
  {
    hide IsOpening;
    if cash != [] {
      NothingToDrop(cash[..|cash| - 1], source, k);
    }
  }

  // ---- what a source's cash rows become ----

  ghost function OwnRows(cash: seq<CashRow>, source: string): set<CashRow> {
    set r | r in cash && r.source == Some(source)
  }

  /** All rows the statements of a run report. */
  ghost function Reported(source: string, batches: seq<seq<ParsedCash>>): set<CashRow> {
    set i, j | 0 <= i < |batches| && 0 <= j < |batches[i]| :: ImportedRow(source, batches[i][j])
  }

  /** Equal ids mean equal rows, and no two openings share a time. */
  ghost predicate Consistent(rows: set<CashRow>, source: string) {
    && (forall r, q | r in rows && q in rows && r.externalId == q.externalId :: r == q)
    && (forall r, q | r in rows && q in rows && IsOpening(r, source) && IsOpening(q, source) && r.at == q.at :: r == q)
  }

  ghost predicate FirstOpening(r: CashRow, rows: set<CashRow>, source: string) {
    IsOpening(r, source) && forall q | q in rows && IsOpening(q, source) :: r.at <= q.at
  }

  /** The ordinary rows, and of the openings only the earliest. */
  ghost function Canonical(rows: set<CashRow>, source: string): set<CashRow> {
    set r | r in rows && (!IsOpening(r, source) || FirstOpening(r, rows, source))
  }

  /** The table after importing one statement after the other. */
  function AfterStatements(cash: seq<CashRow>, source: string, batches: seq<seq<ParsedCash>>): seq<CashRow> {
    if batches == [] then cash
    else AfterStatement(AfterStatements(cash, source, batches[..|batches| - 1]), source, batches[|batches| - 1])
  }

  ghost function BatchRows(source: string, batch: seq<ParsedCash>): set<CashRow> {
    set j | 0 <= j < |batch| :: ImportedRow(source, batch[j])
  }

  /** Deduplicating by id stores exactly the rows not yet known. */
  lemma {:induction false} ImportedRows(cash: seq<CashRow>, source: string, batch: seq<ParsedCash>, all: set<CashRow>)
    requires Consistent(all, source) && OwnRows(cash, source) + BatchRows(source, batch) <= all
    ensures OwnRows(Imported(cash, source, batch), source) == OwnRows(cash, source) + BatchRows(source, batch)
  {
    if batch != [] {
      var n := |batch| - 1;
      var before, row := Imported(cash, source, batch[..n]), ImportedRow(source, batch[n]);
      BatchSnoc(source, batch);
      ImportedRows(cash, source, batch[..n], all);
      OwnSnoc(before, row, source);
      if HasCashId(before, source, row.externalId.value) {
        KnownIdKnownRow(before, row, source, all);
      }
      hide OwnRows, BatchRows, HasCashId;
    }
  }

  lemma BatchSnoc(source: string, batch: seq<ParsedCash>)
    requires batch != []
    ensures BatchRows(source, batch)
      == BatchRows(source, batch[..|batch| - 1]) + {ImportedRow(source, batch[|batch| - 1])}
  {
    var init := batch[..|batch| - 1];
    forall r | r in BatchRows(source, init) ensures r in BatchRows(source, batch) {
      var j :| 0 <= j < |init| && r == ImportedRow(source, init[j]);
      assert batch[j] == init[j];
    }
    forall r | r in BatchRows(source, batch)
      ensures r in BatchRows(source, init) || r == ImportedRow(source, batch[|batch| - 1])
    {
      var j :| 0 <= j < |batch| && r == ImportedRow(source, batch[j]);
      if j < |init| { assert batch[j] == init[j]; }
    }
  }

  lemma OwnSnoc(cash: seq<CashRow>, r: CashRow, source: string)
    requires r.source == Some(source)
    ensures OwnRows(cash + [r], source) == OwnRows(cash, source) + {r}
  {}

  lemma KnownIdKnownRow(cash: seq<CashRow>, r: CashRow, source: string, all: set<CashRow>)
    requires Consistent(all, source) && OwnRows(cash, source) <= all && r in all && r.externalId.Some?
    requires HasCashId(cash, source, r.externalId.value)
    ensures r in OwnRows(cash, source)
  {
    var i :| 0 <= i < |cash| && cash[i].source == Some(source) && cash[i].externalId == r.externalId;
    assert cash[i] in OwnRows(cash, source);
  }

  /** The deletion keeps what is no opening, and the row at k. */
  lemma {:induction false} DroppedRows(cash: seq<CashRow>, source: string, k: nat)
    ensures forall r ::
      (r in DropOpenings(cash, source, k)
       <==> exists i :: 0 <= i < |cash| && cash[i] == r && (!IsOpening(r, source) || i == k))
  {
    hide IsOpening;
    if cash != [] {
      var n := |cash| - 1;
      DroppedRows(cash[..n], source, k);
      assert DropOpenings(cash, source, k)
        == DropOpenings(cash[..n], source, k) + if IsOpening(cash[n], source) && n != k then [] else [cash[n]];
      hide DropOpenings;
      forall r ensures r in DropOpenings(cash, source, k)
        <==> exists i :: 0 <= i < |cash| && cash[i] == r && (!IsOpening(r, source) || i == k)
      {
        if i :| 0 <= i < |cash| && cash[i] == r && (!IsOpening(r, source) || i == k) {
          if i < n { assert cash[..n][i] == r; }
        }
        if i :| 0 <= i < n && cash[..n][i] == r && (!IsOpening(r, source) || i == k) {
          assert cash[i] == r;
        }
      }
    }
  }

  /** The collapse leaves the canonical rows. */
  lemma CollapsedRows(cash: seq<CashRow>, source: string)
    requires Consistent(OwnRows(cash, source), source)
    ensures OwnRows(Collapsed(cash, source), source) == Canonical(OwnRows(cash, source), source)
  {
    hide LikePrefix, DropOpenings;
    var k := EarliestOpening(cash, source);
    hide EarliestOpening;
    var own := OwnRows(cash, source);
    assert forall i | 0 <= i < |cash| :: cash[i].source == Some(source) ==> cash[i] in own;
    if k == None {
      assert forall r | r in own :: !IsOpening(r, source);
    } else {
      var first := cash[k.value];
      DroppedRows(cash, source, k.value);
      assert first in own && FirstOpening(first, own, source);
      forall r | r in own && FirstOpening(r, own, source) ensures r == first {
        assert r.at <= first.at <= r.at;
      }
      forall r ensures r in OwnRows(Collapsed(cash, source), source) <==> r in Canonical(own, source) {
        if r in Canonical(own, source) {
          var i :| 0 <= i < |cash| && cash[i] == r;
          assert r == first || !IsOpening(r, source);
        }
      }
    }
  }

  /** Collapsing early or late makes no difference: the earliest opening survives every collapse. */
  lemma CanonicalAbsorbs(rows: set<CashRow>, more: set<CashRow>, source: string)
    requires Consistent(rows + more, source)
    ensures Canonical(Canonical(rows, source) + more, source) == Canonical(rows + more, source)
  {
    hide IsOpening;
    var few := Canonical(rows, source) + more;
    forall r | r in rows + more && FirstOpening(r, few, source) ensures FirstOpening(r, rows + more, source) {
      forall q | q in rows && IsOpening(q, source) ensures r.at <= q.at {
        FirstOpeningExists(rows, q, source);
      }
    }
  }

  lemma {:induction false} FirstOpeningExists(rows: set<CashRow>, q: CashRow, source: string)
    requires q in rows && IsOpening(q, source)
    ensures exists f :: f in rows && FirstOpening(f, rows, source) && f.at <= q.at
    decreases |rows|
  {
    hide IsOpening;
    if p :| p in rows && IsOpening(p, source) && p.at < q.at {
      assert p in rows - {q};
      FirstOpeningExists(rows - {q}, p, source);
      var f :| f in rows - {q} && FirstOpening(f, rows - {q}, source) && f.at <= p.at;
      assert FirstOpening(f, rows, source);
    } else {
      assert FirstOpening(q, rows, source);
    }
  }

  lemma ReportedSnoc(source: string, batches: seq<seq<ParsedCash>>)
    requires batches != []
    ensures Reported(source, batches)
      == Reported(source, batches[..|batches| - 1]) + BatchRows(source, batches[|batches| - 1])
  {
    var n := |batches| - 1;
    forall r | r in Reported(source, batches[..n]) ensures r in Reported(source, batches) {
      var i, j :| 0 <= i < n && 0 <= j < |batches[..n][i]| && r == ImportedRow(source, batches[..n][i][j]);
      assert batches[i][j] == batches[..n][i][j];
    }
    forall r | r in BatchRows(source, batches[n]) ensures r in Reported(source, batches) {
      var j :| 0 <= j < |batches[n]| && r == ImportedRow(source, batches[n][j]);
    }
    forall r | r in Reported(source, batches)
      ensures r in Reported(source, batches[..n]) || r in BatchRows(source, batches[n])
    {
      var i, j :| 0 <= i < |batches| && 0 <= j < |batches[i]| && r == ImportedRow(source, batches[i][j]);
      if i < n { assert batches[..n][i][j] == batches[i][j]; }
    }
  }

  lemma ConsistentSubset(few: set<CashRow>, many: set<CashRow>, source: string)
    requires Consistent(many, source) && few <= many
    ensures Consistent(few, source)
  {}

  lemma CanonicalIsPart(rows: set<CashRow>, source: string)
    ensures Canonical(rows, source) <= rows
  {}

  /** One statement takes the canonical rows of what was reported to those of what is now reported. */
  lemma StatementStep(cash: seq<CashRow>, source: string, batch: seq<ParsedCash>, rows: set<CashRow>)
    requires OwnRows(cash, source) == Canonical(rows, source)
    requires Consistent(rows + BatchRows(source, batch), source)
    ensures OwnRows(AfterStatement(cash, source, batch), source) == Canonical(rows + BatchRows(source, batch), source)
  {
    hide OwnRows, Canonical, Consistent, Collapsed, Imported;
    var more := BatchRows(source, batch);
    if batch == [] {
      assert more == {} && rows + more == rows;
    } else {
      hide BatchRows;
      CanonicalIsPart(rows, source);
      ImportedRows(cash, source, batch, rows + more);
      ConsistentSubset(Canonical(rows, source) + more, rows + more, source);
      CollapsedRows(Imported(cash, source, batch), source);
      CanonicalAbsorbs(rows, more, source);
    }
  }

  /** After any run of statements the source's rows are the canonical rows of everything reported. */
  lemma {:induction false} RunIsCanonical(start: seq<CashRow>, source: string, batches: seq<seq<ParsedCash>>)
    requires OwnRows(start, source) == {} && Consistent(Reported(source, batches), source)
    ensures OwnRows(AfterStatements(start, source, batches), source) == Canonical(Reported(source, batches), source)
  {
    hide OwnRows, Reported, Consistent, BatchRows, AfterStatement;
    if batches == [] {
      NothingReported(source);
    } else {
      var n := |batches| - 1;
      ReportedSnoc(source, batches);
      ConsistentSubset(Reported(source, batches[..n]), Reported(source, batches), source);
      RunIsCanonical(start, source, batches[..n]);
      StatementStep(AfterStatements(start, source, batches[..n]), source, batches[n], Reported(source, batches[..n]));
    }
  }

  lemma NothingReported(source: string)
    ensures Reported(source, []) == {} && Canonical({}, source) == {}
  {}

  /** Two runs over the same reported rows, in any order and with any repetition, store the same rows. */
  lemma {:induction false} StatementsConverge(
    start: seq<CashRow>, source: string, a: seq<seq<ParsedCash>>, b: seq<seq<ParsedCash>>)
    requires OwnRows(start, source) == {} && Reported(source, a) == Reported(source, b)
    requires Consistent(Reported(source, a), source)
    ensures OwnRows(AfterStatements(start, source, a), source) == OwnRows(AfterStatements(start, source, b), source)
  {
    RunIsCanonical(start, source, a);
    RunIsCanonical(start, source, b);
  }

  /** At most one opening is left. */
  lemma OneOpeningIsLeft(rows: set<CashRow>, source: string)
    requires Consistent(rows, source)
    ensures forall r, q | r in Canonical(rows, source) && q in Canonical(rows, source)
      && IsOpening(r, source) && IsOpening(q, source) :: r == q
    ensures (exists r :: r in rows && IsOpening(r, source)) ==>
      exists r :: r in Canonical(rows, source) && IsOpening(r, source)
  {
    hide IsOpening;
    if q :| q in rows && IsOpening(q, source) {
      FirstOpeningExists(rows, q, source);
    }
  }

  // ---- what an import leaves alone, and the unique constraint ----

  lemma {:induction false} ImportKeepsOthers(cash: seq<CashRow>, source: string, batch: seq<ParsedCash>)
    ensures WithoutCash(Imported(cash, source, batch), source) == WithoutCash(cash, source)
  {
    if batch != [] {
      var before, row := Imported(cash, source, batch[..|batch| - 1]), ImportedRow(source, batch[|batch| - 1]);
      ImportKeepsOthers(cash, source, batch[..|batch| - 1]);
      hide WithoutCash, HasCashId;
      WithoutCashConcat(before, [row], source);
      WithoutOwnRow(row, source);
    }
  }

  lemma {:induction false} DropKeepsOthers(cash: seq<CashRow>, source: string, k: nat)
    ensures WithoutCash(DropOpenings(cash, source, k), source) == WithoutCash(cash, source)
  {
    if cash != [] {
      var n := |cash| - 1;
      DropKeepsOthers(cash[..n], source, k);
      var kept := DropOpenings(cash[..n], source, k);
      assert (kept + [cash[n]])[..|kept|] == kept;
      assert kept + [] == kept;
    }
  }

  /** The cash rows of every other source stay in place and in order. */
  lemma {:induction false} StatementsKeepOthers(start: seq<CashRow>, source: string, batches: seq<seq<ParsedCash>>)
    ensures WithoutCash(AfterStatements(start, source, batches), source) == WithoutCash(start, source)
  {
    if batches != [] {
      var n := |batches| - 1;
      StatementsKeepOthers(start, source, batches[..n]);
      var before := AfterStatements(start, source, batches[..n]);
      var imported := Imported(before, source, batches[n]);
      ImportKeepsOthers(before, source, batches[n]);
      var k := EarliestOpening(imported, source);
      if k.Some? {
        DropKeepsOthers(imported, source, k.value);
      }
    }
  }

  lemma {:induction false} ImportKeepsUnique(cash: seq<CashRow>, source: string, batch: seq<ParsedCash>)
    requires UniqueCash(cash)
    ensures UniqueCash(Imported(cash, source, batch))
  {
    if batch != [] {
      ImportKeepsUnique(cash, source, batch[..|batch| - 1]);
    }
  }

  lemma {:induction false} DropKeepsUnique(cash: seq<CashRow>, source: string, k: nat)
    requires UniqueCash(cash)
    ensures UniqueCash(DropOpenings(cash, source, k))
    ensures forall r | r in DropOpenings(cash, source, k) :: r in cash
  {
    hide IsOpening;
    if cash != [] {
      var n := |cash| - 1;
      DropKeepsUnique(cash[..n], source, k);
      var kept, after := DropOpenings(cash[..n], source, k), DropOpenings(cash, source, k);
      forall i, j | 0 <= i < j < |after| && after[i].source.Some? && after[i].externalId.Some?
        ensures after[i].source != after[j].source || after[i].externalId != after[j].externalId
      {
        if j == |kept| {
          assert kept[i] in cash[..n];
          var m :| 0 <= m < n && cash[..n][m] == kept[i];
          assert cash[m] == after[i] && cash[n] == after[j];
        }
      }
    }
  }

  /** Every reachable cash table satisfies the unique constraint, even with repeats inside one statement. */
  lemma {:induction false} StatementsKeepUnique(start: seq<CashRow>, source: string, batches: seq<seq<ParsedCash>>)
    requires UniqueCash(start)
    ensures UniqueCash(AfterStatements(start, source, batches))
  {
    hide UniqueCash;
    if batches != [] {
      var n := |batches| - 1;
      StatementsKeepUnique(start, source, batches[..n]);
      var before := AfterStatements(start, source, batches[..n]);
      var imported := Imported(before, source, batches[n]);
      ImportKeepsUnique(before, source, batches[n]);
      var k := EarliestOpening(imported, source);
      if k.Some? {
        DropKeepsUnique(imported, source, k.value);
      }
    }
  }

  // ---- the dividend table ----

  ghost predicate UniqueDividends(rows: seq<DividendRow>) {
    && (forall i, j | 0 <= i < j < |rows| && rows[i].source.Some? && rows[i].externalId.Some? ::
          rows[i].source != rows[j].source || rows[i].externalId != rows[j].externalId)
    && (forall i, j | 0 <= i < j < |rows| :: RowPair(rows[i]) != RowPair(rows[j]))
  }

  /** One statement of one broker. */
  datatype DividendImport = DividendImport(source: string, batch: seq<ParsedDividend>)

  function AfterImports(rows: seq<DividendRow>, imports: seq<DividendImport>, resolve: Resolver): seq<DividendRow> {
    if imports == [] then rows
    else
      var last := imports[|imports| - 1];
      WithDividends(AfterImports(rows, imports[..|imports| - 1], resolve), last.source, last.batch, resolve)
  }

  lemma {:induction false} DividendsKeepUnique(
    rows: seq<DividendRow>, source: string, batch: seq<ParsedDividend>, resolve: Resolver)
    requires UniqueDividends(rows)
    ensures UniqueDividends(WithDividends(rows, source, batch, resolve))
    ensures rows <= WithDividends(rows, source, batch, resolve)
  {
    if batch != [] {
      DividendsKeepUnique(rows, source, batch[..|batch| - 1], resolve);
    }
  }

  /** Every reachable dividend table keeps both keys unique and every stored row. */
  lemma {:induction false} ImportsKeepUnique(rows: seq<DividendRow>, imports: seq<DividendImport>, resolve: Resolver)
    requires UniqueDividends(rows)
    ensures UniqueDividends(AfterImports(rows, imports, resolve))
    ensures rows <= AfterImports(rows, imports, resolve)
  {
    hide UniqueDividends, WithDividends;
    if imports != [] {
      var n := |imports| - 1;
      ImportsKeepUnique(rows, imports[..n], resolve);
      DividendsKeepUnique(AfterImports(rows, imports[..n], resolve), imports[n].source, imports[n].batch, resolve);
    }
  }

  /** Whatever the batch, each of its dividends ends up represented by its id or by its pair. */
  ghost predicate Represented(rows: seq<DividendRow>, source: string, d: ParsedDividend, resolve: Resolver) {
    HasDividendId(rows, source, d.externalId) || HasPair(rows, PairOf(d, resolve))
  }

  lemma RepresentedLater(
    few: seq<DividendRow>, many: seq<DividendRow>, source: string, d: ParsedDividend, resolve: Resolver)
    requires few <= many && Represented(few, source, d, resolve)
    ensures Represented(many, source, d, resolve)
  {
    if HasDividendId(few, source, d.externalId) {
      var i :| 0 <= i < |few| && few[i].source == Some(source) && few[i].externalId == Some(d.externalId);
      assert many[i] == few[i];
    } else {
      var i :| 0 <= i < |few| && RowPair(few[i]) == PairOf(d, resolve);
      assert many[i] == few[i];
    }
  }

  lemma {:induction false} NoDividendIsLost(
    rows: seq<DividendRow>, source: string, batch: seq<ParsedDividend>, resolve: Resolver)
    ensures forall i | 0 <= i < |batch| ::
      Represented(WithDividends(rows, source, batch, resolve), source, batch[i], resolve)
  {
    if batch != [] {
      var n := |batch| - 1;
      NoDividendIsLost(rows, source, batch[..n], resolve);
      var before := WithDividends(rows, source, batch[..n], resolve);
      var after := WithDividends(rows, source, batch, resolve);
      assert before <= after;
      forall i | 0 <= i < |batch| ensures Represented(after, source, batch[i], resolve) {
        if i < n {
          assert batch[..n][i] == batch[i];
          RepresentedLater(before, after, source, batch[i], resolve);
        } else if before != after {
          assert RowPair(after[|before|]) == PairOf(batch[n], resolve);
        }
      }
    }
  }

  lemma {:induction false} RepresentedIsSkipped(
    rows: seq<DividendRow>, source: string, batch: seq<ParsedDividend>, resolve: Resolver)
    requires forall i | 0 <= i < |batch| :: Represented(rows, source, batch[i], resolve)
    ensures WithDividends(rows, source, batch, resolve) == rows
  {
    if batch != [] {
      RepresentedIsSkipped(rows, source, batch[..|batch| - 1], resolve);
    }
  }

  /** Importing a statement again changes nothing. */
  lemma {:induction false} DividendsTwice(
    rows: seq<DividendRow>, source: string, batch: seq<ParsedDividend>, resolve: Resolver)
    ensures var once := WithDividends(rows, source, batch, resolve);
      WithDividends(once, source, batch, resolve) == once
  {
    hide WithDividends, Represented;
    NoDividendIsLost(rows, source, batch, resolve);
    RepresentedIsSkipped(WithDividends(rows, source, batch, resolve), source, batch, resolve);
  }

  // ---- when dividend imports converge ----

  /** A dividend as one broker reports it. */
  type Report = (string, ParsedDividend)

  /** All dividends the statements of a run report. */
  ghost function DividendReports(imports: seq<DividendImport>): set<Report> {
    set i, j | 0 <= i < |imports| && 0 <= j < |imports[i].batch| :: (imports[i].source, imports[i].batch[j])
  }

  ghost function BatchReports(source: string, batch: seq<ParsedDividend>): set<Report> {
    set j | 0 <= j < |batch| :: (source, batch[j])
  }

  function ReportRow(r: Report, resolve: Resolver): DividendRow { DividendOf(r.0, r.1, resolve) }

  ghost function ReportRows(reports: set<Report>, resolve: Resolver): set<DividendRow> {
    set r | r in reports :: ReportRow(r, resolve)
  }

  ghost function RowSet(rows: seq<DividendRow>): set<DividendRow> { set r | r in rows }

  /** The rows fall under one of the two unique keys together. */
  predicate SameKey(a: DividendRow, b: DividendRow) {
    (a.source == b.source && a.externalId == b.externalId) || RowPair(a) == RowPair(b)
  }

  /** Reports that share a key stand for the same row. */
  ghost predicate Compatible(reports: set<Report>, resolve: Resolver) {
    forall r, q | r in reports && q in reports && SameKey(ReportRow(r, resolve), ReportRow(q, resolve)) ::
      ReportRow(r, resolve) == ReportRow(q, resolve)
  }

  /** Any two runs over the same reports, in any order and with any repetition, store the same rows. */
  ghost predicate Converges(reports: set<Report>, resolve: Resolver) {
    forall a, b | DividendReports(a) == reports && DividendReports(b) == reports ::
      RowSet(AfterImports([], a, resolve)) == RowSet(AfterImports([], b, resolve))
  }

  lemma BatchReportsSnoc(source: string, batch: seq<ParsedDividend>)
    requires batch != []
    ensures BatchReports(source, batch)
      == BatchReports(source, batch[..|batch| - 1]) + {(source, batch[|batch| - 1])}
  {
    var init := batch[..|batch| - 1];
    forall r | r in BatchReports(source, init) ensures r in BatchReports(source, batch) {
      var j :| 0 <= j < |init| && r == (source, init[j]);
      assert batch[j] == init[j];
    }
    forall r | r in BatchReports(source, batch)
      ensures r in BatchReports(source, init) || r == (source, batch[|batch| - 1])
    {
      var j :| 0 <= j < |batch| && r == (source, batch[j]);
      if j < |init| { assert batch[j] == init[j]; }
    }
  }

  lemma DividendReportsSnoc(imports: seq<DividendImport>)
    requires imports != []
    ensures var last := imports[|imports| - 1];
      DividendReports(imports) == DividendReports(imports[..|imports| - 1]) + BatchReports(last.source, last.batch)
  {
    var n := |imports| - 1;
    forall r | r in DividendReports(imports[..n]) ensures r in DividendReports(imports) {
      var i, j :| 0 <= i < n && 0 <= j < |imports[..n][i].batch|
        && r == (imports[..n][i].source, imports[..n][i].batch[j]);
      assert imports[i].batch[j] == imports[..n][i].batch[j];
    }
    forall r | r in BatchReports(imports[n].source, imports[n].batch) ensures r in DividendReports(imports) {
      var j :| 0 <= j < |imports[n].batch| && r == (imports[n].source, imports[n].batch[j]);
    }
    forall r | r in DividendReports(imports)
      ensures r in DividendReports(imports[..n]) || r in BatchReports(imports[n].source, imports[n].batch)
    {
      var i, j :| 0 <= i < |imports| && 0 <= j < |imports[i].batch| && r == (imports[i].source, imports[i].batch[j]);
      if i < n { assert imports[..n][i].batch[j] == imports[i].batch[j]; }
    }
  }

  lemma KeysOfTable(rows: seq<DividendRow>, source: string, d: ParsedDividend, resolve: Resolver)
    ensures HasDividendId(rows, source, d.externalId) || HasPair(rows, PairOf(d, resolve))
      <==> exists i :: 0 <= i < |rows| && SameKey(rows[i], DividendOf(source, d, resolve))
  {
    var row := DividendOf(source, d, resolve);
    if HasDividendId(rows, source, d.externalId) {
      var i :| 0 <= i < |rows| && rows[i].source == Some(source) && rows[i].externalId == Some(d.externalId);
      assert SameKey(rows[i], row);
    }
    if HasPair(rows, PairOf(d, resolve)) {
      var i :| 0 <= i < |rows| && RowPair(rows[i]) == PairOf(d, resolve);
      assert SameKey(rows[i], row);
    }
    if i :| 0 <= i < |rows| && SameKey(rows[i], row) {
      assert HasDividendId(rows, source, d.externalId) || HasPair(rows, PairOf(d, resolve));
    }
  }

  /** Among compatible reports a dividend is skipped only when its own row is already there. */
  lemma {:induction false} CompatibleBatch(
    rows: seq<DividendRow>, source: string, batch: seq<ParsedDividend>, resolve: Resolver, known: set<Report>,
      all: set<Report>)
    requires Compatible(all, resolve) && known + BatchReports(source, batch) <= all
    requires RowSet(rows) == ReportRows(known, resolve)
    ensures RowSet(WithDividends(rows, source, batch, resolve))
      == ReportRows(known + BatchReports(source, batch), resolve)
  {
    if batch == [] {
      assert known + BatchReports(source, batch) == known;
    } else {
      var n := |batch| - 1;
      var before, d := WithDividends(rows, source, batch[..n], resolve), batch[n];
      BatchReportsSnoc(source, batch);
      CompatibleBatch(rows, source, batch[..n], resolve, known, all);
      var reported := known + BatchReports(source, batch[..n]);
      CompatibleOne(before, (source, d), resolve, reported, all);
      assert known + BatchReports(source, batch) == reported + {(source, d)};
    }
  }

  lemma CompatibleOne(rows: seq<DividendRow>, r: Report, resolve: Resolver, known: set<Report>, all: set<Report>)
    requires Compatible(all, resolve) && known <= all && r in all && RowSet(rows) == ReportRows(known, resolve)
    ensures var after := if HasDividendId(rows, r.0, r.1.externalId) || HasPair(rows, PairOf(r.1, resolve))
              then rows else rows + [ReportRow(r, resolve)];
      RowSet(after) == ReportRows(known + {r}, resolve)
  {
    hide HasDividendId, HasPair, SameKey, DividendOf;
    KeysOfTable(rows, r.0, r.1, resolve);
    var row := ReportRow(r, resolve);
    assert ReportRows(known + {r}, resolve) == ReportRows(known, resolve) + {row};
    if i :| 0 <= i < |rows| && SameKey(rows[i], row) {
      assert rows[i] in RowSet(rows);
      var q :| q in known && ReportRow(q, resolve) == rows[i];
      assert row == rows[i];
    } else {
      assert RowSet(rows + [row]) == RowSet(rows) + {row};
    }
  }

  /** Compatible reports are stored one row each. */
  lemma {:induction false} CompatibleRun(imports: seq<DividendImport>, resolve: Resolver, all: set<Report>)
    requires Compatible(all, resolve) && DividendReports(imports) <= all
    ensures RowSet(AfterImports([], imports, resolve)) == ReportRows(DividendReports(imports), resolve)
  {
    if imports != [] {
      var n := |imports| - 1;
      DividendReportsSnoc(imports);
      CompatibleRun(imports[..n], resolve, all);
      hide Compatible, RowSet, ReportRows, DividendReports, BatchReports;
      CompatibleBatch(AfterImports([], imports[..n], resolve), imports[n].source, imports[n].batch, resolve,
                      DividendReports(imports[..n]), all);
    }
  }

  /** Some run reports exactly these dividends. */
  ghost function RunOf(reports: set<Report>): seq<DividendImport>
    decreases |reports|
  {
    if reports == {} then []
    else
      var r :| r in reports;
      RunOf(reports - {r}) + [DividendImport(r.0, [r.1])]
  }

  lemma {:induction false} RunOfReports(reports: set<Report>)
    ensures DividendReports(RunOf(reports)) == reports
    decreases |reports|
  {
    if reports != {} {
      var r :| r in reports && RunOf(reports) == RunOf(reports - {r}) + [DividendImport(r.0, [r.1])];
      RunOfReports(reports - {r});
      var run := RunOf(reports);
      assert run[..|run| - 1] == RunOf(reports - {r});
      DividendReportsSnoc(run);
      assert BatchReports(r.0, [r.1]) == {r} by {
        BatchReportsSnoc(r.0, [r.1]);
        assert [r.1][..0] == [];
      }
    }
  }

  lemma {:induction false} ImportsExtend(
    rows: seq<DividendRow>, first: DividendImport, rest: seq<DividendImport>, resolve: Resolver)
    ensures AfterImports(rows, [first] + rest, resolve)
      == AfterImports(AfterImports(rows, [first], resolve), rest, resolve)
  {
    if rest == [] {
      assert [first] + rest == [first];
    } else {
      var n := |rest| - 1;
      ImportsExtend(rows, first, rest[..n], resolve);
      assert ([first] + rest)[..|rest|] == [first] + rest[..n];
    }
  }

  /** A run that reports these dividends and begins with the given one, which it therefore stores. */
  lemma RunStartingWith(reports: set<Report>, r: Report, resolve: Resolver) returns (run: seq<DividendImport>)
    requires r in reports
    ensures DividendReports(run) == reports
    ensures ReportRow(r, resolve) in AfterImports([], run, resolve) && UniqueDividends(AfterImports([], run, resolve))
  {
    var first, rest := DividendImport(r.0, [r.1]), RunOf(reports);
    run := [first] + rest;
    StartsWith(first, rest);
    RunOfReports(reports);
    assert BatchReports(r.0, [r.1]) == {r} by {
      BatchReportsSnoc(r.0, [r.1]);
      assert [r.1][..0] == [];
    }
    ImportsExtend([], first, rest, resolve);
    FirstIsStored(r, resolve);
    ImportsKeepUnique([ReportRow(r, resolve)], rest, resolve);
    assert [ReportRow(r, resolve)][0] == AfterImports([ReportRow(r, resolve)], rest, resolve)[0];
  }

  lemma FirstIsStored(r: Report, resolve: Resolver)
    ensures AfterImports([], [DividendImport(r.0, [r.1])], resolve) == [ReportRow(r, resolve)]
    ensures UniqueDividends([ReportRow(r, resolve)])
  {
    var run := [DividendImport(r.0, [r.1])];
    assert run[..0] == [] && [r.1][..0] == [];
    assert WithDividends([], r.0, [r.1], resolve) == [] + [ReportRow(r, resolve)];
  }

  lemma StartsWith(first: DividendImport, rest: seq<DividendImport>)
    ensures DividendReports([first] + rest) == BatchReports(first.source, first.batch) + DividendReports(rest)
  {
    var run := [first] + rest;
    forall r | r in BatchReports(first.source, first.batch) ensures r in DividendReports(run) {
      var j :| 0 <= j < |first.batch| && r == (first.source, first.batch[j]);
      assert r == (run[0].source, run[0].batch[j]);
    }
    forall r | r in DividendReports(rest) ensures r in DividendReports(run) {
      var i, j :| 0 <= i < |rest| && 0 <= j < |rest[i].batch| && r == (rest[i].source, rest[i].batch[j]);
      assert r == (run[i + 1].source, run[i + 1].batch[j]);
    }
    forall r | r in DividendReports(run)
      ensures r in BatchReports(first.source, first.batch) || r in DividendReports(rest)
    {
      var i, j :| 0 <= i < |run| && 0 <= j < |run[i].batch| && r == (run[i].source, run[i].batch[j]);
      if i > 0 { assert r == (rest[i - 1].source, rest[i - 1].batch[j]); }
    }
  }

  /** One table cannot hold two different rows of the same key. */
  lemma KeysExclude(rows: seq<DividendRow>, r: Report, q: Report, resolve: Resolver)
    requires UniqueDividends(rows) && ReportRow(r, resolve) in rows && ReportRow(q, resolve) in rows
    requires SameKey(ReportRow(r, resolve), ReportRow(q, resolve))
    ensures ReportRow(r, resolve) == ReportRow(q, resolve)
  {
    var i :| 0 <= i < |rows| && rows[i] == ReportRow(r, resolve);
    var j :| 0 <= j < |rows| && rows[j] == ReportRow(q, resolve);
  }

  /**
   From an empty table, runs over the same reported dividends store the same rows, whatever their order and
   repetition, if and only if reports that share an id or a (symbol, day) agree on the row.
   */
  lemma DividendsConvergeIff(reports: set<Report>, resolve: Resolver)
    ensures Converges(reports, resolve) <==> Compatible(reports, resolve)
  {
    if Compatible(reports, resolve) {
      forall a, b | DividendReports(a) == reports && DividendReports(b) == reports
        ensures RowSet(AfterImports([], a, resolve)) == RowSet(AfterImports([], b, resolve))
      {
        CompatibleRun(a, resolve, reports);
        CompatibleRun(b, resolve, reports);
      }
    }
    if Converges(reports, resolve) {
      hide ReportRow, AfterImports, UniqueDividends, SameKey, DividendReports;
      forall r, q | r in reports && q in reports && SameKey(ReportRow(r, resolve), ReportRow(q, resolve))
        ensures ReportRow(r, resolve) == ReportRow(q, resolve)
      {
        var a := RunStartingWith(reports, r, resolve);
        var b := RunStartingWith(reports, q, resolve);
        assert ReportRow(q, resolve) in RowSet(AfterImports([], b, resolve));
        KeysExclude(AfterImports([], a, resolve), r, q, resolve);
      }
    }
  }

  /** Two brokers paying the same dividend on one day are never compatible: they differ in the source alone. */
  lemma TwoBrokersDoNotConverge(
    a: ParsedDividend, b: ParsedDividend, sourceA: string, sourceB: string, resolve: Resolver)
    requires PairOf(a, resolve) == PairOf(b, resolve) && sourceA != sourceB
    ensures !Converges({(sourceA, a), (sourceB, b)}, resolve)
  {
    var reports: set<Report> := {(sourceA, a), (sourceB, b)};
    DividendsConvergeIff(reports, resolve);
    hide Converges;
    assert SameKey(ReportRow((sourceA, a), resolve), ReportRow((sourceB, b), resolve));
  }

  /**
   The shortest failing family: of two brokers paying the same dividend on the same day only the
   first imported one is kept, with its amount.
   */
  lemma FirstBrokerWins(a: ParsedDividend, b: ParsedDividend, sourceA: string, sourceB: string, resolve: Resolver)
    requires PairOf(a, resolve) == PairOf(b, resolve) && a.gross != b.gross
    ensures AfterImports([], [DividendImport(sourceA, [a]), DividendImport(sourceB, [b])], resolve)
      == [DividendOf(sourceA, a, resolve)]
    ensures AfterImports([], [DividendImport(sourceB, [b]), DividendImport(sourceA, [a])], resolve)
      == [DividendOf(sourceB, b, resolve)]
    ensures DividendOf(sourceA, a, resolve) != DividendOf(sourceB, b, resolve)
  {
    SecondReportIsDropped(a, b, sourceA, sourceB, resolve);
    SecondReportIsDropped(b, a, sourceB, sourceA, resolve);
  }

  lemma SecondReportIsDropped(a: ParsedDividend, b: ParsedDividend, sourceA: string, sourceB: string, resolve: Resolver)
    requires PairOf(a, resolve) == PairOf(b, resolve)
    ensures AfterImports([], [DividendImport(sourceA, [a]), DividendImport(sourceB, [b])], resolve)
      == [DividendOf(sourceA, a, resolve)]
  {
    var imports := [DividendImport(sourceA, [a]), DividendImport(sourceB, [b])];
    assert imports[..1] == [DividendImport(sourceA, [a])];
    assert imports[..1][..0] == [];
    assert [a][..0] == [] && [b][..0] == [];
    assert WithDividends([], sourceA, [a], resolve) == [] + [DividendOf(sourceA, a, resolve)];
    assert AfterImports([], imports[..1], resolve) == [DividendOf(sourceA, a, resolve)];
    var stored := [DividendOf(sourceA, a, resolve)];
    assert RowPair(stored[0]) == PairOf(b, resolve);
    assert WithDividends(stored, sourceB, [b][..0], resolve) == stored;
    assert WithDividends(stored, sourceB, [b], resolve) == stored;
  }

  // ---- what a statement does to the money ----

  /** What a parsed row is worth: withdrawals, interest tax and transfers out cost, all other kinds bring the net. */
  function Worth(p: ParsedCash): real {
    if p.kind == "withdraw" || p.kind == "interest_tax" || p.kind == "transfer_out" then -p.amount
    else p.amount - p.withholding
  }

  function TotalWorth(batch: seq<ParsedCash>, currency: string): real {
    if batch == [] then 0.0
    else
      var p := batch[|batch| - 1];
      TotalWorth(batch[..|batch| - 1], currency) + if p.currency == currency then Worth(p) else 0.0
  }

  /** Each kind a statement names is the kind that is stored; any other name is stored as interest. */
  lemma KindIsNamed(source: string, p: ParsedCash)
    ensures var r := ImportedRow(source, p);
      && (r.kind == InterestTax <==> p.kind == "interest_tax") && (r.kind == Deposit <==> p.kind == "deposit")
      && (r.kind == Withdraw <==> p.kind == "withdraw") && (r.kind == TransferIn <==> p.kind == "transfer_in")
      && (r.kind == TransferOut <==> p.kind == "transfer_out")
      && r.at == p.at && r.externalId == Some(p.externalId)
    ensures Moved(ImportedRow(source, p)) == Worth(p)
  {
    DistinctKinds();
  }

  lemma DistinctKinds()
    ensures "interest_tax" != "deposit" && "interest_tax" != "withdraw" && "interest_tax" != "transfer_in"
    ensures "interest_tax" != "transfer_out" && "deposit" != "withdraw" && "deposit" != "transfer_in"
    ensures "deposit" != "transfer_out" && "withdraw" != "transfer_in" && "withdraw" != "transfer_out"
    ensures "transfer_in" != "transfer_out"
  {
    assert |"interest_tax"| == |"transfer_out"| && "interest_tax"[0] != "transfer_out"[0];
  }

  lemma OpeningIs(r: CashRow, source: string)
    ensures IsOpening(r, source)
      <==> r.source == Some(source) && r.externalId.Some? && "toss-opening-" <= r.externalId.value
  {
    hide LikePrefix;
    if r.externalId.Some? {
      LikeIsPrefix(r.externalId.value, OPENING_PREFIX);
    }
  }

  /** The source has not stored the ids of the batch, they do not repeat, and none is an opening's. */
  ghost predicate Fresh(cash: seq<CashRow>, source: string, batch: seq<ParsedCash>) {
    && (forall i, j | 0 <= i < |cash| && 0 <= j < |batch| && cash[i].source == Some(source) ::
          cash[i].externalId != Some(batch[j].externalId))
    && (forall i, j | 0 <= i < j < |batch| :: batch[i].externalId != batch[j].externalId)
    && (forall j | 0 <= j < |batch| :: !("toss-opening-" <= batch[j].externalId))
  }

  ghost predicate OneOpening(cash: seq<CashRow>, source: string) {
    forall i, j | 0 <= i < |cash| && 0 <= j < |cash| && IsOpening(cash[i], source) && IsOpening(cash[j], source) ::
        i == j
  }

  function Rows(source: string, batch: seq<ParsedCash>): seq<CashRow> {
    if batch == [] then [] else Rows(source, batch[..|batch| - 1]) + [ImportedRow(source, batch[|batch| - 1])]
  }

  lemma {:induction false} RowsAt(source: string, batch: seq<ParsedCash>)
    ensures |Rows(source, batch)| == |batch|
    ensures forall i | 0 <= i < |batch| :: Rows(source, batch)[i] == ImportedRow(source, batch[i])
  {
    if batch != [] {
      RowsAt(source, batch[..|batch| - 1]);
      hide ImportedRow;
    }
  }

  /** A fresh batch is appended as it is. */
  lemma {:induction false} FreshIsAppended(cash: seq<CashRow>, source: string, batch: seq<ParsedCash>)
    requires Fresh(cash, source, batch)
    ensures Imported(cash, source, batch) == cash + Rows(source, batch)
  {
    if batch == [] {
      assert cash + [] == cash;
    } else {
      var init, p := batch[..|batch| - 1], batch[|batch| - 1];
      FreshIsAppended(cash, source, init);
      RowsAt(source, init);
      var before := cash + Rows(source, init);
      forall i | 0 <= i < |before| && before[i].source == Some(source)
        ensures before[i].externalId != Some(p.externalId)
      {
        if i >= |cash| { assert before[i] == ImportedRow(source, init[i - |cash|]); }
      }
      hide ImportedRow;
      assert before + [ImportedRow(source, p)] == cash + (Rows(source, init) + [ImportedRow(source, p)]);
    }
  }

  /** Rows that are no openings leave nothing to collapse. */
  lemma {:induction false} FreshKeepsOpenings(cash: seq<CashRow>, source: string, batch: seq<ParsedCash>)
    requires Fresh(cash, source, batch) && OneOpening(cash, source)
    ensures AfterStatement(cash, source, batch) == cash + Rows(source, batch)
  {
    FreshIsAppended(cash, source, batch);
    RowsAt(source, batch);
    var all := cash + Rows(source, batch);
    forall i | 0 <= i < |all| && IsOpening(all[i], source) ensures i < |cash| && all[i] == cash[i] {
      OpeningIs(all[i], source);
    }
    hide IsOpening, EarliestOpening, Imported, Rows;
    if batch == [] {
      assert all == cash;
    } else {
      KeepsOnlyOpening(all, source);
    }
  }

  lemma KeepsOnlyOpening(cash: seq<CashRow>, source: string)
    requires OneOpening(cash, source)
    ensures Collapsed(cash, source) == cash
  {
    var k := EarliestOpening(cash, source);
    hide EarliestOpening, IsOpening;
    if k.Some? {
      NothingToDrop(cash, source, k.value);
    }
  }

  lemma {:induction false} RowsMoveMoney(
    db: Db, source: string, batch: seq<ParsedCash>, name: string, currency: string)
    ensures var after := db.(cash := db.cash + Rows(source, batch));
      Flow(Signals(after), name, currency) - Flow(Signals(db), name, currency)
      == if Under(Some(source), name) then TotalWorth(batch, currency) else 0.0
  {
    if batch == [] {
      assert db.cash + [] == db.cash;
    } else {
      var init, p := batch[..|batch| - 1], batch[|batch| - 1];
      RowsMoveMoney(db, source, init, name, currency);
      hide Signals, Flow, Under, Worth, Moved;
      var before := db.(cash := db.cash + Rows(source, init));
      var row := ImportedRow(source, p);
      CashEffect(before, row, name, currency);
      KindIsNamed(source, p);
      assert (db.cash + Rows(source, init)) + [row] == db.cash + Rows(source, batch);
    }
  }

  /**
   Importing fresh rows into a source moves the balance that goes under its name, and no other, by what the parsed
   rows of the currency are worth.
   */
  lemma {:induction false} StatementMovesMoney(
    db: Db, source: string, batch: seq<ParsedCash>, name: string, currency: string)
    requires Fresh(db.cash, source, batch) && OneOpening(db.cash, source)
    ensures var after := db.(cash := AfterStatement(db.cash, source, batch));
      Flow(Signals(after), name, currency) - Flow(Signals(db), name, currency)
      == if Under(Some(source), name) then TotalWorth(batch, currency) else 0.0
  {
    FreshKeepsOpenings(db.cash, source, batch);
    RowsMoveMoney(db, source, batch, name, currency);
    hide Signals, Flow, AfterStatement;
  }

  // ---- what a dividend does to the money ----

  /** The day whose 86400 seconds, counted in Korean time, contain the instant. */
  lemma KoreanDayIs(at: int)
    ensures KoreanDay(at) * 86400 <= at + 9 * 3600 < (KoreanDay(at) + 1) * 86400
  {}

  /** Neither the id of the source nor the symbol on that Korean day is stored yet. */
  ghost predicate NewDividend(rows: seq<DividendRow>, source: string, d: ParsedDividend, resolve: Resolver) {
    && (forall i | 0 <= i < |rows| && rows[i].source == Some(source) :: rows[i].externalId != Some(d.externalId))
    && (forall i | 0 <= i < |rows| && rows[i].symbol == resolve(d.symbol) ::
          !(rows[i].exDate * 86400 <= d.at + 9 * 3600 < (rows[i].exDate + 1) * 86400))
  }

  lemma {:induction false} NewDividendIsStored(
    rows: seq<DividendRow>, source: string, d: ParsedDividend, resolve: Resolver)
    ensures WithDividends(rows, source, [d], resolve)
      == if NewDividend(rows, source, d, resolve) then rows + [DividendOf(source, d, resolve)] else rows
  {
    assert [d][..0] == [];
    forall day: int ensures day == KoreanDay(d.at) <==> day * 86400 <= d.at + 9 * 3600 < (day + 1) * 86400 {
      SameDay(day, d.at);
    }
    hide KoreanDay;
    assert WithDividends(rows, source, [], resolve) == rows;
  }

  lemma SameDay(day: int, at: int)
    ensures day == KoreanDay(at) <==> day * 86400 <= at + 9 * 3600 < (day + 1) * 86400
  {}

  /** A new dividend credits its source with gross less withholding, one already there moves nothing. */
  lemma {:induction false} DividendMovesMoney(
    db: Db, source: string, d: ParsedDividend, resolve: Resolver, name: string, currency: string)
    ensures var after := db.(dividends := WithDividends(db.dividends, source, [d], resolve));
      Flow(Signals(after), name, currency) - Flow(Signals(db), name, currency)
      == if NewDividend(db.dividends, source, d, resolve) && Under(Some(source), name) && d.currency == currency
         then d.gross - d.withholding else 0.0
  {
    NewDividendIsStored(db.dividends, source, d, resolve);
    hide Signals, Flow, Under, WithDividends, NewDividend;
    CashFlow.DividendEffect(db, DividendOf(source, d, resolve), name, currency);
  }
}
