/**
 The transaction service's single-row operations, adding, replacing and deleting, with the total-holding check
 they make and what that check keeps over a run.
 */
module TransactionEdits {
  import opened Common
  import opened Ledger
  import opened MovingAverage
  import opened BulkImport

  /** The fields a request carries; the schema demands a positive quantity and price. */
  datatype Fields = Fields(side: Side, qty: real, price: real, at: int)

  predicate ValidFields(f: Fields) { f.qty > 0.0 && f.price > 0.0 }

  function RowOf(id: int, asset: int, f: Fields): Tx { Tx(id, asset, f.side, f.qty, f.price, f.at) }

  datatype Op =
    | Add(asset: int, fields: Fields)
    | Edit(asset: int, id: int, fields: Fields)
    | Remove(asset: int, id: int)

  datatype Outcome = Done | NotFound | InsufficientHolding

  datatype Ledgers = Ledgers(registered: set<int>, rows: seq<Tx>, nextId: int)

  /** Where the asset's row with this id is stored. */
  function Place(rows: seq<Tx>, asset: int, id: int): (k: Option<nat>)
    ensures k.Some? ==> k.value < |rows| && rows[k.value].id == id && rows[k.value].asset == asset
    ensures k == None ==> forall i | 0 <= i < |rows| :: rows[i].id != id || rows[i].asset != asset
  {
    if rows == [] then None
    else
      var last := |rows| - 1;
      if rows[last].id == id && rows[last].asset == asset then Some(last) else Place(rows[..last], asset, id)
  }

  /** Bought minus sold of one asset over the whole table. */
  function Remaining(rows: seq<Tx>, asset: int): real { Net(Only(rows, asset)) }

  /** The table an operation asks for, before any holding check. */
  function Wanted(s: Ledgers, op: Op): Option<Ledgers> {
    if op.asset !in s.registered then None
    else match op {
      case Add(asset, f) => Some(s.(rows := s.rows + [RowOf(s.nextId, asset, f)], nextId := s.nextId + 1))
      case Edit(asset, id, f) =>
        var k := Place(s.rows, asset, id);
        if k == None then None else Some(s.(rows := s.rows[k.value := RowOf(id, asset, f)]))
      case Remove(asset, id) =>
        var k := Place(s.rows, asset, id);
        if k == None then None else Some(s.(rows := s.rows[..k.value] + s.rows[k.value + 1..]))
    }
  }

  /** Which results the holding check lets through: a BUY may always be added, and a deletion is never checked. */
  predicate Passes(s: Ledgers, op: Op)
    requires Wanted(s, op).Some?
  {
    op.Remove? || (op.Add? && op.fields.side == Buy) || Remaining(Wanted(s, op).value.rows, op.asset) >= 0.0
  }

  function OutcomeOf(s: Ledgers, op: Op): Outcome {
    if Wanted(s, op) == None then NotFound else if Passes(s, op) then Done else InsufficientHolding
  }

  function Applied(s: Ledgers, op: Op): Ledgers {
    if OutcomeOf(s, op) == Done then Wanted(s, op).value else s
  }

  class TransactionService {
    const registered: set<int>
    var rows: seq<Tx>
    var nextId: int

    constructor (assets: set<int>)
      ensures Value() == Ledgers(assets, [], 1)
    {
      registered, rows, nextId := assets, [], 1;
    }

    function Value(): Ledgers
      reads this
    {
      Ledgers(registered, rows, nextId)
    }

    method Add(asset: int, f: Fields) returns (o: Outcome)
      requires ValidFields(f)
      modifies this
      ensures o == OutcomeOf(old(Value()), Op.Add(asset, f)) && Value() == Applied(old(Value()), Op.Add(asset, f))
      ensures o == Done ==>
        rows == old(rows) + [Tx(old(nextId), asset, f.side, f.qty, f.price, f.at)] && nextId == old(nextId) + 1
    {
      RemainingAdded(rows, RowOf(nextId, asset, f));
      hide Only;
      if asset !in registered {
        return NotFound;
      }
      if f.side == Sell {
        var bought, boughtCost, sold, soldValue := GetSummary(Only(rows, asset));
        NetIsBoughtLessSold(Only(rows, asset));
        var remaining := bought - sold;
        if f.qty > remaining {
          return InsufficientHolding;
        }
      }
      rows, nextId := rows + [RowOf(nextId, asset, f)], nextId + 1;
      o := Done;
    }

    /** The check recomputes the total from the sums with the old row taken out. */
    method Edit(asset: int, id: int, f: Fields) returns (o: Outcome)
      requires ValidFields(f)
      modifies this
      ensures o == OutcomeOf(old(Value()), Op.Edit(asset, id, f))
        && Value() == Applied(old(Value()), Op.Edit(asset, id, f))
      ensures o == Done ==> exists k ::
        && 0 <= k < |old(rows)| && old(rows)[k].id == id && old(rows)[k].asset == asset
        && rows == old(rows)[k := Tx(id, asset, f.side, f.qty, f.price, f.at)]
    {
      hide Only;
      if asset !in registered {
        return NotFound;
      }
      var k := Place(rows, asset, id);
      if k == None {
        return NotFound;
      }
      RemainingUpdated(rows, k.value, RowOf(id, asset, f));
      var tx := rows[k.value];
      var bought, boughtCost, sold, soldValue := GetSummary(Only(rows, asset));
      NetIsBoughtLessSold(Only(rows, asset));
      var otherBought := if tx.side == Buy then bought - tx.qty else bought;
      var otherSold := if tx.side == Sell then sold - tx.qty else sold;
      var hypothetical := if f.side == Buy then otherBought + f.qty - otherSold else otherBought - otherSold - f.qty;
      assert Remaining(rows, asset) == bought - sold;
      assert Share(tx, asset) == Signed(tx);
      assert Remaining(rows[k.value := RowOf(id, asset, f)], asset)
          == Remaining(rows, asset) - Share(tx, asset) + Share(RowOf(id, asset, f), asset);
      assert hypothetical == Remaining(rows[k.value := RowOf(id, asset, f)], asset);
      if hypothetical < 0.0 {
        return InsufficientHolding;
      }
      rows := rows[k.value := RowOf(id, asset, f)];
      o := Done;
    }

    method Remove(asset: int, id: int) returns (o: Outcome)
      modifies this
      ensures o == OutcomeOf(old(Value()), Op.Remove(asset, id))
        && Value() == Applied(old(Value()), Op.Remove(asset, id))
    {
      if asset !in registered {
        return NotFound;
      }
      var k := Place(rows, asset, id);
      if k == None {
        return NotFound;
      }
      rows := rows[..k.value] + rows[k.value + 1..];
      o := Done;
    }
  }

  // ---- how one row moves the totals ----

  lemma {:induction false} NetConcat(a: seq<Tx>, b: seq<Tx>)
    ensures Net(a + b) == Net(a) + Net(b)
  {
    if b == [] {
      assert a + b == a;
    } else {
      assert (a + b)[..|a + b| - 1] == a + b[..|b| - 1];
      NetConcat(a, b[..|b| - 1]);
    }
  }

  function Share(t: Tx, asset: int): real { if t.asset == asset then Signed(t) else 0.0 }

  lemma RemainingConcat(a: seq<Tx>, b: seq<Tx>, asset: int)
    ensures Remaining(a + b, asset) == Remaining(a, asset) + Remaining(b, asset)
  {
    OnlyConcat(a, b, asset);
    NetConcat(Only(a, asset), Only(b, asset));
  }

  lemma RemainingOne(t: Tx, asset: int)
    ensures Remaining([t], asset) == Share(t, asset)
  {
    assert [t][..0] == [];
    assert Only([t], asset) == if t.asset == asset then [t] else [];
    assert Net([t]) == Signed(t) && Net([]) == 0.0;
  }

  lemma RemainingAdded(rows: seq<Tx>, t: Tx)
    ensures forall a :: Remaining(rows + [t], a) == Remaining(rows, a) + Share(t, a)
  {
    hide Remaining;
    forall a ensures Remaining(rows + [t], a) == Remaining(rows, a) + Share(t, a) {
      RemainingConcat(rows, [t], a);
      RemainingOne(t, a);
    }
  }

  lemma RemainingRemoved(rows: seq<Tx>, k: nat)
    requires k < |rows|
    ensures forall a :: Remaining(rows[..k] + rows[k + 1..], a) == Remaining(rows, a) - Share(rows[k], a)
  {
    hide Remaining;
    var left, t, right := rows[..k], rows[k], rows[k + 1..];
    assert rows == left + ([t] + right);
    forall a ensures Remaining(left + right, a) == Remaining(rows, a) - Share(t, a) {
      RemainingConcat(left, right, a);
      RemainingConcat(left, [t] + right, a);
      RemainingConcat([t], right, a);
      RemainingOne(t, a);
    }
  }

  lemma RemainingUpdated(rows: seq<Tx>, k: nat, t: Tx)
    requires k < |rows|
    ensures forall a :: Remaining(rows[k := t], a) == Remaining(rows, a) - Share(rows[k], a) + Share(t, a)
  {
    hide Remaining;
    var left, right := rows[..k], rows[k + 1..];
    assert rows[k := t] == left + ([t] + right);
    RemainingRemoved(rows, k);
    forall a ensures Remaining(rows[k := t], a) == Remaining(rows, a) - Share(rows[k], a) + Share(t, a) {
      RemainingConcat(left, right, a);
      RemainingConcat(left, [t] + right, a);
      RemainingConcat([t], right, a);
      RemainingOne(t, a);
    }
  }

  // ---- what the checks keep ----

  /** No asset has sold more in total than it bought. */
  ghost predicate TotalsCovered(rows: seq<Tx>) { forall a :: Remaining(rows, a) >= 0.0 }

  predicate ValidOp(op: Op) { op.Remove? || ValidFields(op.fields) }

  /** Adding and replacing keep every total covered. */
  lemma EditsKeepTotals(s: Ledgers, op: Op)
    requires TotalsCovered(s.rows) && ValidOp(op) && !op.Remove?
    ensures TotalsCovered(Applied(s, op).rows)
  {
    hide Remaining;
    match op {
      case Add(asset, f) => RemainingAdded(s.rows, RowOf(s.nextId, asset, f));
      case Edit(asset, id, f) =>
        var k := Place(s.rows, asset, id);
        if k.Some? && OutcomeOf(s, op) == Done {
          RemainingUpdated(s.rows, k.value, RowOf(id, asset, f));
          var rows := s.rows[k.value := RowOf(id, asset, f)];
          assert Applied(s, op).rows == rows;
          forall a ensures Remaining(rows, a) >= 0.0 {
            assert a != asset ==> Remaining(rows, a) == Remaining(s.rows, a);
          }
        }
    }
  }

  /** A deletion keeps them exactly when the deleted row is a SELL, or a BUY no larger than what remains. */
  lemma {:induction false} RemoveKeepsTotalsIff(s: Ledgers, asset: int, id: int)
    requires TotalsCovered(s.rows) && (forall t | t in s.rows :: t.qty > 0.0)
    requires asset in s.registered && Place(s.rows, asset, id).Some?
    ensures var t := s.rows[Place(s.rows, asset, id).value];
      TotalsCovered(Applied(s, Remove(asset, id)).rows) <==> t.side == Sell || t.qty <= Remaining(s.rows, asset)
  {
    hide Remaining;
    var k := Place(s.rows, asset, id).value;
    var t := s.rows[k];
    assert t in s.rows;
    RemainingRemoved(s.rows, k);
    var rows := s.rows[..k] + s.rows[k + 1..];
    assert Applied(s, Remove(asset, id)).rows == rows;
    assert Remaining(rows, asset) == Remaining(s.rows, asset) - Signed(t);
    assert forall a | a != asset :: Remaining(rows, a) == Remaining(s.rows, a);
  }

  function Run(s: Ledgers, ops: seq<Op>): Ledgers {
    if ops == [] then s else Applied(Run(s, ops[..|ops| - 1]), ops[|ops| - 1])
  }

  /** Over any run of additions and replacements, no total ever goes negative. */
  lemma {:induction false} RunKeepsTotals(s: Ledgers, ops: seq<Op>)
    requires TotalsCovered(s.rows) && forall i | 0 <= i < |ops| :: ValidOp(ops[i]) && !ops[i].Remove?
    ensures TotalsCovered(Run(s, ops).rows)
  {
    hide TotalsCovered, Applied;
    if ops != [] {
      RunKeepsTotals(s, ops[..|ops| - 1]);
      EditsKeepTotals(Run(s, ops[..|ops| - 1]), ops[|ops| - 1]);
    }
  }

  // ---- what the checks do not keep: the ledger at every instant ----

  /** Bought minus sold of one asset up to T. */
  function HeldAt(rows: seq<Tx>, asset: int, T: int): real { NetUpto(Only(rows, asset), T) }

  /** A row's part in that sum. */
  function ShareAt(t: Tx, asset: int, T: int): real { if t.asset == asset && t.at <= T then Signed(t) else 0.0 }

  lemma HeldAtConcat(a: seq<Tx>, b: seq<Tx>, asset: int, T: int)
    ensures HeldAt(a + b, asset, T) == HeldAt(a, asset, T) + HeldAt(b, asset, T)
  {
    OnlyConcat(a, b, asset);
    NetUptoConcat(Only(a, asset), Only(b, asset), T);
  }

  lemma HeldAtOne(t: Tx, asset: int, T: int)
    ensures HeldAt([t], asset, T) == ShareAt(t, asset, T)
  {
    assert [t][..0] == [];
    assert Only([t], asset) == if t.asset == asset then [t] else [];
    assert NetUpto([], T) == 0.0 && NetUpto([t], T) == if t.at <= T then Signed(t) else 0.0;
  }

  lemma HeldAtAdded(rows: seq<Tx>, t: Tx, asset: int, T: int)
    ensures HeldAt(rows + [t], asset, T) == HeldAt(rows, asset, T) + ShareAt(t, asset, T)
  {
    HeldAtConcat(rows, [t], asset, T);
    HeldAtOne(t, asset, T);
  }

  lemma HeldAtRemoved(rows: seq<Tx>, k: nat, asset: int, T: int)
    requires k < |rows|
    ensures HeldAt(rows[..k] + rows[k + 1..], asset, T) == HeldAt(rows, asset, T) - ShareAt(rows[k], asset, T)
  {
    hide HeldAt;
    var left, right := rows[..k], rows[k + 1..];
    assert rows == left + ([rows[k]] + right);
    HeldAtConcat(left, right, asset, T);
    HeldAtConcat(left, [rows[k]] + right, asset, T);
    HeldAtConcat([rows[k]], right, asset, T);
    HeldAtOne(rows[k], asset, T);
  }

  lemma HeldAtUpdated(rows: seq<Tx>, k: nat, t: Tx, asset: int, T: int)
    requires k < |rows|
    ensures HeldAt(rows[k := t], asset, T)
      == HeldAt(rows, asset, T) - ShareAt(rows[k], asset, T) + ShareAt(t, asset, T)
  {
    hide HeldAt;
    var left, right := rows[..k], rows[k + 1..];
    assert rows[k := t] == left + ([t] + right);
    HeldAtRemoved(rows, k, asset, T);
    HeldAtConcat(left, right, asset, T);
    HeldAtConcat(left, [t] + right, asset, T);
    HeldAtConcat([t], right, asset, T);
    HeldAtOne(t, asset, T);
  }

  /** The asset's stored ledger never caps a SELL. */
  ghost predicate NeverCaps(rows: seq<Tx>, asset: int) { NeverOversold(StoredFor(rows, asset)) }

  lemma NeverCapsIff(rows: seq<Tx>, asset: int)
    requires Positive(rows)
    ensures NeverCaps(rows, asset) <==> forall T: int :: HeldAt(rows, asset, T) >= 0.0
  {
    OnlySound(rows, asset);
    StoredNeverOversoldIff(Only(rows, asset));
    hide Only, NeverOversold, NetUpto;
    assert CoveredAtAllTimes(Only(rows, asset)) <==> forall T: int :: HeldAt(rows, asset, T) >= 0.0 by {
      if CoveredAtAllTimes(Only(rows, asset)) {
        forall T: int ensures HeldAt(rows, asset, T) >= 0.0 {
          assert NetUpto(Only(rows, asset), T) >= 0.0;
        }
      }
      if forall T: int :: HeldAt(rows, asset, T) >= 0.0 {
        forall T: int ensures NetUpto(Only(rows, asset), T) >= 0.0 {
          assert HeldAt(rows, asset, T) >= 0.0;
        }
      }
    }
  }

  /** From its own date on, the asset holds at least what the row sells or the deleted row had bought. */
  ghost predicate HoldsFrom(rows: seq<Tx>, asset: int, since: int, qty: real) {
    forall T: int | T >= since :: HeldAt(rows, asset, T) >= qty
  }

  /** At every instant the asset holds at least what replacing the row takes away from that instant. */
  ghost predicate CarriesEdit(rows: seq<Tx>, asset: int, was: Tx, now: Tx) {
    forall T: int :: HeldAt(rows, asset, T) >= ShareAt(was, asset, T) - ShareAt(now, asset, T)
  }

  /** An accepted addition leaves a ledger that never caps exactly when it is a BUY or covered from its own date on. */
  lemma AddNeverCapsIff(s: Ledgers, asset: int, f: Fields)
    requires Positive(s.rows) && ValidFields(f) && NeverCaps(s.rows, asset)
    requires OutcomeOf(s, Add(asset, f)) == Done
    ensures NeverCaps(Applied(s, Add(asset, f)).rows, asset)
      <==> f.side == Buy || HoldsFrom(s.rows, asset, f.at, f.qty)
  {
    var t := RowOf(s.nextId, asset, f);
    var after := s.rows + [t];
    assert Applied(s, Add(asset, f)).rows == after;
    NeverCapsIff(s.rows, asset);
    assert Positive(after);
    NeverCapsIff(after, asset);
    hide HeldAt, NeverCaps, Positive;
    forall T: int ensures HeldAt(after, asset, T) == HeldAt(s.rows, asset, T) + ShareAt(t, asset, T) {
      HeldAtAdded(s.rows, t, asset, T);
    }
    CoverShift(s.rows, after, asset, t);
  }

  lemma CoverShift(rows: seq<Tx>, after: seq<Tx>, asset: int, t: Tx)
    requires t.asset == asset && t.qty > 0.0 && (forall T: int :: HeldAt(rows, asset, T) >= 0.0)
    requires forall T: int :: HeldAt(after, asset, T) == HeldAt(rows, asset, T) + ShareAt(t, asset, T)
    ensures (forall T: int :: HeldAt(after, asset, T) >= 0.0) <==> t.side == Buy || HoldsFrom(rows, asset, t.at, t.qty)
  {
    hide HeldAt;
    if t.side == Sell && forall T: int :: HeldAt(after, asset, T) >= 0.0 {
      forall T: int | T >= t.at ensures HeldAt(rows, asset, T) >= t.qty {
        assert HeldAt(after, asset, T) >= 0.0;
      }
    }
    if t.side == Buy || HoldsFrom(rows, asset, t.at, t.qty) {
      forall T: int ensures HeldAt(after, asset, T) >= 0.0 {
        assert HeldAt(rows, asset, T) >= 0.0;
      }
    }
  }

  /**
   An edit is accepted and leaves a ledger that never caps exactly when every instant carries it. Whatever the
   ledger was before; the total check is implied by it and is not enough on its own.
   */
  lemma {:induction false} EditNeverCapsIff(s: Ledgers, asset: int, id: int, f: Fields)
    requires Positive(s.rows) && ValidFields(f) && asset in s.registered && Place(s.rows, asset, id).Some?
    ensures OutcomeOf(s, Edit(asset, id, f)) == Done && NeverCaps(Applied(s, Edit(asset, id, f)).rows, asset)
      <==> CarriesEdit(s.rows, asset, s.rows[Place(s.rows, asset, id).value], RowOf(id, asset, f))
  {
    var k, t := Place(s.rows, asset, id).value, RowOf(id, asset, f);
    var after := s.rows[k := t];
    assert Wanted(s, Edit(asset, id, f)).value.rows == after;
    assert Positive(after);
    NeverCapsIff(after, asset);
    TotalIsLastInstant(after, asset);
    hide HeldAt, NeverCaps, Positive, Remaining, Place;
    forall T: int
      ensures HeldAt(after, asset, T) == HeldAt(s.rows, asset, T) - ShareAt(s.rows[k], asset, T) + ShareAt(t, asset, T)
    {
      HeldAtUpdated(s.rows, k, t, asset, T);
    }
    EditShift(s.rows, after, asset, s.rows[k], t);
  }

  lemma EditShift(rows: seq<Tx>, after: seq<Tx>, asset: int, was: Tx, now: Tx)
    requires forall T: int ::
      HeldAt(after, asset, T) == HeldAt(rows, asset, T) - ShareAt(was, asset, T) + ShareAt(now, asset, T)
    ensures (forall T: int :: HeldAt(after, asset, T) >= 0.0) <==> CarriesEdit(rows, asset, was, now)
  {
    hide HeldAt, ShareAt;
    if forall T: int :: HeldAt(after, asset, T) >= 0.0 {
      forall T: int ensures HeldAt(rows, asset, T) >= ShareAt(was, asset, T) - ShareAt(now, asset, T) {
        assert HeldAt(after, asset, T) >= 0.0;
      }
    }
    if CarriesEdit(rows, asset, was, now) {
      forall T: int ensures HeldAt(after, asset, T) >= 0.0 {
        assert HeldAt(rows, asset, T) >= ShareAt(was, asset, T) - ShareAt(now, asset, T);
      }
    }
  }

  /** The total is what is held after the last row, so a ledger that never caps has a covered total. */
  lemma TotalIsLastInstant(rows: seq<Tx>, asset: int)
    ensures (forall T: int :: HeldAt(rows, asset, T) >= 0.0) ==> Remaining(rows, asset) >= 0.0
  {
    var own := Only(rows, asset);
    var last := LastInstant(own);
    NetUptoIsNet(own, last);
    assert HeldAt(rows, asset, last) == Remaining(rows, asset);
  }

  lemma {:induction false} LastInstant(txs: seq<Tx>) returns (last: int)
    ensures forall t | t in txs :: t.at <= last
  {
    if txs == [] {
      last := 0;
    } else {
      last := LastInstant(txs[..|txs| - 1]);
      last := if txs[|txs| - 1].at > last then txs[|txs| - 1].at else last;
    }
  }

  /** A deletion keeps a ledger from capping exactly when the row is a SELL, or a BUY that nothing later leans on. */
  lemma {:induction false} RemoveNeverCapsIff(s: Ledgers, asset: int, id: int)
    requires Positive(s.rows) && NeverCaps(s.rows, asset)
    requires asset in s.registered && Place(s.rows, asset, id).Some?
    ensures OutcomeOf(s, Remove(asset, id)) == Done
    ensures var t := s.rows[Place(s.rows, asset, id).value];
      NeverCaps(Applied(s, Remove(asset, id)).rows, asset) <==> t.side == Sell || HoldsFrom(s.rows, asset, t.at, t.qty)
  {
    var k := Place(s.rows, asset, id).value;
    var t := s.rows[k];
    assert t in s.rows;
    var after := s.rows[..k] + s.rows[k + 1..];
    assert Applied(s, Remove(asset, id)).rows == after;
    NeverCapsIff(s.rows, asset);
    assert Positive(after);
    NeverCapsIff(after, asset);
    hide HeldAt, NeverCaps, Positive;
    var opposite := t.(side := if t.side == Buy then Sell else Buy);
    forall T: int ensures HeldAt(after, asset, T) == HeldAt(s.rows, asset, T) + ShareAt(opposite, asset, T) {
      HeldAtRemoved(s.rows, k, asset, T);
    }
    CoverShift(s.rows, after, asset, opposite);
  }

  // ---- inputs that slip through ----

  lemma OwnPair(x: Tx, y: Tx, asset: int, T: int)
    requires x.asset == y.asset == asset
    ensures HeldAt([x, y], asset, T) == ShareAt(x, asset, T) + ShareAt(y, asset, T)
  {
    assert [x] + [y] == [x, y];
    HeldAtConcat([x], [y], asset, T);
    HeldAtOne(x, asset, T);
    HeldAtOne(y, asset, T);
  }

  lemma PairTotals(x: Tx, y: Tx)
    requires x.asset == y.asset
    ensures Remaining([x, y], x.asset) == Signed(x) + Signed(y)
  {
    assert [x] + [y] == [x, y];
    RemainingConcat([x], [y], x.asset);
    RemainingOne(x, x.asset);
    RemainingOne(y, x.asset);
  }

  /** A SELL dated before the BUY that covers it is added and makes the ledger cap. */
  lemma BackdatedSellSlipsThrough()
    ensures var s, f := Ledgers({7}, [Tx(1, 7, Buy, 1.0, 1.0, 5)], 2), Fields(Sell, 1.0, 1.0, 0);
      && NeverCaps(s.rows, 7) && OutcomeOf(s, Add(7, f)) == Done
      && !NeverCaps(Applied(s, Add(7, f)).rows, 7) && Remaining(Applied(s, Add(7, f)).rows, 7) == 0.0
  {
    var b, f := Tx(1, 7, Buy, 1.0, 1.0, 5), Fields(Sell, 1.0, 1.0, 0);
    var s := Ledgers({7}, [b], 2);
    var t := RowOf(2, 7, f);
    hide HeldAt, Remaining, NeverCaps;
    assert [b] + [t] == [b, t];
    PairTotals(b, t);
    CoveredOne(b);
    AddNeverCapsIff(s, 7, f);
    HeldAtOne(b, 7, 0);
    assert HeldAt([b], 7, 0) < 1.0;
  }

  lemma CoveredOne(b: Tx)
    requires b.asset == 7 && b.side == Buy && b.qty > 0.0 && b.price > 0.0
    ensures NeverCaps([b], 7)
  {
    hide HeldAt, NeverCaps;
    forall T: int ensures HeldAt([b], 7, T) >= 0.0 {
      HeldAtOne(b, 7, T);
    }
    NeverCapsIff([b], 7);
  }

  /** Moving a BUY behind its SELL is accepted and makes the ledger cap. */
  lemma PostdatedEditSlipsThrough()
    ensures var s := Ledgers({7}, [Tx(1, 7, Buy, 1.0, 1.0, 0), Tx(2, 7, Sell, 1.0, 1.0, 3)], 3);
      var op := Edit(7, 1, Fields(Buy, 1.0, 1.0, 5));
      && NeverCaps(s.rows, 7) && OutcomeOf(s, op) == Done && !NeverCaps(Applied(s, op).rows, 7)
  {
    hide HeldAt, Remaining, Place, NeverCaps;
    var b, t := Tx(1, 7, Buy, 1.0, 1.0, 0), Tx(2, 7, Sell, 1.0, 1.0, 3);
    var rows, later, f := [b, t], Tx(1, 7, Buy, 1.0, 1.0, 5), Fields(Buy, 1.0, 1.0, 5);
    var s := Ledgers({7}, rows, 3);
    FirstPlace(b, t);
    assert rows[0 := later] == [later, t];
    PairTotals(later, t);
    CoveredPair(b, t);
    EditNeverCapsIff(s, 7, 1, f);
    OwnPair(b, t, 7, 3);
    assert HeldAt(rows, 7, 3) < ShareAt(b, 7, 3) - ShareAt(later, 7, 3);
  }

  /** A BUY and a later SELL of the same quantity never cap. */
  lemma CoveredPair(b: Tx, t: Tx)
    requires b.asset == t.asset == 7 && b.side == Buy && t.side == Sell && b.qty == t.qty > 0.0 && b.at <= t.at
    requires b.price > 0.0 && t.price > 0.0
    ensures NeverCaps([b, t], 7)
  {
    hide HeldAt, NeverCaps;
    forall T: int ensures HeldAt([b, t], 7, T) >= 0.0 {
      OwnPair(b, t, 7, T);
    }
    NeverCapsIff([b, t], 7);
  }

  lemma FirstPlace(x: Tx, y: Tx)
    requires x.id != y.id && x.asset == y.asset
    ensures Place([x, y], x.asset, x.id) == Some(0)
  {
    assert [x, y][..1] == [x];
    assert Place([x], x.asset, x.id) == Some(0);
  }

  /**
   Deleting the BUY behind a SELL keeps the total at zero, because a later BUY makes up for it, and the ledger caps.
   */
  lemma DeletedBuySlipsThrough()
    ensures var rows := [Tx(1, 7, Buy, 1.0, 1.0, 0), Tx(2, 7, Sell, 1.0, 1.0, 3), Tx(3, 7, Buy, 1.0, 1.0, 5)];
      var s := Ledgers({7}, rows, 4);
      && NeverCaps(rows, 7) && Remaining(Applied(s, Remove(7, 1)).rows, 7) == 0.0
      && !NeverCaps(Applied(s, Remove(7, 1)).rows, 7)
  {
    hide HeldAt, Remaining, Place, NeverCaps;
    var a, b, c := Tx(1, 7, Buy, 1.0, 1.0, 0), Tx(2, 7, Sell, 1.0, 1.0, 3), Tx(3, 7, Buy, 1.0, 1.0, 5);
    var rows := [a, b, c];
    var s := Ledgers({7}, rows, 4);
    FirstOfThree(a, b, c);
    assert rows[..0] + rows[1..] == [b, c];
    PairTotals(b, c);
    CoveredTriple(a, b, c);
    RemoveNeverCapsIff(s, 7, 1);
    OwnTriple(a, b, c, 7, 3);
    assert HeldAt(rows, 7, 3) < 1.0;
  }

  lemma FirstOfThree(x: Tx, y: Tx, z: Tx)
    requires x.id != y.id && x.id != z.id && x.asset == y.asset == z.asset
    ensures Place([x, y, z], x.asset, x.id) == Some(0)
  {
    FirstPlace(x, y);
    assert [x, y, z][..2] == [x, y];
  }

  lemma OwnTriple(x: Tx, y: Tx, z: Tx, asset: int, T: int)
    requires x.asset == y.asset == z.asset == asset
    ensures HeldAt([x, y, z], asset, T) == ShareAt(x, asset, T) + ShareAt(y, asset, T) + ShareAt(z, asset, T)
  {
    hide HeldAt;
    assert [x, y, z] == [x, y] + [z];
    HeldAtConcat([x, y], [z], asset, T);
    OwnPair(x, y, asset, T);
    HeldAtOne(z, asset, T);
  }

  lemma CoveredTriple(a: Tx, b: Tx, c: Tx)
    requires a.asset == b.asset == c.asset == 7 && a.side == c.side == Buy && b.side == Sell
    requires a.qty == b.qty > 0.0 && c.qty > 0.0 && a.at <= b.at && a.price > 0.0 && b.price > 0.0 && c.price > 0.0
    ensures NeverCaps([a, b, c], 7)
  {
    hide HeldAt, NeverCaps;
    forall T: int ensures HeldAt([a, b, c], 7, T) >= 0.0 {
      OwnTriple(a, b, c, 7, T);
    }
    NeverCapsIff([a, b, c], 7);
  }
}
