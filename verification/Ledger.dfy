/**
 The transaction ledger: BUY and SELL rows, their order, signed sums, and the closed form of a
 holding that is capped at zero whenever a SELL exceeds it.
 */
module Ledger {
  import opened Common
  import opened Ordering

  datatype Side = Buy | Sell

  /** One row of the `transactions` table; `asset` stands for the user asset and its symbol. */
  datatype Tx = Tx(id: int, asset: int, side: Side, qty: real, price: real, at: int)

  predicate Positive(txs: seq<Tx>) {
    forall t | t in txs :: t.qty > 0.0 && t.price > 0.0
  }

  // ---- the orders of the source ----

  predicate ByTime(a: Tx, b: Tx) { a.at <= b.at }

  function Rank(s: Side): int { if s == Buy then 0 else 1 }

  /** ORDER BY traded_at, BUY before SELL, id. */
  predicate DbOrder(a: Tx, b: Tx) {
    a.at < b.at || (a.at == b.at && (Rank(a.side) < Rank(b.side) || (a.side == b.side && a.id <= b.id)))
  }

  lemma OrdersAreTotal()
    ensures TotalPreorder(ByTime)
    ensures TotalPreorder(DbOrder)
  {}

  /** In the stored order time never falls, a BUY precedes the SELLs of its instant, and else the ids never fall. */
  lemma StoredOrderSays(txs: seq<Tx>, i: nat, j: nat)
    requires SortedBy(txs, DbOrder) && i < j < |txs|
    ensures txs[i].at <= txs[j].at
    ensures txs[i].at == txs[j].at && txs[i].side == Sell ==> txs[j].side == Sell
    ensures txs[i].at == txs[j].at && txs[i].side == txs[j].side ==> txs[i].id <= txs[j].id
  {
    assert DbOrder(txs[i], txs[j]);
  }

  // ---- sums and selections ----

  function Signed(t: Tx): real { if t.side == Buy then t.qty else -t.qty }

  /** Bought minus sold. */
  function Net(txs: seq<Tx>): real {
    if txs == [] then 0.0 else Net(txs[..|txs| - 1]) + Signed(txs[|txs| - 1])
  }

  function Bought(txs: seq<Tx>): real {
    if txs == [] then 0.0
    else Bought(txs[..|txs| - 1]) + (if txs[|txs| - 1].side == Buy then txs[|txs| - 1].qty else 0.0)
  }

  function Sold(txs: seq<Tx>): real {
    if txs == [] then 0.0
    else Sold(txs[..|txs| - 1]) + (if txs[|txs| - 1].side == Sell then txs[|txs| - 1].qty else 0.0)
  }

  lemma {:induction false} NetIsBoughtLessSold(txs: seq<Tx>)
    ensures Net(txs) == Bought(txs) - Sold(txs)
  {
    if txs != [] {
      NetIsBoughtLessSold(txs[..|txs| - 1]);
    }
  }

  /** The rows of one asset, in order. */
  function Only(txs: seq<Tx>, asset: int): seq<Tx> {
    if txs == [] then []
    else
      var t := txs[|txs| - 1];
      Only(txs[..|txs| - 1], asset) + (if t.asset == asset then [t] else [])
  }

  /** The rows traded at or before T, in order. */
  function Upto(txs: seq<Tx>, T: int): seq<Tx> {
    if txs == [] then []
    else
      var t := txs[|txs| - 1];
      Upto(txs[..|txs| - 1], T) + (if t.at <= T then [t] else [])
  }

  function Assets(txs: seq<Tx>): set<int> { set t | t in txs :: t.asset }

  lemma {:induction false} OnlySnoc(txs: seq<Tx>, t: Tx, asset: int)
    ensures Only(txs + [t], asset) == Only(txs, asset) + (if t.asset == asset then [t] else [])
  {
    assert (txs + [t])[..|txs|] == txs;
  }

  /** One more row extends its own asset's list and no other. */
  lemma {:induction false} OnlyCases(txs: seq<Tx>, t: Tx)
    ensures forall s :: Only(txs + [t], s) == if s == t.asset then Only(txs, s) + [t] else Only(txs, s)
    ensures Assets(txs + [t]) == Assets(txs) + {t.asset}
  {
    forall s ensures Only(txs + [t], s) == if s == t.asset then Only(txs, s) + [t] else Only(txs, s) {
      OnlySnoc(txs, t, s);
      assert Only(txs, s) + [] == Only(txs, s);
    }
  }

  lemma {:induction false} OnlySound(txs: seq<Tx>, asset: int)
    ensures forall t :: t in Only(txs, asset) <==> t in txs && t.asset == asset
    ensures Only(txs, asset) == [] <==> asset !in Assets(txs)
  {
    if txs != [] {
      OnlySound(txs[..|txs| - 1], asset);
      assert txs == txs[..|txs| - 1] + [txs[|txs| - 1]];
    }
    if Only(txs, asset) != [] {
      assert Only(txs, asset)[0] in Only(txs, asset);
    }
  }

  lemma {:induction false} UptoSound(txs: seq<Tx>, T: int)
    ensures forall t :: t in Upto(txs, T) <==> t in txs && t.at <= T
  {
    if txs != [] {
      UptoSound(txs[..|txs| - 1], T);
      assert txs == txs[..|txs| - 1] + [txs[|txs| - 1]];
    }
  }

  /** In a time-ordered ledger the rows up to T are a prefix. */
  lemma {:induction false} UptoIsPrefix(txs: seq<Tx>, T: int, n: nat)
    requires SortedBy(txs, ByTime) && n <= |txs|
    requires forall i | 0 <= i < n :: txs[i].at <= T
    requires n < |txs| ==> txs[n].at > T
    ensures Upto(txs, T) == txs[..n]
  {
    if txs != [] {
      var last := |txs| - 1;
      var init, t, k := txs[..last], txs[last], if n < |txs| then n else last;
      assert n < last ==> ByTime(txs[n], t);
      assert Upto(txs, T) == Upto(init, T) + if t.at <= T then [t] else [];
      assert txs[..n] == init[..k] + if t.at <= T then [t] else [];
      hide Upto;
      UptoIsPrefix(init, T, k);
    }
  }

  // ---- the capped holding ----

  /** The lowest signed sum over all prefixes, the empty one included. */
  function LowestNet(txs: seq<Tx>): real {
    if txs == [] then 0.0 else Min(LowestNet(txs[..|txs| - 1]), Net(txs))
  }

  lemma {:induction false} LowestNetIsLeast(txs: seq<Tx>)
    ensures forall k | 0 <= k <= |txs| :: LowestNet(txs) <= Net(txs[..k])
    ensures exists k :: 0 <= k <= |txs| && LowestNet(txs) == Net(txs[..k])
  {
    assert txs[..|txs|] == txs;
    if txs != [] {
      var init := txs[..|txs| - 1];
      LowestNetIsLeast(init);
      forall k | 0 <= k <= |txs| ensures LowestNet(txs) <= Net(txs[..k]) {
        if k < |txs| { assert init[..k] == txs[..k]; }
      }
      var k :| 0 <= k <= |init| && LowestNet(init) == Net(init[..k]);
      assert init[..k] == txs[..k];
    }
  }

  /** The holding after a history: the signed sum lifted by its deepest overdraft. */
  function Held(txs: seq<Tx>): real { Net(txs) - LowestNet(txs) }

  /** No prefix sells more than it bought. */
  ghost predicate NeverOversold(txs: seq<Tx>) {
    forall k | 0 <= k <= |txs| :: Net(txs[..k]) >= 0.0
  }

  lemma {:induction false} NeverOversoldIffUncapped(txs: seq<Tx>)
    ensures NeverOversold(txs) <==> LowestNet(txs) == 0.0
    ensures NeverOversold(txs) ==> Held(txs) == Net(txs)
  {
    LowestNetIsLeast(txs);
    assert txs[..0] == [];
    assert LowestNet(txs) <= Net(txs[..0]);
  }

  lemma NeverOversoldPrefix(txs: seq<Tx>, k: nat)
    requires NeverOversold(txs) && k <= |txs|
    ensures NeverOversold(txs[..k])
  {
    forall j | 0 <= j <= k ensures Net(txs[..k][..j]) >= 0.0 {
      assert txs[..k][..j] == txs[..j];
    }
  }

  /** What one row does to a holding that never goes below zero. */
  function Capped(q: real, t: Tx): real {
    if t.side == Buy then q + t.qty else Max(q - t.qty, 0.0)
  }

  lemma HeldIsNonNegative(txs: seq<Tx>)
    ensures Held(txs) >= 0.0
  {}

  /** The capped walk, one row at a time, is the closed form. */
  lemma HeldStep(txs: seq<Tx>, t: Tx)
    requires t.qty >= 0.0
    ensures Held(txs + [t]) == Capped(Held(txs), t)
  {
    assert (txs + [t])[..|txs|] == txs;
    HeldIsNonNegative(txs);
  }
}
