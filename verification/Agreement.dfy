/** The walkers side by side: five loops over the same rows, one quantity. */
module Agreement {
  import opened Ledger
  import opened MovingAverage
  import opened TaxLots
  import opened TaxAverage

  /** The value series' own loop: add on BUY, subtract on SELL and cut at zero. */
  function CappedFold(txs: seq<Tx>): real {
    if txs == [] then 0.0 else Capped(CappedFold(txs[..|txs| - 1]), txs[|txs| - 1])
  }

  lemma {:induction false} CappedFoldIsHeld(txs: seq<Tx>)
    requires Positive(txs)
    ensures CappedFold(txs) == Held(txs)
  {
    if txs != [] {
      var init, t := txs[..|txs| - 1], txs[|txs| - 1];
      assert txs == init + [t];
      assert t in txs && forall u | u in init :: u in txs;
      CappedFoldIsHeld(init);
      HeldStep(init, t);
    }
  }

  /**
   Whatever the history, the (cost, quantity) walk, the value-series loop and the FIFO lots hold the signed sum lifted
   by its deepest overdraft; the average-cost tax walk, which does not cap, holds the bare sum, so it agrees with the
   others exactly when no prefix oversells.
   */
  lemma {:induction false} WalkersAgree(txs: seq<Tx>, fx: Fx)
    requires Positive(txs)
    ensures Walk(txs).qty == CappedFold(txs) == Units(LotsAfter(txs)) == Net(txs) - LowestNet(txs)
    ensures RunningAfter(txs, fx).totalQty == Walk(txs).qty <==> NeverOversold(txs)
  {
    WalkQuantity(txs);
    CappedFoldIsHeld(txs);
    QueueHoldsLastUnits(txs);
    RunningTotalIsNet(txs, fx);
    NeverOversoldIffUncapped(txs);
  }
}
