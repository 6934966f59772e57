/** One scan, applied to a consistent state, computes the batch result for every invoice. */
module ScanTheory {
  import opened Common
  import opened Indexes
  import opened Transfers
  import opened Invoices
  import opened Daemons
  import opened Stores
  import opened Payments
  import opened ScanModel

  // ---- Order ----

  lemma {:induction false} ForSorted(credits: seq<Credit>, sub: SubIndex, creation: nat)
    requires SortedCredits(credits)
    ensures SortedByHeight(For(credits, sub, creation))
    ensures forall t | t in For(credits, sub, creation) :: Credit(sub, t) in credits && Due(t, creation)
  {
    if credits != [] {
      var n := |credits| - 1;
      ForSorted(credits[..n], sub, creation);
      forall t | t in For(credits[..n], sub, creation)
        ensures t.CmpByHeight(credits[n].transfer) != Greater
      {
        var i :| 0 <= i < n && credits[..n][i] == Credit(sub, t);
        assert credits[i].transfer.CmpByHeight(credits[n].transfer) != Greater;
      }
    }
  }

  lemma SortedConcat(a: seq<Transfer>, b: seq<Transfer>)
    requires SortedByHeight(a) && SortedByHeight(b)
    requires forall x, y | x in a && y in b :: x.CmpByHeight(y) != Greater
    ensures SortedByHeight(a + b)
  {
  }

  lemma {:induction false} LiftHeights(amounts: seq<OwnedAmount>, height: Option<nat>)
    ensures forall c | c in Lift(amounts, height) :: c.transfer.height == height
  {
    if amounts != [] {
      LiftHeights(amounts[..|amounts| - 1], height);
    }
  }

  lemma {:induction false} ChainCreditsHeights(chain: seq<Entry>, ids: set<InvoiceId>, lo: nat, hi: nat)
    requires hi <= |chain|
    ensures forall c | c in ChainCredits(chain, ids, lo, hi) ::
              c.transfer.height.Some? && lo <= c.transfer.height.value < hi
  {
    if lo < hi {
      ChainCreditsHeights(chain, ids, lo, hi - 1);
      LiftHeights(ReportedAll(chain[hi - 1].txs, ids), Some(hi - 1));
    }
  }

  lemma {:induction false} FlatMember<T>(m: map<Hash, seq<T>>, x: T)
    ensures x in Flat(m) ==> exists h :: h in m && x in m[h]
  {
    if m != map[] {
      var h :| h in m && Flat(m) == m[h] + Flat(m - {h});
      FlatMember(m - {h}, x);
    }
  }

  lemma SameMembers<T>(a: seq<T>, b: seq<T>)
    requires multiset(a) == multiset(b)
    ensures forall x :: x in a <==> x in b
  {
    forall x ensures x in a <==> x in b {
      assert x in a <==> x in multiset(a);
      assert x in b <==> x in multiset(b);
    }
  }

  /** Only transfers without a height are remembered for the pool. */
  ghost predicate PoolOnly(discovered: map<Hash, seq<Credit>>) {
    forall h, c | h in discovered && c in discovered[h] :: c.transfer.height.None?
  }

  /** Everything credited from the pool comes without a height. */
  lemma PooledHeights(pooled: seq<Credit>, discovered: map<Hash, seq<Credit>>)
    requires multiset(pooled) == multiset(Flat(discovered)) && PoolOnly(discovered)
    ensures forall c | c in pooled :: c.transfer.height.None?
  {
    SameMembers(pooled, Flat(discovered));
    forall c | c in pooled ensures c.transfer.height.None? {
      FlatMember(discovered, c);
    }
  }

  // ---- One invoice ----

  /** What a rescan is: blocks of `chain` from `lo` on are scanned, transfers from `deepest` on
      are dropped, and the pool is reported as well. */
  ghost predicate Rescan(chain: seq<Entry>, deepest: nat, lo: nat, ids: set<InvoiceId>,
                         mined: seq<Credit>, pooled: seq<Credit>) {
    && lo <= deepest <= |chain| && 1 <= |chain|
    && SortedCredits(mined)
    && multiset(mined) == multiset(ChainCredits(chain, ids, lo, |chain|))
    && forall c | c in pooled :: c.transfer.height.None?
  }

  /** The report of the pool, restricted to an invoice, is what `pool` pays to it. */
  ghost predicate ReportsPool(pooled: seq<Credit>, pool: map<Hash, Tx>, inv: Invoice) {
    multiset(For(pooled, inv.index, inv.creationHeight)) == multiset(Flat(PoolPayments(pool, inv.index)))
  }

  /** The blocks were scanned with the store answering for the invoice, or nothing in them could
      be due to it. */
  predicate Covered(ids: set<InvoiceId>, inv: Invoice, chain: seq<Entry>) {
    ContainsAtOrAbove(ids, inv.index) || |chain| <= inv.creationHeight
  }

  /** The report of the blocks, restricted to an invoice, is what they pay to it. */
  lemma ReportMined(inv: Invoice, chain: seq<Entry>, lo: nat, ids: set<InvoiceId>, mined: seq<Credit>)
    requires Covered(ids, inv, chain)
    requires multiset(mined) == multiset(ChainCredits(chain, ids, lo, |chain|))
    ensures multiset(For(mined, inv.index, inv.creationHeight)) ==
            multiset(Mined(chain, inv.index, Max(lo, inv.creationHeight), |chain|))
  {
    var sub, c := inv.index, inv.creationHeight;
    var credits := ChainCredits(chain, ids, lo, |chain|);
    ForPermutation(mined, credits, sub, c);
    if ContainsAtOrAbove(ids, sub) {
      ChainCreditsFor(chain, ids, lo, |chain|, sub, c);
    } else {
      ChainCreditsHeights(chain, ids, lo, |chain|);
      NothingDue(credits, sub, c);
    }
  }

  lemma {:induction false} NothingDue(credits: seq<Credit>, sub: SubIndex, c: nat)
    requires forall x | x in credits :: !Due(x.transfer, c)
    ensures For(credits, sub, c) == []
  {
    if credits != [] {
      NothingDue(credits[..|credits| - 1], sub, c);
    }
  }

  /** What is kept is what the store knew of the blocks below the deepest change. */
  lemma KeptPart(inv: Invoice, view: seq<Entry>, deepest: nat)
    requires Consistent(inv, view)
    ensures multiset(Below(inv.transfers, deepest)) ==
            multiset(Mined(view, inv.index, inv.creationHeight, Min(deepest, |view|)))
  {
    var sub, c, m := inv.index, inv.creationHeight, Min(deepest, |view|);
    forall t
      ensures multiset(Below(inv.transfers, deepest))[t] == multiset(Mined(view, sub, c, m))[t]
    {
      BelowCount(inv.transfers, deepest, t);
      MinedAtHeight(view, sub, c, m, t);
      MinedAtHeight(view, sub, c, |view|, t);
    }
  }

  /** What the store knows after blocks were shown to it is what it knew below them, and them. */
  lemma OverlayMined(view: seq<Entry>, chain: seq<Entry>, sub: SubIndex, c: nat, lo: nat)
    requires lo <= |chain| && |view| <= |chain|
    ensures multiset(Mined(Overlay(view, chain, lo), sub, c, |chain|)) ==
            multiset(Mined(view, sub, c, Min(lo, |view|))) + multiset(Mined(chain, sub, Max(lo, c), |chain|))
  {
    hide Mined, Overlay;
    var v, m := Overlay(view, chain, lo), Min(lo, |view|);
    forall t
      ensures multiset(Mined(v, sub, c, |chain|))[t] ==
              multiset(Mined(view, sub, c, m))[t] + multiset(Mined(chain, sub, Max(lo, c), |chain|))[t]
    {
      OverlayMinedAt(view, chain, sub, c, lo, t);
    }
  }

  lemma OverlayMinedAt(view: seq<Entry>, chain: seq<Entry>, sub: SubIndex, c: nat, lo: nat, t: Transfer)
    requires lo <= |chain| && |view| <= |chain|
    ensures multiset(Mined(Overlay(view, chain, lo), sub, c, |chain|))[t] ==
            multiset(Mined(view, sub, c, Min(lo, |view|)))[t] + multiset(Mined(chain, sub, Max(lo, c), |chain|))[t]
  {
    hide Mined, BlockPayments;
    MinedAtHeight(Overlay(view, chain, lo), sub, c, |chain|, t);
    MinedAtHeight(view, sub, c, Min(lo, |view|), t);
    MinedAtHeight(chain, sub, Max(lo, c), |chain|, t);
    if t.height.Some? && |view| <= t.height.value < lo {
      NothingPaid(sub, t.height.value);
    }
  }

  lemma NothingPaid(sub: SubIndex, h: nat)
    ensures BlockPayments(Blank(h).txs, sub, h) == []
  {
  }

  /** What a rescan makes of the transfers: what the store knew below the deepest change, the
      scanned blocks, and the pool. */
  lemma RebuiltTransfers(inv: Invoice, view: seq<Entry>, chain: seq<Entry>, deepest: nat, lo: nat, ids: set<InvoiceId>,
                         pool: map<Hash, Tx>, mined: seq<Credit>, pooled: seq<Credit>)
    requires Consistent(inv, view) && Covered(ids, inv, chain)
    requires Rescan(chain, deepest, lo, ids, mined, pooled) && ReportsPool(pooled, pool, inv)
    ensures var sub, c := inv.index, inv.creationHeight;
            multiset(Rebuilt(inv, mined + pooled, deepest, |chain| - 1).transfers) ==
            multiset(Mined(view, sub, c, Min(deepest, |view|))) + multiset(Mined(chain, sub, Max(lo, c), |chain|))
            + multiset(Flat(PoolPayments(pool, sub)))
  {
    hide Consistent, Mined, For, Flat, Below, ChainCredits;
    KeptPart(inv, view, deepest);
    ForConcat(mined, pooled, inv.index, inv.creationHeight);
    ReportMined(inv, chain, lo, ids, mined);
  }

  /** What the store knew of the blocks that are scanned although nothing is dropped from them. */
  ghost function Overlap(view: seq<Entry>, inv: Invoice, lo: nat, deepest: nat): seq<Transfer> {
    Mined(view, inv.index, Max(lo, inv.creationHeight), Min(deepest, |view|))
  }

  lemma OverlapSplit(view: seq<Entry>, inv: Invoice, deepest: nat, lo: nat)
    requires lo <= deepest
    ensures var sub, c := inv.index, inv.creationHeight;
            multiset(Mined(view, sub, c, Min(deepest, |view|))) ==
            multiset(Mined(view, sub, c, Min(lo, |view|))) + multiset(Overlap(view, inv, lo, deepest))
  {
    if lo <= |view| {
      if inv.creationHeight <= lo {
        MinedSplit(view, inv.index, inv.creationHeight, lo, Min(deepest, |view|));
      }
    }
  }

  /** A rescan leaves the batch list over what was shown to the store, and the overlap. */
  lemma RebuiltIsBatchAndOverlap(inv: Invoice, view: seq<Entry>, chain: seq<Entry>, deepest: nat, lo: nat,
                                 ids: set<InvoiceId>, pool: map<Hash, Tx>, mined: seq<Credit>, pooled: seq<Credit>)
    requires Consistent(inv, view) && Covered(ids, inv, chain) && |view| <= |chain|
    requires Rescan(chain, deepest, lo, ids, mined, pooled) && ReportsPool(pooled, pool, inv)
    ensures multiset(Rebuilt(inv, mined + pooled, deepest, |chain| - 1).transfers) ==
            multiset(Batch(Overlay(view, chain, lo), pool, inv.index, inv.creationHeight))
            + multiset(Overlap(view, inv, lo, deepest))
  {
    hide Consistent, Mined, Rebuilt, For, Flat, Overlap, Overlay, SortedCredits, ChainCredits;
    RebuiltTransfers(inv, view, chain, deepest, lo, ids, pool, mined, pooled);
    OverlayMined(view, chain, inv.index, inv.creationHeight, lo);
    OverlapSplit(view, inv, deepest, lo);
  }

  /**
   * A rescan gives an invoice exactly the batch list if and only if the invoice holds no
   * transfer in a block that is scanned although it lies below the deepest change. Such
   * blocks exist only in the first scan, which covers the whole cache.
   */
  lemma RebuiltIsBatchIff(inv: Invoice, view: seq<Entry>, chain: seq<Entry>, deepest: nat, lo: nat, ids: set<InvoiceId>,
                          pool: map<Hash, Tx>, mined: seq<Credit>, pooled: seq<Credit>)
    requires Consistent(inv, view) && Covered(ids, inv, chain) && |view| <= |chain|
    requires Rescan(chain, deepest, lo, ids, mined, pooled) && ReportsPool(pooled, pool, inv)
    ensures multiset(Rebuilt(inv, mined + pooled, deepest, |chain| - 1).transfers) ==
            multiset(Batch(Overlay(view, chain, lo), pool, inv.index, inv.creationHeight))
            <==> forall t | t in inv.transfers && t.height.Some? :: !(lo <= t.height.value < deepest)
  {
    hide Consistent, Mined, Rebuilt, For, Flat, Batch, Overlay, Rescan;
    RebuiltIsBatchAndOverlap(inv, view, chain, deepest, lo, ids, pool, mined, pooled);
    HeldInStretch(inv, view, lo, Min(deepest, |view|));
    NoneAbove(inv, view);
  }

  /** Whatever the invoice held, a rescan leaves the batch list and the overlap. */
  lemma RefreshTransfers(inv: Invoice, inv2: Invoice, view: seq<Entry>, chain: seq<Entry>, deepest: nat, lo: nat,
                         ids: set<InvoiceId>, pool: map<Hash, Tx>, mined: seq<Credit>, pooled: seq<Credit>)
    requires Consistent(inv, view) && Covered(ids, inv, chain) && |view| <= |chain|
    requires Rescan(chain, deepest, lo, ids, mined, pooled) && ReportsPool(pooled, pool, inv)
    requires inv2 == Refresh(inv, mined + pooled, deepest, |chain| - 1)
    ensures var batch := Batch(Overlay(view, chain, lo), pool, inv.index, inv.creationHeight);
            var overlap := Overlap(view, inv, lo, deepest);
            && multiset(inv2.transfers) == multiset(batch) + multiset(overlap)
            && inv2.amountPaid == Sum(batch) + Sum(overlap)
  {
    hide Mined, For, Flat, Below, PaidFold, SortedByHeight, Batch, Overlay, Overlap, Rescan, Covered;
    var batch := Batch(Overlay(view, chain, lo), pool, inv.index, inv.creationHeight);
    var overlap := Overlap(view, inv, lo, deepest);
    RebuiltIsBatchAndOverlap(inv, view, chain, deepest, lo, ids, pool, mined, pooled);
    assert multiset(inv2.transfers) == multiset(batch + overlap);
    SumPermutation(inv2.transfers, batch + overlap);
    SumConcat(batch, overlap);
  }

  /** A consistent invoice holds a transfer in a stretch of blocks iff they pay to it. */
  lemma HeldInStretch(inv: Invoice, view: seq<Entry>, lo: nat, hi: nat)
    requires Consistent(inv, view) && hi <= |view|
    ensures multiset(Mined(view, inv.index, Max(lo, inv.creationHeight), hi)) == multiset{} <==>
            forall t | t in inv.transfers && t.height.Some? :: !(lo <= t.height.value < hi)
  {
    var stretch := Mined(view, inv.index, Max(lo, inv.creationHeight), hi);
    if t :| t in inv.transfers && t.height.Some? && lo <= t.height.value < hi {
      TransferMined(inv, view, t, lo, hi);
      assert t in multiset(stretch);
    } else if stretch != [] {
      MinedTransfer(inv, view, stretch[0], Max(lo, inv.creationHeight), hi);
    }
  }

  /** A consistent invoice holds nothing above what the store knows. */
  lemma NoneAbove(inv: Invoice, view: seq<Entry>)
    requires Consistent(inv, view)
    ensures NoneFrom(inv, |view|)
  {
    forall t | t in inv.transfers && t.height.Some? ensures t.height.value < |view| {
      assert t in multiset(inv.transfers);
      MinedAtHeight(view, inv.index, inv.creationHeight, |view|, t);
    }
  }

  /** A stored mined transfer was mined in the stretch of the chain where its height lies. */
  lemma TransferMined(inv: Invoice, chain: seq<Entry>, t: Transfer, lo: nat, hi: nat)
    requires Consistent(inv, chain) && hi <= |chain|
    requires t in inv.transfers && t.height.Some? && lo <= t.height.value < hi
    ensures t in Mined(chain, inv.index, Max(lo, inv.creationHeight), hi)
  {
    var sub, c := inv.index, inv.creationHeight;
    var m := Max(lo, c);
    assert t in multiset(inv.transfers);
    assert t in multiset(Mined(chain, sub, c, |chain|));
    MinedHeights(chain, sub, c, |chain|);
    MinedBelow(chain, sub, c, hi, t);
    assert t in multiset(Mined(chain, sub, c, hi));
    MinedSplit(chain, sub, c, m, hi);
    MinedHeights(chain, sub, c, m);
    assert t !in Mined(chain, sub, c, m);
  }

  lemma MinedTransfer(inv: Invoice, chain: seq<Entry>, t: Transfer, lo: nat, hi: nat)
    requires Consistent(inv, chain) && inv.creationHeight <= lo && hi <= |chain|
    requires t in Mined(chain, inv.index, lo, hi)
    ensures t in inv.transfers && t.height.Some? && lo <= t.height.value < hi
  {
    var sub, c := inv.index, inv.creationHeight;
    MinedHeights(chain, sub, lo, hi);
    MinedSplit(chain, sub, c, lo, hi);
    assert t in Mined(chain, sub, c, hi);
    assert t in multiset(Mined(chain, sub, c, hi));
    MinedBelow(chain, sub, c, hi, t);
    assert t in multiset(inv.transfers);
  }

  /** The rebuilt transfers stay sorted, the pool last. */
  lemma RebuiltSorted(inv: Invoice, chain: seq<Entry>, deepest: nat, lo: nat, ids: set<InvoiceId>,
                      mined: seq<Credit>, pooled: seq<Credit>)
    requires SortedByHeight(inv.transfers)
    requires Rescan(chain, deepest, lo, ids, mined, pooled)
    requires forall t | t in inv.transfers && t.height.Some? :: !(lo <= t.height.value < deepest)
    ensures SortedByHeight(Rebuilt(inv, mined + pooled, deepest, |chain| - 1).transfers)
  {
    var sub, c := inv.index, inv.creationHeight;
    var kept, a, b := Below(inv.transfers, deepest), For(mined, sub, c), For(pooled, sub, c);
    BelowSorted(inv.transfers, deepest);
    ForSorted(mined, sub, c);
    SameMembers(mined, ChainCredits(chain, ids, lo, |chain|));
    ChainCreditsHeights(chain, ids, lo, |chain|);
    ForSorted(pooled, sub, c);
    ForConcat(mined, pooled, sub, c);
    assert forall x, y | x in a && y in b :: x.CmpByHeight(y) != Greater;
    SortedConcat(a, b);
    assert forall x, y | x in kept && y in a + b :: x.CmpByHeight(y) != Greater;
    SortedConcat(kept, a + b);
  }

  /** The heart of the scanner: refreshing a consistent invoice gives the batch result over what
      was shown to the store. */
  lemma RefreshIsBatch(inv: Invoice, inv2: Invoice, view: seq<Entry>, chain: seq<Entry>, deepest: nat, lo: nat,
                       ids: set<InvoiceId>, pool: map<Hash, Tx>, mined: seq<Credit>, pooled: seq<Credit>)
    requires Consistent(inv, view) && Covered(ids, inv, chain) && |view| <= |chain|
    requires Rescan(chain, deepest, lo, ids, mined, pooled) && ReportsPool(pooled, pool, inv)
    requires forall t | t in inv.transfers && t.height.Some? :: !(lo <= t.height.value < deepest)
    requires inv2 == Refresh(inv, mined + pooled, deepest, |chain| - 1)
    ensures var shown := Overlay(view, chain, lo);
            inv2.SameTerms(inv) && Consistent(inv2, shown) && UpToDate(inv2, shown, pool)
  {
    hide Mined, For, Flat, Below, Rescan, Covered, ReportsPool, Overlay, SortedByHeight;
    var shown := Overlay(view, chain, lo);
    var batch := Batch(shown, pool, inv.index, inv.creationHeight);
    RebuiltIsBatchIff(inv, view, chain, deepest, lo, ids, pool, mined, pooled);
    RebuiltSorted(inv, chain, deepest, lo, ids, mined, pooled);
    assert multiset(inv2.transfers) == multiset(batch);
    assert SortedByHeight(inv2.transfers) && inv2.Folded();
    SumPermutation(inv2.transfers, batch);
    BatchMined(shown, pool, inv.index, inv.creationHeight);
    assert Consistent(inv2, shown);
    MinedPaidHeight(inv2, shown);
  }

  lemma {:induction false} PoolPaymentsHeights(pool: map<Hash, Tx>, sub: SubIndex, t: Transfer)
    requires t in Flat(PoolPayments(pool, sub))
    ensures t.height.None?
  {
    FlatMember(PoolPayments(pool, sub), t);
    var h :| h in pool && t in TxPayments(pool[h], sub, None);
    OutputPaymentsHeight(pool[h].owned, FirstAmount(pool[h]), sub, None);
  }

  /** In the batch list, the transfers with a height are the mined ones. */
  lemma BatchMined(chain: seq<Entry>, pool: map<Hash, Tx>, sub: SubIndex, c: nat)
    ensures SameMined(Batch(chain, pool, sub, c), Mined(chain, sub, c, |chain|))
  {
    hide Flat, Mined, PoolPayments;
    forall t: Transfer | t.height.Some?
      ensures multiset(Flat(PoolPayments(pool, sub)))[t] == 0
    {
      if t in Flat(PoolPayments(pool, sub)) {
        PoolPaymentsHeights(pool, sub, t);
      }
    }
  }

  /** The paid height of a consistent invoice is decided by the chain alone. */
  lemma MinedPaidHeight(inv: Invoice, chain: seq<Entry>)
    requires Consistent(inv, chain)
    ensures IsPaidHeight(Mined(chain, inv.index, inv.creationHeight, |chain|), inv.amountRequested, inv.paidHeight)
  {
    var onChain := Mined(chain, inv.index, inv.creationHeight, |chain|);
    PaidFoldMeaning(inv.transfers, inv.amountRequested);
    SamePaidHeight(inv.transfers, onChain, inv.amountRequested, inv.paidHeight);
  }
}
