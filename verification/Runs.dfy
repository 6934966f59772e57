/** What every run of scans, failed scans, new and removed invoices keeps and computes. */
module Runs {
  import opened Common
  import opened Indexes
  import opened Transfers
  import opened Invoices
  import opened Daemons
  import opened Stores
  import opened Payments
  import opened ScanModel
  import opened ScanTheory
  import Memo

  // ---- One step keeps the invariant ----

  /** The believed chain only grows, and stays below the blocks that changed. */
  lemma CacheKeepsBelow(s: State, daemon: seq<Entry>, s': State, n: nat)
    requires CacheStep(s, daemon, s', n)
    ensures s'.size == s.size <= |s.chain| <= |s'.chain| && n <= s.size
    ensures s.store != map[] ==>
              |s'.chain| - n <= |s.chain| && s.chain[..|s'.chain| - n] == s'.chain[..|s'.chain| - n]
    ensures s.store != map[] ==> |s'.chain| == TopAfter(s, daemon)
  {
  }

  lemma MoveGrows(s: State, empty: bool, daemon: seq<Entry>, s': State, n: nat)
    requires CacheMove(s, empty, daemon, s', n)
    ensures s'.size == s.size <= |s.chain| <= |s'.chain| && n <= s.size
  {
  }

  /** Which blocks of the window stay is known before the scan: those that are the daemon's. */
  lemma UnchangedIff(s: State, daemon: seq<Entry>, s': State, n: nat, h: nat)
    requires CacheStep(s, daemon, s', n) && s.store != map[]
    requires TopAfter(s, daemon) - s.size <= h < |s.chain|
    ensures h < |s'.chain| - n <==> Unchanged(s, daemon, h)
  {
    if |s.chain| < |daemon| && h < |s'.chain| - n {
      assert s'.chain[..|s'.chain| - n][h] == s.chain[..|s'.chain| - n][h];
    }
  }

  /** How the scan looks to one invoice. */
  lemma ScanIsRescan(s: State, daemon: Daemon, s': State, n: nat, mined: seq<Credit>, pooled: seq<Credit>, id: InvoiceId)
    requires CoreInv(s) && ScanStep(s, daemon, s', n, mined, pooled) && id in s.store
    ensures Covered(s.store.Keys, s.store[id], s'.chain)
    ensures n <= |s'.chain| && 0 <= ScanFrom(s, s', n) && |s.view| <= |s'.chain|
    ensures Rescan(s'.chain, |s'.chain| - n, ScanFrom(s, s', n), s.store.Keys, mined, pooled)
    ensures ReportsPool(pooled, Seen(s', id.sub), s.store[id])
    ensures s'.view == Overlay(s.view, s'.chain, ScanFrom(s, s', n))
  {
    hide For, Flat, Seen, PoolPayments, Overlay, PoolStep, MemoExact, Consistent;
    ContainsSubIndexExactness(s.store.Keys, id.sub);
    CacheKeepsBelow(s, daemon.Chain(), s', n);
    ScannedPool(s, daemon, s', pooled, s.store[id]);
  }

  /** What the pool scan reports to an invoice is what the transactions seen for it pay. */
  lemma ScannedPool(s: State, daemon: Daemon, s': State, pooled: seq<Credit>, inv: Invoice)
    requires MemoExact(s) && daemon.Valid() && PoolStep(s, daemon, s')
    requires multiset(pooled) == multiset(Flat(s'.discovered))
    ensures forall c | c in pooled :: c.transfer.height.None?
    ensures ReportsPool(pooled, Seen(s', inv.index), inv)
  {
    hide For, Flat, Seen, PoolPayments, PoolStep, MemoExact;
    Memo.MemoStays(s, daemon, s');
    Memo.MemoPoolOnly(s');
    PooledHeights(pooled, s'.discovered);
    ForPermutation(pooled, Flat(s'.discovered), inv.index, inv.creationHeight);
    Memo.MemoIsSeen(s', inv.index, inv.creationHeight);
  }

  /** No invoice holds a transfer in a block that is scanned below the deepest change: there is
      no such block, except in the first scan. */
  lemma NothingTwice(s: State, s': State, n: nat, inv: Invoice)
    requires |s.chain| <= |s'.chain|
    requires s.firstScan ==> NoneFrom(inv, |s.chain| - s.size)
    ensures forall t | t in inv.transfers && t.height.Some? ::
              !(ScanFrom(s, s', n) <= t.height.value < |s'.chain| - n)
  {
  }

  lemma Stored(s: State, s': State, n: nat, credits: seq<Credit>, id: InvoiceId)
    requires StoreStep(s, s', n, credits) && id in s.store
    ensures s'.store[id] == Refresh(s.store[id], credits, |s'.chain| - n, |s'.chain| - 1)
  {
  }

  /** After a scan of a consistent state, an invoice is what the batch computation makes of it. */
  lemma ScanRefreshes(s: State, daemon: Daemon, s': State, n: nat, mined: seq<Credit>, pooled: seq<Credit>, id: InvoiceId)
    requires Inv(s) && ScanStep(s, daemon, s', n, mined, pooled) && id in s.store
    ensures id in s'.store && s'.store[id].SameTerms(s.store[id])
    ensures UpToDate(s'.store[id], s'.view, Seen(s', id.sub)) && Consistent(s'.store[id], s'.view)
  {
    hide Rescan, Refresh, Consistent, UpToDate, PoolStep, BlockScan, MemoExact, Covered, ReportsPool, Seen, Overlay;
    ScanIsRescan(s, daemon, s', n, mined, pooled, id);
    CacheKeepsBelow(s, daemon.Chain(), s', n);
    NothingTwice(s, s', n, s.store[id]);
    Stored(s, s', n, mined + pooled, id);
    RefreshIsBatch(s.store[id], s'.store[id], s.view, s'.chain, |s'.chain| - n, ScanFrom(s, s', n),
                   s.store.Keys, Seen(s', id.sub), mined, pooled);
  }

  /** After a scan of a consistent state, every invoice is what the batch computation makes of
      it, on the same terms as before, and the state is consistent again. */
  lemma ScanComputesBatch(s: State, daemon: Daemon, s': State, n: nat, mined: seq<Credit>, pooled: seq<Credit>)
    requires Inv(s) && ScanStep(s, daemon, s', n, mined, pooled)
    ensures Inv(s') && AllUpToDate(s')
    ensures forall id | id in s'.store :: id in s.store && s'.store[id].SameTerms(s.store[id])
  {
    hide Refresh, Consistent, UpToDate, PoolStep, BlockScan, MemoExact, NoneFrom, Seen, Overlay, SortedCredits;
    CacheKeepsBelow(s, daemon.Chain(), s', n);
    Memo.MemoStays(s, daemon, s');
    forall id | id in s'.store
      ensures id in s.store && s'.store[id].SameTerms(s.store[id])
      ensures UpToDate(s'.store[id], s'.view, Seen(s', id.sub)) && Consistent(s'.store[id], s'.view)
    {
      ScanRefreshes(s, daemon, s', n, mined, pooled, id);
    }
  }

  /** A failed scan leaves the invoices behind, but consistent with what the store knows. */
  lemma FailKeepsInv(s: State, empty: bool, daemon: Daemon, s': State, n: nat, outcome: PoolOutcome)
    requires Inv(s) && FailMove(s, empty, daemon, s', n, outcome)
    ensures Inv(s')
  {
    hide Consistent, MemoExact, PoolFails;
    MoveGrows(s, empty, daemon.Chain(), s', n);
    Memo.MemoSurvivesFailure(s, daemon, s', outcome);
  }

  lemma UnfetchedKeepsInv(s: State, height: nat, s': State)
    requires Inv(s) && UnfetchedStep(s, height, s')
    ensures Inv(s')
  {
    hide MemoExact, Consistent;
    SameMemo(s, s');
  }

  /** Creating an invoice keeps the invariant if and only if no block that the store already knows
      pays to it. */
  lemma CreateKeepsInvIff(s: State, inv: Invoice, s': State)
    requires Inv(s) && NewStep(s, inv, s')
    ensures Inv(s') <==> Unpaid(s, inv)
  {
    hide MemoExact, Consistent, Unpaid;
    CreatedConsistentIff(s, inv);
    SameMemo(s, s');
    assert s'.store[inv.Id()] == inv;
  }

  /** That is so whenever the reported height is above the cache. */
  lemma CreatedAbove(s: State, inv: Invoice)
    requires |s.view| <= |s.chain| <= inv.creationHeight
    ensures Unpaid(s, inv)
  {
  }

  lemma CreatedConsistentIff(s: State, inv: Invoice)
    requires inv.transfers == [] && inv.currentHeight == 0 && inv.Folded()
    ensures Consistent(inv, s.view) <==> Unpaid(s, inv)
    ensures NoneFrom(inv, 0)
  {
    var mined := Mined(s.view, inv.index, inv.creationHeight, |s.view|);
    MinedHeights(s.view, inv.index, inv.creationHeight, |s.view|);
    if mined != [] {
      var t := mined[0];
      assert t in mined && multiset(mined)[t] > 0 && multiset(inv.transfers)[t] == 0;
    }
  }

  lemma SameMemo(s: State, s': State)
    requires MemoExact(s) && s'.txs == s.txs && s'.met == s.met && s'.discovered == s.discovered
    ensures MemoExact(s')
  {
  }

  lemma RemoveKeepsInv(s: State, id: InvoiceId, s': State)
    requires Inv(s) && RemoveStep(s, id, s')
    ensures Inv(s')
  {
    hide MemoExact, Consistent;
    SameMemo(s, s');
  }

  // ---- Every run ----

  /** Every state of a run is consistent, and after every scan of the run every invoice is up
      to date with what was shown to the store: reorganisations, failed scans, pool changes and
      other invoices make no difference. */
  lemma {:induction false} RunInvariant(states: seq<State>, steps: seq<Step>, i: nat)
    requires IsRun(states, steps) && Inv(states[0]) && i < |states|
    ensures Inv(states[i])
    ensures i > 0 && steps[i - 1].Scanned? ==> AllUpToDate(states[i])
  {
    hide CoreInv, ScanStep, FailMove, UnfetchedStep, NewStep, RemoveStep, AllUpToDate, Unpaid;
    if i > 0 {
      RunInvariant(states, steps, i - 1);
      var s, s' := states[i - 1], states[i];
      assert Next(s, steps[i - 1], s');
      match steps[i - 1]
      case Scanned(daemon, n, mined, pooled) => ScanComputesBatch(s, daemon, s', n, mined, pooled);
      case Failed(daemon, n, outcome) => FailKeepsInv(s, s.store == map[], daemon, s', n, outcome);
      case Unfetched(height) => UnfetchedKeepsInv(s, height, s');
      case Created(invoice) => CreateKeepsInvIff(s, invoice, s');
      case Removed(id) => RemoveKeepsInv(s, id, s');
    }
  }

  /** Until a scan fails, the store knows exactly the believed chain. */
  lemma {:induction false} ViewIsChain(states: seq<State>, steps: seq<Step>, i: nat)
    requires IsRun(states, steps) && i < |states| && states[0].view == states[0].chain
    requires forall k | 0 <= k < i :: !steps[k].Failed?
    ensures states[i].view == states[i].chain
  {
    hide PoolStep, BlockScan, StoreStep, CacheStep, Overlay;
    if i > 0 {
      ViewIsChain(states, steps, i - 1);
      var s, s' := states[i - 1], states[i];
      assert Next(s, steps[i - 1], s');
      if steps[i - 1].Scanned? {
        CacheKeepsBelow(s, steps[i - 1].daemon.Chain(), s', steps[i - 1].n);
        if s.store != map[] {
          OverlayOfItself(s.chain, s'.chain, |s'.chain| - steps[i - 1].n, ScanFrom(s, s', steps[i - 1].n));
        }
      }
    }
  }

  lemma OverlayOfItself(chain: seq<Entry>, chain2: seq<Entry>, deepest: nat, lo: int)
    requires lo <= deepest <= |chain| && deepest <= |chain2| && chain[..deepest] == chain2[..deepest]
    ensures Overlay(chain, chain2, lo) == chain2
  {
    var v := Overlay(chain, chain2, lo);
    forall h | 0 <= h < |chain2| ensures v[h] == chain2[h] {
      if h < lo {
        assert chain[..deepest][h] == chain2[..deepest][h];
      }
    }
  }

  /** In a run in which no scan fails, after every scan each invoice is the batch result over
      the whole believed chain. */
  lemma EveryScanIsBatch(states: seq<State>, steps: seq<Step>, i: nat, id: InvoiceId)
    requires IsRun(states, steps) && Inv(states[0]) && states[0].view == states[0].chain
    requires 0 < i < |states| && steps[i - 1].Scanned? && id in states[i].store
    requires forall k | 0 <= k < i :: !steps[k].Failed?
    ensures UpToDate(states[i].store[id], states[i].chain, Seen(states[i], id.sub))
  {
    hide Inv, Next, UpToDate, Seen;
    RunInvariant(states, steps, i);
    ViewIsChain(states, steps, i);
  }

  /**
   * History independence: two runs, however they went, that end with a scan, have shown the
   * store the same blocks and have seen the same pool payments, agree on invoices created on
   * the same terms.
   */
  lemma HistoryIndependence(states: seq<State>, steps: seq<Step>, states2: seq<State>, steps2: seq<Step>, id: InvoiceId)
    requires IsRun(states, steps) && Inv(states[0]) && |steps| > 0 && steps[|steps| - 1].Scanned?
    requires IsRun(states2, steps2) && Inv(states2[0]) && |steps2| > 0 && steps2[|steps2| - 1].Scanned?
    requires states[|steps|].view == states2[|steps2|].view
    requires multiset(Flat(PoolPayments(Seen(states[|steps|], id.sub), id.sub))) ==
             multiset(Flat(PoolPayments(Seen(states2[|steps2|], id.sub), id.sub)))
    requires id in states[|steps|].store && id in states2[|steps2|].store
    requires states[|steps|].store[id].SameTerms(states2[|steps2|].store[id])
    ensures states[|steps|].store[id].Same(states2[|steps2|].store[id])
  {
    hide Next, Consistent, MemoExact, Mined, PoolPayments, Seen, Flat, NoneFrom;
    RunInvariant(states, steps, |steps|);
    RunInvariant(states2, steps2, |steps2|);
    var s, s2 := states[|steps|], states2[|steps2|];
    UpToDateSame(s.store[id], s2.store[id], s.view, Seen(s, id.sub), Seen(s2, id.sub));
  }

  lemma UpToDateSame(inv: Invoice, inv2: Invoice, chain: seq<Entry>, pool: map<Hash, Tx>, pool2: map<Hash, Tx>)
    requires UpToDate(inv, chain, pool) && UpToDate(inv2, chain, pool2) && inv.SameTerms(inv2)
    requires multiset(Flat(PoolPayments(pool, inv.index))) == multiset(Flat(PoolPayments(pool2, inv.index)))
    ensures inv.Same(inv2)
  {
    hide Mined, PoolPayments, Flat;
    var sub, c := inv.index, inv.creationHeight;
    SumPermutation(Batch(chain, pool, sub, c), Batch(chain, pool2, sub, c));
    PaidHeightUnique(Mined(chain, sub, c, |chain|), inv.amountRequested, inv.paidHeight, inv2.paidHeight);
  }

  /** If the daemon's chain is the believed one below the cached window, then after a scan
      that fetched a block, the believed chain is the daemon's. */
  lemma BelievesDaemon(s: State, daemon: seq<Entry>, s': State, n: nat)
    requires CacheStep(s, daemon, s', n) && |s.chain| < |daemon|
    requires s.store != map[] ==> forall h | 0 <= h < |s.chain| + 1 - s.size :: s.chain[h] == daemon[h]
    ensures s'.chain == daemon[..|s'.chain|]
  {
    if s.store != map[] {
      forall h | 0 <= h < |s'.chain| ensures s'.chain[h] == daemon[h] {
        if h < |s'.chain| - s.size {
          assert s'.chain[..|s'.chain| - n][h] == s.chain[..|s'.chain| - n][h];
        }
      }
    }
  }

  // ---- Paid stays paid ----

  /** While the blocks up to its paid height stay, an invoice keeps it. */
  lemma PaidHeightStays(inv: Invoice, view: seq<Entry>, inv2: Invoice, view2: seq<Entry>)
    requires Consistent(inv, view) && Consistent(inv2, view2) && inv.SameTerms(inv2)
    requires inv.paidHeight.Some? && inv.paidHeight.value < |view| <= |view2|
    requires view[..inv.paidHeight.value + 1] == view2[..inv.paidHeight.value + 1]
    ensures inv2.paidHeight == inv.paidHeight
  {
    hide Consistent, Mined, IsPaidHeight, BlockPayments;
    var sub, c, p := inv.index, inv.creationHeight, inv.paidHeight.value;
    var a, b := Mined(view, sub, c, |view|), Mined(view2, sub, c, |view2|);
    MinedPaidHeight(inv, view);
    MinedPaidHeight(inv2, view2);
    forall t: Transfer | t.height.Some? && t.height.value <= p
      ensures multiset(a)[t] == multiset(b)[t]
    {
      MinedAtHeight(view, sub, c, |view|, t);
      MinedAtHeight(view2, sub, c, |view2|, t);
      assert view[..p + 1][t.height.value] == view2[..p + 1][t.height.value];
    }
    PaidHeightKept(a, b, inv.amountRequested, inv.paidHeight, inv2.paidHeight);
  }

  /** The paid height of a consistent invoice is the height of a block known to the store. */
  lemma PaidHeightBelieved(inv: Invoice, view: seq<Entry>)
    requires Consistent(inv, view) && inv.paidHeight.Some?
    ensures inv.creationHeight <= inv.paidHeight.value < |view|
    ensures inv.amountPaid >= inv.amountRequested
  {
    MinedPaidHeight(inv, view);
    MinedHeights(view, inv.index, inv.creationHeight, |view|);
    var mined := Mined(view, inv.index, inv.creationHeight, |view|);
    MinedByPermutation(inv.transfers, mined, inv.paidHeight.value);
    MinedByMonotone(inv.transfers, inv.paidHeight.value, inv.paidHeight.value);
  }

  /** At every moment of a run, an invoice with a positive request is paid exactly from the
      first height at which the payments mined since its creation reach the request; what is
      only in the pool gives no paid height. */
  lemma PaidHeightExact(states: seq<State>, steps: seq<Step>, i: nat, id: InvoiceId, h: nat)
    requires IsRun(states, steps) && Inv(states[0]) && i < |states| && id in states[i].store
    requires states[i].store[id].amountRequested > 0
    ensures var inv, view := states[i].store[id], states[i].view;
            SortedByHeight(inv.transfers)
            && (MinedBy(Mined(view, id.sub, id.creationHeight, |view|), h) >= inv.amountRequested <==>
                inv.paidHeight.Some? && inv.paidHeight.value <= h)
  {
    hide Next, AllUpToDate, MemoExact, NoneFrom;
    RunInvariant(states, steps, i);
    var inv, view := states[i].store[id], states[i].view;
    MinedPaidHeight(inv, view);
    PaidHeightIsLeast(Mined(view, id.sub, id.creationHeight, |view|), inv.amountRequested, inv.paidHeight);
  }

  /** Along a run in which the store is shown no other block up to an invoice's paid height, for
      as long as the invoice is tracked, that height stays, confirmations never fall, and so a
      confirmed invoice stays confirmed and is never expired. */
  lemma {:induction false} PaidStaysPaid(states: seq<State>, steps: seq<Step>, i: nat, j: nat, id: InvoiceId)
    requires IsRun(states, steps) && Inv(states[0]) && i <= j < |states|
    requires forall k | i <= k <= j :: id in states[k].store
    requires states[i].store[id].paidHeight.Some?
    requires var p := states[i].store[id].paidHeight.value;
             p < |states[i].view| ==> forall k | i <= k <= j ::
               p < |states[k].view| ==> states[k].view[..p + 1] == states[i].view[..p + 1]
    ensures var inv, inv2 := states[i].store[id], states[j].store[id];
            && inv2.SameTerms(inv)
            && |states[i].view| <= |states[j].view|
            && inv.currentHeight <= inv2.currentHeight
            && inv2.paidHeight == inv.paidHeight
            && inv.Confirmations().Some? && inv2.Confirmations().Some?
            && inv.Confirmations().value <= inv2.Confirmations().value
            && (inv.IsConfirmed() ==> inv2.IsConfirmed())
            && !inv2.IsExpired()
    decreases j - i
  {
    hide Next, AllUpToDate, Consistent, MemoExact;
    var inv, inv2 := states[i].store[id], states[j].store[id];
    RunInvariant(states, steps, i);
    RunInvariant(states, steps, j);
    PaidHeightBelieved(inv, states[i].view);
    if i < j {
      PaidStaysPaid(states, steps, i, j - 1, id);
      RunInvariant(states, steps, j - 1);
      StepKeepsTerms(states[j - 1], steps[j - 1], states[j], id);
      PaidHeightStays(inv, states[i].view, inv2, states[j].view);
    }
    PaidHeightBelieved(inv2, states[j].view);
  }

  lemma HeightsGrow(inv: Invoice, view: seq<Entry>, inv2: Invoice, view2: seq<Entry>, pool: map<Hash, Tx>)
    requires Consistent(inv, view) && UpToDate(inv2, view2, pool) && |view| <= |view2|
    ensures inv.currentHeight <= inv2.currentHeight
  {
  }

  /** A tracked invoice keeps its terms, and heights only grow. */
  lemma StepKeepsTerms(s: State, step: Step, s': State, id: InvoiceId)
    requires Inv(s) && Next(s, step, s') && id in s.store && id in s'.store
    ensures s'.store[id].SameTerms(s.store[id])
    ensures |s.view| <= |s'.view| && s.store[id].currentHeight <= s'.store[id].currentHeight
  {
    hide UpToDate, Consistent, MemoExact, ScanStep, Seen, PoolFails, CacheStep;
    match step
    case Scanned(daemon, n, mined, pooled) =>
      ScanComputesBatch(s, daemon, s', n, mined, pooled);
      ScanIsRescan(s, daemon, s', n, mined, pooled, id);
      HeightsGrow(s.store[id], s.view, s'.store[id], s'.view, Seen(s', id.sub));
    case Failed(_, _, _) =>
    case Unfetched(_) =>
    case Created(invoice) =>
    case Removed(_) =>
  }

  // ---- What an invoice says about payment ----

  /** The mined payments since creation and all payments, of an invoice that is up to date. */
  lemma MinedReaches(inv: Invoice, chain: seq<Entry>, pool: map<Hash, Tx>, h: nat)
    requires UpToDate(inv, chain, pool)
    ensures var mined := Mined(chain, inv.index, inv.creationHeight, |chain|);
            && Sum(mined) <= inv.amountPaid
            && MinedBy(mined, |chain|) == Sum(mined)
            && (inv.paidHeight.Some? ==> inv.paidHeight.value < |chain| && Sum(mined) >= inv.amountRequested)
            && (inv.amountRequested > 0 ==>
                  (MinedBy(mined, h) >= inv.amountRequested <==> inv.paidHeight.Some? && inv.paidHeight.value <= h))
            && (inv.amountRequested == 0 ==> (inv.paidHeight.None? <==> mined == []))
  {
    hide Mined, Flat, PoolPayments;
    var mined := Mined(chain, inv.index, inv.creationHeight, |chain|);
    SumConcat(mined, Flat(PoolPayments(pool, inv.index)));
    MinedHeights(chain, inv.index, inv.creationHeight, |chain|);
    MinedByAll(mined, |chain|);
    if inv.amountRequested > 0 {
      PaidHeightIsLeast(mined, inv.amountRequested, inv.paidHeight);
    } else if mined != [] {
      assert mined[0] in mined;
    }
    if inv.paidHeight.Some? {
      MinedByMonotone(mined, inv.paidHeight.value, |chain|);
    }
  }

  /** An invoice that is up to date is expired exactly if the chain has reached its expiration height
      and the payments mined since its creation do not reach the request. */
  lemma ExpiredExactly(inv: Invoice, chain: seq<Entry>, pool: map<Hash, Tx>)
    requires UpToDate(inv, chain, pool)
    ensures var mined := Mined(chain, inv.index, inv.creationHeight, |chain|);
            inv.IsExpired() <==>
            |chain| >= inv.expirationHeight
            && if inv.amountRequested == 0 then mined == [] else Sum(mined) < inv.amountRequested
  {
    hide UpToDate, Mined, Sum, MinedBy;
    MinedReaches(inv, chain, pool, |chain|);
    HeightOf(inv, chain, pool);
  }

  lemma HeightOf(inv: Invoice, chain: seq<Entry>, pool: map<Hash, Tx>)
    requires UpToDate(inv, chain, pool)
    ensures inv.currentHeight == |chain|
    ensures inv.amountPaid == Sum(Batch(chain, pool, inv.index, inv.creationHeight))
  {
  }

  /** What the confirmations of an invoice that is up to date say: there are none while all payments
      together do not reach the request, zero while only those in the pool make it, and `c` if the
      block `c` below the height is the first one up to which the mined payments reach it. */
  lemma ConfirmationsExactly(inv: Invoice, chain: seq<Entry>, pool: map<Hash, Tx>, c: nat)
    requires UpToDate(inv, chain, pool) && inv.amountRequested > 0 && c > 0
    ensures var mined := Mined(chain, inv.index, inv.creationHeight, |chain|);
            var all := Sum(Batch(chain, pool, inv.index, inv.creationHeight));
            && (inv.Confirmations() == None <==> all < inv.amountRequested)
            && (inv.Confirmations() == Some(0) <==> all >= inv.amountRequested > Sum(mined))
            && (inv.Confirmations() == Some(c) <==>
                  c <= |chain| && MinedBy(mined, |chain| - c) >= inv.amountRequested
                  && (c < |chain| ==> MinedBy(mined, |chain| - c - 1) < inv.amountRequested))
  {
    hide UpToDate, Mined, Batch, Sum, MinedBy;
    MinedReaches(inv, chain, pool, |chain|);
    HeightOf(inv, chain, pool);
    if c <= |chain| {
      MinedReaches(inv, chain, pool, |chain| - c);
      if c < |chain| {
        MinedReaches(inv, chain, pool, |chain| - c - 1);
      }
    }
  }

  /** An invoice that is up to date is confirmed exactly if the payments mined as many blocks ago as it
      requires reach the request, or, if it requires none, all payments together do. */
  lemma ConfirmedExactly(inv: Invoice, chain: seq<Entry>, pool: map<Hash, Tx>)
    requires UpToDate(inv, chain, pool) && inv.amountRequested > 0
    ensures var mined := Mined(chain, inv.index, inv.creationHeight, |chain|);
            var required := inv.confirmationsRequired;
            inv.IsConfirmed() <==>
            if required == 0 then Sum(Batch(chain, pool, inv.index, inv.creationHeight)) >= inv.amountRequested
            else required <= |chain| && MinedBy(mined, |chain| - required) >= inv.amountRequested
  {
    hide UpToDate, Mined, Batch, Sum, MinedBy;
    MinedReaches(inv, chain, pool, |chain|);
    HeightOf(inv, chain, pool);
    if inv.confirmationsRequired <= |chain| {
      MinedReaches(inv, chain, pool, |chain| - inv.confirmationsRequired);
    }
  }

  lemma {:induction false} TermsStay(states: seq<State>, steps: seq<Step>, i: nat, j: nat, id: InvoiceId)
    requires IsRun(states, steps) && Inv(states[0]) && i <= j < |states|
    requires forall k | i <= k <= j :: id in states[k].store
    ensures states[j].store[id].SameTerms(states[i].store[id])
    decreases j - i
  {
    hide *;
    SameTermsChain(states[i].store[id], states[i].store[id], states[i].store[id]);
    if i < j {
      TermsStay(states, steps, i, j - 1, id);
      RunInvariant(states, steps, j - 1);
      OneStep(states, steps, j - 1);
      StepKeepsTerms(states[j - 1], steps[j - 1], states[j], id);
      SameTermsChain(states[j].store[id], states[j - 1].store[id], states[i].store[id]);
    }
  }

  lemma OneStep(states: seq<State>, steps: seq<Step>, i: nat)
    requires IsRun(states, steps) && i + 1 < |states|
    ensures i < |steps| && Next(states[i], steps[i], states[i + 1])
  {
    hide Next;
  }

  lemma SameTermsChain(a: Invoice, b: Invoice, c: Invoice)
    ensures a.SameTerms(a)
    ensures a.SameTerms(b) && b.SameTerms(c) ==> a.SameTerms(c)
  {
  }

  /**
   * Over every run: after a scan, an invoice that was created in step `k` and is tracked since is
   * expired, confirmed, or neither, exactly as the terms it was created on and the payments in the
   * chain known to the store and in the pool say.
   */
  lemma StatusExact(states: seq<State>, steps: seq<Step>, k: nat, i: nat, c: nat)
    requires IsRun(states, steps) && Inv(states[0]) && k < i - 1 < |steps|
    requires steps[k].Created? && steps[i - 1].Scanned? && c > 0
    requires forall m | k < m <= i :: steps[k].invoice.Id() in states[m].store
    requires steps[k].invoice.amountRequested > 0
    ensures var created, view := steps[k].invoice, states[i].view;
            var id, inv, requested := created.Id(), states[i].store[created.Id()], created.amountRequested;
            var mined := Mined(view, id.sub, id.creationHeight, |view|);
            var all := Sum(Batch(view, Seen(states[i], id.sub), id.sub, id.creationHeight));
            && inv.SameTerms(created)
            && (inv.IsExpired() <==> |view| >= created.expirationHeight && Sum(mined) < requested)
            && (inv.Confirmations() == None <==> all < requested)
            && (inv.Confirmations() == Some(0) <==> all >= requested > Sum(mined))
            && (inv.Confirmations() == Some(c) <==>
                  c <= |view| && MinedBy(mined, |view| - c) >= requested
                  && (c < |view| ==> MinedBy(mined, |view| - c - 1) < requested))
            && (inv.IsConfirmed() <==>
                  if created.confirmationsRequired == 0 then all >= requested
                  else created.confirmationsRequired <= |view|
                       && MinedBy(mined, |view| - created.confirmationsRequired) >= requested)
  {
    hide UpToDate, Mined, Batch, Seen, MemoExact, Consistent, NoneFrom, ScanStep, FailMove;
    var created := steps[k].invoice;
    var id, pool := created.Id(), Seen(states[i], created.index);
    assert Next(states[k], steps[k], states[k + 1]);
    TermsStay(states, steps, k + 1, i, id);
    RunInvariant(states, steps, i);
    var inv := states[i].store[id];
    assert UpToDate(inv, states[i].view, pool);
    ExpiredExactly(inv, states[i].view, pool);
    ConfirmationsExactly(inv, states[i].view, pool, c);
    ConfirmedExactly(inv, states[i].view, pool);
  }

  // ---- Catching up ----

  /** With the daemon fixed and something tracked, each scan fetches the one next missing
      block, the tip is reached after as many scans as blocks were missing, and from then on
      no block changes. */
  lemma {:induction false} CatchUp(states: seq<State>, steps: seq<Step>, daemon: Daemon, i: nat)
    requires IsRun(states, steps) && Inv(states[0]) && i < |states|
    requires forall k | 0 <= k < |steps| :: steps[k].Scanned? && steps[k].daemon == daemon
    requires states[0].store != map[] && |states[0].chain| <= daemon.Height()
    ensures states[i].store.Keys == states[0].store.Keys
    ensures |states[i].chain| == Min(|states[0].chain| + i, daemon.Height())
    ensures i > 0 && |states[i - 1].chain| == daemon.Height() ==>
              states[i].chain == states[i - 1].chain && steps[i - 1].n == 0
    ensures i > 0 && |states[i - 1].chain| < daemon.Height() ==>
              states[i].chain[|states[i - 1].chain|] == daemon.Chain()[|states[i - 1].chain|]
  {
    hide Consistent, MemoExact, PoolStep, BlockScan, Refresh, Flat, Overlay, AllUpToDate;
    if i > 0 {
      CatchUp(states, steps, daemon, i - 1);
      RunInvariant(states, steps, i - 1);
      assert Next(states[i - 1], steps[i - 1], states[i]);
      assert states[i - 1].store != map[];
    }
  }

  /** If, in addition, the store is not behind at first and the believed chain is the daemon's
      below the cached window, then once all missing blocks were fetched every invoice is what
      the batch computation over the daemon's own chain makes of it. */
  lemma {:induction false} CaughtUpIsExact(states: seq<State>, steps: seq<Step>, daemon: Daemon, i: nat)
    requires IsRun(states, steps) && Inv(states[0]) && 0 < i < |states|
    requires forall k | 0 <= k < |steps| :: steps[k].Scanned? && steps[k].daemon == daemon
    requires states[0].store != map[] && |states[0].chain| < daemon.Height()
    requires states[0].view == states[0].chain
    requires forall h | 0 <= h < |states[0].chain| + 1 - states[0].size :: states[0].chain[h] == daemon.Chain()[h]
    ensures states[i].chain == daemon.Chain()[..Min(|states[0].chain| + i, daemon.Height())]
    ensures |states[0].chain| + i >= daemon.Height() ==>
              forall id | id in states[i].store ::
                UpToDate(states[i].store[id], daemon.Chain(), Seen(states[i], id.sub))
  {
    hide CoreInv, PoolStep, BlockScan, Refresh, Flat, UpToDate, Seen, Overlay, StoreStep;
    CatchUp(states, steps, daemon, i - 1);
    CatchUp(states, steps, daemon, i);
    RunInvariant(states, steps, i);
    ViewIsChain(states, steps, i);
    var s, s' := states[i - 1], states[i];
    assert Next(s, steps[i - 1], s');
    if i > 1 {
      CaughtUpIsExact(states, steps, daemon, i - 1);
    }
    if |s.chain| < daemon.Height() {
      BelievesDaemon(s, daemon.Chain(), s', steps[i - 1].n);
    }
    assert daemon.Chain()[..daemon.Height()] == daemon.Chain();
  }
}
