/**
 * Starting the scanner again over a store that a run left behind. The first scan covers the
 * whole block cache, but drops old transfers only from the blocks that changed: an invoice that
 * was stored with a transfer in between is credited twice for it.
 */
module Restart {
  import opened Common
  import opened Indexes
  import opened Transfers
  import opened Invoices
  import opened Daemons
  import opened Stores
  import opened Payments
  import opened ScanModel
  import opened ScanTheory
  import opened Memo
  import opened Runs

  // ---- Start-up ----

  /** The scanner after start-up, below height `top`. The pool counts as seen, but nothing in it
      was scanned for anybody. */
  ghost predicate Started(s: State, daemon: Daemon, store: map<InvoiceId, Invoice>, size: nat, top: nat)
    requires daemon.pool <= daemon.known.Keys && top <= daemon.Height()
  {
    && s.view == s.chain == daemon.Chain()[..top]
    && s.size == size
    && s.daemonHeight == daemon.Height()
    && s.txs.Keys == s.met.Keys == daemon.pool
    && (forall h | h in daemon.pool :: s.txs[h] == daemon.known[h] && s.met[h] == {})
    && s.discovered == map[]
    && s.store == store
    && s.firstScan
  }

  lemma StartMemo(s: State)
    requires s.discovered == map[] && s.txs.Keys == s.met.Keys && forall h | h in s.met :: s.met[h] == {}
    ensures MemoExact(s)
  {
    hide Lift;
    forall h | h in s.txs ensures Reported(s.txs[h], s.met[h]) == [] {
      NobodyReported(s.txs[h].owned, FirstAmount(s.txs[h]));
    }
  }

  /** A helper for the gateway's constructor: of the invariant, start-up leaves open only whether
      the stored invoices agree with the daemon's chain and keep out of the window. */
  lemma StartInvIff(start: State, daemon: Daemon, store: map<InvoiceId, Invoice>, size: nat, top: nat)
    requires daemon.pool <= daemon.known.Keys && 1 <= size <= top <= daemon.Height()
    requires Started(start, daemon, store, size, top) && forall id | id in store :: store[id].Id() == id
    ensures Inv(start) <==> forall id | id in store ::
              Consistent(store[id], daemon.Chain()[..top]) && NoneFrom(store[id], top - size)
  {
    hide Consistent, NoneFrom, MemoExact;
    StartMemo(start);
  }

  /** The two chains pay the same to an invoice. */
  ghost predicate PaySame(a: seq<Entry>, b: seq<Entry>, id: InvoiceId) {
    multiset(Mined(a, id.sub, id.creationHeight, |a|)) == multiset(Mined(b, id.sub, id.creationHeight, |b|))
  }

  /**
   * Over the store that a run left behind after a scan, all invoices are at the height where the
   * store was, and start-up is consistent if and only if the daemon's chain below that height
   * pays to every invoice what the store knows.
   */
  lemma RestartIff(s: State, daemon: Daemon, size: nat, start: State)
    requires Inv(s) && AllUpToDate(s) && daemon.Valid() && 1 <= size <= |s.view| <= daemon.Height()
    requires Started(start, daemon, s.store, size, |s.view|)
    ensures forall id | id in s.store :: s.store[id].currentHeight == |s.view|
    ensures CoreInv(start) <==> forall id | id in s.store :: PaySame(s.view, daemon.Chain()[..|s.view|], id)
  {
    hide MemoExact, Seen, Consistent, NoneFrom, Mined, PaySame, Batch, IsPaidHeight;
    StartMemo(start);
    forall id | id in s.store
      ensures s.store[id].currentHeight == |s.view|
      ensures Consistent(s.store[id], start.view) <==> PaySame(s.view, start.view, id)
    {
      assert UpToDate(s.store[id], s.view, Seen(s, id.sub));
      ConsistentIff(s.store[id], s.view, start.view);
    }
  }

  /** An invoice that is consistent with one chain is consistent with another, as long, exactly if
      both pay the same to it. */
  lemma ConsistentIff(inv: Invoice, view: seq<Entry>, view2: seq<Entry>)
    requires Consistent(inv, view) && inv.currentHeight <= |view2|
    ensures Consistent(inv, view2) <==> PaySame(view, view2, inv.Id())
  {
    hide Mined;
    var sub, c := inv.index, inv.creationHeight;
    var a, b := Mined(view, sub, c, |view|), Mined(view2, sub, c, |view2|);
    MinedHeights(view, sub, c, |view|);
    MinedHeights(view2, sub, c, |view2|);
    if Consistent(inv, view2) {
      forall t: Transfer ensures multiset(a)[t] == multiset(b)[t] {
        if t.height.Some? {
          assert multiset(inv.transfers)[t] == multiset(a)[t] == multiset(b)[t];
        } else {
          assert t !in a && t !in b;
        }
      }
      assert multiset(a) == multiset(b);
    }
  }

  // ---- The first scan ----

  /** Whatever the invoices held before it, a first scan leaves the batch list and, on top of
      it, the payments of the blocks that are scanned although nothing was dropped from them. */
  lemma FirstScanTransfers(s: State, daemon: Daemon, s': State, n: nat, mined: seq<Credit>, pooled: seq<Credit>, id: InvoiceId)
    requires CoreInv(s) && s.firstScan && ScanStep(s, daemon, s', n, mined, pooled) && id in s.store
    ensures n <= s.size <= |s'.chain| && id in s'.store
    ensures var inv := s.store[id];
            var batch := Batch(s'.view, Seen(s', id.sub), id.sub, id.creationHeight);
            var twice := Overlap(s.view, inv, |s'.chain| - s.size, |s'.chain| - n);
            && multiset(s'.store[id].transfers) == multiset(batch) + multiset(twice)
            && s'.store[id].amountPaid == Sum(batch) + Sum(twice)
  {
    hide Rescan, Consistent, PoolStep, BlockScan, MemoExact, Batch, Mined, Sum, Refresh, Covered, ReportsPool, Seen,
      Overlay, Overlap;
    ScanIsRescan(s, daemon, s', n, mined, pooled, id);
    CacheKeepsBelow(s, daemon.Chain(), s', n);
    Stored(s, s', n, mined + pooled, id);
    RefreshTransfers(s.store[id], s'.store[id], s.view, s'.chain, |s'.chain| - n, |s'.chain| - s.size, s.store.Keys,
                     Seen(s', id.sub), mined, pooled);
  }

  /** The same, by what the scan did: no stored transfer lies in a block that is in the window but
      did not change. */
  lemma FirstScanOverlapIff(s: State, daemon: Daemon, s': State, n: nat, mined: seq<Credit>, pooled: seq<Credit>, id: InvoiceId)
    requires CoreInv(s) && s.firstScan && ScanStep(s, daemon, s', n, mined, pooled) && id in s.store
    ensures id in s'.store && n <= s.size <= |s'.chain|
    ensures multiset(s'.store[id].transfers) ==
            multiset(Batch(s'.view, Seen(s', id.sub), id.sub, id.creationHeight))
            <==> forall t | t in s.store[id].transfers && t.height.Some? ::
                   !(|s'.chain| - s.size <= t.height.value < |s'.chain| - n)
  {
    hide Consistent, PoolStep, BlockScan, MemoExact, Flat, Mined, Sum, StoreStep, Seen, Batch, Overlay;
    var inv := s.store[id];
    FirstScanTransfers(s, daemon, s', n, mined, pooled, id);
    CacheKeepsBelow(s, daemon.Chain(), s', n);
    HeldInStretch(inv, s.view, |s'.chain| - s.size, Min(|s'.chain| - n, |s.view|));
    NoneAbove(inv, s.view);
  }

  /** The transfer lies in a block of the coming window that the daemon gives no reason to replace. */
  ghost predicate InUnchanged(s: State, daemon: seq<Entry>, t: Transfer) {
    && t.height.Some?
    && TopAfter(s, daemon) - s.size <= t.height.value < |s.chain|
    && Unchanged(s, daemon, t.height.value)
  }

  /** Told before the scan: a first scan is right for an invoice if and only if the invoice is
      stored without a transfer in a block of the coming window that stays as it is. */
  lemma FirstScanExact(s: State, daemon: Daemon, s': State, n: nat, mined: seq<Credit>, pooled: seq<Credit>, id: InvoiceId)
    requires CoreInv(s) && s.firstScan && ScanStep(s, daemon, s', n, mined, pooled) && id in s.store
    ensures id in s'.store
    ensures multiset(s'.store[id].transfers) ==
            multiset(Batch(s'.view, Seen(s', id.sub), id.sub, id.creationHeight))
            <==> forall t | t in s.store[id].transfers :: !InUnchanged(s, daemon.Chain(), t)
  {
    hide Consistent, PoolStep, BlockScan, MemoExact, Flat, StoreStep, Seen, Batch, CacheStep, Unchanged;
    FirstScanOverlapIff(s, daemon, s', n, mined, pooled, id);
    CacheKeepsBelow(s, daemon.Chain(), s', n);
    NoneAbove(s.store[id], s.view);
    forall t | t in s.store[id].transfers && t.height.Some?
      ensures |s'.chain| - s.size <= t.height.value < |s'.chain| - n <==> InUnchanged(s, daemon.Chain(), t)
    {
      if |s'.chain| - s.size <= t.height.value {
        UnchangedIff(s, daemon.Chain(), s', n, t.height.value);
      }
    }
  }
}
