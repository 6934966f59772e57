/**
 * A scan that fails after the caches were updated leaves the store behind: the number of
 * changed blocks and the list of new pool transactions are lost, and later scans do not go
 * back for them. This module says exactly for which invoices that matters.
 */
module FailedScans {
  import opened Common
  import opened Indexes
  import opened Transfers
  import opened Invoices
  import opened Daemons
  import opened Stores
  import opened Payments
  import opened ScanModel
  import opened ScanTheory
  import opened Memo
  import Runs

  // ---- Which blocks the store is behind with ----

  /** The heights at which the store knows another block than the believed one, or none. */
  ghost function Stale(s: State): (heights: set<nat>)
    ensures forall h: nat :: h in heights <==> h < |s.chain| && Shown(s.view, h) != s.chain[h]
  {
    set h: nat | h < |s.chain| && Shown(s.view, h) != s.chain[h]
  }

  /**
   * A failed scan makes stale every block that it replaced and that the store does not happen to
   * know. Before the scan one can tell: in the new window the daemon's blocks count, if there is
   * a new one at all; everywhere else nothing changes.
   */
  lemma StaleAfterFailure(s: State, daemon: Daemon, s': State, n: nat, outcome: PoolOutcome, h: nat)
    requires CoreInv(s) && FailStep(s, daemon, s', n, outcome) && h < |s'.chain|
    ensures s.store == map[] ==> h !in Stale(s')
    ensures s.store != map[] ==>
              |s'.chain| == TopAfter(s, daemon.Chain())
              && (h in Stale(s') <==>
                    if h >= |s'.chain| - s.size && |s.chain| < daemon.Height()
                    then Shown(s.view, h) != daemon.Chain()[h] else h in Stale(s))
  {
    hide Consistent, MemoExact, PoolFails;
    Runs.CacheKeepsBelow(s, daemon.Chain(), s', n);
    if s.store != map[] && h < |s'.chain| - n {
      assert s'.chain[..|s'.chain| - n][h] == s.chain[..|s'.chain| - n][h];
    }
  }

  /** The scan neither fetches the block anew nor scans it again: it is below the window, or it
      stays and this is not the first scan. */
  ghost predicate LeftAlone(s: State, daemon: seq<Entry>, h: nat)
    requires h < |s.chain|
  {
    h < TopAfter(s, daemon) - s.size || (!s.firstScan && Unchanged(s, daemon, h))
  }

  lemma LeftAloneIff(s: State, daemon: Daemon, s': State, n: nat, h: nat)
    requires CacheStep(s, daemon.Chain(), s', n) && s.store != map[] && h < |s.chain|
    ensures h < ScanFrom(s, s', n) <==> LeftAlone(s, daemon.Chain(), h)
  {
    Runs.CacheKeepsBelow(s, daemon.Chain(), s', n);
    if h >= TopAfter(s, daemon.Chain()) - s.size {
      Runs.UnchangedIff(s, daemon.Chain(), s', n, h);
    }
  }

  /** A scan that succeeds repairs exactly the blocks that it fetches or scans again: the stale
      blocks that are left alone stay stale. */
  lemma StaleAfterScan(s: State, daemon: Daemon, s': State, n: nat, mined: seq<Credit>, pooled: seq<Credit>, h: nat)
    requires CoreInv(s) && ScanStep(s, daemon, s', n, mined, pooled) && h < |s'.chain|
    ensures h in Stale(s') <==> s.store != map[] && h in Stale(s) && LeftAlone(s, daemon.Chain(), h)
    ensures h in Stale(s') ==> Shown(s'.view, h) == Shown(s.view, h) && s'.chain[h] == s.chain[h]
  {
    hide Consistent, MemoExact, PoolStep, BlockScan, StoreStep, Overlay;
    Runs.CacheKeepsBelow(s, daemon.Chain(), s', n);
    if s.store != map[] {
      assert s'.view == Overlay(s.view, s'.chain, ScanFrom(s, s', n));
      if h < |s.chain| {
        LeftAloneIff(s, daemon, s', n, h);
      }
      if h < ScanFrom(s, s', n) {
        assert s'.chain[..|s'.chain| - n][h] == s.chain[..|s'.chain| - n][h];
      }
    }
  }

  // ---- What a scan makes of an invoice then ----

  /**
   * Whatever failed before, what an invoice lacks after a scan is what the believed chain pays
   * below the scanned blocks, and what it has instead is what the store knew there: payments of
   * blocks that were never scanned are missing, and those of blocks that were replaced while
   * scans failed are still there.
   */
  lemma LostAndKept(s: State, daemon: Daemon, s': State, n: nat, mined: seq<Credit>, pooled: seq<Credit>, id: InvoiceId)
    requires Inv(s) && ScanStep(s, daemon, s', n, mined, pooled) && id in s.store
    ensures id in s'.store && 0 <= ScanFrom(s, s', n) <= |s'.chain|
    ensures var lo := ScanFrom(s, s', n);
            multiset(s'.store[id].transfers) + multiset(Mined(s'.chain, id.sub, id.creationHeight, lo)) ==
            multiset(Batch(s'.chain, Seen(s', id.sub), id.sub, id.creationHeight))
            + multiset(Mined(s.view, id.sub, id.creationHeight, Min(lo, |s.view|)))
  {
    hide Mined, Seen, Flat, PoolPayments, Overlay, PoolStep, StoreStep, BlockScan, Consistent, MemoExact, IsPaidHeight;
    Runs.ScanRefreshes(s, daemon, s', n, mined, pooled, id);
    Runs.ScanIsRescan(s, daemon, s', n, mined, pooled, id);
    OverlayMined(s.view, s'.chain, id.sub, id.creationHeight, ScanFrom(s, s', n));
    BelowAndAbove(s'.chain, id.sub, id.creationHeight, ScanFrom(s, s', n));
  }

  lemma BelowAndAbove(chain: seq<Entry>, sub: SubIndex, c: nat, lo: nat)
    requires lo <= |chain|
    ensures multiset(Mined(chain, sub, c, |chain|)) ==
            multiset(Mined(chain, sub, c, lo)) + multiset(Mined(chain, sub, Max(lo, c), |chain|))
  {
    if c <= lo {
      MinedSplit(chain, sub, c, lo, |chain|);
    }
  }

  // ---- When an invoice is right ----

  /** Every stale block since creation pays to the subaddress what the store thinks it pays. */
  ghost predicate StalePaysSame(s: State, sub: SubIndex, creation: nat) {
    forall h | h in Stale(s) && h >= creation ::
      multiset(BlockPayments(Shown(s.view, h).txs, sub, h)) == multiset(BlockPayments(s.chain[h].txs, sub, h))
  }

  /** The payments mined in both chains are the same exactly if they are at every stale height. */
  lemma SamePaymentsIff(s: State, sub: SubIndex, c: nat)
    requires |s.view| == |s.chain|
    ensures multiset(Mined(s.view, sub, c, |s.view|)) == multiset(Mined(s.chain, sub, c, |s.chain|)) <==>
            StalePaysSame(s, sub, c)
  {
    hide BlockPayments, Mined;
    SameMinedIff(s.view, s.chain, sub, c);
    forall h: nat | h < |s.chain| ensures h !in Stale(s) ==> s.view[h] == s.chain[h] {
    }
  }

  /** A list of mined transfers and a list of pool transfers can be told apart. */
  lemma ApartIff(mined: seq<Transfer>, mined2: seq<Transfer>, pool: seq<Transfer>, pool2: seq<Transfer>)
    requires forall t | t in mined || t in mined2 :: t.height.Some?
    requires forall t | t in pool || t in pool2 :: t.height.None?
    ensures multiset(mined + pool) == multiset(mined2 + pool2) <==>
            multiset(mined) == multiset(mined2) && multiset(pool) == multiset(pool2)
  {
    if multiset(mined + pool) == multiset(mined2 + pool2) {
      forall t ensures multiset(mined)[t] == multiset(mined2)[t] && multiset(pool)[t] == multiset(pool2)[t] {
        assert multiset(mined + pool)[t] == multiset(mined2 + pool2)[t];
        if t.height.Some? {
          assert t !in pool && t !in pool2;
        } else {
          assert t !in mined && t !in mined2;
        }
      }
    }
  }

  /** The batch result over what the store knows is the batch result over the whole believed
      chain and the whole pool exactly if no difference between them pays to the subaddress. */
  lemma BatchesIff(s: State, sub: SubIndex, c: nat)
    requires |s.view| == |s.chain| && s.met.Keys == s.txs.Keys
    ensures multiset(Batch(s.view, Seen(s, sub), sub, c)) == multiset(Batch(s.chain, s.txs, sub, c)) <==>
            StalePaysSame(s, sub, c) && forall h | h in s.txs :: LookedAt(s, h, sub)
  {
    hide Mined, Seen, PoolPayments, Flat, StalePaysSame, LookedAt;
    MinedHeights(s.view, sub, c, |s.view|);
    MinedHeights(s.chain, sub, c, |s.chain|);
    forall t | t in Flat(PoolPayments(Seen(s, sub), sub)) || t in Flat(PoolPayments(s.txs, sub)) ensures t.height.None? {
      if t in Flat(PoolPayments(s.txs, sub)) {
        PoolPaymentsHeights(s.txs, sub, t);
      } else {
        PoolPaymentsHeights(Seen(s, sub), sub, t);
      }
    }
    ApartIff(Mined(s.view, sub, c, |s.view|), Mined(s.chain, sub, c, |s.chain|),
             Flat(PoolPayments(Seen(s, sub), sub)), Flat(PoolPayments(s.txs, sub)));
    SamePaymentsIff(s, sub, c);
    PoolSeenIff(s, sub);
  }

  /** After a scan of any run, an invoice holds the payments of the whole believed chain since its
      creation and of the whole pool if and only if what is stale then, and what was not scanned
      for it, makes no difference to it. */
  lemma RightNow(states: seq<State>, steps: seq<Step>, i: nat, id: InvoiceId)
    requires IsRun(states, steps) && Inv(states[0]) && 0 < i < |states| && steps[i - 1].Scanned?
    requires id in states[i].store
    ensures states[i].met.Keys == states[i].txs.Keys
    ensures multiset(states[i].store[id].transfers) ==
            multiset(Batch(states[i].chain, states[i].txs, id.sub, id.creationHeight)) <==>
            StalePaysSame(states[i], id.sub, id.creationHeight)
            && forall h | h in states[i].txs :: LookedAt(states[i], h, id.sub)
  {
    hide Batch, Seen, StalePaysSame, LookedAt, Consistent, PoolStep, BlockScan, StoreStep, CacheStep, NoneFrom,
      IsPaidHeight;
    Runs.RunInvariant(states, steps, i);
    assert Next(states[i - 1], steps[i - 1], states[i]);
    assert |states[i].view| == |states[i].chain|;
    BatchesIff(states[i], id.sub, id.creationHeight);
  }

  /** Every stale block since creation that the scan leaves alone pays to the subaddress what the
      store thinks it pays. */
  ghost predicate LeftAlonePaysSame(s: State, daemon: seq<Entry>, sub: SubIndex, creation: nat) {
    forall h | h in Stale(s) && h >= creation && LeftAlone(s, daemon, h) ::
      multiset(BlockPayments(Shown(s.view, h).txs, sub, h)) == multiset(BlockPayments(s.chain[h].txs, sub, h))
  }

  /** What is stale after the scan is what was stale before and is left alone. */
  lemma StaleBefore(s: State, daemon: Daemon, s': State, n: nat, mined: seq<Credit>, pooled: seq<Credit>, sub: SubIndex, c: nat)
    requires CoreInv(s) && ScanStep(s, daemon, s', n, mined, pooled) && s.store != map[]
    ensures StalePaysSame(s', sub, c) <==> LeftAlonePaysSame(s, daemon.Chain(), sub, c)
  {
    hide BlockPayments, CoreInv, ScanStep, LeftAlone;
    assert |s.chain| <= |s'.chain| by {
      CacheGrows(s, daemon, s', n, mined, pooled);
    }
    forall h: nat | h < |s'.chain|
      ensures h in Stale(s') <==> h in Stale(s) && LeftAlone(s, daemon.Chain(), h)
      ensures h in Stale(s') ==> Shown(s'.view, h) == Shown(s.view, h) && s'.chain[h] == s.chain[h]
    {
      StaleAfterScan(s, daemon, s', n, mined, pooled, h);
    }
    assert forall h | h in Stale(s') :: h in Stale(s) && LeftAlone(s, daemon.Chain(), h);
    assert forall h | h in Stale(s) && LeftAlone(s, daemon.Chain(), h) :: h in Stale(s');
  }

  lemma CacheGrows(s: State, daemon: Daemon, s': State, n: nat, mined: seq<Credit>, pooled: seq<Credit>)
    requires ScanStep(s, daemon, s', n, mined, pooled)
    ensures |s.chain| <= |s'.chain|
  {
    Runs.CacheKeepsBelow(s, daemon.Chain(), s', n);
  }

  /** Arrivals are looked at for every stored invoice; known transactions stay as they are. */
  lemma LookedAtBefore(s: State, daemon: Daemon, s': State, id: InvoiceId)
    requires MemoExact(s) && daemon.Valid() && PoolStep(s, daemon, s') && id in s.store
    ensures s'.met.Keys == s'.txs.Keys
    ensures (forall h | h in s'.txs :: LookedAt(s', h, id.sub)) <==>
            forall h | h in daemon.pool && h in s.txs :: LookedAt(s, h, id.sub)
  {
    hide ContainsAtOrAbove, TxPayments, Reported, Lift;
    ContainsSubIndexExactness(s.store.Keys, id.sub);
    forall h | h in daemon.pool
      ensures LookedAt(s', h, id.sub) <==> (h in s.txs ==> LookedAt(s, h, id.sub))
    {
    }
    assert forall h | h in s'.txs :: h in daemon.pool;
  }

  /**
   * Exactly when the scanner is right, told before the scan: in any run, with failed scans or
   * without, the scan at `i` leaves an invoice with the payments of the whole believed chain since
   * its creation and of the whole pool if and only if every stale block that this scan leaves alone
   * pays to it what the store thinks, and every transaction known before that is still in the pool
   * and pays to it was scanned while the store answered for its subaddress. Arrivals are always
   * looked at.
   */
  lemma RightIff(states: seq<State>, steps: seq<Step>, i: nat, id: InvoiceId)
    requires IsRun(states, steps) && Inv(states[0]) && i < |steps| && steps[i].Scanned?
    requires id in states[i].store
    ensures states[i].met.Keys == states[i].txs.Keys && id in states[i + 1].store
    ensures var s, daemon, s' := states[i], steps[i].daemon, states[i + 1];
            multiset(s'.store[id].transfers) == multiset(Batch(s'.chain, s'.txs, id.sub, id.creationHeight)) <==>
            LeftAlonePaysSame(s, daemon.Chain(), id.sub, id.creationHeight)
            && forall h | h in daemon.pool && h in s.txs :: LookedAt(s, h, id.sub)
  {
    hide Batch, StalePaysSame, LeftAlonePaysSame, LookedAt, Consistent, PoolStep, BlockScan, CacheStep, NoneFrom,
      IsPaidHeight, AllUpToDate, Refresh, Flat;
    var s, s' := states[i], states[i + 1];
    Runs.RunInvariant(states, steps, i);
    assert Next(s, steps[i], s');
    RightNow(states, steps, i + 1, id);
    StaleBefore(s, steps[i].daemon, s', steps[i].n, steps[i].mined, steps[i].pooled, id.sub, id.creationHeight);
    LookedAtBefore(s, steps[i].daemon, s', id);
  }
}
