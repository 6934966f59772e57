/** The scanner: keeps every stored invoice in step with the chain and the pool. */
module Scanners {
  import opened Common
  import opened Indexes
  import opened Transfers
  import opened Invoices
  import opened Daemons
  import opened Stores
  import opened Payments
  import opened Scanning
  import opened BlockCaches
  import opened TxpoolCaches
  import opened PubSub
  import opened ScanModel
  import opened ScanTheory
  import opened Restart
  import Memo

  // ---- Tying the caches to the model ----

  /** The window holds the last blocks of the believed chain, newest first. */
  ghost predicate IsWindow(blocks: seq<Entry>, chain: seq<Entry>) {
    && |blocks| <= |chain|
    && forall i | 0 <= i < |blocks| :: blocks[i] == chain[|chain| - 1 - i]
  }

  /** The believed chain after the window advanced to `top`. */
  ghost function Spliced(chain: seq<Entry>, daemon: seq<Entry>, top: nat, n: nat): (c: seq<Entry>)
    requires n <= top + 1 <= |daemon| && top + 1 - n <= |chain|
    ensures |c| == top + 1
    ensures forall h | 0 <= h <= top :: c[h] == if h < top + 1 - n then chain[h] else daemon[h]
  {
    chain[..top + 1 - n] + daemon[top + 1 - n..top + 1]
  }

  lemma WindowCollisionless(blocks: seq<Entry>, chain: seq<Entry>, daemon: seq<Entry>)
    requires IsWindow(blocks, chain) && SameIdSameBlock(chain, daemon) && 1 <= |chain|
    ensures Collisionless(blocks, |chain| - 1, daemon)
  {
  }

  /** Advancing the window by one block extends the believed chain as the model says. */
  lemma AdvancedWindow(before: seq<Entry>, chain: seq<Entry>, daemon: seq<Entry>, after: seq<Entry>, n: nat)
    requires IsWindow(before, chain) && 1 <= |before| && |chain| < |daemon|
    requires Advanced(before, daemon, |chain|, after, n)
    ensures var c := Spliced(chain, daemon, |chain|, n);
            && IsWindow(after, c)
            && c[..|c| - n] == chain[..|c| - n]
            && (forall h | |c| - |before| <= h < |c| :: c[h] == daemon[h])
            && (forall h | |c| - n <= h < |chain| :: chain[h] != c[h])
  {
    hide Spliced;
    var top := |chain|;
    var c := Spliced(chain, daemon, top, n);
    forall i | 0 <= i < |after| ensures after[i] == c[top - i] {
      if i >= n {
        assert after[i] == before[i - 1] == chain[top - i];
      } else {
        assert after[i] == daemon[top - i];
      }
    }
    forall h | |c| - |before| <= h < |c| ensures c[h] == daemon[h] {
      assert after[top - h] == daemon[h];
    }
    forall h | |c| - n <= h < |chain| ensures chain[h] != c[h] {
      assert after[top - h] != before[top - h - 1];
    }
  }

  // ---- Scanning blocks ----

  /** `credits` reports the blocks from `lo` up to but not including `hi`, lowest block first. */
  ghost predicate BlockCredits(credits: seq<Credit>, chain: seq<Entry>, ids: set<InvoiceId>, lo: int, hi: int) {
    && 0 <= lo <= hi <= |chain|
    && SortedCredits(credits)
    && multiset(credits) == multiset(ChainCredits(chain, ids, lo, hi))
  }

  ghost predicate ReadableBlocks(blocks: seq<Entry>, lo: nat, hi: nat, ids: set<InvoiceId>)
    requires hi <= |blocks|
  {
    forall i | lo <= i < hi :: Readable(blocks[i].txs, ids)
  }

  lemma NoBlockCredits(chain: seq<Entry>, ids: set<InvoiceId>, lo: nat)
    requires lo <= |chain|
    ensures BlockCredits([], chain, ids, lo, lo)
  {
  }

  lemma SortedCreditsConcat(a: seq<Credit>, b: seq<Credit>, height: nat)
    requires SortedCredits(a)
    requires forall c | c in a :: c.transfer.height.Some? && c.transfer.height.value < height
    requires forall c | c in b :: c.transfer.height == Some(height)
    ensures SortedCredits(a + b)
  {
  }

  /** The report of one more block, in any order. */
  lemma NextBlockCredits(credits: seq<Credit>, chain: seq<Entry>, ids: set<InvoiceId>, lo: nat, height: nat, more: seq<Credit>)
    requires BlockCredits(credits, chain, ids, lo, height) && height < |chain|
    requires multiset(more) == multiset(Flat(LiftAll(ByHash(chain[height].txs, ids), Some(height))))
    ensures BlockCredits(credits + more, chain, ids, lo, height + 1)
  {
    hide LiftAll, ByHash, Flat, SortedCredits, Lift, ReportedAll;
    var txs := chain[height].txs;
    var block := Lift(ReportedAll(txs, ids), Some(height));
    FlatLiftAll(ByHash(txs, ids), Some(height));
    ByHashFlat(txs, ids);
    LiftPermutation(Flat(ByHash(txs, ids)), ReportedAll(txs, ids), Some(height));
    assert multiset(more) == multiset(block);
    SameMembers(more, block);
    LiftHeights(ReportedAll(txs, ids), Some(height));
    SameMembers(credits, ChainCredits(chain, ids, lo, height));
    ChainCreditsHeights(chain, ids, lo, height);
    SortedCreditsConcat(credits, more, height);
    assert ChainCredits(chain, ids, lo, height + 1) == ChainCredits(chain, ids, lo, height) + block;
  }

  // ---- Tying the pool to the model ----

  /** The memo after the arrivals have been scanned is the model's, and what is remembered
      never collides with what is new. */
  lemma PoolScanned(s: State, daemon: Daemon, s': State, arrived: seq<Tx>)
    requires daemon.Valid() && s.discovered.Keys <= s.txs.Keys
    requires Arrivals(arrived, daemon, s.txs.Keys)
    requires daemon.PoolKnown(s.txs, s'.txs) && PoolMet(s, s'.txs, s'.met, s.store.Keys)
    requires s'.discovered == Kept(s.discovered, daemon.pool) + LiftAll(ByHash(arrived, s.store.Keys), None)
    ensures PoolStep(s, daemon, s')
  {
    hide Arrivals, ByHash, Reported, Lift;
    forall h ensures h in ByHash(arrived, s.store.Keys) <==> Worth(daemon, s.txs.Keys, s.store.Keys, h) {
      ArrivalReport(daemon, s.txs.Keys, arrived, s.store.Keys, h);
    }
    forall h | h in ByHash(arrived, s.store.Keys)
      ensures ByHash(arrived, s.store.Keys)[h] == Reported(daemon.known[h], s.store.Keys)
    {
      ArrivalReport(daemon, s.txs.Keys, arrived, s.store.Keys, h);
    }
  }

  /** The transaction arrived in the pool and has something to report. */
  ghost predicate Worth(daemon: Daemon, known: set<Hash>, ids: set<InvoiceId>, h: Hash)
    requires daemon.pool <= daemon.known.Keys
  {
    h in daemon.pool && h !in known && Reported(daemon.known[h], ids) != []
  }

  lemma ArrivalReport(daemon: Daemon, known: set<Hash>, arrived: seq<Tx>, ids: set<InvoiceId>, h: Hash)
    requires daemon.Valid() && Arrivals(arrived, daemon, known)
    ensures h in ByHash(arrived, ids) <==> Worth(daemon, known, ids, h)
    ensures h in ByHash(arrived, ids) ==> ByHash(arrived, ids)[h] == Reported(daemon.known[h], ids)
  {
    ByHashAt(arrived, ids, h);
    if h in daemon.pool && h !in known {
      var tx :| tx in arrived && tx.hash == h;
    }
  }

  /** The new keys of the memo are hashes of the pool, and never remembered ones. */
  lemma NewKeysArrived(s: State, daemon: Daemon, arrived: seq<Tx>)
    requires daemon.Valid() && Arrivals(arrived, daemon, s.txs.Keys) && s.discovered.Keys <= s.txs.Keys
    ensures LiftAll(ByHash(arrived, s.store.Keys), None).Keys !! Kept(s.discovered, daemon.pool).Keys
    ensures LiftAll(ByHash(arrived, s.store.Keys), None).Keys <= daemon.pool
  {
    forall h | h in ByHash(arrived, s.store.Keys) ensures h !in s.txs && h in daemon.pool {
      ArrivalReport(daemon, s.txs.Keys, arrived, s.store.Keys, h);
    }
  }

  // ---- Updating invoices ----

  /** Refolding a changed invoice gives something other than the old invoice. */
  lemma RefoldDiffers(invoice: Invoice, before: Invoice)
    requires !invoice.Same(before) && invoice.SameTerms(before)
    requires invoice.amountPaid == before.amountPaid && invoice.paidHeight == before.paidHeight
    ensures Refold(invoice) != before
  {
  }

  lemma HasIdSnoc(updates: seq<Invoice>, u: Invoice)
    ensures forall id :: HasId(updates + [u], id) <==> HasId(updates, id) || u.Id() == id
  {
    forall id ensures HasId(updates + [u], id) <==> HasId(updates, id) || u.Id() == id {
      if HasId(updates, id) {
        var v :| v in updates && v.Id() == id;
        assert v in updates + [u];
      }
      assert u in updates + [u];
    }
  }

  ghost predicate DistinctUpdates(updates: seq<Invoice>) {
    forall i, j | 0 <= i < j < |updates| :: updates[i].Id() != updates[j].Id()
  }

  /** The updates of the stored invoices outside of `rest`. */
  ghost predicate CollectedFrom(updates: seq<Invoice>, store: map<InvoiceId, Invoice>, rest: set<InvoiceId>,
                                credits: seq<Credit>, deepest: nat, height: nat) {
    && DistinctUpdates(updates)
    && (forall u | u in updates :: IsUpdate(u, store, credits, deepest, height) && u.Id() !in rest)
    && forall id | id in store && id !in rest ::
         store[id] == Refresh(store[id], credits, deepest, height) || HasId(updates, id)
  }

  lemma CollectedNext(updates: seq<Invoice>, store: map<InvoiceId, Invoice>, rest: set<InvoiceId>, id: InvoiceId,
                      credits: seq<Credit>, deepest: nat, height: nat)
    requires CollectedFrom(updates, store, rest, credits, deepest, height) && id in rest && rest <= store.Keys
    requires store[id].Id() == id
    ensures var u := Refresh(store[id], credits, deepest, height);
            CollectedFrom(if u != store[id] then updates + [u] else updates, store, rest - {id}, credits, deepest, height)
  {
    hide Rebuilt, HasId;
    var u := Refresh(store[id], credits, deepest, height);
    HasIdSnoc(updates, u);
    RefreshKeepsId(store[id], credits, deepest, height);
  }

  lemma RefreshKeepsId(inv: Invoice, credits: seq<Credit>, deepest: nat, height: nat)
    ensures Refresh(inv, credits, deepest, height).Id() == inv.Id()
  {
  }

  function Overwritten(store: map<InvoiceId, Invoice>, updates: seq<Invoice>): map<InvoiceId, Invoice> {
    if updates == [] then store
    else Overwrite(Overwritten(store, updates[..|updates| - 1]), updates[|updates| - 1])
  }

  lemma NothingOverwritten(store: map<InvoiceId, Invoice>)
    ensures Overwritten(store, []) == store
  {
  }

  lemma OverwrittenNext(store: map<InvoiceId, Invoice>, updates: seq<Invoice>, i: nat)
    requires i < |updates|
    ensures Overwritten(store, updates[..i + 1]) == Overwrite(Overwritten(store, updates[..i]), updates[i])
  {
    assert updates[..i + 1][..i] == updates[..i];
  }

  /** Saving adds and removes nothing, and a stored invoice ends as one of its updates, if it
      has any. */
  lemma {:induction false} OverwrittenAt(store: map<InvoiceId, Invoice>, updates: seq<Invoice>, id: InvoiceId)
    ensures Overwritten(store, updates).Keys == store.Keys
    ensures id in store ==>
              if HasId(updates, id) then Overwritten(store, updates)[id] in updates && Overwritten(store, updates)[id].Id() == id
              else Overwritten(store, updates)[id] == store[id]
  {
    if updates != [] {
      var pre, u := updates[..|updates| - 1], updates[|updates| - 1];
      OverwrittenAt(store, pre, id);
      assert updates == pre + [u];
      HasIdSnoc(pre, u);
    }
  }

  /** An update of an invoice that is no longer stored changes nothing in the store, and is sent to
      the subscribers of all invoices nevertheless. */
  lemma GoneIsAnnounced(store: map<InvoiceId, Invoice>, subs: Subscribers, updates: seq<Invoice>, u: Invoice, s: Sender)
    requires u in updates && u.Id() !in store && Reachable(subs.global, s)
    ensures u.Id() !in Overwritten(store, updates)
    ensures Delivery(s, u) in Announced(subs, updates).0
  {
    OverwrittenAt(store, updates, u.Id());
    AnnouncedToReachable(subs, updates, None, s);
  }

  /** Saving the updates refreshes every invoice. */
  lemma SavedRefresh(store: map<InvoiceId, Invoice>, updates: seq<Invoice>, credits: seq<Credit>, deepest: nat, height: nat)
    requires AreUpdates(updates, store, credits, deepest, height)
    ensures Overwritten(store, updates).Keys == store.Keys
    ensures forall id | id in store ::
              && Overwritten(store, updates)[id] == Refresh(store[id], credits, deepest, height)
              && (HasId(updates, id) <==> Overwritten(store, updates)[id] != store[id])
    ensures forall u | u in updates :: u.Id() in store && Overwritten(store, updates)[u.Id()] == u
  {
    OverwrittenAt(store, updates, InvoiceId(SubIndex(0, 0), 0));
    forall id | id in store
      ensures Overwritten(store, updates)[id] == Refresh(store[id], credits, deepest, height)
      ensures HasId(updates, id) <==> Overwritten(store, updates)[id] != store[id]
    {
      hide Refresh;
      OverwrittenAt(store, updates, id);
      if HasId(updates, id) {
        assert IsUpdate(Overwritten(store, updates)[id], store, credits, deepest, height);
      }
    }
  }

  /** Saving the updates is the model's step of the store. */
  lemma SavedStoreStep(s: State, s': State, n: nat, credits: seq<Credit>, updates: seq<Invoice>)
    requires s'.store == Overwritten(s.store, updates)
    requires |s'.chain| >= 1 && n <= |s'.chain|
    requires AreUpdates(updates, s.store, credits, |s'.chain| - n, |s'.chain| - 1)
    ensures StoreStep(s, s', n, credits)
  {
    hide Refresh, AreUpdates, Overwritten, HasId;
    SavedRefresh(s.store, updates, credits, |s'.chain| - n, |s'.chain| - 1);
  }

  lemma SameCache(s: State, daemon: seq<Entry>, mid: State, s': State, n: nat)
    requires CacheStep(s, daemon, mid, n)
    requires s'.chain == mid.chain && s'.size == mid.size && s'.daemonHeight == mid.daemonHeight
    ensures CacheStep(s, daemon, s', n)
  {
  }

  lemma SamePool(s: State, daemon: Daemon, mid: State, s': State)
    requires daemon.Valid() && PoolStep(s, daemon, mid)
    requires s'.txs == mid.txs && s'.met == mid.met && s'.discovered == mid.discovered
    ensures PoolStep(s, daemon, s')
  {
  }

  /** The parts of a scan make up the model's scan step; `mid` is the state between updating
      the caches and the rest. */
  lemma Assembled(s: State, daemon: Daemon, mid: State, s': State, n: nat, mined: seq<Credit>, pooled: seq<Credit>)
    requires daemon.Valid() && CacheStep(s, daemon.Chain(), mid, n) && n <= s.size <= |s.chain|
    requires s'.chain == mid.chain && s'.size == mid.size && s'.daemonHeight == mid.daemonHeight
    requires PoolStep(s, daemon, s')
    requires BlockCredits(mined, s'.chain, s.store.Keys, |s'.chain| - (if s.firstScan then s.size else n), |s'.chain|)
    requires multiset(pooled) == multiset(Flat(s'.discovered))
    requires StoreStep(s, s', n, mined + pooled)
    requires !s'.firstScan && s'.view == Looked(s, s'.chain, ScanFrom(s, s', n))
    ensures ScanStep(s, daemon, s', n, mined, pooled)
  {
    hide PoolStep, Flat, StoreStep, Looked;
  }

  // ---- When a scan fails ----

  /** Every scanned block can be read. */
  ghost predicate BlocksReadable(s: State, s': State, n: nat) {
    forall h | 0 <= h < |s'.chain| && ScanFrom(s, s', n) <= h :: Readable(s'.chain[h].txs, s.store.Keys)
  }

  /** Every arrival in the pool can be read. */
  ghost predicate PoolReadable(s: State, daemon: Daemon)
    requires daemon.pool <= daemon.known.Keys
  {
    forall h | h in daemon.pool && h !in s.txs :: !Unreadable(daemon.known[h], s.store.Keys)
  }

  /** How far the memo gets in a scan that finds something unreadable. */
  ghost function HowFar(s: State, daemon: Daemon): PoolOutcome
    requires daemon.pool <= daemon.known.Keys
  {
    if PoolReadable(s, daemon) then Done else Lost
  }

  lemma WindowReadable(blocks: seq<Entry>, depth: nat, s: State, s': State, n: nat)
    requires IsWindow(blocks, s'.chain) && depth <= |blocks| && |s'.chain| - depth == ScanFrom(s, s', n)
    ensures ReadableBlocks(blocks, 0, depth, s.store.Keys) <==> BlocksReadable(s, s', n)
  {
    hide Readable;
    if ReadableBlocks(blocks, 0, depth, s.store.Keys) {
      forall h | 0 <= h < |s'.chain| && ScanFrom(s, s', n) <= h ensures Readable(s'.chain[h].txs, s.store.Keys) {
        assert blocks[|s'.chain| - 1 - h] == s'.chain[h];
      }
    }
  }

  lemma SameReadable(s: State, mid: State, s': State, n: nat, error: SubIndex)
    requires s'.chain == mid.chain
    ensures BlocksReadable(s, mid, n) <==> BlocksReadable(s, s', n)
    ensures BlamedBlock(s, mid, n, error) <==> BlamedBlock(s, s', n, error)
  {
    hide Readable, Blames;
  }

  /** The block that will be at a height of the coming window. */
  ghost function Coming(s: State, daemon: seq<Entry>, h: nat): Entry
    requires h < TopAfter(s, daemon)
  {
    if |s.chain| < |daemon| then daemon[h] else s.chain[h]
  }

  /** The scan will scan the block at that height: all of the window the first time, and otherwise the
      new tip and what the daemon has changed. */
  ghost predicate WillScan(s: State, daemon: seq<Entry>, h: nat) {
    && TopAfter(s, daemon) - s.size <= h < TopAfter(s, daemon)
    && (s.firstScan || h >= |s.chain| || !Unchanged(s, daemon, h))
  }

  /** Everything that the scan will look at can be read: the arrivals in the pool and, if anything is
      stored, the blocks. */
  ghost predicate ScanReadable(s: State, daemon: Daemon)
    requires daemon.pool <= daemon.known.Keys
  {
    && PoolReadable(s, daemon)
    && (s.store != map[] ==>
          forall h: nat | WillScan(s, daemon.Chain(), h) :: Readable(Coming(s, daemon.Chain(), h).txs, s.store.Keys))
  }

  /** Which blocks are scanned, and what they are, can be told before the scan. */
  lemma WillScanIff(s: State, daemon: Daemon, s': State, n: nat, h: nat)
    requires CacheStep(s, daemon.Chain(), s', n) && s.store != map[] && h < |s'.chain|
    ensures |s'.chain| == TopAfter(s, daemon.Chain())
    ensures h >= ScanFrom(s, s', n) <==> WillScan(s, daemon.Chain(), h)
    ensures WillScan(s, daemon.Chain(), h) ==> s'.chain[h] == Coming(s, daemon.Chain(), h)
  {
    Runs.CacheKeepsBelow(s, daemon.Chain(), s', n);
    if h < |s.chain| && h >= TopAfter(s, daemon.Chain()) - s.size {
      Runs.UnchangedIff(s, daemon.Chain(), s', n, h);
    }
  }

  lemma NobodyReadable(txs: seq<Tx>)
    ensures Readable(txs, {})
  {
  }

  lemma ScanReadableIff(s: State, daemon: Daemon, s': State, n: nat)
    requires daemon.Valid() && CacheStep(s, daemon.Chain(), s', n)
    ensures ScanReadable(s, daemon) <==> PoolReadable(s, daemon) && BlocksReadable(s, s', n)
  {
    hide CacheStep, Readable, PoolReadable, WillScan, Coming;
    if s.store == map[] {
      assert s.store.Keys == {};
      forall h | 0 <= h < |s'.chain| ensures Readable(s'.chain[h].txs, s.store.Keys) {
        NobodyReadable(s'.chain[h].txs);
      }
    } else {
      Window(s, daemon, s', n);
      forall h: nat | h < |s'.chain|
        ensures h >= ScanFrom(s, s', n) <==> WillScan(s, daemon.Chain(), h)
        ensures WillScan(s, daemon.Chain(), h) ==> s'.chain[h] == Coming(s, daemon.Chain(), h)
      {
        WillScanIff(s, daemon, s', n, h);
      }
    }
  }

  lemma Window(s: State, daemon: Daemon, s': State, n: nat)
    requires CacheStep(s, daemon.Chain(), s', n) && s.store != map[]
    ensures |s'.chain| == TopAfter(s, daemon.Chain())
    ensures forall h: nat | WillScan(s, daemon.Chain(), h) :: h < |s'.chain|
  {
    Runs.CacheKeepsBelow(s, daemon.Chain(), s', n);
  }

  /** The error blames the lowest scanned block that cannot be read. */
  ghost predicate BlamedBlock(s: State, s': State, n: nat, error: SubIndex) {
    exists h: nat :: h < |s'.chain| && ScanFrom(s, s', n) <= h && Blames(s'.chain[h].txs, s.store.Keys, error)
                && forall g: nat | ScanFrom(s, s', n) <= g < h :: Readable(s'.chain[g].txs, s.store.Keys)
  }

  ghost predicate BlamedArrival(s: State, daemon: Daemon, error: SubIndex) {
    exists arrived :: Arrivals(arrived, daemon, s.txs.Keys) && Blames(arrived, s.store.Keys, error)
  }

  /** The error blames the same block, in the window. */
  lemma WindowBlamed(blocks: seq<Entry>, depth: nat, i: nat, s: State, s': State, n: nat, error: SubIndex)
    requires IsWindow(blocks, s'.chain) && i < depth <= |blocks| && |s'.chain| - depth == ScanFrom(s, s', n)
    requires ReadableBlocks(blocks, i + 1, depth, s.store.Keys) && Blames(blocks[i].txs, s.store.Keys, error)
    ensures BlamedBlock(s, s', n, error)
  {
    hide Readable, Blames;
    var h := |s'.chain| - 1 - i;
    assert blocks[i] == s'.chain[h];
    forall g: nat | ScanFrom(s, s', n) <= g < h ensures Readable(s'.chain[g].txs, s.store.Keys) {
      assert blocks[|s'.chain| - 1 - g] == s'.chain[g];
    }
  }

  lemma ArrivalBlamed(s: State, daemon: Daemon, arrived: seq<Tx>, error: SubIndex)
    requires Arrivals(arrived, daemon, s.txs.Keys) && Blames(arrived, s.store.Keys, error)
    ensures BlamedArrival(s, daemon, error)
  {
  }

  lemma ArrivalsReadable(s: State, daemon: Daemon, arrived: seq<Tx>)
    requires daemon.Valid() && Arrivals(arrived, daemon, s.txs.Keys)
    ensures Readable(arrived, s.store.Keys) <==> PoolReadable(s, daemon)
  {
    hide Unreadable;
    if PoolReadable(s, daemon) {
      forall tx | tx in arrived ensures !Unreadable(tx, s.store.Keys) {
        assert tx == daemon.known[tx.hash];
      }
    }
  }

  /** For which invoices the known transactions were scanned, after a scan. */
  ghost function MetAfter(s: State, txs: map<Hash, Tx>, arrival: set<InvoiceId>): (met: map<Hash, set<InvoiceId>>)
    ensures PoolMet(s, txs, met, arrival)
  {
    map h | h in txs :: if h in s.txs && h in s.met then s.met[h] else arrival
  }

  lemma LostPool(s: State, daemon: Daemon, s': State)
    requires daemon.Valid() && daemon.PoolKnown(s.txs, s'.txs) && PoolMet(s, s'.txs, s'.met, {})
    requires s'.discovered == Kept(s.discovered, daemon.pool)
    ensures PoolFails(s, daemon, s', Lost)
  {
  }

  lemma DonePool(s: State, daemon: Daemon, s': State)
    requires daemon.Valid() && PoolStep(s, daemon, s')
    ensures PoolFails(s, daemon, s', Done)
  {
  }

  /** The parts of a failed scan make up the model's step. */
  lemma FailureAssembled(s: State, daemon: Daemon, s': State, n: nat, outcome: PoolOutcome)
    requires daemon.Valid() && CacheStep(s, daemon.Chain(), s', n)
    requires PoolFails(s, daemon, s', outcome)
    requires s'.store == s.store && s'.firstScan == s.firstScan
    requires s'.view == (if s.store == map[] then s'.chain else s.view)
    ensures FailStep(s, daemon, s', n, outcome)
  {
    hide PoolFails;
  }

  /** Scanning resumes at the least current height of a stored invoice, or at the tip. */
  ghost predicate Resumes(invoices: map<InvoiceId, Invoice>, height: nat, top: nat) {
    if invoices == map[] then top == height
    else exists low :: IsLowest(invoices, low) && invoices[low].currentHeight == top
  }

  /** A stored invoice that was never scanned keeps the scanner from starting: there is no block
      below height 0. */
  lemma UnscannedBlocksStart(invoices: map<InvoiceId, Invoice>, id: InvoiceId, height: nat)
    requires id in invoices && invoices[id].currentHeight == 0
    ensures forall top: nat :: Resumes(invoices, height, top) <==> top == 0
  {
    assert IsLowest(invoices, id);
  }

  datatype StartError = HeightUnderflow | NoSuchBlock

  class Scanner {
    const store: InMemory
    const blockCache: BlockCache
    const txpoolCache: TxpoolCache
    const publisher: Publisher
    var firstScan: bool
    /** Every block believed so far, lowest first. */
    ghost var chain: seq<Entry>
    /** The chain as the store knows it. */
    ghost var view: seq<Entry>
    /** For each known pool transaction, the invoices that were stored when it was scanned. */
    ghost var met: map<Hash, set<InvoiceId>>

    ghost predicate Valid()
      reads this, store, blockCache, txpoolCache, publisher
    {
      && store.Valid()
      && blockCache.Valid()
      && publisher.Valid()
      && |chain| == blockCache.height + 1
      && IsWindow(blockCache.blocks, chain)
      && blockCache.daemonHeight >= 1
      && txpoolCache.discovered.Keys <= txpoolCache.transactions.Keys == met.Keys
      && forall id | id in store.invoices :: id.creationHeight >= 1
    }

    ghost function Model(): State
      reads this, store, blockCache, txpoolCache
    {
      State(chain, blockCache.cacheSize, blockCache.daemonHeight, txpoolCache.transactions, txpoolCache.discovered,
            store.invoices, firstScan, view, met)
    }

    /** Starts below the height `top`, with the daemon's blocks and pool. */
    constructor (daemon: Daemon, store: InMemory, publisher: Publisher, blockCacheSize: nat, top: nat)
      requires daemon.Valid() && store.Valid() && publisher.Valid()
      requires 1 <= blockCacheSize <= top <= daemon.Height()
      requires forall id | id in store.invoices :: id.creationHeight >= 1
      ensures Valid() && this.store == store && this.publisher == publisher
      ensures fresh(blockCache) && fresh(txpoolCache)
      ensures blockCache.height == top - 1 && blockCache.daemonHeight == daemon.Height()
      ensures Started(Model(), daemon, store.invoices, blockCacheSize, top)
    {
      this.store := store;
      this.publisher := publisher;
      var blocks := new BlockCache(daemon, blockCacheSize, top - 1);
      var pool := new TxpoolCache(daemon);
      blockCache := blocks;
      txpoolCache := pool;
      firstScan := true;
      chain := daemon.Chain()[..top];
      view := daemon.Chain()[..top];
      met := map h | h in daemon.pool :: {};
    }

    /**
     * Resumes from the lowest height of a stored invoice, or from the daemon's tip. There is no
     * scanner if that height is 0, the height of an invoice that was stored but never scanned,
     * or too low to fill the window, or above the daemon's height.
     */
    static method Start(daemon: Daemon, store: InMemory, publisher: Publisher, blockCacheSize: nat)
      returns (r: Result<Scanner, StartError>)
      requires daemon.Valid() && store.Valid() && publisher.Valid() && 1 <= blockCacheSize
      requires forall id | id in store.invoices :: id.creationHeight >= 1
      ensures r.Ok? <==> exists top: nat :: Resumes(store.invoices, daemon.Height(), top) && blockCacheSize <= top <= daemon.Height()
      ensures r == Err(HeightUnderflow) <==>
                exists top: nat :: Resumes(store.invoices, daemon.Height(), top) && top < blockCacheSize
      ensures r.Ok? ==> fresh(r.value) && fresh(r.value.blockCache) && fresh(r.value.txpoolCache)
      ensures r.Ok? ==> r.value.Valid() && r.value.store == store && r.value.publisher == publisher
      ensures r.Ok? ==> exists top: nat :: Resumes(store.invoices, daemon.Height(), top) && top <= daemon.Height()
                                      && Started(r.value.Model(), daemon, store.invoices, blockCacheSize, top)
    {
      var lowest := store.LowestHeight();
      var top := if lowest.Some? then lowest.value else daemon.Height();
      assert Resumes(store.invoices, daemon.Height(), top);
      if top < blockCacheSize {
        return Err(HeightUnderflow);
      }
      if top > daemon.Height() {
        return Err(NoSuchBlock);
      }
      var started := new Scanner(daemon, store, publisher, blockCacheSize, top);
      r := Ok(started);
    }

    /** Advances the block cache, or lets it skip ahead if nothing is tracked. */
    method UpdateBlockCache(daemon: Daemon) returns (blocksUpdated: nat)
      requires Valid() && daemon.Valid() && SameIdSameBlock(chain, daemon.Chain())
      modifies this`chain, blockCache
      ensures Valid()
      ensures CacheStep(old(Model()), daemon.Chain(), Model(), blocksUpdated)
      ensures blocksUpdated <= blockCache.cacheSize && blockCache.daemonHeight == daemon.Height()
    {
      hide Collisionless, SameIdSameBlock, Repair, Newest, Pushed, LinkedFrom, CountsDown;
      WindowCollisionless(blockCache.blocks, chain, daemon.Chain());
      var empty := store.IsEmpty();
      if empty {
        blocksUpdated := blockCache.SkipAhead(daemon);
        if |chain| < daemon.Height() {
          chain := daemon.Chain();
        }
      } else {
        ghost var before := blockCache.blocks;
        blocksUpdated := blockCache.Update(daemon);
        if |chain| < daemon.Height() {
          AdvancedWindow(before, chain, daemon.Chain(), blockCache.blocks, blocksUpdated);
          chain := Spliced(chain, daemon.Chain(), |chain|, blocksUpdated);
        }
      }
    }

    /** Updates the block cache, then the pool. */
    method UpdateCaches(daemon: Daemon) returns (blocksUpdated: nat, arrived: seq<Tx>)
      requires Valid() && daemon.Valid() && SameIdSameBlock(chain, daemon.Chain())
      modifies this`chain, this`met, blockCache, txpoolCache
      ensures Valid()
      ensures CacheStep(old(Model()), daemon.Chain(), Model(), blocksUpdated)
      ensures blocksUpdated <= blockCache.cacheSize && blockCache.daemonHeight == daemon.Height()
      ensures Arrivals(arrived, daemon, old(txpoolCache.transactions).Keys)
      ensures daemon.PoolKnown(old(txpoolCache.transactions), txpoolCache.transactions)
      ensures txpoolCache.transactions.Keys == daemon.pool
      ensures txpoolCache.discovered == Kept(old(txpoolCache.discovered), daemon.pool)
      ensures PoolMet(old(Model()), txpoolCache.transactions, met, {})
    {
      hide Arrivals, SameIdSameBlock;
      ghost var s := Model();
      blocksUpdated := UpdateBlockCache(daemon);
      arrived := txpoolCache.Update(daemon);
      met := MetAfter(s, txpoolCache.transactions, {});
    }

    /** Scans the newest blocks, or the whole cache on the first scan, oldest block first. */
    method ScanBlocks(blocksUpdated: nat) returns (r: Result<seq<Credit>, SubIndex>)
      requires Valid() && blocksUpdated <= blockCache.cacheSize
      ensures var depth := if firstScan then blockCache.cacheSize else blocksUpdated;
              && (r.Ok? <==> ReadableBlocks(blockCache.blocks, 0, depth, store.invoices.Keys))
              && (r.Ok? ==> BlockCredits(r.value, chain, store.invoices.Keys, |chain| - depth, |chain|))
              && (r.Err? ==> exists i :: 0 <= i < depth && ReadableBlocks(blockCache.blocks, i + 1, depth, store.invoices.Keys)
                                         && Blames(blockCache.blocks[i].txs, store.invoices.Keys, r.error))
    {
      hide Readable, ByHash, LiftAll, BlockCredits, Flat, Blames, DistinctHashes, IsReported;
      ghost var ids := store.invoices.Keys;
      var depth := if firstScan then |blockCache.blocks| else blocksUpdated;
      var transfers: seq<Credit> := [];
      var i := depth;
      NoBlockCredits(chain, ids, |chain| - depth);
      while i > 0
        invariant 0 <= i <= depth
        invariant BlockCredits(transfers, chain, ids, |chain| - depth, |chain| - i)
        invariant ReadableBlocks(blockCache.blocks, i, depth, ids)
      {
        i := i - 1;
        var txs := blockCache.blocks[i].txs;
        assert txs == chain[|chain| - 1 - i].txs;
        var received := ScanTransactions(store, txs);
        if received.Err? {
          return Err(received.error);
        }
        var height := blockCache.height - i;
        var credits := Flatten(LiftAll(received.value, Some(height)));
        NextBlockCredits(transfers, chain, ids, |chain| - depth, height, credits);
        transfers := transfers + credits;
      }
      r := Ok(transfers);
    }

    /** Scans the arrivals, remembers what they pay, and returns everything remembered. */
    method ScanTxpool(arrived: seq<Tx>) returns (r: Result<seq<Credit>, SubIndex>)
      requires LiftAll(ByHash(arrived, store.invoices.Keys), None).Keys !! txpoolCache.discovered.Keys
      modifies txpoolCache`discovered
      ensures r.Ok? <==> Readable(arrived, store.invoices.Keys)
      ensures r.Err? ==> txpoolCache.discovered == old(txpoolCache.discovered)
                         && Blames(arrived, store.invoices.Keys, r.error)
      ensures r.Ok? ==> txpoolCache.discovered ==
                        old(txpoolCache.discovered) + LiftAll(ByHash(arrived, store.invoices.Keys), None)
      ensures r.Ok? ==> multiset(r.value) == multiset(Flat(txpoolCache.discovered))
    {
      hide Readable, ByHash, Flat, Blames, DistinctHashes, IsReported;
      var remembered := txpoolCache.discovered;
      var received := ScanTransactions(store, arrived);
      if received.Err? {
        return Err(received.error);
      }
      var news := LiftAll(received.value, None);
      var transfers := news + remembered;
      txpoolCache.InsertTransfers(news);
      assert transfers == remembered + news;
      var all := Flatten(transfers);
      r := Ok(all);
    }

    /** Recomputes one invoice; its totals are folded again only if something changed. */
    static method RefreshInvoice(before: Invoice, credits: seq<Credit>, deepest: nat, height: nat)
      returns (invoice: Invoice, changed: bool)
      requires before.creationHeight >= 1
      ensures invoice == if changed then Refresh(before, credits, deepest, height) else Rebuilt(before, credits, deepest, height)
      ensures changed <==> Refresh(before, credits, deepest, height) != before
      ensures changed <==> !Rebuilt(before, credits, deepest, height).Same(before)
    {
      var transfers := RetainBelow(before.transfers, deepest);
      var added := Select(credits, before.index, before.creationHeight);
      invoice := before.(transfers := transfers + added);
      if invoice.currentHeight != height + 1 {
        invoice := invoice.(currentHeight := height + 1);
      }
      var same := Equals(invoice, before);
      changed := !same;
      if changed {
        RefoldDiffers(invoice, before);
        var paid, paidHeight := Fold(invoice.transfers, invoice.amountRequested);
        invoice := invoice.(amountPaid := paid, paidHeight := paidHeight);
      }
    }

    /** Removes the transfers in or above the deepest changed block. */
    static method RetainBelow(transfers: seq<Transfer>, deepest: nat) returns (kept: seq<Transfer>)
      ensures kept == Below(transfers, deepest)
    {
      kept := [];
      for i := 0 to |transfers|
        invariant kept == Below(transfers[..i], deepest)
      {
        assert transfers[..i + 1][..i] == transfers[..i];
        if transfers[i].CmpByHeight(Transfer(0, Some(deepest))) == Less {
          kept := kept + [transfers[i]];
        }
      }
      assert transfers[..|transfers|] == transfers;
    }

    /** Picks the transfers for a subaddress that are newer than the block before creation. */
    static method Select(credits: seq<Credit>, index: SubIndex, creationHeight: nat) returns (added: seq<Transfer>)
      requires creationHeight >= 1
      ensures added == For(credits, index, creationHeight)
    {
      added := [];
      for i := 0 to |credits|
        invariant added == For(credits[..i], index, creationHeight)
      {
        assert credits[..i + 1][..i] == credits[..i];
        var t := credits[i].transfer;
        if credits[i].sub == index && t.CmpByHeight(Transfer(0, Some(creationHeight - 1))) == Greater {
          added := added + [t];
        }
      }
      assert credits[..|credits|] == credits;
    }

    /** Adds up the transfers and finds the height at which they reach the request. */
    static method Fold(transfers: seq<Transfer>, requested: nat) returns (paid: nat, paidHeight: Option<nat>)
      ensures paid == Sum(transfers) && paidHeight == PaidFold(transfers, requested)
      ensures SortedByHeight(transfers) ==> IsPaidHeight(transfers, requested, paidHeight)
    {
      paid, paidHeight := 0, None;
      for i := 0 to |transfers|
        invariant paid == Sum(transfers[..i]) && paidHeight == PaidFold(transfers[..i], requested)
      {
        assert transfers[..i + 1][..i] == transfers[..i];
        paid := paid + transfers[i].amount;
        if paid >= requested && paidHeight.None? {
          paidHeight := transfers[i].height;
        }
      }
      assert transfers[..|transfers|] == transfers;
      if SortedByHeight(transfers) {
        PaidFoldMeaning(transfers, requested);
      }
    }

    /** The invoices that the scan changes, each once. */
    method CollectUpdates(credits: seq<Credit>, deepest: nat, height: nat) returns (updates: seq<Invoice>)
      requires store.Valid() && forall id | id in store.invoices :: id.creationHeight >= 1
      ensures AreUpdates(updates, store.invoices, credits, deepest, height) && DistinctUpdates(updates)
    {
      hide IsUpdate, Refresh, Rebuilt, HasId;
      updates := [];
      var rest := store.invoices.Keys;
      while rest != {}
        invariant rest <= store.invoices.Keys
        invariant CollectedFrom(updates, store.invoices, rest, credits, deepest, height)
        decreases rest
      {
        hide CollectedFrom, AreUpdates;
        var id :| id in rest;
        var invoice, changed := RefreshInvoice(store.invoices[id], credits, deepest, height);
        CollectedNext(updates, store.invoices, rest, id, credits, deepest, height);
        if changed {
          updates := updates + [invoice];
        }
        rest := rest - {id};
      }
    }

    /** Writes the updates to the store and announces them, whether or not the invoice is still
        stored. */
    method SaveUpdates(updates: seq<Invoice>)
      requires store.Valid() && publisher.Valid()
      modifies store, publisher
      ensures store.Valid() && publisher.Valid()
      ensures store.invoices == Overwritten(old(store.invoices), updates)
      ensures publisher.log == old(publisher.log) + Announced(old(publisher.Registered()), updates).0
      ensures publisher.Registered() == Announced(old(publisher.Registered()), updates).1
    {
      hide Overwritten, Announced, FirstClosed, SendOrder, Deliveries, DistinctIds;
      NothingAnnounced(publisher.Registered());
      NothingOverwritten(store.invoices);
      for i := 0 to |updates|
        invariant store.Valid() && publisher.Valid()
        invariant store.invoices == Overwritten(old(store.invoices), updates[..i])
        invariant publisher.log == old(publisher.log) + Announced(old(publisher.Registered()), updates[..i]).0
        invariant publisher.Registered() == Announced(old(publisher.Registered()), updates[..i]).1
      {
        OverwrittenNext(old(store.invoices), updates, i);
        AnnouncedNext(old(publisher.Registered()), updates, i);
        var _ := store.Update(updates[i]);
        assert store.invoices == Overwrite(Overwritten(old(store.invoices), updates[..i]), updates[i]);
        publisher.SendUpdates(updates[i]);
      }
      assert updates[..|updates|] == updates;
    }

    /** Refreshes every stored invoice, saves and announces those that change. */
    method UpdateInvoices(credits: seq<Credit>, blocksUpdated: nat) returns (updates: seq<Invoice>)
      requires Valid() && blocksUpdated <= blockCache.height + 1
      modifies store, publisher
      ensures Valid()
      ensures AreUpdates(updates, old(store.invoices), credits, |chain| - blocksUpdated, |chain| - 1)
      ensures store.invoices == Overwritten(old(store.invoices), updates)
      ensures store.invoices.Keys == old(store.invoices).Keys
      ensures forall id | id in store.invoices :: HasId(updates, id) <==> store.invoices[id] != old(store.invoices)[id]
      ensures forall u | u in updates :: u.Id() in store.invoices && store.invoices[u.Id()] == u
      ensures DistinctUpdates(updates)
      ensures publisher.log == old(publisher.log) + Announced(old(publisher.Registered()), updates).0
      ensures publisher.Registered() == Announced(old(publisher.Registered()), updates).1
    {
      hide Refresh, AreUpdates, Overwritten, HasId, Announced, DistinctUpdates, CountsDown, LinkedFrom;
      var deepest := blockCache.height - blocksUpdated + 1;
      updates := CollectUpdates(credits, deepest, blockCache.height);
      SavedRefresh(store.invoices, updates, credits, deepest, blockCache.height);
      SaveUpdates(updates);
    }

    /** The first half of a scan: the caches move to the snapshot, and what is new in them is
        scanned. If some of it cannot be read, the scan fails here. */
    method ScanCaches(daemon: Daemon) returns (r: Result<(seq<Credit>, seq<Credit>), SubIndex>, blocksUpdated: nat)
      requires Valid() && daemon.Valid() && SameIdSameBlock(chain, daemon.Chain())
      modifies this`chain, this`view, this`met, blockCache, txpoolCache
      ensures Valid() && blocksUpdated <= blockCache.cacheSize && blockCache.daemonHeight == daemon.Height()
      ensures CacheStep(old(Model()), daemon.Chain(), Model(), blocksUpdated)
      ensures r.Ok? <==> PoolReadable(old(Model()), daemon) && BlocksReadable(old(Model()), Model(), blocksUpdated)
      ensures r.Ok? ==> view == old(view) && PoolStep(old(Model()), daemon, Model())
                        && multiset(r.value.1) == multiset(Flat(txpoolCache.discovered))
      ensures r.Ok? ==> var depth := if firstScan then blockCache.cacheSize else blocksUpdated;
                        BlockCredits(r.value.0, chain, store.invoices.Keys, |chain| - depth, |chain|)
      ensures r.Err? ==> FailStep(old(Model()), daemon, Model(), blocksUpdated, HowFar(old(Model()), daemon))
                         && (if BlocksReadable(old(Model()), Model(), blocksUpdated)
                             then BlamedArrival(old(Model()), daemon, r.error)
                             else BlamedBlock(old(Model()), Model(), blocksUpdated, r.error))
    {
      hide CacheStep, PoolStep, Arrivals, BlockCredits, ByHash, LiftAll, Flat, Readable, ReadableBlocks, SameIdSameBlock,
        FailStep, BlocksReadable, PoolReadable, Kept, LinkedFrom, CountsDown, IsWindow, DistinctIds,
        PoolMet, PoolFails, Daemon.PoolKnown, BlamedBlock, BlamedArrival, Blames;
      ghost var s := Model();
      var updated, arrived := UpdateCaches(daemon);
      blocksUpdated := updated;
      ghost var mid := Model();
      NewKeysArrived(s, daemon, arrived);
      ArrivalsReadable(s, daemon, arrived);
      var mined := ScanBlocks(blocksUpdated);
      ghost var depth := if firstScan then blockCache.cacheSize else blocksUpdated;
      WindowReadable(blockCache.blocks, depth, s, mid, blocksUpdated);
      if mined.Err? {
        ghost var i :| 0 <= i < depth && ReadableBlocks(blockCache.blocks, i + 1, depth, s.store.Keys)
                       && Blames(blockCache.blocks[i].txs, s.store.Keys, mined.error);
        WindowBlamed(blockCache.blocks, depth, i, s, mid, blocksUpdated, mined.error);
      }
      var pooled := ScanTxpool(arrived);
      met := if pooled.Ok? then MetAfter(s, txpoolCache.transactions, s.store.Keys) else met;
      ghost var failed := mined.Err? || pooled.Err?;
      view := if failed && s.store == map[] then chain else view;
      if pooled.Ok? {
        PoolScanned(s, daemon, Model(), arrived);
      }
      SameReadable(s, mid, Model(), blocksUpdated, if mined.Err? then mined.error else SubIndex(0, 0));
      SameCache(s, daemon.Chain(), mid, Model(), blocksUpdated);
      if failed {
        if pooled.Err? {
          ArrivalBlamed(s, daemon, arrived, pooled.error);
          LostPool(s, daemon, Model());
        } else {
          DonePool(s, daemon, Model());
        }
        FailureAssembled(s, daemon, Model(), blocksUpdated, if pooled.Ok? then Done else Lost);
      }
      if mined.Err? {
        return Err(mined.error), blocksUpdated;
      }
      if pooled.Err? {
        return Err(pooled.error), blocksUpdated;
      }
      r := Ok((mined.value, pooled.value));
    }

    /**
     * One scan of a snapshot of the daemon. If everything it scans can be read, it is the model's
     * scan step, and announces what it changed. If not, it is the model's failed scan: the caches
     * have moved on, the store has not, and nothing is announced.
     */
    method Scan(daemon: Daemon) returns (r: Result<seq<Invoice>, SubIndex>)
      requires Valid() && daemon.Valid() && SameIdSameBlock(chain, daemon.Chain())
      modifies this, store, blockCache, txpoolCache, publisher
      ensures Valid() && blockCache.daemonHeight == daemon.Height()
      ensures r.Ok? <==> ScanReadable(old(Model()), daemon)
      ensures r.Ok? ==> exists n, mined, pooled :: ScanStep(old(Model()), daemon, Model(), n, mined, pooled)
      ensures r.Err? ==> exists n :: FailStep(old(Model()), daemon, Model(), n, HowFar(old(Model()), daemon))
                                     && (if BlocksReadable(old(Model()), Model(), n)
                                         then BlamedArrival(old(Model()), daemon, r.error)
                                         else BlamedBlock(old(Model()), Model(), n, r.error))
      ensures r.Ok? ==> forall id | id in store.invoices ::
                id in old(store.invoices) && (HasId(r.value, id) <==> store.invoices[id] != old(store.invoices)[id])
      ensures r.Ok? ==> DistinctUpdates(r.value)
                        && forall u | u in r.value :: u.Id() in store.invoices && store.invoices[u.Id()] == u
      ensures r.Ok? ==> publisher.log == old(publisher.log) + Announced(old(publisher.Registered()), r.value).0
      ensures r.Ok? ==> publisher.Registered() == Announced(old(publisher.Registered()), r.value).1
      ensures r.Err? ==> publisher.log == old(publisher.log) && publisher.Registered() == old(publisher.Registered())
    {
      hide CacheStep, PoolStep, BlockCredits, AreUpdates, Overwritten, HasId, Flat, SameIdSameBlock, StoreStep, ScanStep,
        FailStep, Announced, DistinctUpdates, BlocksReadable, PoolReadable, Looked, LinkedFrom, CountsDown, IsWindow,
        DistinctIds, ScanReadable, BlamedArrival, BlamedBlock;
      ghost var s := Model();
      var scanned, blocksUpdated := ScanCaches(daemon);
      ghost var mid := Model();
      ScanReadableIff(s, daemon, mid, blocksUpdated);
      if scanned.Err? {
        assert FailStep(s, daemon, Model(), blocksUpdated, HowFar(s, daemon));
        return Err(scanned.error);
      }
      var (mined, pooled) := scanned.value;
      var credits := mined + pooled;
      if firstScan {
        firstScan := false;
      }
      var updates := UpdateInvoices(credits, blocksUpdated);
      view := Looked(s, chain, ScanFrom(s, mid, blocksUpdated));
      SavedStoreStep(s, Model(), blocksUpdated, credits, updates);
      SamePool(s, daemon, mid, Model());
      Assembled(s, daemon, mid, Model(), blocksUpdated, mined, pooled);
      assert ScanStep(s, daemon, Model(), blocksUpdated, mined, pooled);
      r := Ok(updates);
    }
  }
}
