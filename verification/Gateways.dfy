/** The payment gateway as its callers see it: create an invoice, remove one, scan. */
module Gateways {
  import opened Common
  import opened Indexes
  import opened Invoices
  import opened Daemons
  import opened Stores
  import opened Payments
  import opened PubSub
  import opened ScanModel
  import opened Transfers
  import opened Scanners
  import opened Restart
  import opened BlockCaches
  import Interleaving
  import Money
  import Runs
  import SubaddressCaches

  /** Every generated index is either free or the index of exactly one stored invoice, and
      every address belongs to its index. */
  ghost predicate Allotted(entries: seq<SubaddressCaches.Entry>, major: u32, highest: u32,
                           address: SubIndex -> string, store: map<InvoiceId, Invoice>) {
    && (forall k :: SubaddressCaches.Generated(k, major, highest) <==>
                    SubaddressCaches.HasKey(entries, k) || Tracks(store.Keys, k))
    && (forall k :: !(SubaddressCaches.HasKey(entries, k) && Tracks(store.Keys, k)))
    && Money.DistinctSubs(store.Keys)
    && (forall e | e in entries :: e.1 == address(e.0))
    && (forall id | id in store :: store[id].address == address(id.sub))
  }

  // ---- The gateway as a machine of lock regions ----

  /** The free addresses by index. */
  ghost function ByIndex(entries: seq<SubaddressCaches.Entry>, address: SubIndex -> string): (m: map<SubIndex, string>)
    ensures forall k :: k in m <==> SubaddressCaches.HasKey(entries, k)
    ensures forall k | k in m :: m[k] == address(k)
  {
    if entries == [] then map[]
    else
      var pre, last := entries[..|entries| - 1], entries[|entries| - 1];
      assert entries == pre + [last];
      ByIndex(pre, address)[last.0 := address(last.0)]
  }

  /** The state of the gateway, with no address in flight and the scanner idle. */
  ghost function Idle(entries: seq<SubaddressCaches.Entry>, major: u32, highest: u32, address: SubIndex -> string,
                      store: map<InvoiceId, Invoice>): Interleaving.Machine {
    Interleaving.Machine(
      major, highest, ByIndex(entries, address), map[], map[],
      Contents(store), map id | id in store :: 0, 1, [])
  }

  /** The same, up to the numbering of insertions. */
  ghost predicate Agrees(m: Interleaving.Machine, goal: Interleaving.Machine) {
    && m.major == goal.major && m.highest == goal.highest
    && m.available == goal.available
    && m.taking == goal.taking && m.returning == goal.returning && m.pending == goal.pending
    && m.store.Keys == goal.store.Keys
    && forall id | id in m.store :: m.store[id].invoice == goal.store[id].invoice
  }

  /** Creating the invoice in one go is taking its address and then inserting it. */
  ghost predicate TakesAndInserts(m: Interleaving.Machine, inv: Invoice, goal: Interleaving.Machine,
                                  address: SubIndex -> string) {
    exists t, m1, m2 ::
      && Interleaving.TakeStep(m, t, inv.index, address, m1)
      && Interleaving.InsertStep(m1, t, inv, m2)
      && Agrees(m2, goal)
  }

  /** Removing it in one go is taking it out of the store and then putting its address back. */
  ghost predicate RemovesAndReturns(m: Interleaving.Machine, id: InvoiceId, goal: Interleaving.Machine) {
    exists t, m1, m2 ::
      && Interleaving.RemoveStep(m, t, id, m1)
      && Interleaving.ReturnStep(m1, t, m2)
      && Agrees(m2, goal)
  }

  lemma {:induction false} ByIndexCount(entries: seq<SubaddressCaches.Entry>, address: SubIndex -> string)
    requires SubaddressCaches.DistinctKeys(entries)
    ensures |ByIndex(entries, address)| == |entries|
  {
    if entries != [] {
      var pre, last := entries[..|entries| - 1], entries[|entries| - 1];
      ByIndexCount(pre, address);
      assert last.0 !in ByIndex(pre, address);
    }
  }

  lemma CreateIsTwoRegions(before: seq<SubaddressCaches.Entry>, after: seq<SubaddressCaches.Entry>, major: u32, highest: u32,
                           highest': u32, address: SubIndex -> string, store: map<InvoiceId, Invoice>, inv: Invoice)
    requires SubaddressCaches.ValidEntries(before, major, highest) && Allotted(before, major, highest, address, store)
    requires (inv.index, inv.address) in before && inv.Id() !in store
    requires highest' as nat == if |before| - 1 <= 100 then Min(highest + 100, U32_MAX) else highest
    requires forall e :: e in after <==> (e in before && e != (inv.index, inv.address))
                                         || (e.0.major == major && highest < e.0.minor <= highest' && e.1 == address(e.0))
    ensures TakesAndInserts(Idle(before, major, highest, address, store), inv,
                            Idle(after, major, highest', address, store[inv.Id() := inv]), address)
  {
    hide ByIndex, SubaddressCaches.DistinctKeys;
    var m, goal := Idle(before, major, highest, address, store), Idle(after, major, highest', address, store[inv.Id() := inv]);
    ByIndexCount(before, address);
    TakenKeys(before, after, major, highest, highest', address, inv);
    assert SubaddressCaches.HasKey(before, inv.index);
    StoredAfterInsert(store, inv);
    TwoRegionsOfCreate(m, inv, goal, address);
  }

  /** The stored invoices of a machine. */
  ghost function Contents(store: map<InvoiceId, Invoice>): map<InvoiceId, Interleaving.Stored> {
    map id | id in store :: Interleaving.Stored(store[id], 0)
  }

  lemma StoredAfterInsert(store: map<InvoiceId, Invoice>, inv: Invoice)
    ensures Contents(store[inv.Id() := inv]) == Contents(store)[inv.Id() := Interleaving.Stored(inv, 0)]
  {
  }

  lemma TwoRegionsOfCreate(m: Interleaving.Machine, inv: Invoice, goal: Interleaving.Machine, address: SubIndex -> string)
    requires m.taking == map[] == m.returning && m.pending == [] && inv.index in m.available && inv.Id() !in m.store
    requires m.available[inv.index] == inv.address && forall k | k in m.available :: m.available[k] == address(k)
    requires forall k | k in m.available :: k.major == m.major && k.minor <= m.highest
    requires goal.major == m.major && goal.highest == Interleaving.Refilled(|m.available| - 1, m.highest)
    requires goal.taking == map[] == goal.returning && goal.pending == []
    requires forall k :: k in goal.available <==>
               (k in m.available && k != inv.index) || (k.major == m.major && m.highest < k.minor <= goal.highest)
    requires forall k | k in goal.available :: goal.available[k] == address(k)
    requires goal.store == m.store[inv.Id() := Interleaving.Stored(inv, 0)]
    ensures TakesAndInserts(m, inv, goal, address)
  {
    hide Interleaving.Refilled;
    var t: Interleaving.Thread := 0;
    var m1 := m.(highest := goal.highest, available := goal.available, taking := m.taking[t := (inv.index, inv.address)]);
    var m2 := m1.(taking := m1.taking - {t}, store := m1.store[inv.Id() := Interleaving.Stored(inv, m1.issued)],
                  issue := m1.issue[inv.Id() := m1.issued], issued := m1.issued + 1);
    assert Interleaving.TakeStep(m, t, inv.index, address, m1);
    assert Interleaving.InsertStep(m1, t, inv, m2);
    assert m2.taking == goal.taking;
    assert Agrees(m2, goal);
  }

  lemma TakenKeys(before: seq<SubaddressCaches.Entry>, after: seq<SubaddressCaches.Entry>, major: u32, highest: u32,
                  highest': u32, address: SubIndex -> string, inv: Invoice)
    requires SubaddressCaches.DistinctKeys(before) && forall e | e in before :: e.1 == address(e.0)
    requires (inv.index, inv.address) in before
    requires forall e :: e in after <==> (e in before && e != (inv.index, inv.address))
                                         || (e.0.major == major && highest < e.0.minor <= highest' && e.1 == address(e.0))
    ensures forall k :: SubaddressCaches.HasKey(after, k) <==>
              (SubaddressCaches.HasKey(before, k) && k != inv.index) || (k.major == major && highest < k.minor <= highest')
  {
    forall k
      ensures SubaddressCaches.HasKey(after, k) <==>
              (SubaddressCaches.HasKey(before, k) && k != inv.index) || (k.major == major && highest < k.minor <= highest')
    {
      if SubaddressCaches.HasKey(before, k) && k != inv.index {
        var e :| e in before && e.0 == k;
        assert e in after;
      }
      if k.major == major && highest < k.minor <= highest' {
        assert (k, address(k)) in after;
      }
    }
  }

  lemma RemoveIsTwoRegions(before: seq<SubaddressCaches.Entry>, after: seq<SubaddressCaches.Entry>, major: u32, highest: u32,
                           address: SubIndex -> string, store: map<InvoiceId, Invoice>, id: InvoiceId)
    requires id in store && store[id].address == address(id.sub)
    requires forall e :: e in after <==> e == (id.sub, store[id].address) || (e in before && e.0 != id.sub)
    ensures RemovesAndReturns(Idle(before, major, highest, address, store), id,
                              Idle(after, major, highest, address, store - {id}))
  {
    hide ByIndex;
    var m, goal := Idle(before, major, highest, address, store), Idle(after, major, highest, address, store - {id});
    ReturnedKeys(before, after, (id.sub, store[id].address));
    assert Contents(store - {id}) == Contents(store) - {id};
    TwoRegionsOfRemove(m, id, goal, address);
  }

  lemma ReturnedKeys(before: seq<SubaddressCaches.Entry>, after: seq<SubaddressCaches.Entry>, back: SubaddressCaches.Entry)
    requires forall e :: e in after <==> e == back || (e in before && e.0 != back.0)
    ensures forall k :: SubaddressCaches.HasKey(after, k) <==> SubaddressCaches.HasKey(before, k) || k == back.0
  {
    forall k ensures SubaddressCaches.HasKey(after, k) <==> SubaddressCaches.HasKey(before, k) || k == back.0 {
      assert back in after;
      if SubaddressCaches.HasKey(before, k) && k != back.0 {
        var e :| e in before && e.0 == k;
        assert e in after;
      }
    }
  }

  lemma TwoRegionsOfRemove(m: Interleaving.Machine, id: InvoiceId, goal: Interleaving.Machine, address: SubIndex -> string)
    requires m.taking == map[] == m.returning && m.pending == [] && id in m.store
    requires m.store[id].invoice.address == address(id.sub)
    requires forall k | k in m.available :: m.available[k] == address(k)
    requires goal.major == m.major && goal.highest == m.highest
    requires goal.taking == map[] == goal.returning && goal.pending == []
    requires forall k :: k in goal.available <==> k in m.available || k == id.sub
    requires forall k | k in goal.available :: goal.available[k] == address(k)
    requires goal.store == m.store - {id}
    ensures RemovesAndReturns(m, id, goal)
  {
    var t: Interleaving.Thread := 0;
    var back := (id.sub, m.store[id].invoice.address);
    var m1 := m.(store := m.store - {id}, issue := m.issue - {id}, returning := m.returning[t := back]);
    var m2 := m1.(available := m1.available[id.sub := back.1], returning := m1.returning - {t});
    assert m2.available == goal.available && m2.returning == goal.returning;
    assert Interleaving.RemoveStep(m, t, id, m1) && Interleaving.ReturnStep(m1, t, m2);
    assert Agrees(m2, goal);
  }

  /** Stored invoices that a gateway for the account can take over: they belong to the account,
      show their own addresses, and no two share a subaddress. */
  ghost predicate Reusable(store: map<InvoiceId, Invoice>, major: u32, address: SubIndex -> string) {
    && Money.DistinctSubs(store.Keys)
    && forall id | id in store :: id.sub.major == major && store[id].address == address(id.sub)
  }

  /** Stored invoices with which a gateway starts sound: they agree with the daemon's chain below
      `top`, hold no transfer inside the window, and can be taken over by the account. */
  ghost predicate Startable(store: map<InvoiceId, Invoice>, daemon: Daemon, size: nat, top: nat, major: u32,
                            address: SubIndex -> string)
    requires top <= daemon.Height()
  {
    && Reusable(store, major, address)
    && forall id | id in store :: Consistent(store[id], daemon.Chain()[..top]) && NoneFrom(store[id], top - size)
  }

  class PaymentGateway {
    const scanner: Scanner
    const subaddresses: SubaddressCaches.SubaddressCache

    ghost predicate Valid()
      reads this, scanner, scanner.store, scanner.blockCache, scanner.txpoolCache, scanner.publisher, subaddresses
    {
      && scanner.Valid()
      && subaddresses.Valid()
      && subaddresses.Tidy()
      && Inv(scanner.Model())
      && Allotted(subaddresses.available, subaddresses.major, subaddresses.highest, subaddresses.address,
                  scanner.store.invoices)
    }

    /** The gateway as the machine sees it between two calls. */
    ghost function Machine(): Interleaving.Machine
      reads this, scanner, scanner.store, subaddresses
    {
      Idle(subaddresses.available, subaddresses.major, subaddresses.highest, subaddresses.address, scanner.store.invoices)
    }

    /**
     * A gateway over a store, whose scanner resumes below the height `top`. It is sound exactly if
     * the stored invoices are.
     */
    constructor (daemon: Daemon, store: InMemory, major: u32, address: SubIndex -> string, blockCacheSize: nat, top: nat)
      requires daemon.Valid() && store.Valid() && 1 <= blockCacheSize <= top <= daemon.Height()
      requires Resumes(store.invoices, daemon.Height(), top)
      requires forall id | id in store.invoices :: id.creationHeight >= 1
      ensures fresh(scanner) && fresh(subaddresses)
      ensures fresh(scanner.blockCache) && fresh(scanner.txpoolCache) && fresh(scanner.publisher)
      ensures scanner.store == store && store.invoices == old(store.invoices)
      ensures Started(scanner.Model(), daemon, store.invoices, blockCacheSize, top)
      ensures scanner.blockCache.height == top - 1
      ensures scanner.blockCache.daemonHeight == daemon.Height()
      ensures SubaddressCaches.Starts(subaddresses.available, store.invoices.Keys, major,
                                      SubaddressCaches.HighestFor(store.invoices.Keys), address)
      ensures Valid() <==> Startable(store.invoices, daemon, blockCacheSize, top, major, address)
      ensures subaddresses.highest == SubaddressCaches.HighestFor(store.invoices.Keys)
      ensures store.invoices == map[] ==> Valid() && subaddresses.Stocked() && subaddresses.highest == 99
      ensures |store.invoices| < SubaddressCaches.MIN_AVAILABLE_SUBADDRESSES ==> subaddresses.Len() > 0
    {
      hide Inv, Allotted, Started, Startable, SubaddressCaches.Starts, SubaddressCaches.ValidEntries,
        SubaddressCaches.DistinctKeys, SubaddressCaches.HighestFor, Resumes, IsWindow, LinkedFrom, CountsDown,
        SubaddressCaches.Used, Scanner.Valid, SubaddressCaches.SubaddressCache.Tidy;
      var publisher := new Publisher();
      var cache := new SubaddressCaches.SubaddressCache(store, major, address);
      var started := new Scanner(daemon, store, publisher, blockCacheSize, top);
      scanner := started;
      subaddresses := cache;
      new;
      StartsSound(scanner.Model(), subaddresses.available, daemon, store.invoices, blockCacheSize, top, major, address);
      StartsStocked(subaddresses.available, store.invoices, major, address);
    }

    /** The stored invoice with an id, as it was last updated. */
    method GetInvoice(id: InvoiceId) returns (found: Option<Invoice>)
      requires Valid()
      ensures found == if id in scanner.store.invoices then Some(scanner.store.invoices[id]) else None
      ensures found.Some? && AllUpToDate(scanner.Model()) ==>
                UpToDate(found.value, scanner.view, Seen(scanner.Model(), id.sub))
      ensures found.Some? ==> found.value.Id() == id && found.value.address == subaddresses.address(id.sub)
      ensures found.Some? ==> found.value.amountPaid == Sum(found.value.transfers)
      ensures found.Some? ==> IsPaidHeight(found.value.transfers, found.value.amountRequested, found.value.paidHeight)
    {
      hide UpToDate, Seen;
      found := scanner.store.Get(id);
      if found.Some? {
        PaidFoldMeaning(found.value.transfers, found.value.amountRequested);
      }
    }

    /**
     * Starts tracking an invoice to an unused subaddress. The gateway stays sound exactly if no
     * block that was scanned already pays to it, which is so whenever the reported height is above
     * the cache.
     */
    method NewInvoice(piconeros: nat, confirmationsRequired: nat, expirationIn: nat, description: string)
      returns (r: Result<InvoiceId, StoreError>)
      requires Valid() && subaddresses.Len() > 0
      modifies subaddresses, scanner.store, scanner.publisher
      ensures r.Ok? && r.value in scanner.store.invoices
      ensures r.value.creationHeight == old(scanner.blockCache.daemonHeight)
      ensures (r.value.sub, subaddresses.address(r.value.sub)) in old(subaddresses.available)
      ensures var inv := scanner.store.invoices[r.value];
              && inv == Invoice(subaddresses.address(r.value.sub), r.value.sub, r.value.creationHeight, piconeros, 0, None,
                                confirmationsRequired, 0, r.value.creationHeight + expirationIn, [], description)
              && NewStep(old(scanner.Model()), inv, scanner.Model())
              && (Valid() <==> Unpaid(old(scanner.Model()), inv))
      ensures scanner.blockCache.height < scanner.blockCache.daemonHeight ==> Valid()
      ensures Allotted(subaddresses.available, subaddresses.major, subaddresses.highest, subaddresses.address,
                       scanner.store.invoices)
      ensures subaddresses.Stocked() && subaddresses.highest <= old(subaddresses.highest) + 100
      ensures subaddresses.Len() == old(subaddresses.Len()) - 1 + (subaddresses.highest - old(subaddresses.highest))
      ensures TakesAndInserts(old(Machine()), scanner.store.invoices[r.value], Machine(), subaddresses.address)
      ensures scanner.publisher.invoiceSubs == old(scanner.publisher.invoiceSubs)[r.value := []]
      ensures scanner.publisher.globalSubs == old(scanner.publisher.globalSubs)
      ensures scanner.publisher.log == old(scanner.publisher.log)
    {
      hide Inv, NewStep, Unpaid, SubaddressCaches.ValidEntries, Allotted, TakesAndInserts, Idle;
      ghost var s := scanner.Model();
      ghost var before := subaddresses.available;
      ghost var highest := subaddresses.highest;
      var taken := subaddresses.RemoveRandom();
      var (subIndex, address) := taken;
      TakenIsUntracked(before, subaddresses.major, highest, subaddresses.address, s.store, taken);
      var creationHeight := scanner.blockCache.daemonHeight;
      var invoice := Invoices.NewInvoice(address, subIndex, creationHeight, piconeros, confirmationsRequired,
                                         expirationIn, description);
      var inserted := scanner.store.Insert(invoice);
      if inserted.Err? {
        assert false;
      }
      scanner.publisher.InsertInvoice(invoice.Id());
      CreatedStep(s, invoice, scanner.Model(), address, subIndex, piconeros, confirmationsRequired, expirationIn, description);
      CreatedInv(s, invoice, scanner.Model());
      AllottedAfterCreate(before, subaddresses.available, subaddresses.major, highest, subaddresses.highest,
                          subaddresses.address, s.store, invoice);
      CreateIsTwoRegions(before, subaddresses.available, subaddresses.major, highest, subaddresses.highest,
                         subaddresses.address, s.store, invoice);
      r := Ok(invoice.Id());
    }

    /** Stops tracking an invoice and frees its subaddress. */
    method RemoveInvoice(id: InvoiceId) returns (removed: Option<Invoice>)
      requires Valid()
      modifies subaddresses, scanner.store, scanner.publisher
      ensures Valid()
      ensures old(subaddresses.Stocked()) ==> subaddresses.Stocked()
      ensures subaddresses.highest == old(subaddresses.highest)
      ensures subaddresses.Len() == old(subaddresses.Len()) + (if removed.Some? then 1 else 0)
      ensures removed == if id in old(scanner.store.invoices) then Some(old(scanner.store.invoices)[id]) else None
      ensures RemoveStep(old(scanner.Model()), id, scanner.Model())
      ensures id !in scanner.store.invoices
      ensures removed.Some? ==> RemovesAndReturns(old(Machine()), id, Machine())
      ensures scanner.publisher.invoiceSubs ==
              if removed.Some? then old(scanner.publisher.invoiceSubs) - {id} else old(scanner.publisher.invoiceSubs)
      ensures scanner.publisher.globalSubs == old(scanner.publisher.globalSubs)
      ensures scanner.publisher.log == old(scanner.publisher.log)
    {
      hide Inv, SubaddressCaches.ValidEntries, RemovesAndReturns, Idle;
      ghost var s := scanner.Model();
      ghost var before := subaddresses.available;
      removed := scanner.store.Remove(id);
      if removed.Some? {
        StoredIsGenerated(before, subaddresses.major, subaddresses.highest, subaddresses.address, s.store, id);
        var _ := subaddresses.Insert(id.sub, removed.value.address);
        scanner.publisher.RemoveInvoice(id);
        AllottedAfterRemove(before, subaddresses.available, subaddresses.major, subaddresses.highest,
                            subaddresses.address, s.store, id);
        RemoveIsTwoRegions(before, subaddresses.available, subaddresses.major, subaddresses.highest,
                           subaddresses.address, s.store, id);
      } else {
        NothingRemoved(s, id, scanner.Model());
      }
      Runs.RemoveKeepsInv(s, id, scanner.Model());
    }

    /**
     * One scan by the scanning thread. It succeeds exactly if everything it will look at can be read.
     * Then every invoice is what the batch computation makes of it, what changed is announced, and
     * the amounts paid add up to the payments there are. Otherwise the caches have moved on, and
     * neither the store nor the subscribers notice.
     */
    method Scan(daemon: Daemon) returns (r: Result<seq<Invoice>, SubIndex>)
      requires Valid() && daemon.Valid() && SameIdSameBlock(scanner.chain, daemon.Chain())
      modifies scanner, scanner.store, scanner.blockCache, scanner.txpoolCache, scanner.publisher
      ensures Valid()
      ensures scanner.blockCache.daemonHeight == daemon.Height()
      ensures scanner.blockCache.height == (if old(scanner.blockCache.height) + 1 >= daemon.Height() then
                                              old(scanner.blockCache.height)
                                            else if old(scanner.store.invoices) == map[] then daemon.Height() - 1
                                            else old(scanner.blockCache.height) + 1)
      ensures scanner.store.invoices.Keys == old(scanner.store.invoices).Keys
      ensures r.Ok? <==> ScanReadable(old(scanner.Model()), daemon)
      ensures r.Ok? ==> exists n, mined, pooled :: ScanStep(old(scanner.Model()), daemon, scanner.Model(), n, mined, pooled)
      ensures r.Ok? ==> DistinctUpdates(r.value) && forall id | id in scanner.store.invoices ::
                id in old(scanner.store.invoices)
                && (HasId(r.value, id) <==> scanner.store.invoices[id] != old(scanner.store.invoices)[id])
      ensures r.Ok? ==> forall u | u in r.value :: u.Id() in scanner.store.invoices && scanner.store.invoices[u.Id()] == u
      ensures r.Ok? ==> scanner.publisher.log ==
                        old(scanner.publisher.log) + Announced(old(scanner.publisher.Registered()), r.value).0
      ensures r.Ok? ==> scanner.publisher.Registered() == Announced(old(scanner.publisher.Registered()), r.value).1
      ensures r.Err? ==> exists n :: FailStep(old(scanner.Model()), daemon, scanner.Model(), n,
                                              HowFar(old(scanner.Model()), daemon))
      ensures r.Err? ==> scanner.store.invoices == old(scanner.store.invoices)
      ensures r.Err? ==> scanner.publisher.log == old(scanner.publisher.log)
                         && scanner.publisher.Registered() == old(scanner.publisher.Registered())
      ensures r.Ok? ==> AllUpToDate(scanner.Model())
      ensures r.Ok? ==> Money.TotalPaid(scanner.store.invoices) ==
                        Money.Credited(Money.Ledger(scanner.Model()), scanner.store.invoices.Keys)
    {
      hide ScanStep, FailStep, AllUpToDate, SubaddressCaches.ValidEntries, SameIdSameBlock, Inv, HasId, Money.Ledger,
        Money.Credited, BlocksReadable, PoolReadable, HowFar, Announced, DistinctUpdates, Allotted,
        ScanReadable, BlamedArrival, BlamedBlock;
      ghost var s := scanner.Model();
      r := scanner.Scan(daemon);
      if r.Ok? {
        ghost var n, mined, pooled :| ScanStep(s, daemon, scanner.Model(), n, mined, pooled);
        Runs.ScanComputesBatch(s, daemon, scanner.Model(), n, mined, pooled);
        ScanHeights(s, daemon, scanner.Model(), n, mined, pooled);
        AllottedAfterScan(subaddresses.available, subaddresses.major, subaddresses.highest, subaddresses.address,
                          s.store, scanner.store.invoices);
        Conserved(scanner.Model(), subaddresses.available, subaddresses.major, subaddresses.highest, subaddresses.address);
      } else {
        ghost var n :| FailStep(s, daemon, scanner.Model(), n, HowFar(s, daemon));
        Failure(s, daemon, scanner.Model(), n, HowFar(s, daemon));
      }
    }
  }

  lemma ScanHeights(s: State, daemon: Daemon, s': State, n: nat, mined: seq<Credit>, pooled: seq<Credit>)
    requires ScanStep(s, daemon, s', n, mined, pooled)
    ensures s'.store.Keys == s.store.Keys
    ensures |s'.chain| == if |s.chain| >= daemon.Height() then |s.chain|
                          else if s.store == map[] then daemon.Height() else |s.chain| + 1
  {
  }

  lemma Failure(s: State, daemon: Daemon, s': State, n: nat, outcome: PoolOutcome)
    requires Inv(s) && FailStep(s, daemon, s', n, outcome)
    ensures Inv(s') && s'.store == s.store
    ensures |s'.chain| == if |s.chain| >= daemon.Height() then |s.chain|
                          else if s.store == map[] then daemon.Height() else |s.chain| + 1
  {
    hide Inv, PoolFails;
    Runs.FailKeepsInv(s, s.store == map[], daemon, s', n, outcome);
  }

  lemma Conserved(s: State, entries: seq<SubaddressCaches.Entry>, major: u32, highest: u32, address: SubIndex -> string)
    requires Inv(s) && AllUpToDate(s) && Allotted(entries, major, highest, address, s.store)
    ensures Money.TotalPaid(s.store) == Money.Credited(Money.Ledger(s), s.store.Keys)
  {
    hide AllUpToDate, MemoExact, Consistent, NoneFrom, Money.Ledger, Money.Credited;
    Money.UpToDateTotal(s);
  }

  // ---- How the allotment changes ----

  /** A restart allots every generated index to exactly one place if and only if the stored
      invoices can be taken over by the account. */
  lemma RestartAllottedIff(entries: seq<SubaddressCaches.Entry>, store: map<InvoiceId, Invoice>, major: u32,
                           address: SubIndex -> string)
    requires SubaddressCaches.Starts(entries, store.Keys, major, SubaddressCaches.HighestFor(store.Keys), address)
    ensures Allotted(entries, major, SubaddressCaches.HighestFor(store.Keys), address, store) <==>
            Reusable(store, major, address)
  {
    hide Money.DistinctSubs, SubaddressCaches.HighestFor;
    var highest := SubaddressCaches.HighestFor(store.Keys);
    StartKeys(entries, store.Keys, major, highest, address);
    if Reusable(store, major, address) {
      StoredBelowHighest(store.Keys, major);
    } else if Allotted(entries, major, highest, address, store) {
      forall id | id in store ensures id.sub.major == major {
        assert Tracks(store.Keys, id.sub);
      }
    }
  }

  /** What start-up promises makes the gateway sound exactly for sound stored invoices. */
  lemma StartsSound(start: State, entries: seq<SubaddressCaches.Entry>, daemon: Daemon, store: map<InvoiceId, Invoice>,
                    size: nat, top: nat, major: u32, address: SubIndex -> string)
    requires daemon.Valid() && 1 <= size <= top <= daemon.Height()
    requires Started(start, daemon, store, size, top) && forall id | id in store :: store[id].Id() == id
    requires SubaddressCaches.Starts(entries, store.Keys, major, SubaddressCaches.HighestFor(store.Keys), address)
    ensures Inv(start) && Allotted(entries, major, SubaddressCaches.HighestFor(store.Keys), address, store) <==>
            Startable(store, daemon, size, top, major, address)
    ensures store == map[] ==> Inv(start) && Allotted(entries, major, SubaddressCaches.HighestFor(store.Keys), address, store)
  {
    hide Inv, Allotted, Started, Consistent, NoneFrom, SubaddressCaches.Starts, SubaddressCaches.HighestFor;
    StartInvIff(start, daemon, store, size, top);
    RestartAllottedIff(entries, store, major, address);
  }

  lemma StartKeys(entries: seq<SubaddressCaches.Entry>, ids: set<InvoiceId>, major: u32, highest: u32,
                  address: SubIndex -> string)
    requires SubaddressCaches.Starts(entries, ids, major, highest, address)
    ensures forall k :: SubaddressCaches.HasKey(entries, k) <==>
                        SubaddressCaches.Generated(k, major, highest) && !Tracks(ids, k)
    ensures forall e | e in entries :: e.1 == address(e.0)
  {
    forall k ensures SubaddressCaches.HasKey(entries, k) <==>
                     SubaddressCaches.Generated(k, major, highest) && !Tracks(ids, k)
    {
      if SubaddressCaches.Generated(k, major, highest) && !Tracks(ids, k) {
        assert (k, address(k)) in entries;
      }
    }
  }

  /** With the indexes of one account only, start-up generates all of them. */
  lemma StoredBelowHighest(ids: set<InvoiceId>, major: u32)
    requires forall id | id in ids :: id.sub.major == major
    ensures forall k | Tracks(ids, k) :: SubaddressCaches.Generated(k, major, SubaddressCaches.HighestFor(ids))
  {
    var used := set id | id in ids :: id.sub;
    assert forall k :: k in used <==> Tracks(ids, k);
    if used != {} {
      var greatest := SubaddressCaches.SomeGreatest(used);
      SubaddressCaches.GreatestHighest(ids, used, Some(greatest));
      forall k | Tracks(ids, k) ensures SubaddressCaches.Generated(k, major, SubaddressCaches.HighestFor(ids)) {
        assert k in used && k.Cmp(greatest) != Greater;
      }
    }
  }

  lemma StartsStocked(entries: seq<SubaddressCaches.Entry>, store: map<InvoiceId, Invoice>, major: u32,
                      address: SubIndex -> string)
    requires SubaddressCaches.DistinctKeys(entries)
    requires SubaddressCaches.Starts(entries, store.Keys, major, SubaddressCaches.HighestFor(store.Keys), address)
    ensures |entries| >= SubaddressCaches.MIN_AVAILABLE_SUBADDRESSES - |store|
    ensures store == map[] ==> SubaddressCaches.HighestFor(store.Keys) == 99
  {
    var highest := SubaddressCaches.HighestFor(store.Keys);
    SubaddressCaches.FreeCount(entries, store.Keys, major, highest, address);
    SubaddressCaches.AtLeast99(store.Keys);
    SubaddressCaches.UsedAtMost(store.Keys, major, highest);
    assert |store.Keys| == |store|;
  }

  lemma TakenIsUntracked(entries: seq<SubaddressCaches.Entry>, major: u32, highest: u32, address: SubIndex -> string,
                         store: map<InvoiceId, Invoice>, taken: SubaddressCaches.Entry)
    requires Allotted(entries, major, highest, address, store) && taken in entries
    ensures !Tracks(store.Keys, taken.0) && taken.1 == address(taken.0)
    ensures forall e | e in entries :: SubaddressCaches.Generated(e.0, major, highest)
  {
    forall e | e in entries ensures SubaddressCaches.HasKey(entries, e.0) {
    }
  }

  lemma StoredIsGenerated(entries: seq<SubaddressCaches.Entry>, major: u32, highest: u32, address: SubIndex -> string,
                          store: map<InvoiceId, Invoice>, id: InvoiceId)
    requires Allotted(entries, major, highest, address, store) && id in store
    ensures SubaddressCaches.Generated(id.sub, major, highest)
  {
    assert Tracks(store.Keys, id.sub);
  }

  lemma CreatedStep(s: State, inv: Invoice, s': State, address: string, sub: SubIndex, requested: nat,
                    confirmations: nat, expirationIn: nat, description: string)
    requires inv == Invoices.NewInvoice(address, sub, s.daemonHeight, requested, confirmations, expirationIn, description)
    requires inv.Id() !in s.store
    requires s' == s.(store := s.store[inv.Id() := inv])
    ensures NewStep(s, inv, s')
  {
  }

  lemma CreatedInv(s: State, inv: Invoice, s': State)
    requires Inv(s) && NewStep(s, inv, s')
    ensures Inv(s') <==> Unpaid(s, inv)
    ensures |s.chain| <= s.daemonHeight ==> Inv(s')
  {
    hide MemoExact, Consistent, Unpaid;
    Runs.CreateKeepsInvIff(s, inv, s');
    if |s.chain| <= s.daemonHeight {
      Runs.CreatedAbove(s, inv);
    }
  }

  lemma NothingRemoved(s: State, id: InvoiceId, s': State)
    requires id !in s.store && s' == s.(store := s.store - {id})
    ensures s'.store == s.store
  {
  }

  lemma TracksCreated(store: map<InvoiceId, Invoice>, inv: Invoice, k: SubIndex)
    ensures Tracks(store[inv.Id() := inv].Keys, k) <==> Tracks(store.Keys, k) || k == inv.index
  {
    var keys := store[inv.Id() := inv].Keys;
    assert inv.Id() in keys;
    if Tracks(store.Keys, k) {
      var id :| id in store.Keys && id.sub == k;
      assert id in keys;
    }
  }

  lemma AllottedAfterCreate(before: seq<SubaddressCaches.Entry>, after: seq<SubaddressCaches.Entry>, major: u32,
                            highest: u32, highest': u32, address: SubIndex -> string,
                            store: map<InvoiceId, Invoice>, inv: Invoice)
    requires Allotted(before, major, highest, address, store)
    requires (inv.index, inv.address) in before && highest <= highest'
    requires forall e :: e in after <==> (e in before && e != (inv.index, inv.address))
                                         || (e.0.major == major && highest < e.0.minor <= highest' && e.1 == address(e.0))
    requires !SubaddressCaches.HasKey(after, inv.index)
    ensures Allotted(after, major, highest', address, store[inv.Id() := inv])
  {
    var taken := (inv.index, inv.address);
    TakenIsUntracked(before, major, highest, address, store, taken);
    forall k
      ensures SubaddressCaches.HasKey(after, k) <==>
              (SubaddressCaches.HasKey(before, k) && k != inv.index)
              || (k.major == major && highest < k.minor <= highest')
      ensures Tracks(store[inv.Id() := inv].Keys, k) <==> Tracks(store.Keys, k) || k == inv.index
    {
      TracksCreated(store, inv, k);
      if SubaddressCaches.HasKey(before, k) && k != inv.index {
        var e :| e in before && e.0 == k;
        assert e in after;
      }
      if k.major == major && highest < k.minor <= highest' {
        assert (k, address(k)) in after;
      }
    }
    DistinctAfterCreate(store, inv);
  }

  lemma DistinctAfterCreate(store: map<InvoiceId, Invoice>, inv: Invoice)
    requires Money.DistinctSubs(store.Keys) && !Tracks(store.Keys, inv.index)
    ensures Money.DistinctSubs(store[inv.Id() := inv].Keys)
  {
  }

  lemma AllottedAfterRemove(before: seq<SubaddressCaches.Entry>, after: seq<SubaddressCaches.Entry>, major: u32,
                            highest: u32, address: SubIndex -> string, store: map<InvoiceId, Invoice>, id: InvoiceId)
    requires Allotted(before, major, highest, address, store) && id in store
    requires forall e :: e in after <==> e == (id.sub, store[id].address) || (e in before && e.0 != id.sub)
    ensures Allotted(after, major, highest, address, store - {id})
  {
    forall k
      ensures SubaddressCaches.HasKey(after, k) <==> SubaddressCaches.HasKey(before, k) || k == id.sub
      ensures Tracks((store - {id}).Keys, k) <==> Tracks(store.Keys, k) && k != id.sub
    {
      assert (id.sub, store[id].address) in after;
      if SubaddressCaches.HasKey(before, k) && k != id.sub {
        var e :| e in before && e.0 == k;
        assert e in after;
      }
      if Tracks(store.Keys, k) && k != id.sub {
        var i :| i in store.Keys && i.sub == k;
        assert i in (store - {id}).Keys;
      }
    }
    assert Tracks(store.Keys, id.sub);
  }

  /** A scan keeps the set of invoices and their addresses. */
  lemma AllottedAfterScan(entries: seq<SubaddressCaches.Entry>, major: u32, highest: u32, address: SubIndex -> string,
                          store: map<InvoiceId, Invoice>, store': map<InvoiceId, Invoice>)
    requires Allotted(entries, major, highest, address, store)
    requires store'.Keys == store.Keys
    requires forall id | id in store' :: id in store && store'[id].SameTerms(store[id])
    ensures Allotted(entries, major, highest, address, store')
  {
  }

  // ---- Who has each index ----

  /** Who has each index: a stored invoice, or nobody. */
  ghost function Owner(ids: set<InvoiceId>, k: SubIndex): Interleaving.Holder {
    if id :| id in ids && id.sub == k then Interleaving.Held(id) else Interleaving.Free
  }

  lemma OwnerIs(ids: set<InvoiceId>, k: SubIndex)
    requires Money.DistinctSubs(ids)
    ensures forall id :: Owner(ids, k) == Interleaving.Held(id) <==> id in ids && id.sub == k
    ensures Owner(ids, k) == Interleaving.Free <==> !Tracks(ids, k)
    ensures !Owner(ids, k).Taken? && !Owner(ids, k).Returned?
  {
  }

  /** Every allotted gateway meets the conditions under which interleavings are safe. */
  lemma AllottedIsHeld(entries: seq<SubaddressCaches.Entry>, major: u32, highest: u32, address: SubIndex -> string,
                       store: map<InvoiceId, Invoice>) returns (holder: map<SubIndex, Interleaving.Holder>)
    requires Allotted(entries, major, highest, address, store)
    requires forall id | id in store :: store[id].Id() == id
    ensures var m := Idle(entries, major, highest, address, store);
            Interleaving.HeldBy(m, holder) && Interleaving.Filed(m, address)
  {
    var m := Idle(entries, major, highest, address, store);
    var generated := (set e | e in entries :: e.0) + (set id | id in store :: id.sub);
    holder := map k | k in generated :: Owner(store.Keys, k);
    forall k
      ensures k in m.available <==> SubaddressCaches.HasKey(entries, k)
      ensures k in generated <==> SubaddressCaches.Generated(k, major, highest)
    {
      if id :| id in store.Keys && id.sub == k {
        assert id.sub in generated;
      }
    }
    forall k, x ensures Interleaving.IsAt(m, k, x) <==> k in holder && holder[k] == x {
      OwnerIs(store.Keys, k);
    }
  }
}
