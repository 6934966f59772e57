/**
 * Scans that do not run alone. A scan first tests whether the store is empty, then updates the
 * caches and reports what is new in them, then works out the updates under a read lock, then saves
 * them one by one; invoices are created and removed at any moment in between.
 */
module LiveScans {
  import opened Common
  import opened Indexes
  import opened Transfers
  import opened Invoices
  import opened Daemons
  import opened Stores
  import opened Payments
  import opened ScanModel
  import opened ScanTheory
  import opened Runs
  import Memo

  /** An invoice that was inserted while updates are being saved, and whether one of them, worked
      out from an earlier invoice with the same id, was still to be saved then. */
  datatype Late = Late(invoice: Invoice, stale: bool)

  /**
   * Where the scanner is. After the test it knows whether the store was empty. After reporting it
   * knows the reports, from where on it scanned and for which stored ids, and what the store will
   * have been shown. While saving, `collected` is the store that the updates were worked out from
   * and `late` are the invoices inserted since then.
   */
  datatype Phase =
    | Idle
    | Tested(empty: bool)
    | Reported(ids: set<InvoiceId>, deepest: nat, lo: nat, mined: seq<Credit>, pooled: seq<Credit>, shown: seq<Entry>)
    | Saving(collected: map<InvoiceId, Invoice>, pending: seq<Invoice>, late: map<InvoiceId, Late>, shown: seq<Entry>)

  datatype Live = Live(s: State, phase: Phase)

  datatype Step =
    | Test
    | Report(daemon: Daemon, n: nat, mined: seq<Credit>, pooled: seq<Credit>)
    | Fail(daemon: Daemon, n: nat, outcome: PoolOutcome)
    | Unfetch(height: nat)
    | Collect(updates: seq<Invoice>)
    | Save
    | Finish
    | Create(invoice: Invoice)
    | Remove(id: InvoiceId)

  // ---- Steps ----

  /** The caches move to the snapshot, as the test told, and what is new in them is scanned. The
      store is not touched. */
  ghost predicate ReportStep(l: Live, daemon: Daemon, n: nat, mined: seq<Credit>, pooled: seq<Credit>, l': Live) {
    var s, s' := l.s, l'.s;
    && l.phase.Tested?
    && daemon.Valid()
    && CacheMove(s, l.phase.empty, daemon.Chain(), s', n)
    && PoolStep(s, daemon, s')
    && BlockScan(s, s', n, mined)
    && multiset(pooled) == multiset(Flat(s'.discovered))
    && s'.store == s.store && s'.view == s.view && !s'.firstScan
    && n <= |s'.chain|
    && l'.phase == Reported(s.store.Keys, |s'.chain| - n, ScanFrom(s, s', n), mined, pooled,
                            Looked(s, s'.chain, ScanFrom(s, s', n)))
  }

  /** The updates are worked out from the store as it is now. */
  ghost predicate CollectStep(l: Live, updates: seq<Invoice>, l': Live) {
    && l.phase.Reported?
    && 1 <= |l.s.chain|
    && AreUpdates(updates, l.s.store, l.phase.mined + l.phase.pooled, l.phase.deepest, |l.s.chain| - 1)
    && l' == Live(l.s, Saving(l.s.store, updates, map[], l.phase.shown))
  }

  /** One update is saved, over whatever is stored under its id by now. */
  ghost predicate SaveStep(l: Live, l': Live) {
    && l.phase.Saving? && l.phase.pending != []
    && l' == Live(l.s.(store := Overwrite(l.s.store, l.phase.pending[0])),
                  l.phase.(pending := l.phase.pending[1..]))
  }

  ghost predicate FinishStep(l: Live, l': Live) {
    && l.phase.Saving? && l.phase.pending == []
    && l' == Live(l.s.(view := l.phase.shown), Idle)
  }

  ghost predicate Next(l: Live, step: Step, l': Live) {
    match step
    case Test => l.phase.Idle? && l' == Live(l.s, Tested(l.s.store == map[]))
    case Report(daemon, n, mined, pooled) => ReportStep(l, daemon, n, mined, pooled, l')
    case Fail(daemon, n, outcome) =>
      l.phase.Tested? && FailMove(l.s, l.phase.empty, daemon, l'.s, n, outcome) && l'.phase.Idle?
    case Unfetch(height) => l.phase.Tested? && UnfetchedStep(l.s, height, l'.s) && l'.phase.Idle?
    case Collect(updates) => CollectStep(l, updates, l')
    case Save => SaveStep(l, l')
    case Finish => FinishStep(l, l')
    case Create(invoice) =>
      && NewStep(l.s, invoice, l'.s)
      && |l.s.chain| <= invoice.creationHeight
      && l'.phase == if !l.phase.Saving? then l.phase
                     else l.phase.(late := l.phase.late[invoice.Id() := Late(invoice, HasId(l.phase.pending, invoice.Id()))])
    case Remove(id) => RemoveStep(l.s, id, l'.s) && l'.phase == l.phase
  }

  ghost predicate IsRun(states: seq<Live>, steps: seq<Step>) {
    && |states| == |steps| + 1
    && forall i, j | 0 <= i && j == i + 1 < |states| :: Next(states[i], steps[i], states[j])
  }

  // ---- The invariant ----

  ghost predicate NoOverlap(inv: Invoice, lo: nat, deepest: nat) {
    forall t | t in inv.transfers && t.height.Some? :: !(lo <= t.height.value < deepest)
  }

  /** What holds of a stored invoice between report and collection: it is as before the scan, or
      it was created since, and the report covers it. */
  ghost predicate Reportable(inv: Invoice, s: State, p: Phase)
    requires p.Reported?
  {
    && Consistent(inv, s.view)
    && NoOverlap(inv, p.lo, p.deepest)
    && Covered(p.ids, inv, s.chain)
    && (p.ids == {} ==> |s.chain| <= inv.creationHeight)
  }

  /** What holds of an invoice as the scan leaves it. */
  ghost predicate Refreshed(inv: Invoice, s: State, shown: seq<Entry>) {
    Consistent(inv, shown) && UpToDate(inv, shown, Seen(s, inv.index))
  }

  /** An invoice that is stored although the test found nothing was created since then. */
  ghost predicate CreatedSince(inv: Invoice, s: State) {
    inv.transfers == [] && |s.chain| <= inv.creationHeight
  }

  ghost predicate ReportedInv(s: State, p: Phase)
    requires p.Reported?
  {
    && Rescan(s.chain, p.deepest, p.lo, p.ids, p.mined, p.pooled)
    && multiset(p.pooled) == multiset(Flat(s.discovered))
    && p.shown == (if p.ids == {} then s.chain else Overlay(s.view, s.chain, p.lo))
    && forall id | id in s.store :: Reportable(s.store[id], s, p)
  }

  /** An invoice that was stored when the updates were collected and not inserted again since. */
  ghost predicate Settled(s: State, p: Phase, id: InvoiceId)
    requires p.Saving?
  {
    id in s.store && id !in p.late
  }

  /** What a late invoice is like: as it was inserted, unless an update was still to be saved over
      it then, and has been. */
  ghost predicate LateInv(s: State, p: Phase, id: InvoiceId)
    requires p.Saving? && id in p.late && id in s.store
  {
    if p.late[id].stale then
      HasId(p.pending, id)
      || (Refreshed(s.store[id], s, p.shown) && id in p.collected && s.store[id].SameTerms(p.collected[id]))
    else
      !HasId(p.pending, id) && s.store[id] == p.late[id].invoice
  }

  ghost predicate SavingInv(s: State, p: Phase)
    requires p.Saving?
  {
    && |p.shown| == |s.chain|
    && (forall u | u in p.pending :: u.Id() in p.collected && u.SameTerms(p.collected[u.Id()]) && Refreshed(u, s, p.shown))
    && (forall id | id in s.store :: Consistent(s.store[id], p.shown) || HasId(p.pending, id))
    && (forall id | Settled(s, p, id) :: Refreshed(s.store[id], s, p.shown) || HasId(p.pending, id))
    && (forall id | Settled(s, p, id) :: id in p.collected && s.store[id].SameTerms(p.collected[id]))
    && (forall id | id in p.late && id in s.store :: LateInv(s, p, id))
  }

  ghost predicate LiveInv(l: Live) {
    && 1 <= l.s.size <= |l.s.chain|
    && |l.s.view| <= |l.s.chain|
    && MemoExact(l.s)
    && (forall id | id in l.s.store :: l.s.store[id].Id() == id)
    && match l.phase {
         case Idle => Inv(l.s)
         case Tested(empty) => Inv(l.s) && (empty ==> forall id | id in l.s.store :: CreatedSince(l.s.store[id], l.s))
         case Reported(_, _, _, _, _, _) => !l.s.firstScan && ReportedInv(l.s, l.phase)
         case Saving(_, _, _, _) => !l.s.firstScan && SavingInv(l.s, l.phase)
       }
  }

  // ---- Each step keeps it ----

  lemma ReportKeeps(l: Live, daemon: Daemon, n: nat, mined: seq<Credit>, pooled: seq<Credit>, l': Live)
    requires LiveInv(l) && ReportStep(l, daemon, n, mined, pooled, l')
    ensures LiveInv(l')
  {
    hide Consistent, MemoExact, PoolStep, Flat, Overlay, SortedCredits, ChainCredits, NoneFrom, ContainsAtOrAbove;
    var s, s', p := l.s, l'.s, l'.phase;
    MoveGrows(s, l.phase.empty, daemon.Chain(), s', n);
    Memo.MemoStays(s, daemon, s');
    Memo.MemoPoolOnly(s');
    PooledHeights(pooled, s'.discovered);
    forall id | id in s'.store ensures Reportable(s'.store[id], s', p) {
      ReportCovers(s, s', n, id, p);
    }
  }

  lemma ReportCovers(s: State, s': State, n: nat, id: InvoiceId, p: Phase)
    requires Inv(s) && id in s.store && |s.chain| <= |s'.chain| && n <= |s'.chain| && 0 <= ScanFrom(s, s', n)
    requires p.Reported? && p.ids == s.store.Keys && p.lo == ScanFrom(s, s', n) && p.deepest == |s'.chain| - n
    requires s'.view == s.view
    ensures Reportable(s.store[id], s', p)
  {
    hide Consistent, MemoExact, ContainsAtOrAbove;
    ContainsSubIndexExactness(s.store.Keys, id.sub);
    NothingTwice(s, s', n, s.store[id]);
  }

  /** Refreshing a covered invoice makes it up to date. */
  lemma RefreshedInvoice(s: State, p: Phase, inv: Invoice, u: Invoice)
    requires 1 <= |s.chain| && |s.view| <= |s.chain| && MemoExact(s)
    requires p.Reported? && ReportedInv(s, p) && Reportable(inv, s, p)
    requires u == Refresh(inv, p.mined + p.pooled, p.deepest, |s.chain| - 1)
    ensures u.SameTerms(inv) && Refreshed(u, s, p.shown)
  {
    hide Consistent, UpToDate, MemoExact, Seen, Overlay, Refresh, For, Flat, PoolPayments, Rescan, Covered;
    ForPermutation(p.pooled, Flat(s.discovered), inv.index, inv.creationHeight);
    Memo.MemoIsSeen(s, inv.index, inv.creationHeight);
    RefreshIsBatch(inv, u, s.view, s.chain, p.deepest, p.lo, p.ids, Seen(s, inv.index), p.mined, p.pooled);
    if p.ids == {} {
      ShownAnyway(u, Overlay(s.view, s.chain, p.lo), s.chain, Seen(s, inv.index));
    }
  }

  /** What was mined before creation does not matter. */
  lemma ShownAnyway(inv: Invoice, a: seq<Entry>, b: seq<Entry>, pool: map<Hash, Tx>)
    requires |a| == |b| <= inv.creationHeight
    requires Consistent(inv, a) && UpToDate(inv, a, pool)
    ensures Consistent(inv, b) && UpToDate(inv, b, pool)
  {
    assert Mined(a, inv.index, inv.creationHeight, |a|) == [] == Mined(b, inv.index, inv.creationHeight, |b|);
  }

  lemma CollectKeeps(l: Live, updates: seq<Invoice>, l': Live)
    requires LiveInv(l) && CollectStep(l, updates, l')
    ensures LiveInv(l')
  {
    hide Refreshed, MemoExact, Refresh, Consistent, Rescan, Overlay, HasId;
    var s, p := l.s, l.phase;
    forall id | id in s.store
      ensures var u := Refresh(s.store[id], p.mined + p.pooled, p.deepest, |s.chain| - 1);
              u.SameTerms(s.store[id]) && Refreshed(u, s, p.shown)
    {
      assert Reportable(s.store[id], s, p);
      RefreshedInvoice(s, p, s.store[id], Refresh(s.store[id], p.mined + p.pooled, p.deepest, |s.chain| - 1));
    }
    forall inv | Refreshed(inv, s, p.shown) ensures Consistent(inv, p.shown) {
      RefreshedIsConsistent(inv, s, p.shown);
    }
    forall u | u in updates ensures u.Id() in s.store && u.SameTerms(s.store[u.Id()]) && Refreshed(u, s, p.shown) {
      assert IsUpdate(u, s.store, p.mined + p.pooled, p.deepest, |s.chain| - 1);
    }
  }

  lemma RefreshedIsConsistent(inv: Invoice, s: State, shown: seq<Entry>)
    requires Refreshed(inv, s, shown)
    ensures Consistent(inv, shown)
  {
  }

  lemma SaveKeeps(l: Live, l': Live)
    requires LiveInv(l) && SaveStep(l, l')
    ensures LiveInv(l')
  {
    hide Refreshed, MemoExact, Consistent, HasId;
    var s, s', p, p' := l.s, l'.s, l.phase, l'.phase;
    var u := p.pending[0];
    assert u in p.pending && p.pending == [u] + p'.pending;
    SameMemo(s, s');
    RefreshedIsConsistent(u, s, p.shown);
    forall inv ensures Refreshed(inv, s', p.shown) <==> Refreshed(inv, s, p.shown) {
      RefreshedElsewhere(inv, s, s', p.shown);
    }
    forall id ensures HasId(p.pending, id) <==> u.Id() == id || HasId(p'.pending, id) {
      HasIdFirst(u, p'.pending, id);
    }
    assert s'.store.Keys == s.store.Keys;
    assert forall id | Settled(s', p', id) :: Settled(s, p, id);
    forall id | id in p'.late && id in s'.store ensures LateInv(s', p', id) {
      assert LateInv(s, p, id);
    }
  }

  lemma RefreshedElsewhere(inv: Invoice, s: State, s': State, shown: seq<Entry>)
    requires s'.txs == s.txs && s'.met == s.met
    ensures Refreshed(inv, s', shown) <==> Refreshed(inv, s, shown)
  {
    assert Seen(s, inv.index) == Seen(s', inv.index);
  }

  lemma HasIdFirst(u: Invoice, rest: seq<Invoice>, id: InvoiceId)
    ensures HasId([u] + rest, id) <==> u.Id() == id || HasId(rest, id)
  {
    if HasId(rest, id) {
      var v :| v in rest && v.Id() == id;
      assert v in [u] + rest;
    }
    assert u in [u] + rest;
  }

  /** A late invoice at the end of the scan. If an update from an earlier invoice with the same id was
      still to be saved when it was inserted, it has that invoice's terms and batch result now;
      otherwise it is as it was inserted. */
  ghost predicate LateAtFinish(l: Live, l': Live, id: InvoiceId)
    requires l.phase.Saving? && id in l.phase.late && id in l'.s.store
  {
    var inv := l'.s.store[id];
    if l.phase.late[id].stale then
      && id in l.phase.collected && inv.SameTerms(l.phase.collected[id])
      && UpToDate(inv, l'.s.view, Seen(l'.s, id.sub))
    else inv == l.phase.late[id].invoice
  }

  lemma FinishKeeps(l: Live, l': Live)
    requires LiveInv(l) && FinishStep(l, l')
    ensures LiveInv(l')
    ensures forall id | Settled(l.s, l.phase, id) ::
              && id in l'.s.store && id in l.phase.collected
              && UpToDate(l'.s.store[id], l'.s.view, Seen(l'.s, id.sub))
              && l'.s.store[id].SameTerms(l.phase.collected[id])
    ensures forall id | id in l.phase.late && id in l'.s.store :: LateAtFinish(l, l', id)
  {
    hide MemoExact, Consistent, UpToDate, Seen;
    SameMemo(l.s, l'.s);
    forall id | id in l.phase.late && id in l'.s.store ensures LateAtFinish(l, l', id) {
      assert LateInv(l.s, l.phase, id);
      RefreshedElsewhere(l.s.store[id], l.s, l'.s, l.phase.shown);
    }
    forall id | Settled(l.s, l.phase, id) ensures UpToDate(l'.s.store[id], l'.s.view, Seen(l'.s, id.sub)) {
      assert Refreshed(l.s.store[id], l.s, l.phase.shown);
      RefreshedElsewhere(l.s.store[id], l.s, l'.s, l.phase.shown);
    }
  }

  lemma CreateKeeps(l: Live, invoice: Invoice, l': Live)
    requires LiveInv(l) && Next(l, Create(invoice), l')
    ensures LiveInv(l')
  {
    hide Refreshed, MemoExact, Consistent, Rescan, Overlay, HasId, NoneFrom, ContainsAtOrAbove;
    var s, s' := l.s, l'.s;
    SameMemo(s, s');
    CreatedAnywhere(invoice, s.view);
    match l.phase
    case Idle =>
      CreatedAbove(s, invoice);
      CreateKeepsInvIff(s, invoice, s');
    case Tested(_) =>
      CreatedAbove(s, invoice);
      CreateKeepsInvIff(s, invoice, s');
    case Reported(_, _, _, _, _, _) =>
      assert Reportable(invoice, s', l'.phase);
    case Saving(_, _, _, shown) =>
      CreatedAnywhere(invoice, shown);
      forall inv ensures Refreshed(inv, s', shown) <==> Refreshed(inv, s, shown) {
        RefreshedElsewhere(inv, s, s', shown);
      }
      assert forall id | Settled(s', l'.phase, id) :: Settled(s, l.phase, id);
      forall id | id in l'.phase.late && id in s'.store ensures LateInv(s', l'.phase, id) {
        assert id != invoice.Id() ==> LateInv(s, l.phase, id);
      }
  }

  lemma CreatedAnywhere(inv: Invoice, view: seq<Entry>)
    requires inv.transfers == [] && inv.currentHeight == 0 && inv.Folded()
    ensures |view| <= inv.creationHeight ==> Consistent(inv, view)
  {
    if |view| <= inv.creationHeight {
      assert Mined(view, inv.index, inv.creationHeight, |view|) == [];
    }
  }

  lemma RemoveKeeps(l: Live, id: InvoiceId, l': Live)
    requires LiveInv(l) && Next(l, Remove(id), l')
    ensures LiveInv(l')
  {
    hide Refreshed, MemoExact, Consistent, Rescan, Overlay, HasId, NoneFrom, ContainsAtOrAbove;
    var s, s' := l.s, l'.s;
    SameMemo(s, s');
    match l.phase
    case Idle => RemoveKeepsInv(s, id, s');
    case Tested(_) => RemoveKeepsInv(s, id, s');
    case Reported(_, _, _, _, _, _) =>
    case Saving(_, _, _, shown) =>
      forall inv ensures Refreshed(inv, s', shown) <==> Refreshed(inv, s, shown) {
        RefreshedElsewhere(inv, s, s', shown);
      }
      assert forall i | Settled(s', l'.phase, i) :: Settled(s, l.phase, i);
      forall i | i in l'.phase.late && i in s'.store ensures LateInv(s', l'.phase, i) {
        assert LateInv(s, l.phase, i);
      }
  }

  // ---- Every run ----

  /**
   * Whatever is created and removed while scans run: every state of the run is consistent, and
   * when a scan finishes, every invoice that was stored when its updates were collected and whose
   * id was not inserted again since is up to date, on the terms it had then, and every other one
   * is as it was inserted, or overwritten by an update that was still to be saved at that time.
   */
  lemma {:induction false} LiveRun(states: seq<Live>, steps: seq<Step>, i: nat)
    requires IsRun(states, steps) && LiveInv(states[0]) && i < |states|
    ensures LiveInv(states[i])
    ensures i > 0 && steps[i - 1].Finish? ==>
              forall id | Settled(states[i - 1].s, states[i - 1].phase, id) ::
                && id in states[i].s.store && id in states[i - 1].phase.collected
                && UpToDate(states[i].s.store[id], states[i].s.view, Seen(states[i].s, id.sub))
                && states[i].s.store[id].SameTerms(states[i - 1].phase.collected[id])
    ensures i > 0 && steps[i - 1].Finish? ==>
              forall id | id in states[i].s.store && !Settled(states[i - 1].s, states[i - 1].phase, id) ::
                id in states[i - 1].phase.late && LateAtFinish(states[i - 1], states[i], id)
  {
    hide LiveInv, ReportStep, CollectStep, SaveStep, UpToDate, Seen, FailMove, LateAtFinish;
    if i > 0 {
      LiveRun(states, steps, i - 1);
      var l, l' := states[i - 1], states[i];
      assert Next(l, steps[i - 1], l');
      match steps[i - 1]
      case Test => TestKeeps(l, l');
      case Report(daemon, n, mined, pooled) => ReportKeeps(l, daemon, n, mined, pooled, l');
      case Fail(daemon, n, outcome) => FailKeeps(l, daemon, n, outcome, l');
      case Unfetch(height) => UnfetchKeeps(l, height, l');
      case Collect(updates) => CollectKeeps(l, updates, l');
      case Save => SaveKeeps(l, l');
      case Finish => FinishKeeps(l, l');
      case Create(invoice) => CreateKeeps(l, invoice, l');
      case Remove(id) => RemoveKeeps(l, id, l');
    }
  }

  lemma TestKeeps(l: Live, l': Live)
    requires LiveInv(l) && Next(l, Test, l')
    ensures LiveInv(l')
  {
    hide MemoExact, Consistent;
  }

  lemma FailKeeps(l: Live, daemon: Daemon, n: nat, outcome: PoolOutcome, l': Live)
    requires LiveInv(l) && Next(l, Fail(daemon, n, outcome), l')
    ensures LiveInv(l')
  {
    hide MemoExact, Consistent, PoolFails;
    FailKeepsInv(l.s, l.phase.empty, daemon, l'.s, n, outcome);
  }

  lemma UnfetchKeeps(l: Live, height: nat, l': Live)
    requires LiveInv(l) && Next(l, Unfetch(height), l')
    ensures LiveInv(l')
  {
    hide MemoExact, Consistent;
    UnfetchedKeepsInv(l.s, height, l'.s);
  }

  /** If nothing was created since the updates were collected, every stored invoice is up to date
      when the scan finishes. */
  lemma AllSettled(states: seq<Live>, steps: seq<Step>, i: nat)
    requires IsRun(states, steps) && LiveInv(states[0]) && 0 < i < |states| && steps[i - 1].Finish?
    requires states[i - 1].phase.Saving? && states[i - 1].phase.late == map[]
    ensures Inv(states[i].s) && AllUpToDate(states[i].s)
  {
    hide UpToDate, Seen, CoreInv, MemoExact, LateAtFinish;
    LiveRun(states, steps, i);
    assert Next(states[i - 1], steps[i - 1], states[i]);
    forall id | id in states[i].s.store ensures UpToDate(states[i].s.store[id], states[i].s.view, Seen(states[i].s, id.sub)) {
      assert Settled(states[i - 1].s, states[i - 1].phase, id);
    }
  }

  // ---- An invoice inserted between the test and the jump ----

  /**
   * If the store was found empty and an invoice is inserted before the cache jumps to the tip, then
   * what the store is shown pays to the invoice what the daemon's chain does if and only if the
   * blocks since its creation that lie below the new window pay nothing to it. There are such
   * blocks only if more blocks were missing than the window holds.
   */
  lemma SkippedIff(l: Live, daemon: Daemon, n: nat, mined: seq<Credit>, pooled: seq<Credit>, l': Live, id: InvoiceId)
    requires LiveInv(l) && l.phase == Tested(true) && ReportStep(l, daemon, n, mined, pooled, l')
    requires |l.s.chain| < daemon.Height() && id in l.s.store
    ensures l'.s.chain == daemon.Chain()
    ensures (forall h | id.creationHeight <= h < daemon.Height() - l.s.size ::
               BlockPayments(daemon.Chain()[h].txs, id.sub, h) == []) <==>
            multiset(Mined(l'.phase.shown, id.sub, id.creationHeight, |l'.phase.shown|)) ==
            multiset(Mined(daemon.Chain(), id.sub, id.creationHeight, daemon.Height()))
  {
    hide BlockPayments, PoolStep, BlockScan, MemoExact, Consistent, Mined, Overlay;
    var shown, chain, c := l'.phase.shown, daemon.Chain(), id.creationHeight;
    assert CreatedSince(l.s.store[id], l.s);
    ShownAt(l, daemon, n, mined, pooled, l', id);
    SameMinedIff(shown, chain, id.sub, c);
    forall h | c <= h < |chain|
      ensures multiset(BlockPayments(shown[h].txs, id.sub, h)) == multiset(BlockPayments(chain[h].txs, id.sub, h)) <==>
              (h < |chain| - l.s.size ==> BlockPayments(chain[h].txs, id.sub, h) == [])
    {
      if h < |chain| - l.s.size {
        NothingPaid(id.sub, h);
        EmptyIff(BlockPayments(chain[h].txs, id.sub, h));
      }
    }
  }

  /** The store is shown the new window and nothing below it. */
  lemma ShownAt(l: Live, daemon: Daemon, n: nat, mined: seq<Credit>, pooled: seq<Credit>, l': Live, id: InvoiceId)
    requires LiveInv(l) && l.phase == Tested(true) && ReportStep(l, daemon, n, mined, pooled, l')
    requires |l.s.chain| < daemon.Height() && id in l.s.store
    ensures |l'.phase.shown| == daemon.Height()
    ensures forall h | id.creationHeight <= h < daemon.Height() ::
              l'.phase.shown[h] == if h < daemon.Height() - l.s.size then Blank(h) else daemon.Chain()[h]
  {
    hide PoolStep, BlockScan, MemoExact, Consistent;
    assert CreatedSince(l.s.store[id], l.s);
  }

  lemma EmptyIff(ts: seq<Transfer>)
    ensures multiset(ts) == multiset{} <==> ts == []
  {
    assert |multiset(ts)| == |ts|;
  }
}
