/** Conservation of money: what the invoices say was paid is what the transactions pay. */
module Money {
  import opened Common
  import opened Indexes
  import opened Transfers
  import opened Invoices
  import opened Daemons
  import opened Stores
  import opened Payments
  import opened ScanModel
  import opened ScanTheory
  import opened Memo
  import Runs

  // ---- Every payment there is ----

  function OutputCredits(owned: seq<Output>, amount: nat, height: Option<nat>): seq<Credit> {
    if owned == [] then []
    else
      OutputCredits(owned[..|owned| - 1], amount, height) + [Credit(owned[|owned| - 1].sub, Transfer(amount, height))]
  }

  /** Everything a transaction pays, tracked or not. */
  function TxCredits(tx: Tx, height: Option<nat>): seq<Credit> {
    if tx.unlockTime != 0 then [] else OutputCredits(tx.owned, FirstAmount(tx), height)
  }

  /** A transaction in a block. */
  datatype Placed = Placed(tx: Tx, height: nat)

  function BlockPlaces(txs: seq<Tx>, height: nat): seq<Placed> {
    if txs == [] then [] else BlockPlaces(txs[..|txs| - 1], height) + [Placed(txs[|txs| - 1], height)]
  }

  /** All transactions of the blocks below a height. */
  function Places(chain: seq<Entry>, hi: nat): seq<Placed>
    requires hi <= |chain|
    decreases hi
  {
    if hi == 0 then [] else Places(chain, hi - 1) + BlockPlaces(chain[hi - 1].txs, hi - 1)
  }

  function PlacedCredits(places: seq<Placed>): seq<Credit> {
    if places == [] then []
    else
      var p := places[|places| - 1];
      PlacedCredits(places[..|places| - 1]) + TxCredits(p.tx, Some(p.height))
  }

  /** The credits to subaddresses for which the store answers. */
  function Visible(credits: seq<Credit>, ids: set<InvoiceId>): seq<Credit> {
    if credits == [] then []
    else
      var c, rest := credits[|credits| - 1], Visible(credits[..|credits| - 1], ids);
      if ContainsAtOrAbove(ids, c.sub) then rest + [c] else rest
  }

  /** What the known pool transactions pay to subaddresses for which they were scanned. */
  function PoolCredits(s: State): map<Hash, seq<Credit>> {
    map h | h in s.txs && h in s.met :: Visible(TxCredits(s.txs[h], None), s.met[h])
  }

  /** All payments of the chain as the store knows it, and all that were scanned in the pool. */
  ghost function Ledger(s: State): seq<Credit> {
    PlacedCredits(Places(s.view, |s.view|)) + Flat(PoolCredits(s))
  }

  // ---- Restricted to one invoice, the ledger is the batch list ----

  lemma {:induction false} OutputCreditsFor(owned: seq<Output>, amount: nat, height: Option<nat>, sub: SubIndex, c: nat)
    ensures For(OutputCredits(owned, amount, height), sub, c) ==
            if Due(Transfer(0, height), c) then OutputPayments(owned, amount, sub, height) else []
  {
    if owned != [] {
      var pre, o := OutputCredits(owned[..|owned| - 1], amount, height), owned[|owned| - 1];
      OutputCreditsFor(owned[..|owned| - 1], amount, height, sub, c);
      var credit := Credit(o.sub, Transfer(amount, height));
      assert (pre + [credit])[..|pre + [credit]| - 1] == pre;
    }
  }

  lemma {:induction false} PlacedCreditsConcat(a: seq<Placed>, b: seq<Placed>)
    ensures PlacedCredits(a + b) == PlacedCredits(a) + PlacedCredits(b)
  {
    if b == [] {
      assert a + b == a;
    } else {
      assert (a + b)[..|a + b| - 1] == a + b[..|b| - 1];
      PlacedCreditsConcat(a, b[..|b| - 1]);
    }
  }

  lemma {:induction false} BlockCreditsFor(txs: seq<Tx>, height: nat, sub: SubIndex, c: nat)
    ensures For(PlacedCredits(BlockPlaces(txs, height)), sub, c) ==
            if height >= c then BlockPayments(txs, sub, height) else []
  {
    if txs != [] {
      var pre, tx := txs[..|txs| - 1], txs[|txs| - 1];
      BlockCreditsFor(pre, height, sub, c);
      OutputCreditsFor(tx.owned, FirstAmount(tx), Some(height), sub, c);
      var places, p := BlockPlaces(pre, height), Placed(tx, height);
      assert (places + [p])[..|places + [p]| - 1] == places;
      ForConcat(PlacedCredits(places), TxCredits(tx, Some(height)), sub, c);
    }
  }

  lemma {:induction false} PlacesFor(chain: seq<Entry>, hi: nat, sub: SubIndex, c: nat)
    requires hi <= |chain|
    ensures For(PlacedCredits(Places(chain, hi)), sub, c) == Mined(chain, sub, c, hi)
  {
    hide For, PlacedCredits, BlockPlaces, BlockPayments;
    if hi == 0 {
      NoPlaces(sub, c);
    } else {
      var block := BlockPlaces(chain[hi - 1].txs, hi - 1);
      PlacesFor(chain, hi - 1, sub, c);
      BlockCreditsFor(chain[hi - 1].txs, hi - 1, sub, c);
      PlacedCreditsConcat(Places(chain, hi - 1), block);
      ForConcat(PlacedCredits(Places(chain, hi - 1)), PlacedCredits(block), sub, c);
    }
  }

  lemma NoPlaces(sub: SubIndex, c: nat)
    ensures For(PlacedCredits([]), sub, c) == []
  {
  }

  /** What a scan reports of a transaction is the visible part of what it pays. */
  lemma {:induction false} ReportedIsVisible(owned: seq<Output>, amount: nat, ids: set<InvoiceId>, height: Option<nat>)
    ensures Lift(OwnedAmounts(owned, amount, ids), height) == Visible(OutputCredits(owned, amount, height), ids)
  {
    if owned != [] {
      var pre, o := owned[..|owned| - 1], owned[|owned| - 1];
      ReportedIsVisible(pre, amount, ids, height);
      var amounts, a := OwnedAmounts(pre, amount, ids), OwnedAmount(o.sub, amount);
      assert (amounts + [a])[..|amounts + [a]| - 1] == amounts;
      var credits, c := OutputCredits(pre, amount, height), Credit(o.sub, Transfer(amount, height));
      assert (credits + [c])[..|credits + [c]| - 1] == credits;
    }
  }

  /** The memo is what the known pool transactions pay, as far as they were scanned. */
  lemma MemoIsPoolCredits(s: State)
    requires MemoExact(s)
    ensures multiset(Flat(s.discovered)) == multiset(Flat(PoolCredits(s)))
  {
    hide Flat, Visible, OutputCredits;
    forall h | h in s.txs
      ensures PoolCredits(s)[h] == At(s.discovered, h)
    {
      ReportedIsVisible(s.txs[h].owned, FirstAmount(s.txs[h]), s.met[h], None);
      if s.txs[h].unlockTime != 0 {
        NoneVisible(s.met[h]);
      }
    }
    var none := PoolCredits(s) - s.discovered.Keys;
    MemoKeys(s);
    assert PoolCredits(s) == s.discovered + none;
    FlatUnion(s.discovered, none);
    FlatNothing(none);
  }

  lemma NoneVisible(ids: set<InvoiceId>)
    ensures Visible([], ids) == []
  {
  }

  lemma LedgerFor(s: State, sub: SubIndex, c: nat)
    requires MemoExact(s)
    ensures multiset(For(Ledger(s), sub, c)) == multiset(Batch(s.view, Seen(s, sub), sub, c))
  {
    hide For, Flat, PlacedCredits, PoolPayments, Seen, PoolCredits, MemoExact;
    PlacesFor(s.view, |s.view|, sub, c);
    ForConcat(PlacedCredits(Places(s.view, |s.view|)), Flat(PoolCredits(s)), sub, c);
    MemoIsPoolCredits(s);
    ForPermutation(Flat(s.discovered), Flat(PoolCredits(s)), sub, c);
    MemoIsSeen(s, sub, c);
  }

  // ---- Sums over all invoices ----

  ghost predicate DistinctSubs(ids: set<InvoiceId>) {
    forall i, j | i in ids && j in ids && i.sub == j.sub :: i == j
  }

  /** The payment goes to this invoice: to its subaddress, and not before its creation. */
  predicate Owns(id: InvoiceId, c: Credit) {
    id.sub == c.sub && Due(c.transfer, id.creationHeight)
  }

  /** The total of the payments that go to some tracked invoice, each counted once. */
  function Credited(credits: seq<Credit>, ids: set<InvoiceId>): nat {
    if credits == [] then 0
    else
      var c := credits[|credits| - 1];
      Credited(credits[..|credits| - 1], ids) + (if exists id :: id in ids && Owns(id, c) then c.transfer.amount else 0)
  }

  ghost function TotalPaid(store: map<InvoiceId, Invoice>): nat
    decreases |store|
  {
    if store == map[] then 0
    else
      var id :| id in store;
      SmallerMap(store, id);
      store[id].amountPaid + TotalPaid(store - {id})
  }

  /** With distinct subaddresses, each payment goes to at most one invoice, so the total splits
      into the invoice's part and the part of the others. */
  lemma {:induction false} CreditedSplit(credits: seq<Credit>, ids: set<InvoiceId>, id: InvoiceId)
    requires DistinctSubs(ids) && id in ids
    ensures Credited(credits, ids) == Sum(For(credits, id.sub, id.creationHeight)) + Credited(credits, ids - {id})
  {
    if credits != [] {
      var pre, c := credits[..|credits| - 1], credits[|credits| - 1];
      CreditedSplit(pre, ids, id);
      OneOwner(ids, id, c);
      SumConcat(For(pre, id.sub, id.creationHeight), [c.transfer]);
    }
  }

  lemma OneOwner(ids: set<InvoiceId>, id: InvoiceId, c: Credit)
    requires DistinctSubs(ids) && id in ids
    ensures (exists i :: i in ids && Owns(i, c)) <==> Owns(id, c) || exists i :: i in ids - {id} && Owns(i, c)
    ensures !(Owns(id, c) && exists i :: i in ids - {id} && Owns(i, c))
  {
    if i :| i in ids && Owns(i, c) {
      assert i == id || i in ids - {id};
    }
  }

  lemma {:induction false} CreditedNobody(credits: seq<Credit>)
    ensures Credited(credits, {}) == 0
  {
    if credits != [] {
      CreditedNobody(credits[..|credits| - 1]);
    }
  }

  lemma {:induction false} TotalIsCredited(store: map<InvoiceId, Invoice>, credits: seq<Credit>)
    requires DistinctSubs(store.Keys)
    requires forall id | id in store :: store[id].amountPaid == Sum(For(credits, id.sub, id.creationHeight))
    ensures TotalPaid(store) == Credited(credits, store.Keys)
    decreases |store|
  {
    hide For, Sum, Credited, Owns;
    if store == map[] {
      CreditedNobody(credits);
    } else {
      var id :| id in store && TotalPaid(store) == store[id].amountPaid + TotalPaid(store - {id});
      SmallerMap(store, id);
      TotalIsCredited(store - {id}, credits);
      CreditedSplit(credits, store.Keys, id);
    }
  }

  /** When all invoices are up to date, the amounts paid add up to the payments at or after
      creation to tracked subaddresses: nothing is lost and nothing counted twice. */
  lemma UpToDateTotal(s: State)
    requires DistinctSubs(s.store.Keys) && MemoExact(s) && AllUpToDate(s)
    requires forall id | id in s.store :: s.store[id].Id() == id
    ensures TotalPaid(s.store) == Credited(Ledger(s), s.store.Keys)
  {
    hide For, Ledger, Batch, Sum, Credited, TotalPaid, MemoExact, Seen;
    forall id | id in s.store
      ensures s.store[id].amountPaid == Sum(For(Ledger(s), id.sub, id.creationHeight))
    {
      assert UpToDate(s.store[id], s.view, Seen(s, id.sub));
      LedgerFor(s, id.sub, id.creationHeight);
      SumPermutation(For(Ledger(s), id.sub, id.creationHeight), Batch(s.view, Seen(s, id.sub), id.sub, id.creationHeight));
    }
    TotalIsCredited(s.store, Ledger(s));
  }

  /** After every scan of a run, money is conserved. */
  lemma MoneyConserved(states: seq<State>, steps: seq<Step>, i: nat)
    requires IsRun(states, steps) && Inv(states[0]) && 0 < i < |states| && steps[i - 1].Scanned?
    requires DistinctSubs(states[i].store.Keys)
    ensures TotalPaid(states[i].store) == Credited(Ledger(states[i]), states[i].store.Keys)
  {
    hide Ledger, Credited, TotalPaid, AllUpToDate, Consistent, MemoExact, DistinctSubs, Next;
    Runs.RunInvariant(states, steps, i);
    UpToDateTotal(states[i]);
  }

  // ---- The whole pool ----

  /** The credits to subaddresses for which the store does not answer. */
  function Hidden(credits: seq<Credit>, ids: set<InvoiceId>): seq<Credit> {
    if credits == [] then []
    else
      var c, rest := credits[|credits| - 1], Hidden(credits[..|credits| - 1], ids);
      if ContainsAtOrAbove(ids, c.sub) then rest else rest + [c]
  }

  /** All that the known pool transactions pay. */
  function WholePool(s: State): map<Hash, seq<Credit>> {
    map h | h in s.txs :: TxCredits(s.txs[h], None)
  }

  /** What they pay to subaddresses for which they were not scanned. */
  function MissedPool(s: State): map<Hash, seq<Credit>> {
    map h | h in s.txs && h in s.met :: Hidden(TxCredits(s.txs[h], None), s.met[h])
  }

  lemma {:induction false} VisibleOrHidden(credits: seq<Credit>, ids: set<InvoiceId>)
    ensures multiset(credits) == multiset(Visible(credits, ids)) + multiset(Hidden(credits, ids))
  {
    if credits != [] {
      VisibleOrHidden(credits[..|credits| - 1], ids);
      MultisetSnoc(credits);
    }
  }

  /** Maps whose values add up flatten to lists that add up. */
  lemma {:induction false} FlatAdds(all: map<Hash, seq<Credit>>, a: map<Hash, seq<Credit>>, b: map<Hash, seq<Credit>>)
    requires all.Keys == a.Keys == b.Keys
    requires forall h | h in all :: multiset(all[h]) == multiset(a[h]) + multiset(b[h])
    ensures multiset(Flat(all)) == multiset(Flat(a)) + multiset(Flat(b))
    decreases |all|
  {
    hide Flat;
    if h :| h in all {
      SmallerMap(all, h);
      FlatAdds(all - {h}, a - {h}, b - {h});
      FlatSplit(all, h);
      FlatSplit(a, h);
      FlatSplit(b, h);
    } else {
      assert all == map[] && a == map[] && b == map[];
      FlatNone<Credit>();
    }
  }

  /** After every scan of a run, the amounts paid fall short of all payments of the chain known to
      the store and of the whole pool by exactly the payments of pool transactions that were
      scanned while the store did not answer for the subaddress. */
  lemma WholePoolShortfall(states: seq<State>, steps: seq<Step>, i: nat)
    requires IsRun(states, steps) && Inv(states[0]) && 0 < i < |states| && steps[i - 1].Scanned?
    requires DistinctSubs(states[i].store.Keys)
    ensures var s := states[i];
            TotalPaid(s.store) + Credited(Flat(MissedPool(s)), s.store.Keys) ==
            Credited(PlacedCredits(Places(s.view, |s.view|)) + Flat(WholePool(s)), s.store.Keys)
  {
    hide Credited, TotalPaid, Flat, PlacedCredits, Next, Consistent, NoneFrom, Visible, Hidden, TxCredits,
      AllUpToDate;
    var s := states[i];
    var mined := PlacedCredits(Places(s.view, |s.view|));
    MoneyConserved(states, steps, i);
    Runs.RunInvariant(states, steps, i);
    forall h | h in s.txs
      ensures multiset(WholePool(s)[h]) == multiset(PoolCredits(s)[h]) + multiset(MissedPool(s)[h])
    {
      VisibleOrHidden(TxCredits(s.txs[h], None), s.met[h]);
    }
    FlatAdds(WholePool(s), PoolCredits(s), MissedPool(s));
    CreditedPermutation(mined + Flat(WholePool(s)), Ledger(s) + Flat(MissedPool(s)), s.store.Keys);
    CreditedConcat(Ledger(s), Flat(MissedPool(s)), s.store.Keys);
  }

  // ---- Each transaction once ----

  ghost predicate DistinctTxs(places: seq<Placed>) {
    forall i, j | 0 <= i < j < |places| :: places[i].tx.hash != places[j].tx.hash
  }

  /** What each mined transaction pays, by hash. */
  function ByTx(places: seq<Placed>): map<Hash, seq<Credit>> {
    if places == [] then map[]
    else
      var p := places[|places| - 1];
      ByTx(places[..|places| - 1])[p.tx.hash := TxCredits(p.tx, Some(p.height))]
  }

  lemma {:induction false} ByTxKeys(places: seq<Placed>, h: Hash)
    ensures h in ByTx(places) <==> exists p :: p in places && p.tx.hash == h
  {
    if places != [] {
      ByTxKeys(places[..|places| - 1], h);
      assert places == places[..|places| - 1] + [places[|places| - 1]];
    }
  }

  lemma {:induction false} ByTxFlat(places: seq<Placed>)
    requires DistinctTxs(places)
    ensures multiset(Flat(ByTx(places))) == multiset(PlacedCredits(places))
  {
    if places != [] {
      var pre, p := places[..|places| - 1], places[|places| - 1];
      ByTxFlat(pre);
      ByTxKeys(pre, p.tx.hash);
      assert ByTx(pre) - {p.tx.hash} == ByTx(pre);
      FlatUpdate(ByTx(pre), p.tx.hash, TxCredits(p.tx, Some(p.height)));
    }
  }

  lemma {:induction false} CreditedPermutation(a: seq<Credit>, b: seq<Credit>, ids: set<InvoiceId>)
    requires multiset(a) == multiset(b)
    ensures Credited(a, ids) == Credited(b, ids)
  {
    if a == [] {
      assert |multiset(b)| == |b|;
    } else {
      var c := a[|a| - 1];
      assert c in multiset(b);
      var i :| 0 <= i < |b| && b[i] == c;
      var lo, hi := b[..i], b[i + 1..];
      assert b == lo + ([c] + hi);
      assert multiset(b) == multiset(lo) + multiset{c} + multiset(hi);
      MultisetSnoc(a);
      assert multiset(a[..|a| - 1]) == multiset(a) - multiset{c};
      assert multiset(lo + hi) == multiset(b) - multiset{c};
      CreditedPermutation(a[..|a| - 1], lo + hi, ids);
      CreditedConcat(lo, hi, ids);
      CreditedConcat(lo, [c] + hi, ids);
      CreditedConcat([c], hi, ids);
    }
  }

  lemma {:induction false} CreditedConcat(a: seq<Credit>, b: seq<Credit>, ids: set<InvoiceId>)
    ensures Credited(a + b, ids) == Credited(a, ids) + Credited(b, ids)
  {
    if b == [] {
      assert a + b == a;
    } else {
      assert (a + b)[..|a + b| - 1] == a + b[..|b| - 1];
      CreditedConcat(a, b[..|b| - 1], ids);
    }
  }

  /** If no transaction is in two places, in two blocks or in a block and in the pool, then the
      amounts paid add up over distinct transactions: none is counted twice. */
  lemma EachTransactionOnce(states: seq<State>, steps: seq<Step>, i: nat)
    requires IsRun(states, steps) && Inv(states[0]) && 0 < i < |states| && steps[i - 1].Scanned?
    requires DistinctSubs(states[i].store.Keys)
    requires DistinctTxs(Places(states[i].view, |states[i].view|))
    requires ByTx(Places(states[i].view, |states[i].view|)).Keys !! states[i].txs.Keys
    ensures TotalPaid(states[i].store) ==
            Credited(Flat(ByTx(Places(states[i].view, |states[i].view|)) + PoolCredits(states[i])), states[i].store.Keys)
  {
    hide Credited, TotalPaid, Flat, PlacedCredits, Inv, Next, Visible;
    var s := states[i];
    var places := Places(s.view, |s.view|);
    MoneyConserved(states, steps, i);
    ByTxFlat(places);
    FlatUnion(ByTx(places), PoolCredits(s));
    CreditedPermutation(Ledger(s), Flat(ByTx(places) + PoolCredits(s)), s.store.Keys);
  }
}
