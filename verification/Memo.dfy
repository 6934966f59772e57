/** The memo over the transaction pool gives what scanning the pool again would give. */
module Memo {
  import opened Common
  import opened Indexes
  import opened Transfers
  import opened Invoices
  import opened Daemons
  import opened Stores
  import opened Payments
  import opened ScanModel
  import opened ScanTheory

  // ---- Keeping the memo exact ----

  lemma MemoStays(s: State, daemon: Daemon, s': State)
    requires MemoExact(s) && daemon.pool <= daemon.known.Keys && PoolStep(s, daemon, s')
    ensures MemoExact(s')
  {
    hide Reported, Lift;
    forall h
      ensures h in s'.discovered <==> h in s'.txs && Reported(s'.txs[h], s'.met[h]) != []
      ensures h in s'.discovered ==> s'.discovered[h] == Lift(Reported(s'.txs[h], s'.met[h]), None)
    {
      assert h in s.discovered <==> h in s.txs && Reported(s.txs[h], s.met[h]) != [];
    }
  }

  lemma MemoSurvivesFailure(s: State, daemon: Daemon, s': State, outcome: PoolOutcome)
    requires MemoExact(s) && daemon.pool <= daemon.known.Keys && PoolFails(s, daemon, s', outcome)
    ensures MemoExact(s')
  {
    hide Lift, PoolStep;
    match outcome
    case Untouched =>
    case Pruned =>
    case Lost =>
      forall h | h in daemon.pool ensures Reported(daemon.known[h], {}) == [] {
        NobodyReported(daemon.known[h].owned, FirstAmount(daemon.known[h]));
      }
    case Done => MemoStays(s, daemon, s');
  }

  /** With nothing stored, nothing is reported. */
  lemma {:induction false} NobodyReported(owned: seq<Output>, amount: nat)
    ensures OwnedAmounts(owned, amount, {}) == []
  {
    if owned != [] {
      NobodyReported(owned[..|owned| - 1], amount);
    }
  }

  /** What scanning every transaction again would report, each for the invoices of its time. */
  function Rescanned(txs: map<Hash, Tx>, met: map<Hash, set<InvoiceId>>): map<Hash, seq<Credit>> {
    map h | h in txs && h in met && Reported(txs[h], met[h]) != [] :: Lift(Reported(txs[h], met[h]), None)
  }

  lemma MemoIsRescanned(s: State)
    requires MemoExact(s)
    ensures s.discovered == Rescanned(s.txs, s.met)
  {
    hide Reported, Lift;
  }

  lemma MemoPoolOnly(s: State)
    requires MemoExact(s)
    ensures PoolOnly(s.discovered)
  {
    forall h, c | h in s.discovered && c in s.discovered[h] ensures c.transfer.height.None? {
      LiftHeights(Reported(s.txs[h], s.met[h]), None);
    }
  }

  // ---- What the memo holds for one subaddress ----

  function At(discovered: map<Hash, seq<Credit>>, h: Hash): seq<Credit> {
    if h in discovered then discovered[h] else []
  }

  /** For each transaction the memo holds all that it pays to a subaddress or nothing of it. It
      holds it exactly if the store answered for the subaddress when the transaction was scanned. */
  lemma MemoAt(s: State, h: Hash, sub: SubIndex, c: nat)
    requires MemoExact(s) && h in s.txs
    ensures For(At(s.discovered, h), sub, c) ==
            if ContainsAtOrAbove(s.met[h], sub) then TxPayments(s.txs[h], sub, None) else []
  {
    hide ContainsAtOrAbove, OutputPayments, OwnedAmounts;
    var tx, ids := s.txs[h], s.met[h];
    assert At(s.discovered, h) == Lift(Reported(tx, ids), None);
    if tx.unlockTime == 0 {
      if ContainsAtOrAbove(ids, sub) {
        ReportedFor(tx.owned, FirstAmount(tx), ids, None, sub, c);
      } else {
        UnreportedFor(tx.owned, FirstAmount(tx), ids, None, sub, c);
      }
    }
  }

  lemma PoolPaymentsMinus(txs: map<Hash, Tx>, sub: SubIndex, h: Hash)
    ensures PoolPayments(txs, sub) - {h} == PoolPayments(txs - {h}, sub)
  {
    hide TxPayments;
  }

  /** Splitting one transaction off the memo. */
  lemma ForFlatSplit(discovered: map<Hash, seq<Credit>>, h: Hash, sub: SubIndex, c: nat)
    ensures multiset(For(Flat(discovered), sub, c)) ==
            multiset(For(At(discovered, h), sub, c)) + multiset(For(Flat(discovered - {h}), sub, c))
  {
    hide For, Flat;
    var rest := Flat(discovered - {h});
    if h in discovered {
      FlatSplit(discovered, h);
      ForPermutation(Flat(discovered), discovered[h] + rest, sub, c);
      ForConcat(discovered[h], rest, sub, c);
    } else {
      assert discovered - {h} == discovered;
      ForNone(sub, c);
    }
  }

  lemma {:induction false} MemoIsRescan(discovered: map<Hash, seq<Credit>>, seen: map<Hash, Tx>, hashes: set<Hash>,
                                        sub: SubIndex, c: nat)
    requires discovered.Keys <= hashes && seen.Keys <= hashes
    requires forall h | h in hashes ::
               For(At(discovered, h), sub, c) == if h in seen then TxPayments(seen[h], sub, None) else []
    ensures multiset(For(Flat(discovered), sub, c)) == multiset(Flat(PoolPayments(seen, sub)))
    decreases hashes
  {
    hide For, Flat, TxPayments;
    if h :| h in hashes {
      PoolPaymentsMinus(seen, sub, h);
      ForFlatSplit(discovered, h, sub, c);
      MemoIsRescan(discovered - {h}, seen - {h}, hashes - {h}, sub, c);
      if h in seen {
        FlatSplit(PoolPayments(seen, sub), h);
      } else {
        assert seen - {h} == seen;
      }
    } else {
      assert discovered == map[] && PoolPayments(seen, sub) == map[];
      FlatNone<Credit>();
      FlatNone<Transfer>();
      ForNone(sub, c);
    }
  }

  /** What the memo holds for a subaddress is what the transactions that were scanned for it pay
      to it: no payment is invented, and none of a seen transaction is lost. */
  lemma MemoIsSeen(s: State, sub: SubIndex, c: nat)
    requires MemoExact(s)
    ensures multiset(For(Flat(s.discovered), sub, c)) == multiset(Flat(PoolPayments(Seen(s, sub), sub)))
  {
    hide For, Flat, TxPayments, ContainsAtOrAbove, MemoExact;
    MemoKeys(s);
    forall h | h in s.txs
      ensures For(At(s.discovered, h), sub, c) ==
              if h in Seen(s, sub) then TxPayments(Seen(s, sub)[h], sub, None) else []
    {
      MemoAt(s, h, sub, c);
    }
    MemoIsRescan(s.discovered, Seen(s, sub), s.txs.Keys, sub, c);
  }

  lemma MemoKeys(s: State)
    requires MemoExact(s)
    ensures s.discovered.Keys <= s.txs.Keys == s.met.Keys
  {
    hide Reported, Lift;
  }

  // ---- The whole pool ----

  /** The scan has looked at the transaction for the subaddress, or had nothing to find there. */
  predicate LookedAt(s: State, h: Hash, sub: SubIndex)
    requires h in s.txs && s.met.Keys == s.txs.Keys
  {
    ContainsAtOrAbove(s.met[h], sub) || TxPayments(s.txs[h], sub, None) == []
  }

  /** What the pool pays splits into what was seen and what was not. */
  lemma SeenSplit(s: State, sub: SubIndex)
    requires s.met.Keys == s.txs.Keys
    ensures var unseen := s.txs - Seen(s, sub).Keys;
            && multiset(Flat(PoolPayments(s.txs, sub))) ==
               multiset(Flat(PoolPayments(Seen(s, sub), sub))) + multiset(Flat(PoolPayments(unseen, sub)))
            && (Flat(PoolPayments(unseen, sub)) == [] <==> forall h | h in s.txs :: LookedAt(s, h, sub))
  {
    hide TxPayments, ContainsAtOrAbove, Flat;
    var seen, unseen := Seen(s, sub), s.txs - Seen(s, sub).Keys;
    assert PoolPayments(s.txs, sub) == PoolPayments(seen, sub) + PoolPayments(unseen, sub);
    FlatUnion(PoolPayments(seen, sub), PoolPayments(unseen, sub));
    FlatNothing(PoolPayments(unseen, sub));
    forall h | h in s.txs
      ensures LookedAt(s, h, sub) <==> (h in unseen ==> PoolPayments(unseen, sub)[h] == [])
    {
    }
    assert forall h | h in unseen :: h in s.txs && (LookedAt(s, h, sub) <==> PoolPayments(unseen, sub)[h] == []);
  }

  /** The seen transactions pay as much as the whole pool if and only if the scan has looked at
      every transaction that pays to the subaddress. */
  lemma PoolSeenIff(s: State, sub: SubIndex)
    requires s.met.Keys == s.txs.Keys
    ensures multiset(Flat(PoolPayments(Seen(s, sub), sub))) == multiset(Flat(PoolPayments(s.txs, sub))) <==>
            forall h | h in s.txs :: LookedAt(s, h, sub)
  {
    hide Seen, PoolPayments, Flat, LookedAt;
    SeenSplit(s, sub);
    var missed := Flat(PoolPayments(s.txs - Seen(s, sub).Keys, sub));
    assert |multiset(missed)| == |missed|;
  }
}
