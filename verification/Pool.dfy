/** How the pool memo develops along a run, and which pool transactions it covers. */
module Pool {
  import opened Common
  import opened Indexes
  import opened Transfers
  import opened Invoices
  import opened Daemons
  import opened Stores
  import opened Payments
  import opened ScanModel
  import opened ScanTheory
  import opened Memo
  import opened Runs

  /** The step asks the daemon for the pool. */
  predicate Asks(step: Step) {
    step.Scanned? || step.Failed?
  }

  /** The pool that the step is told about. */
  function PoolOf(step: Step): set<Hash>
    requires Asks(step)
  {
    match step
    case Scanned(daemon, _, _, _) => daemon.pool
    case Failed(daemon, _, _) => daemon.pool
  }

  /** A step that asks the daemon finds the transaction in the pool. */
  predicate FindsInPool(step: Step, h: Hash) {
    Asks(step) ==> h in PoolOf(step)
  }

  /** The invoices for which a step scans what is new to it, if it gets to know that at all: the
      stored ones, or none if the scan fails before it has scanned the pool. */
  function MeetsFor(step: Step, ids: set<InvoiceId>): Option<set<InvoiceId>> {
    match step
    case Scanned(_, _, _, _) => Some(ids)
    case Failed(_, _, Done) => Some(ids)
    case Failed(_, _, Lost) => Some({})
    case Failed(_, _, Untouched) => None
    case Failed(_, _, Pruned) => None
    case Unfetched(_) => None
    case Created(_) => None
    case Removed(_) => None
  }

  /** The transaction is in the pool and new to the step. */
  ghost predicate Arrives(s: State, step: Step, h: Hash) {
    Asks(step) && h in PoolOf(step) && h !in s.txs
  }

  lemma StepKeepsKnown(s: State, step: Step, s': State, h: Hash)
    requires Next(s, step, s') && h in s.txs && FindsInPool(step, h)
    ensures h in s'.txs && s'.txs[h] == s.txs[h]
    ensures h in s.met ==> h in s'.met && s'.met[h] == s.met[h]
  {
    hide CacheStep, BlockScan, StoreStep, Reported, Lift, Flat, Overlay;
    match step
    case Scanned(daemon, _, _, _) =>
    case Failed(daemon, _, outcome) =>
      match outcome {
        case Untouched =>
        case Pruned =>
        case Lost =>
        case Done =>
      }
    case Unfetched(_) =>
    case Created(_) =>
    case Removed(_) =>
  }

  /** For as long as every step finds it in the pool, a transaction stays known, and stays
      scanned for the invoices it was scanned for. */
  lemma {:induction false} StaysKnown(states: seq<State>, steps: seq<Step>, i: nat, j: nat, h: Hash)
    requires IsRun(states, steps) && i <= j < |states|
    requires h in states[i].txs
    requires forall k | i <= k < j :: FindsInPool(steps[k], h)
    ensures h in states[j].txs && states[j].txs[h] == states[i].txs[h]
    ensures h in states[i].met ==> h in states[j].met && states[j].met[h] == states[i].met[h]
    decreases j - i
  {
    hide Next;
    if i < j {
      StaysKnown(states, steps, i, j - 1, h);
      StepKeepsKnown(states[j - 1], steps[j - 1], states[j], h);
    }
  }

  /** A transaction that is new to a step is known after it, scanned for the invoices that
      `MeetsFor` tells, or it is still new. */
  lemma ArrivalIsMet(s: State, step: Step, s': State, h: Hash)
    requires Next(s, step, s') && Arrives(s, step, h)
    ensures match MeetsFor(step, s.store.Keys)
            case Some(ids) => h in s'.txs && h in s'.met && s'.met[h] == ids
            case None => h !in s'.txs
  {
    hide CacheStep, BlockScan, StoreStep, Reported, Lift, Flat, Overlay;
    match step
    case Scanned(_, _, _, _) =>
    case Failed(_, _, outcome) =>
      match outcome {
        case Untouched =>
        case Pruned =>
        case Lost =>
        case Done =>
      }
  }

  /** Each transaction is scanned once per stay: between two scans to which it is new, some
      step found it gone. */
  lemma ScannedOncePerStay(states: seq<State>, steps: seq<Step>, i: nat, j: nat, h: Hash)
    requires IsRun(states, steps) && i < j < |steps|
    requires Arrives(states[i], steps[i], h) && MeetsFor(steps[i], states[i].store.Keys).Some?
    requires Arrives(states[j], steps[j], h)
    ensures exists k :: i < k < j && !FindsInPool(steps[k], h)
  {
    hide Next;
    ArrivalIsMet(states[i], steps[i], states[i + 1], h);
    if forall k | i + 1 <= k < j :: FindsInPool(steps[k], h) {
      StaysKnown(states, steps, i + 1, j, h);
    }
  }

  /**
   * Which pool transactions are credited: for as long as it stays, a transaction that became known
   * in step `i` has its payments to a subaddress in the memo if and only if the step scanned it and
   * the store held an id at or above the subaddress then.
   */
  lemma CreditedIff(states: seq<State>, steps: seq<Step>, i: nat, j: nat, h: Hash, sub: SubIndex)
    requires IsRun(states, steps) && Inv(states[0]) && i < j < |states|
    requires Arrives(states[i], steps[i], h) && MeetsFor(steps[i], states[i].store.Keys).Some?
    requires forall k | i < k < j :: FindsInPool(steps[k], h)
    ensures h in states[j].txs
    ensures For(At(states[j].discovered, h), sub, 0) ==
            if ContainsAtOrAbove(MeetsFor(steps[i], states[i].store.Keys).value, sub)
            then TxPayments(states[j].txs[h], sub, None) else []
  {
    hide Next, MemoExact, ContainsAtOrAbove, For, TxPayments, MeetsFor;
    ArrivalIsMet(states[i], steps[i], states[i + 1], h);
    StaysKnown(states, steps, i + 1, j, h);
    RunInvariant(states, steps, j);
    MemoAt(states[j], h, sub, 0);
  }

  /** A step that loses sight of a transaction did not find it. */
  lemma FoundOrForgotten(s: State, step: Step, s': State, h: Hash)
    requires Next(s, step, s') && h in s'.txs
    ensures h in s.txs ==> FindsInPool(step, h) || (step.Failed? && step.outcome == Untouched)
    ensures h !in s.txs ==> Arrives(s, step, h) && MeetsFor(step, s.store.Keys).Some?
  {
    hide CacheStep, BlockScan, StoreStep, Reported, Lift, Flat, Overlay;
    match step
    case Scanned(_, _, _, _) =>
    case Failed(_, _, outcome) =>
      match outcome {
        case Untouched =>
        case Pruned =>
        case Lost =>
        case Done =>
      }
    case Unfetched(_) =>
    case Created(_) =>
    case Removed(_) =>
  }

  lemma UntouchedKeepsMet(s: State, step: Step, s': State, h: Hash)
    requires Next(s, step, s') && step.Failed? && step.outcome == Untouched
    ensures s'.txs == s.txs && s'.met == s.met
  {
    hide CacheStep;
  }

  /** There are no other known transactions: whom a known one was scanned for was decided at the
      start of the run or by the step in which it became known. */
  lemma {:induction false} MetOrigin(states: seq<State>, steps: seq<Step>, j: nat, h: Hash)
    requires IsRun(states, steps) && Inv(states[0]) && j < |states| && h in states[j].txs
    ensures h in states[j].met
    ensures (h in states[0].met && states[j].met[h] == states[0].met[h])
            || exists i :: 0 <= i < j && Arrives(states[i], steps[i], h)
                           && MeetsFor(steps[i], states[i].store.Keys) == Some(states[j].met[h])
  {
    hide Next, MeetsFor, Consistent, NoneFrom;
    RunInvariant(states, steps, j);
    if j > 0 {
      var s, step, s' := states[j - 1], steps[j - 1], states[j];
      RunInvariant(states, steps, j - 1);
      FoundOrForgotten(s, step, s', h);
      if h in s.txs {
        MetOrigin(states, steps, j - 1, h);
        if FindsInPool(step, h) {
          StepKeepsKnown(s, step, s', h);
        } else {
          UntouchedKeepsMet(s, step, s', h);
        }
      } else {
        ArrivalIsMet(s, step, s', h);
        assert Arrives(states[j - 1], steps[j - 1], h);
      }
    }
  }

  /** In particular, an invoice that was stored when the transaction was scanned is credited. */
  lemma StoredIsCredited(states: seq<State>, steps: seq<Step>, i: nat, j: nat, h: Hash, id: InvoiceId)
    requires IsRun(states, steps) && Inv(states[0]) && i < j < |states|
    requires Arrives(states[i], steps[i], h) && MeetsFor(steps[i], states[i].store.Keys) == Some(states[i].store.Keys)
    requires id in states[i].store && forall k | i < k < j :: FindsInPool(steps[k], h)
    ensures h in states[j].txs
    ensures For(At(states[j].discovered, h), id.sub, 0) == TxPayments(states[j].txs[h], id.sub, None)
  {
    hide Next, ContainsAtOrAbove, For, TxPayments, MemoExact, MeetsFor;
    ContainsSubIndexExactness(states[i].store.Keys, id.sub);
    CreditedIff(states, steps, i, j, h, id.sub);
  }

  /** A known transaction that was scanned for nobody, like all of the pool at start-up, is credited
      to nobody while it stays. */
  lemma NeverCredited(states: seq<State>, steps: seq<Step>, i: nat, j: nat, h: Hash, sub: SubIndex)
    requires IsRun(states, steps) && Inv(states[0]) && i <= j < |states|
    requires h in states[i].txs && h in states[i].met && states[i].met[h] == {}
    requires forall k | i <= k < j :: FindsInPool(steps[k], h)
    ensures h in states[j].txs && For(At(states[j].discovered, h), sub, 0) == []
  {
    hide Next, MemoExact, For, TxPayments;
    StaysKnown(states, steps, i, j, h);
    RunInvariant(states, steps, j);
    MemoAt(states[j], h, sub, 0);
  }

  /**
   * What a failed scan does to its arrivals: after the next scan that succeeds, an invoice that was
   * stored all the while has the payments of a transaction that was new to the failed scan, and is
   * still in the pool, if and only if the failed scan did not lose it.
   */
  lemma ArrivalLostIff(states: seq<State>, steps: seq<Step>, i: nat, j: nat, h: Hash, id: InvoiceId)
    requires IsRun(states, steps) && Inv(states[0]) && i < j < |steps|
    requires steps[i].Failed? && Arrives(states[i], steps[i], h)
    requires steps[j].Scanned? && h in steps[j].daemon.pool
    requires forall k | i < k < j :: !Asks(steps[k])
    requires id in states[i].store && id in states[j].store
    ensures h in states[j + 1].txs
    ensures TxPayments(states[j + 1].txs[h], id.sub, None) != [] ==>
              (For(At(states[j + 1].discovered, h), id.sub, 0) == TxPayments(states[j + 1].txs[h], id.sub, None) <==>
               steps[i].outcome != Lost)
  {
    hide Next, ContainsAtOrAbove, For, TxPayments, MemoExact;
    ContainsSubIndexExactness(states[i].store.Keys, id.sub);
    ContainsSubIndexExactness(states[j].store.Keys, id.sub);
    NobodyContained(id.sub);
    if steps[i].outcome == Lost || steps[i].outcome == Done {
      CreditedIff(states, steps, i, j + 1, h, id.sub);
    } else {
      ArrivalIsMet(states[i], steps[i], states[i + 1], h);
      StaysNew(states, steps, i + 1, j, h);
      CreditedIff(states, steps, j, j + 1, h, id.sub);
    }
  }

  lemma NobodyContained(sub: SubIndex)
    ensures !ContainsAtOrAbove({}, sub)
  {
  }

  /** While nobody asks, a new transaction stays new. */
  lemma {:induction false} StaysNew(states: seq<State>, steps: seq<Step>, i: nat, j: nat, h: Hash)
    requires IsRun(states, steps) && i <= j < |states| && h !in states[i].txs
    requires forall k | i <= k < j :: !Asks(steps[k])
    ensures h !in states[j].txs
    decreases j - i
  {
    if i < j {
      StaysNew(states, steps, i, j - 1, h);
      assert Next(states[j - 1], steps[j - 1], states[j]);
    }
  }

  /** Whatever happens, every scan of the pool returns exactly what scanning all known
      transactions again would, each for the invoices that were stored when it arrived. */
  lemma PoolScanIsRescan(states: seq<State>, steps: seq<Step>, i: nat)
    requires IsRun(states, steps) && Inv(states[0]) && 0 < i < |states| && steps[i - 1].Scanned?
    ensures states[i].met.Keys == states[i].txs.Keys == steps[i - 1].daemon.pool
    ensures multiset(steps[i - 1].pooled) == multiset(Flat(Rescanned(states[i].txs, states[i].met)))
  {
    hide CacheStep, BlockScan, StoreStep, Flat, Rescanned, Consistent, NoneFrom, Overlay, MemoExact;
    RunInvariant(states, steps, i);
    MemoKeys(states[i]);
    MemoIsRescanned(states[i]);
    assert Next(states[i - 1], steps[i - 1], states[i]);
  }

  // ---- With the tracked invoices fixed ----

  /** What scanning all transactions that arrived since `before` reports. */
  function Arrived(txs: map<Hash, Tx>, ids: set<InvoiceId>, before: set<Hash>): map<Hash, seq<Credit>> {
    map h | h in txs && h !in before && Reported(txs[h], ids) != [] :: Lift(Reported(txs[h], ids), None)
  }

  lemma MemoStep(s: State, daemon: Daemon, s': State, before: set<Hash>)
    requires daemon.pool <= daemon.known.Keys && PoolStep(s, daemon, s')
    requires before <= s.txs.Keys
    requires s.discovered == Arrived(s.txs, s.store.Keys, before)
    ensures before * daemon.pool <= s'.txs.Keys
    ensures s'.discovered == Arrived(s'.txs, s.store.Keys, before * daemon.pool)
  {
    hide Reported, Lift;
  }

  /** The start-up transactions that never left the pool. */
  function Remaining(before: set<Hash>, steps: seq<Step>): set<Hash> {
    if steps == [] then before
    else
      var rest, last := Remaining(before, steps[..|steps| - 1]), steps[|steps| - 1];
      if last.Scanned? then rest * last.daemon.pool else rest
  }

  lemma MemoNext(s: State, step: Step, s': State, before: set<Hash>)
    requires Next(s, step, s') && !step.Failed? && before <= s.txs.Keys
    requires s.discovered == Arrived(s.txs, s.store.Keys, before)
    ensures var rest := if step.Scanned? then before * step.daemon.pool else before;
            rest <= s'.txs.Keys && s'.discovered == Arrived(s'.txs, s.store.Keys, rest)
    ensures step.Scanned? ==> multiset(step.pooled) == multiset(Flat(s'.discovered))
  {
    hide Arrived, PoolStep, CacheStep, BlockScan, StoreStep, Flat;
    if step.Scanned? {
      MemoStep(s, step.daemon, s', before);
    }
  }

  /** In a run without failed scans over a fixed set of invoices that starts with an empty memo,
      every scan of the pool returns exactly what scanning every transaction that arrived since
      then would. */
  lemma {:induction false} MemoisedRun(states: seq<State>, steps: seq<Step>, ids: set<InvoiceId>, i: nat)
    requires IsRun(states, steps) && i < |states|
    requires forall s | s in states :: s.store.Keys == ids
    requires forall k | 0 <= k < i :: !steps[k].Failed?
    requires states[0].discovered == map[]
    ensures var before := Remaining(states[0].txs.Keys, steps[..i]);
            && before <= states[i].txs.Keys
            && states[i].discovered == Arrived(states[i].txs, ids, before)
            && (i > 0 && steps[i - 1].Scanned? ==>
                  multiset(steps[i - 1].pooled) == multiset(Flat(Arrived(states[i].txs, ids, before))))
  {
    if i == 0 {
      assert Arrived(states[0].txs, ids, states[0].txs.Keys) == map[];
    } else {
      hide Next, Arrived, Flat;
      MemoisedRun(states, steps, ids, i - 1);
      assert steps[..i][..i - 1] == steps[..i - 1];
      assert Next(states[i - 1], steps[i - 1], states[i]);
      assert states[i - 1] in states;
      MemoNext(states[i - 1], steps[i - 1], states[i], Remaining(states[0].txs.Keys, steps[..i - 1]));
    }
  }
}
