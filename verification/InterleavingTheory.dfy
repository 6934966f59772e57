/** What every interleaving of creating, removing and scanning keeps. */
module InterleavingTheory {
  import opened Common
  import opened Indexes
  import opened Invoices
  import opened Interleaving
  import SubaddressCaches

  // ---- Conservation of addresses ----

  lemma TakeKeepsHolders(m: Machine, holder: map<SubIndex, Holder>, t: Thread, sub: SubIndex,
                         address: SubIndex -> string, m': Machine)
    requires HeldBy(m, holder) && TakeStep(m, t, sub, address, m')
    ensures HeldBy(m', After(m, holder, Take(t, sub), m'))
  {
    var holder' := After(m, holder, Take(t, sub), m');
    assert IsAt(m, sub, Free);
    forall k
      ensures k in m'.available <==> k in holder' && holder'[k] == Free
      ensures k in holder' <==> SubaddressCaches.Generated(k, m'.major, m'.highest)
    {
      assert IsAt(m, k, Free) <==> k in m.available;
    }
    forall k, x ensures IsAt(m', k, x) <==> k in holder' && holder'[k] == x {
      assert x != Free && x != Taken(t) ==> (IsAt(m', k, x) <==> IsAt(m, k, x));
      assert !IsAt(m, k, Taken(t));
    }
  }

  lemma InsertKeepsHolders(m: Machine, holder: map<SubIndex, Holder>, t: Thread, invoice: Invoice, m': Machine)
    requires HeldBy(m, holder) && InsertStep(m, t, invoice, m')
    ensures invoice.Id() !in m.store
    ensures HeldBy(m', After(m, holder, Insert(t, invoice), m'))
  {
    var holder', id := After(m, holder, Insert(t, invoice), m'), invoice.Id();
    assert IsAt(m, invoice.index, Taken(t));
    assert !IsAt(m, invoice.index, Held(id));
    forall k, x ensures IsAt(m', k, x) <==> k in holder' && holder'[k] == x {
      assert x != Taken(t) && x != Held(id) ==> (IsAt(m', k, x) <==> IsAt(m, k, x));
      assert IsAt(m, k, Held(id)) <==> k in holder && holder[k] == Held(id);
      assert IsAt(m, k, Taken(t)) <==> k in holder && holder[k] == Taken(t);
    }
  }

  lemma RemoveKeepsHolders(m: Machine, holder: map<SubIndex, Holder>, t: Thread, id: InvoiceId, m': Machine)
    requires HeldBy(m, holder) && RemoveStep(m, t, id, m')
    ensures HeldBy(m', After(m, holder, Remove(t, id), m'))
  {
    var holder' := After(m, holder, Remove(t, id), m');
    if id in m.store {
      assert IsAt(m, id.sub, Held(id));
      forall k, x ensures IsAt(m', k, x) <==> k in holder' && holder'[k] == x {
        assert x != Held(id) && x != Returned(t) ==> (IsAt(m', k, x) <==> IsAt(m, k, x));
        assert !IsAt(m, k, Returned(t));
        assert IsAt(m, k, Held(id)) <==> k in holder && holder[k] == Held(id);
      }
    }
  }

  lemma ReturnKeepsHolders(m: Machine, holder: map<SubIndex, Holder>, t: Thread, m': Machine)
    requires HeldBy(m, holder) && ReturnStep(m, t, m')
    ensures m.returning[t].0 !in m.available
    ensures HeldBy(m', After(m, holder, Return(t), m'))
  {
    var holder', sub := After(m, holder, Return(t), m'), m.returning[t].0;
    assert IsAt(m, sub, Returned(t)) && !IsAt(m, sub, Free);
    forall k, x ensures IsAt(m', k, x) <==> k in holder' && holder'[k] == x {
      assert x != Free && x != Returned(t) ==> (IsAt(m', k, x) <==> IsAt(m, k, x));
      assert IsAt(m, k, Returned(t)) <==> k in holder && holder[k] == Returned(t);
      assert IsAt(m, k, Free) <==> k in holder && holder[k] == Free;
    }
  }

  /** The scanner moves no address: collecting reads, and saving only overwrites. */
  lemma ScannerKeepsHolders(m: Machine, holder: map<SubIndex, Holder>, m': Machine)
    requires HeldBy(m, holder)
    requires SaveStep(m, m') || exists updates :: CollectStep(m, updates, m')
    ensures m'.store.Keys == m.store.Keys
    ensures HeldBy(m', holder)
  {
    assert m'.store.Keys == m.store.Keys;
    forall k, x ensures IsAt(m', k, x) <==> IsAt(m, k, x) {
    }
  }

  lemma StepKeepsHolders(m: Machine, holder: map<SubIndex, Holder>, step: Step, address: SubIndex -> string, m': Machine)
    requires HeldBy(m, holder) && Next(m, step, address, m')
    ensures HeldBy(m', After(m, holder, step, m'))
  {
    hide HeldBy;
    match step
    case Take(t, sub) => TakeKeepsHolders(m, holder, t, sub, address, m');
    case Insert(t, invoice) => InsertKeepsHolders(m, holder, t, invoice, m');
    case Remove(t, id) => RemoveKeepsHolders(m, holder, t, id, m');
    case Return(t) => ReturnKeepsHolders(m, holder, t, m');
    case Collect(_) => ScannerKeepsHolders(m, holder, m');
    case Save => ScannerKeepsHolders(m, holder, m');
  }

  lemma TakeKeepsFiled(m: Machine, t: Thread, sub: SubIndex, address: SubIndex -> string, m': Machine)
    requires Filed(m, address) && TakeStep(m, t, sub, address, m')
    ensures Filed(m', address)
  {
  }

  lemma InsertKeepsFiled(m: Machine, t: Thread, invoice: Invoice, address: SubIndex -> string, m': Machine)
    requires Filed(m, address) && InsertStep(m, t, invoice, m')
    ensures Filed(m', address)
  {
  }

  lemma RemoveKeepsFiled(m: Machine, t: Thread, id: InvoiceId, address: SubIndex -> string, m': Machine)
    requires Filed(m, address) && RemoveStep(m, t, id, m')
    ensures Filed(m', address)
  {
  }

  lemma ReturnKeepsFiled(m: Machine, t: Thread, address: SubIndex -> string, m': Machine)
    requires Filed(m, address) && ReturnStep(m, t, m')
    ensures Filed(m', address)
  {
  }

  lemma CollectKeepsFiled(m: Machine, updates: seq<Stored>, address: SubIndex -> string, m': Machine)
    requires Filed(m, address) && CollectStep(m, updates, m')
    ensures Filed(m', address)
  {
    forall u | u in updates ensures u.invoice.address == address(u.invoice.index) {
      assert Derived(u, m.store);
    }
  }

  lemma SaveKeepsFiled(m: Machine, address: SubIndex -> string, m': Machine)
    requires Filed(m, address) && SaveStep(m, m')
    ensures Filed(m', address)
  {
    assert m.pending[0] in m.pending;
    assert m'.store.Keys == m.store.Keys;
  }

  lemma StepKeepsFiled(m: Machine, step: Step, address: SubIndex -> string, m': Machine)
    requires Filed(m, address) && Next(m, step, address, m')
    ensures Filed(m', address)
  {
    hide Filed, TakeStep, InsertStep, RemoveStep, ReturnStep, CollectStep, SaveStep;
    match step
    case Take(t, sub) => TakeKeepsFiled(m, t, sub, address, m');
    case Insert(t, invoice) => InsertKeepsFiled(m, t, invoice, address, m');
    case Remove(t, id) => RemoveKeepsFiled(m, t, id, address, m');
    case Return(t) => ReturnKeepsFiled(m, t, address, m');
    case Collect(_) => CollectKeepsFiled(m, step.updates, address, m');
    case Save => SaveKeepsFiled(m, address, m');
  }

  /** What conservation means: the free indexes, those of stored invoices, and those in flight
      are pairwise apart, no two stored invoices or threads share one, and together they are
      exactly the generated ones. */
  ghost predicate Conserved(m: Machine) {
    && (forall k :: SubaddressCaches.Generated(k, m.major, m.highest) <==> exists x :: IsAt(m, k, x))
    && (forall k, x, y :: IsAt(m, k, x) && IsAt(m, k, y) ==> x == y)
  }

  lemma HeldIsConserved(m: Machine, holder: map<SubIndex, Holder>)
    requires HeldBy(m, holder)
    ensures Conserved(m)
  {
    forall k ensures SubaddressCaches.Generated(k, m.major, m.highest) <==> exists x :: IsAt(m, k, x) {
      if SubaddressCaches.Generated(k, m.major, m.highest) {
        assert IsAt(m, k, holder[k]);
      }
    }
  }

  /** Conservation, for every interleaving: if it holds at the start, it holds throughout. */
  lemma {:induction false} RunHolders(states: seq<Machine>, steps: seq<Step>, address: SubIndex -> string,
                                      holder: map<SubIndex, Holder>, i: nat) returns (now: map<SubIndex, Holder>)
    requires IsRun(states, steps, address) && i < |states|
    requires HeldBy(states[0], holder) && Filed(states[0], address)
    ensures HeldBy(states[i], now) && Filed(states[i], address) && Conserved(states[i])
  {
    hide HeldBy, Filed, Conserved, Next;
    if i == 0 {
      now := holder;
    } else {
      var before := RunHolders(states, steps, address, holder, i - 1);
      StepKeepsHolders(states[i - 1], before, steps[i - 1], address, states[i]);
      StepKeepsFiled(states[i - 1], steps[i - 1], address, states[i]);
      now := After(states[i - 1], before, steps[i - 1], states[i]);
    }
    HeldIsConserved(states[i], now);
  }

  /** In every interleaving: no insertion hits a stored id, no returned address is already
      free, no two stored invoices share a subaddress, and every stored invoice shows the
      address of its own index. */
  lemma InterleavingSafety(states: seq<Machine>, steps: seq<Step>, address: SubIndex -> string,
                           holder: map<SubIndex, Holder>, i: nat)
    requires IsRun(states, steps, address) && i < |states|
    requires HeldBy(states[0], holder) && Filed(states[0], address)
    ensures forall t, creation | t in states[i].taking :: InvoiceId(states[i].taking[t].0, creation) !in states[i].store
    ensures forall t | t in states[i].returning :: states[i].returning[t].0 !in states[i].available
    ensures forall a, b | a in states[i].store && b in states[i].store && a.sub == b.sub :: a == b
    ensures forall id | id in states[i].store :: states[i].store[id].invoice.address == address(id.sub)
  {
    var m := states[i];
    var now := RunHolders(states, steps, address, holder, i);
    forall t, creation | t in m.taking ensures InvoiceId(m.taking[t].0, creation) !in m.store {
      assert IsAt(m, m.taking[t].0, Taken(t));
      assert !IsAt(m, m.taking[t].0, Held(InvoiceId(m.taking[t].0, creation)));
    }
    forall t | t in m.returning ensures m.returning[t].0 !in m.available {
      assert IsAt(m, m.returning[t].0, Returned(t)) && !IsAt(m, m.returning[t].0, Free);
    }
    forall a, b | a in m.store && b in m.store && a.sub == b.sub ensures a == b {
      assert IsAt(m, a.sub, Held(a)) && IsAt(m, a.sub, Held(b));
    }
  }

  // ---- There is always an address to take ----

  /** The next addresses of the account. */
  function NewAddresses(major: u32, lo: nat, hi: nat, address: SubIndex -> string): (r: map<SubIndex, string>)
    requires hi <= U32_MAX
    ensures forall k :: k in r <==> k.major == major && lo < k.minor <= hi
    ensures forall k | k in r :: r[k] == address(k)
    ensures |r.Keys| == if hi <= lo then 0 else hi - lo
    decreases hi
  {
    if hi <= lo then map[]
    else
      var k, rest := SubIndex(major, hi), NewAddresses(major, lo, hi - 1, address);
      assert rest[k := address(k)].Keys == rest.Keys + {k};
      rest[k := address(k)]
  }

  /** Enough addresses are free, unless the account is exhausted. */
  ghost predicate Stocked(m: Machine) {
    |m.available| >= SubaddressCaches.MIN_AVAILABLE_SUBADDRESSES || m.highest == U32_MAX
  }

  /** However few were free, enough are free after one was taken. */
  lemma TakeStocks(m: Machine, holder: map<SubIndex, Holder>, t: Thread, sub: SubIndex, address: SubIndex -> string,
                   m': Machine)
    requires HeldBy(m, holder) && TakeStep(m, t, sub, address, m')
    ensures |m'.available| == |m.available| - 1 + (m'.highest - m.highest)
    ensures Stocked(m')
  {
    hide HeldBy, NewAddresses, TakeStep;
    var more := NewAddresses(m.major, m.highest, m'.highest, address).Keys;
    FreeIsOld(m, holder);
    TakenKeys(m, t, sub, address, m');
    CountApart(m.available.Keys, sub, more);
    assert |m.available.Keys| == |m.available| && |m'.available.Keys| == |m'.available|;
  }

  lemma TakenKeys(m: Machine, t: Thread, sub: SubIndex, address: SubIndex -> string, m': Machine)
    requires TakeStep(m, t, sub, address, m')
    ensures sub in m.available && m'.highest == Refilled(|m.available| - 1, m.highest) >= m.highest
    ensures m'.available.Keys ==
            (m.available.Keys - {sub}) + NewAddresses(m.major, m.highest, m'.highest, address).Keys
  {
    hide NewAddresses;
    var more := NewAddresses(m.major, m.highest, m'.highest, address);
    forall k ensures k in m'.available <==> k in (m.available.Keys - {sub}) + more.Keys {
      assert k in more <==> Fresh(k, m, m');
    }
  }

  lemma FreeIsOld(m: Machine, holder: map<SubIndex, Holder>)
    requires HeldBy(m, holder)
    ensures forall k | k in m.available :: k.minor <= m.highest
  {
    forall k | k in m.available ensures k.minor <= m.highest {
      assert IsAt(m, k, Free);
    }
  }

  lemma CountApart(free: set<SubIndex>, k: SubIndex, more: set<SubIndex>)
    requires k in free && free !! more
    ensures |(free - {k}) + more| == |free| - 1 + |more|
  {
    assert (free - {k}) !! more;
  }

  /** In every interleaving, once enough addresses are free, at least 100 stay free at every moment
      until the account is exhausted: a thread always finds one to take. */
  lemma {:induction false} AlwaysStocked(states: seq<Machine>, steps: seq<Step>, address: SubIndex -> string,
                                         holder: map<SubIndex, Holder>, i: nat)
    requires IsRun(states, steps, address) && i < |states|
    requires HeldBy(states[0], holder) && Filed(states[0], address) && Stocked(states[0])
    ensures Stocked(states[i])
    ensures states[i].available != map[] || states[i].highest == U32_MAX
  {
    hide HeldBy, Filed, Conserved, TakeStep;
    if i > 0 {
      AlwaysStocked(states, steps, address, holder, i - 1);
      var m, m' := states[i - 1], states[i];
      assert Next(m, steps[i - 1], address, m');
      var now := RunHolders(states, steps, address, holder, i - 1);
      match steps[i - 1]
      case Take(t, sub) => TakeStocks(m, now, t, sub, address, m');
      case Insert(_, _) =>
      case Remove(_, _) =>
      case Return(t) =>
        ReturnStocks(m, now, t, m');
      case Collect(_) =>
      case Save =>
    }
  }

  lemma ReturnStocks(m: Machine, holder: map<SubIndex, Holder>, t: Thread, m': Machine)
    requires HeldBy(m, holder) && ReturnStep(m, t, m')
    ensures |m'.available| == |m.available| + 1 && m'.highest == m.highest
  {
    ReturnKeepsHolders(m, holder, t, m');
    assert m'.available.Keys == m.available.Keys + {m.returning[t].0};
    assert |m.available.Keys| == |m.available| && |m'.available.Keys| == |m'.available|;
  }

  // ---- Removed invoices stay removed ----

  /** An id that is not stored is stored later only if it was inserted in between. */
  lemma {:induction false} OnlyInsertAdds(states: seq<Machine>, steps: seq<Step>, address: SubIndex -> string,
                                          i: nat, j: nat, id: InvoiceId)
    requires IsRun(states, steps, address) && i <= j < |states|
    requires id !in states[i].store && id in states[j].store
    ensures exists k :: i <= k < j && steps[k].Insert? && steps[k].invoice.Id() == id
    decreases j - i
  {
    hide TakeStep;
    var m, m' := states[j - 1], states[j];
    assert Next(m, steps[j - 1], address, m');
    if id in m.store {
      OnlyInsertAdds(states, steps, address, i, j - 1, id);
    } else {
      StoreGrowsByInsert(m, steps[j - 1], address, m', id);
      assert i <= j - 1 < j;
    }
  }

  lemma StoreGrowsByInsert(m: Machine, step: Step, address: SubIndex -> string, m': Machine, id: InvoiceId)
    requires Next(m, step, address, m') && id !in m.store && id in m'.store
    ensures step.Insert? && step.invoice.Id() == id
  {
  }

  /** Every stored invoice is the one that its id was last inserted with. */
  ghost predicate Clean(m: Machine) {
    forall id | id in m.store :: id in m.issue && m.store[id].origin == m.issue[id]
  }

  /** The id was inserted by one of the steps from `i` up to but not including `j`. */
  ghost predicate Inserted(steps: seq<Step>, i: nat, j: nat, id: InvoiceId)
    requires j <= |steps|
  {
    exists k :: i <= k < j && steps[k].Insert? && steps[k].invoice.Id() == id
  }

  lemma IssueStep(m: Machine, step: Step, address: SubIndex -> string, m': Machine, id: InvoiceId)
    requires Filed(m, address) && Next(m, step, address, m') && id in m'.issue
    ensures m.issued <= m'.issued
    ensures id in m.issue && !(step.Insert? && step.invoice.Id() == id) ==> m'.issue[id] == m.issue[id]
    ensures id in m.issue && step.Insert? && step.invoice.Id() == id ==> m'.issue[id] == m.issue[id] && id in m.store
    ensures id !in m.issue ==> step.Insert? && step.invoice.Id() == id && m'.issue[id] >= m.issued
  {
  }

  /** The number of the insertion that occupies an id tells whether the id was inserted again. */
  lemma {:induction false} IssueTells(states: seq<Machine>, steps: seq<Step>, address: SubIndex -> string,
                                      holder: map<SubIndex, Holder>, i: nat, j: nat, id: InvoiceId)
    requires IsRun(states, steps, address) && i <= j < |states|
    requires HeldBy(states[0], holder) && Filed(states[0], address)
    requires id in states[i].issue
    ensures states[i].issued <= states[j].issued
    ensures id in states[j].issue ==>
              if Inserted(steps, i, j, id) then states[j].issue[id] >= states[i].issued
              else states[j].issue[id] == states[i].issue[id]
    decreases j - i
  {
    hide HeldBy, Filed, Next, Conserved;
    if i < j {
      var m, m', step := states[j - 1], states[j], steps[j - 1];
      IssueTells(states, steps, address, holder, i, j - 1, id);
      var now := RunHolders(states, steps, address, holder, j - 1);
      IssuedGrows(m, step, address, m');
      if id in m'.issue {
        IssueStep(m, step, address, m', id);
        if step.Insert? && step.invoice.Id() == id {
          InsertedIsNew(m, now, step, address, m');
          IssueIsStored(m, address, id);
        } else {
          assert Inserted(steps, i, j, id) <==> Inserted(steps, i, j - 1, id);
        }
      }
    }
  }

  lemma IssuedGrows(m: Machine, step: Step, address: SubIndex -> string, m': Machine)
    requires Next(m, step, address, m')
    ensures m.issued <= m'.issued
  {
  }

  lemma IssueIsStored(m: Machine, address: SubIndex -> string, id: InvoiceId)
    requires Filed(m, address)
    ensures id in m.issue <==> id in m.store
  {
  }

  lemma InsertedIsNew(m: Machine, holder: map<SubIndex, Holder>, step: Step, address: SubIndex -> string, m': Machine)
    requires HeldBy(m, holder) && Next(m, step, address, m') && step.Insert?
    ensures step.invoice.Id() !in m.store
  {
    InsertKeepsHolders(m, holder, step.thread, step.invoice, m');
  }

  /**
   * Saving an update stores the contents of the invoice that now has the id if and only if the
   * id was not inserted again since the update was worked out. In the other case the update
   * puts the contents of a removed invoice over those of a new one.
   */
  lemma SaveIsCurrentIff(states: seq<Machine>, steps: seq<Step>, address: SubIndex -> string,
                         holder: map<SubIndex, Holder>, i: nat, j: nat, u: Stored)
    requires IsRun(states, steps, address) && i < j < |steps|
    requires HeldBy(states[0], holder) && Filed(states[0], address)
    requires Clean(states[i]) && steps[i].Collect? && u in steps[i].updates
    requires steps[j].Save? && states[j].pending != [] && states[j].pending[0] == u
    requires u.invoice.Id() in states[j].store
    ensures var id, m' := u.invoice.Id(), states[j + 1];
            && id in m'.store && id in m'.issue && m'.store[id] == u
            && (m'.store[id].origin == m'.issue[id] <==> !Inserted(steps, i, j, id))
  {
    hide HeldBy, Conserved;
    var id := u.invoice.Id();
    assert Next(states[i], steps[i], address, states[i + 1]) && Next(states[j], steps[j], address, states[j + 1]);
    var now := RunHolders(states, steps, address, holder, i);
    var later := RunHolders(states, steps, address, holder, j);
    assert Derived(u, states[i].store);
    IssueTells(states, steps, address, holder, i, j, id);
    assert states[i].issue[id] < states[i].issued;
  }

  /** Taking a free address is always possible. */
  lemma CanTake(m: Machine, t: Thread, sub: SubIndex, address: SubIndex -> string) returns (m': Machine)
    requires t !in m.taking && sub in m.available
    ensures Next(m, Take(t, sub), address, m')
    ensures m'.taking == m.taking[t := (sub, m.available[sub])]
    ensures m'.store == m.store && m'.issue == m.issue && m'.pending == m.pending
  {
    hide NewAddresses;
    var highest := Refilled(|m.available| - 1, m.highest);
    m' := m.(highest := highest,
             available := (m.available - {sub}) + NewAddresses(m.major, m.highest, highest, address),
             taking := m.taking[t := (sub, m.available[sub])]);
  }

  lemma RunPair(a: seq<Machine>, s: seq<Step>, b: seq<Machine>, r: seq<Step>, step: Step, address: SubIndex -> string)
    requires IsRun(a, s, address) && IsRun(b, r, address) && Next(a[|s|], step, address, b[0])
    ensures IsRun(a + b, s + [step] + r, address)
  {
    hide Next;
    var states, steps := a + b, s + [step] + r;
    forall i, j | 0 <= i && j == i + 1 < |states| ensures Next(states[i], steps[i], address, states[j]) {
      if j < |a| {
        assert steps[i] == s[i];
      } else if i >= |a| {
        assert steps[i] == r[i - |a|] && states[i] == b[i - |a|] && states[j] == b[j - |a|];
      }
    }
  }

  /** Collecting an update, removing the invoice and putting its address back. */
  lemma CanRemove(m: Machine, t: Thread, u: Stored, address: SubIndex -> string) returns (run: seq<Machine>)
    requires Derived(u, m.store) && m.pending == [] && t !in m.taking && t !in m.returning
    ensures IsRun(run, [Collect([u]), Remove(t, u.invoice.Id()), Return(t)], address) && run[0] == m
    ensures var id, last := u.invoice.Id(), run[3];
            && id.sub in last.available && last.available[id.sub] == m.store[id].invoice.address
            && last.taking == m.taking && id !in last.store && last.pending == [u]
  {
    var id := u.invoice.Id();
    var m1 := m.(pending := [u]);
    var m2 := m1.(store := m1.store - {id}, issue := m1.issue - {id},
                  returning := m1.returning[t := (id.sub, m1.store[id].invoice.address)]);
    var m3 := m2.(available := m2.available[id.sub := m2.returning[t].1], returning := m2.returning - {t});
    run := [m, m1, m2, m3];
  }

  /** Inserting a new invoice and saving an update that is still pending for its id. */
  lemma CanOverwrite(m: Machine, t: Thread, u: Stored, next: Invoice, address: SubIndex -> string)
    returns (run: seq<Machine>)
    requires t in m.taking && m.taking[t] == (next.index, next.address) && next.Id() !in m.store
    requires m.pending == [u] && u.invoice.Id() == next.Id()
    ensures IsRun(run, [Insert(t, next), Save], address) && run[0] == m
    ensures next.Id() in run[1].store && run[1].store[next.Id()].invoice == next
    ensures next.Id() in run[2].store && run[2].store[next.Id()] == u
  {
    var id := next.Id();
    var m1 := m.(taking := m.taking - {t}, store := m.store[id := Stored(next, m.issued)],
                 issue := m.issue[id := m.issued], issued := m.issued + 1);
    var m2 := m1.(pending := m1.pending[1..], store := m1.store[id := u]);
    run := [m, m1, m2];
  }

  /**
   * From every state in which the scanner is idle and an invoice is stored, an update `u` of it
   * can end up stored over a new invoice `next` with the same id: collect, remove the old
   * invoice, put its address back, take the address again, insert the new one, save.
   */
  lemma StaleUpdateOverwrites(m: Machine, t: Thread, u: Stored, next: Invoice, address: SubIndex -> string)
    returns (states: seq<Machine>, steps: seq<Step>)
    requires Derived(u, m.store) && m.pending == [] && t !in m.taking && t !in m.returning
    requires next.Id() == u.invoice.Id() && next.address == m.store[next.Id()].invoice.address
    ensures IsRun(states, steps, address) && states[0] == m
    ensures steps == [Collect([u]), Remove(t, next.Id()), Return(t)] + [Take(t, next.index)] + [Insert(t, next), Save]
    ensures next.Id() in states[5].store && states[5].store[next.Id()].invoice == next
    ensures next.Id() in states[6].store && states[6].store[next.Id()] == u
  {
    hide Next;
    var before := CanRemove(m, t, u, address);
    var taken := CanTake(before[3], t, next.index, address);
    var after := CanOverwrite(taken, t, u, next, address);
    states := before + after;
    steps := [Collect([u]), Remove(t, next.Id()), Return(t)] + [Take(t, next.index)] + [Insert(t, next), Save];
    RunPair(before, [Collect([u]), Remove(t, next.Id()), Return(t)], after, [Insert(t, next), Save],
            Take(t, next.index), address);
  }
}
