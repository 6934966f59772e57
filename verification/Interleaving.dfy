/**
 * The lock regions of creating and removing invoices and of scanning, as atomic steps that may
 * interleave in any way. Creating takes an address and later inserts the invoice; removing takes
 * the invoice out and later puts the address back; a scan collects its updates under one read
 * lock and later saves them one by one.
 */
module Interleaving {
  import opened Common
  import opened Indexes
  import opened Invoices
  import SubaddressCaches

  type Thread = nat

  /** An invoice as stored, and the number of the insertion that its contents come from. */
  datatype Stored = Stored(invoice: Invoice, origin: nat)

  /** `issue` numbers the insertion that occupies an id; `issued` counts the insertions. */
  datatype Machine = Machine(
    major: u32,
    highest: u32,
    available: map<SubIndex, string>,
    taking: map<Thread, (SubIndex, string)>,
    returning: map<Thread, (SubIndex, string)>,
    store: map<InvoiceId, Stored>,
    issue: map<InvoiceId, nat>,
    issued: nat,
    pending: seq<Stored>)

  datatype Step =
    | Take(thread: Thread, sub: SubIndex)
    | Insert(thread: Thread, invoice: Invoice)
    | Remove(thread: Thread, id: InvoiceId)
    | Return(thread: Thread)
    | Collect(updates: seq<Stored>)
    | Save

  /** The highest index after an address was taken and few remain. */
  function Refilled(remaining: nat, highest: u32): u32 {
    if remaining <= SubaddressCaches.MIN_AVAILABLE_SUBADDRESSES
    then Min(highest + SubaddressCaches.MIN_AVAILABLE_SUBADDRESSES, U32_MAX) else highest
  }

  ghost predicate Fresh(k: SubIndex, m: Machine, m': Machine) {
    k.major == m.major && m.highest < k.minor <= m'.highest
  }

  /** An address leaves the cache, and new ones are generated if few remain. */
  ghost predicate TakeStep(m: Machine, thread: Thread, sub: SubIndex, address: SubIndex -> string, m': Machine) {
    && thread !in m.taking && sub in m.available
    && m' == m.(highest := Refilled(|m.available| - 1, m.highest), available := m'.available,
                taking := m.taking[thread := (sub, m.available[sub])])
    && (forall k :: k in m'.available <==> (k in m.available && k != sub) || Fresh(k, m, m'))
    && (forall k | k in m'.available :: m'.available[k] == if Fresh(k, m, m') then address(k) else m.available[k])
  }

  /** The invoice is stored; if its id is already stored, the insertion fails. */
  ghost predicate InsertStep(m: Machine, thread: Thread, invoice: Invoice, m': Machine) {
    && thread in m.taking && (invoice.index, invoice.address) == m.taking[thread]
    && if invoice.Id() in m.store then
         m' == m.(taking := m.taking - {thread})
       else
         m' == m.(taking := m.taking - {thread},
                  store := m.store[invoice.Id() := Stored(invoice, m.issued)],
                  issue := m.issue[invoice.Id() := m.issued],
                  issued := m.issued + 1)
  }

  /** The invoice leaves the store, if it was there. */
  ghost predicate RemoveStep(m: Machine, thread: Thread, id: InvoiceId, m': Machine) {
    && thread !in m.returning
    && m' == if id in m.store then
               m.(store := m.store - {id}, issue := m.issue - {id},
                  returning := m.returning[thread := (id.sub, m.store[id].invoice.address)])
             else m
  }

  /** Its address goes back to the cache. */
  ghost predicate ReturnStep(m: Machine, thread: Thread, m': Machine) {
    && thread in m.returning
    && m' == m.(available := m.available[m.returning[thread].0 := m.returning[thread].1],
                returning := m.returning - {thread})
  }

  /** A new version of a stored invoice. */
  ghost predicate Derived(u: Stored, store: map<InvoiceId, Stored>) {
    && u.invoice.Id() in store
    && u.invoice.SameTerms(store[u.invoice.Id()].invoice)
    && u.origin == store[u.invoice.Id()].origin
  }

  /** The scanner works out new versions of some stored invoices, and has saved all earlier ones. */
  ghost predicate CollectStep(m: Machine, updates: seq<Stored>, m': Machine) {
    && m.pending == []
    && (forall u | u in updates :: Derived(u, m.store))
    && m' == m.(pending := updates)
  }

  /** The scanner saves the next update, over whatever is stored under that id by now. */
  ghost predicate SaveStep(m: Machine, m': Machine) {
    && m.pending != []
    && var u := m.pending[0];
       m' == m.(pending := m.pending[1..],
                store := if u.invoice.Id() in m.store then m.store[u.invoice.Id() := u] else m.store)
  }

  ghost predicate Next(m: Machine, step: Step, address: SubIndex -> string, m': Machine) {
    match step
    case Take(t, sub) => TakeStep(m, t, sub, address, m')
    case Insert(t, invoice) => InsertStep(m, t, invoice, m')
    case Remove(t, id) => RemoveStep(m, t, id, m')
    case Return(t) => ReturnStep(m, t, m')
    case Collect(updates) => CollectStep(m, updates, m')
    case Save => SaveStep(m, m')
  }

  ghost predicate IsRun(states: seq<Machine>, steps: seq<Step>, address: SubIndex -> string) {
    && |states| == |steps| + 1
    && forall i, j | 0 <= i && j == i + 1 < |states| :: Next(states[i], steps[i], address, states[j])
  }

  // ---- Who has an address ----

  datatype Holder = Free | Taken(thread: Thread) | Held(id: InvoiceId) | Returned(thread: Thread)

  /** The index `k` is at `x`. */
  ghost predicate IsAt(m: Machine, k: SubIndex, x: Holder) {
    match x
    case Free => k in m.available
    case Taken(t) => t in m.taking && m.taking[t].0 == k
    case Held(id) => id in m.store && id.sub == k
    case Returned(t) => t in m.returning && m.returning[t].0 == k
  }

  /** Every generated index, and no other, is in exactly one place, and `holder` names it. */
  ghost predicate HeldBy(m: Machine, holder: map<SubIndex, Holder>) {
    && (forall k :: k in holder <==> SubaddressCaches.Generated(k, m.major, m.highest))
    && (forall k, x :: IsAt(m, k, x) <==> k in holder && holder[k] == x)
  }

  /** Everything is filed under its own key, with the address that belongs to its index. */
  ghost predicate Filed(m: Machine, address: SubIndex -> string) {
    && (forall k | k in m.available :: m.available[k] == address(k))
    && (forall t | t in m.taking :: m.taking[t].1 == address(m.taking[t].0))
    && (forall t | t in m.returning :: m.returning[t].1 == address(m.returning[t].0))
    && (forall id | id in m.store :: m.store[id].invoice.Id() == id && m.store[id].invoice.address == address(id.sub))
    && (forall u | u in m.pending :: u.invoice.address == address(u.invoice.index))
    && m.issue.Keys == m.store.Keys
    && (forall id | id in m.issue :: m.issue[id] < m.issued)
  }

  /** Who has each index after a step. */
  ghost function After(m: Machine, holder: map<SubIndex, Holder>, step: Step, m': Machine): map<SubIndex, Holder> {
    match step
    case Take(t, sub) =>
      map k | k in holder.Keys + m'.available.Keys ::
        if k == sub then Taken(t) else if k in holder then holder[k] else Free
    case Insert(t, invoice) => holder[invoice.index := Held(invoice.Id())]
    case Remove(t, id) => if id in m.store then holder[id.sub := Returned(t)] else holder
    case Return(t) => if t in m.returning then holder[m.returning[t].0 := Free] else holder
    case Collect(_) => holder
    case Save => holder
  }
}
