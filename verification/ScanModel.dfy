/**
 * The scanner as a state machine on values: what one scan, one failed scan, one new invoice and
 * one removed invoice do to the believed chain, the pool memo and the store, and the invariant
 * they keep.
 */
module ScanModel {
  import opened Common
  import opened Indexes
  import opened Transfers
  import opened Invoices
  import opened Daemons
  import opened Stores
  import opened Payments

  /**
   * `chain` holds every block the scanner has come to believe, lowest first; the block cache
   * is its last `size` entries and the cache height is the height of its last entry.
   * `view` is the chain as the store knows it: at each height the block that was last scanned
   * there. It differs from `chain` only where a failed scan left the store behind.
   * `met` remembers, for each known pool transaction, which invoices were stored when it was
   * scanned; none, if it never was.
   */
  datatype State = State(
    chain: seq<Entry>,
    size: nat,
    daemonHeight: nat,
    txs: map<Hash, Tx>,
    discovered: map<Hash, seq<Credit>>,
    store: map<InvoiceId, Invoice>,
    firstScan: bool,
    view: seq<Entry>,
    met: map<Hash, set<InvoiceId>>)

  // ---- The caches ----

  /** The block cache advances by one block of the daemon's chain, or jumps to its tip if the
      store was found empty; the newest `n` blocks are the ones that count as changed. */
  ghost predicate CacheMove(s: State, empty: bool, daemon: seq<Entry>, s': State, n: nat) {
    && s'.size == s.size <= |s.chain|
    && s'.daemonHeight == |daemon|
    && if |s.chain| >= |daemon| then
         s'.chain == s.chain && n == 0
       else if empty then
         s'.chain == daemon && 1 <= n <= s.size && Min(|daemon| - |s.chain|, s.size) <= n
       else
         && 1 <= n <= s.size
         && |s'.chain| == |s.chain| + 1
         && s'.chain[..|s'.chain| - n] == s.chain[..|s'.chain| - n]
         && (forall h | |s'.chain| - s.size <= h < |s'.chain| :: s'.chain[h] == daemon[h])
         && (forall h | |s'.chain| - n <= h < |s.chain| :: s.chain[h] != s'.chain[h])
  }

  /** Nothing happens between the test for an empty store and the move. */
  ghost predicate CacheStep(s: State, daemon: seq<Entry>, s': State, n: nat) {
    CacheMove(s, s.store == map[], daemon, s', n)
  }

  /** The height of the tip after the cache moved, plus one, if something is stored. */
  function TopAfter(s: State, daemon: seq<Entry>): nat {
    if |s.chain| >= |daemon| then |s.chain| else |s.chain| + 1
  }

  /** The daemon gives no reason to replace the believed block. */
  ghost predicate Unchanged(s: State, daemon: seq<Entry>, h: nat)
    requires h < |s.chain|
  {
    |s.chain| >= |daemon| || s.chain[h] == daemon[h]
  }

  /** Which invoices the known transactions were scanned for; `arrival` for those that arrived. */
  ghost predicate PoolMet(s: State, txs: map<Hash, Tx>, met: map<Hash, set<InvoiceId>>, arrival: set<InvoiceId>) {
    && met.Keys == txs.Keys
    && forall h | h in txs :: met[h] == if h in s.txs && h in s.met then s.met[h] else arrival
  }

  /** Transactions that left the pool are forgotten, those that arrived are scanned. */
  ghost predicate PoolStep(s: State, daemon: Daemon, s': State)
    requires daemon.pool <= daemon.known.Keys
  {
    && daemon.PoolKnown(s.txs, s'.txs)
    && PoolMet(s, s'.txs, s'.met, s.store.Keys)
    && s'.discovered.Keys == (set h | h in daemon.pool &&
         (h in s.discovered || (h !in s.txs && Reported(daemon.known[h], s.store.Keys) != [])))
    && (forall h | h in s'.discovered :: s'.discovered[h] ==
         if h in s.discovered then s.discovered[h] else Lift(Reported(daemon.known[h], s.store.Keys), None))
  }

  // ---- One scan ----

  ghost predicate SortedCredits(cs: seq<Credit>) {
    forall i, j | 0 <= i < j < |cs| :: cs[i].transfer.CmpByHeight(cs[j].transfer) != Greater
  }

  /** The lowest height that is scanned: the first scan covers the whole cache. */
  function ScanFrom(s: State, s': State, n: nat): int {
    |s'.chain| - (if s.firstScan then s.size else n)
  }

  /** `mined` reports the scanned blocks, oldest block first; inside a block, in any order. */
  ghost predicate BlockScan(s: State, s': State, n: nat, mined: seq<Credit>) {
    && 0 <= ScanFrom(s, s', n)
    && SortedCredits(mined)
    && multiset(mined) == multiset(ChainCredits(s'.chain, s.store.Keys, ScanFrom(s, s', n), |s'.chain|))
  }

  /** The transfers of an invoice after a scan: the old ones below the deepest changed block
      and then what the scan credits to the invoice. */
  function Rebuilt(inv: Invoice, credits: seq<Credit>, deepest: nat, height: nat): Invoice {
    inv.(transfers := Below(inv.transfers, deepest) + For(credits, inv.index, inv.creationHeight),
         currentHeight := height + 1)
  }

  function Refold(inv: Invoice): Invoice {
    inv.(amountPaid := Sum(inv.transfers), paidHeight := PaidFold(inv.transfers, inv.amountRequested))
  }

  /** The invoice as stored after a scan. Nothing is stored for an invoice that comes out equal. */
  ghost function Refresh(inv: Invoice, credits: seq<Credit>, deepest: nat, height: nat): Invoice {
    var rebuilt := Rebuilt(inv, credits, deepest, height);
    if rebuilt.Same(inv) then inv else Refold(rebuilt)
  }

  ghost predicate HasId(updates: seq<Invoice>, id: InvoiceId) {
    exists u :: u in updates && u.Id() == id
  }

  /** The refreshed value of a stored invoice that the refresh changed. */
  ghost predicate IsUpdate(u: Invoice, store: map<InvoiceId, Invoice>, credits: seq<Credit>, deepest: nat, height: nat) {
    && u.Id() in store
    && u == Refresh(store[u.Id()], credits, deepest, height)
    && u != store[u.Id()]
  }

  ghost predicate AreUpdates(updates: seq<Invoice>, store: map<InvoiceId, Invoice>, credits: seq<Credit>,
                             deepest: nat, height: nat) {
    && (forall u | u in updates :: IsUpdate(u, store, credits, deepest, height))
    && forall id | id in store :: store[id] == Refresh(store[id], credits, deepest, height) || HasId(updates, id)
  }

  /** A stored invoice is replaced; an invoice that is not stored is not added. */
  function Overwrite(store: map<InvoiceId, Invoice>, u: Invoice): map<InvoiceId, Invoice> {
    if u.Id() in store then store[u.Id() := u] else store
  }

  ghost predicate StoreStep(s: State, s': State, n: nat, credits: seq<Credit>) {
    && n <= |s'.chain|
    && 1 <= |s'.chain|
    && s'.store.Keys == s.store.Keys
    && forall id | id in s.store :: s'.store[id] == Refresh(s.store[id], credits, |s'.chain| - n, |s'.chain| - 1)
  }

  /** A block that nobody looked at. */
  function Blank(h: nat): Entry {
    Entry(0, h, Block(0, []), [])
  }

  /** The block that the store knows at a height. */
  function Shown(view: seq<Entry>, h: nat): Entry {
    if h < |view| then view[h] else Blank(h)
  }

  /** Scanning the blocks from `lo` on shows them to the store. */
  ghost function Overlay(view: seq<Entry>, chain: seq<Entry>, lo: int): (v: seq<Entry>)
    ensures |v| == |chain|
    ensures forall h | 0 <= h < |chain| :: v[h] == if h >= lo then chain[h] else Shown(view, h)
  {
    seq(|chain|, h requires 0 <= h < |chain| => if h >= lo then chain[h] else Shown(view, h))
  }

  /** With nothing stored, there is nothing to be behind with. */
  ghost function Looked(s: State, chain: seq<Entry>, lo: int): seq<Entry> {
    if s.store == map[] then chain else Overlay(s.view, chain, lo)
  }

  /** One whole scan. */
  ghost predicate ScanStep(s: State, daemon: Daemon, s': State, n: nat, mined: seq<Credit>, pooled: seq<Credit>) {
    && daemon.Valid()
    && CacheStep(s, daemon.Chain(), s', n)
    && PoolStep(s, daemon, s')
    && BlockScan(s, s', n, mined)
    && multiset(pooled) == multiset(Flat(s'.discovered))
    && StoreStep(s, s', n, mined + pooled)
    && !s'.firstScan
    && s'.view == Looked(s, s'.chain, ScanFrom(s, s', n))
  }

  // ---- One failed scan ----

  /**
   * How far the pool memo got in a scan that fails: not touched; pruned, when the arrivals could
   * not be fetched; arrivals known but not scanned; or everything done, when the failure was in
   * the blocks.
   */
  datatype PoolOutcome = Untouched | Pruned | Lost | Done

  ghost predicate PoolFails(s: State, daemon: Daemon, s': State, outcome: PoolOutcome)
    requires daemon.pool <= daemon.known.Keys
  {
    match outcome
    case Untouched => s'.txs == s.txs && s'.met == s.met && s'.discovered == s.discovered
    case Pruned =>
      && s'.txs == Kept(s.txs, daemon.pool)
      && s'.met == Kept(s.met, daemon.pool)
      && s'.discovered == Kept(s.discovered, daemon.pool)
    case Lost =>
      && daemon.PoolKnown(s.txs, s'.txs)
      && PoolMet(s, s'.txs, s'.met, {})
      && s'.discovered == Kept(s.discovered, daemon.pool)
    case Done => PoolStep(s, daemon, s')
  }

  /** The block cache has moved on, the store has not, and `n` is forgotten. */
  ghost predicate FailMove(s: State, empty: bool, daemon: Daemon, s': State, n: nat, outcome: PoolOutcome) {
    && daemon.Valid()
    && CacheMove(s, empty, daemon.Chain(), s', n)
    && PoolFails(s, daemon, s', outcome)
    && s'.store == s.store
    && s'.firstScan == s.firstScan
    && s'.view == (if s.store == map[] then s'.chain else s.view)
  }

  ghost predicate FailStep(s: State, daemon: Daemon, s': State, n: nat, outcome: PoolOutcome) {
    FailMove(s, s.store == map[], daemon, s', n, outcome)
  }

  /** A scan that fails after the daemon's height was asked and before a block was fetched. */
  ghost predicate UnfetchedStep(s: State, height: nat, s': State) {
    s' == s.(daemonHeight := height)
  }

  // ---- New and removed invoices ----

  /** An invoice is created at the last reported daemon height. */
  ghost predicate NewStep(s: State, inv: Invoice, s': State) {
    && inv.Id() !in s.store
    && s.daemonHeight <= inv.expirationHeight
    && inv == NewInvoice(inv.address, inv.index, s.daemonHeight, inv.amountRequested, inv.confirmationsRequired,
                         inv.expirationHeight - s.daemonHeight, inv.description)
    && s' == s.(store := s.store[inv.Id() := inv])
  }

  /** No block that the store already knows pays to the invoice. There is none since its creation
      if the daemon reported a height above the cache. */
  ghost predicate Unpaid(s: State, inv: Invoice) {
    Mined(s.view, inv.index, inv.creationHeight, |s.view|) == []
  }

  ghost predicate RemoveStep(s: State, id: InvoiceId, s': State) {
    s' == s.(store := s.store - {id})
  }

  // ---- The batch computation ----

  /** Every payment to a subaddress since a height, by going through the whole chain and then
      through the given transactions of the pool. */
  ghost function Batch(chain: seq<Entry>, pool: map<Hash, Tx>, sub: SubIndex, creation: nat): seq<Transfer> {
    Mined(chain, sub, creation, |chain|) + Flat(PoolPayments(pool, sub))
  }

  /** The invoice is what the batch computation would make of it. */
  ghost predicate UpToDate(inv: Invoice, chain: seq<Entry>, pool: map<Hash, Tx>) {
    var batch := Batch(chain, pool, inv.index, inv.creationHeight);
    && multiset(inv.transfers) == multiset(batch)
    && inv.amountPaid == Sum(batch)
    && IsPaidHeight(Mined(chain, inv.index, inv.creationHeight, |chain|), inv.amountRequested, inv.paidHeight)
    && inv.currentHeight == |chain|
  }

  /** The pool transactions that were scanned while the store answered for the subaddress. */
  function Seen(s: State, sub: SubIndex): map<Hash, Tx> {
    map h | h in s.txs && h in s.met && ContainsAtOrAbove(s.met[h], sub) :: s.txs[h]
  }

  /** Every stored invoice is the batch result over the blocks that were scanned and the pool
      transactions that were scanned for it. */
  ghost predicate AllUpToDate(s: State) {
    forall id | id in s.store :: UpToDate(s.store[id], s.view, Seen(s, id.sub))
  }

  // ---- The invariant ----

  /** The mined part of an invoice agrees with the chain and its totals with its transfers. */
  ghost predicate Consistent(inv: Invoice, chain: seq<Entry>) {
    && SortedByHeight(inv.transfers)
    && inv.Folded()
    && inv.currentHeight <= |chain|
    && SameMined(inv.transfers, Mined(chain, inv.index, inv.creationHeight, |chain|))
  }

  /** The memo holds exactly what scanning its transactions again would report. */
  ghost predicate MemoExact(s: State) {
    && s.met.Keys == s.txs.Keys
    && (forall h :: h in s.discovered <==> h in s.txs && Reported(s.txs[h], s.met[h]) != [])
    && forall h | h in s.discovered :: s.discovered[h] == Lift(Reported(s.txs[h], s.met[h]), None)
  }

  /** No mined transfer lies at or above `height`. */
  ghost predicate NoneFrom(inv: Invoice, height: int) {
    forall t | t in inv.transfers && t.height.Some? :: t.height.value < height
  }

  /** What holds before and after every step, whatever the invoices held at start-up. */
  ghost predicate CoreInv(s: State) {
    && 1 <= s.size <= |s.chain|
    && |s.view| <= |s.chain|
    && MemoExact(s)
    && forall id | id in s.store :: s.store[id].Id() == id && Consistent(s.store[id], s.view)
  }

  /** Until the first scan, no invoice holds a transfer inside the cached window. */
  ghost predicate Inv(s: State) {
    && CoreInv(s)
    && (s.firstScan ==> forall id | id in s.store :: NoneFrom(s.store[id], |s.chain| - s.size))
  }

  // ---- Runs ----

  datatype Step =
    | Scanned(daemon: Daemon, n: nat, mined: seq<Credit>, pooled: seq<Credit>)
    | Failed(daemon: Daemon, n: nat, outcome: PoolOutcome)
    | Unfetched(height: nat)
    | Created(invoice: Invoice)
    | Removed(id: InvoiceId)

  ghost predicate Next(s: State, step: Step, s': State) {
    match step
    case Scanned(daemon, n, mined, pooled) => ScanStep(s, daemon, s', n, mined, pooled)
    case Failed(daemon, n, outcome) => FailStep(s, daemon, s', n, outcome)
    case Unfetched(height) => UnfetchedStep(s, height, s')
    case Created(invoice) => NewStep(s, invoice, s') && Unpaid(s, invoice)
    case Removed(id) => RemoveStep(s, id, s')
  }

  /** `states[i + 1]` is what `steps[i]` makes of `states[i]`. */
  ghost predicate IsRun(states: seq<State>, steps: seq<Step>) {
    && |states| == |steps| + 1
    && forall i, j | 0 <= i && j == i + 1 < |states| :: Next(states[i], steps[i], states[j])
  }
}
