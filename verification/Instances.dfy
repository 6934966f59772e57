/** Small concrete runs: the shortfalls of the scanner do occur, and so do runs without them. */
module Instances {
  import opened Common
  import opened Indexes
  import opened Transfers
  import opened Invoices
  import opened Daemons
  import opened Stores
  import opened Payments
  import opened ScanModel
  import opened ScanTheory
  import opened Memo
  import opened Runs
  import opened Restart
  import LiveScans

  const SUB := SubIndex(0, 1)
  const ID := InvoiceId(SUB, 1)
  const TX := Tx(7, 0, [Output(SUB, Some(5))])
  const GENESIS := Entry(10, 0, Block(9, []), [])
  const TIP := Entry(11, 1, Block(10, [7]), [TX])
  const CHAIN := [GENESIS, TIP]
  const PAID := Invoice("a", SUB, 1, 5, 5, Some(1), 0, 2, 9, [Transfer(5, Some(1))], "paid once")
  const MINED := [Transfer(5, Some(1))]
  const REPORT := [Credit(SUB, Transfer(5, Some(1)))]

  /** A transaction in the pool that pays 3, and one that cannot be unblinded. */
  const POOLED := Tx(8, 0, [Output(SUB, Some(3))])
  const BLINDED := Tx(6, 0, [Output(SUB, None)])

  /** The daemon of the chain above, with a pool. */
  function SameDaemon(pool: map<Hash, Tx>): Daemon {
    Daemon([(10, Block(9, [])), (11, Block(10, [7]))], pool[7 := TX], pool.Keys)
  }

  /** A gateway that has scanned the chain, with an invoice paid in the newest block and a pool
      that is known; `met` tells for whom its transactions were scanned. */
  function Settled(pool: map<Hash, Tx>, met: map<Hash, set<InvoiceId>>): State {
    State(CHAIN, 1, 2, pool, map[], map[ID := PAID], false, CHAIN, met)
  }

  /** The pool was scanned for nobody. */
  ghost predicate Unscanned(pool: map<Hash, Tx>, met: map<Hash, set<InvoiceId>>) {
    && met.Keys == pool.Keys
    && forall h | h in pool :: met[h] == {} && pool[h].hash == h && h != 7
  }

  lemma ExamplePayments()
    ensures Mined(CHAIN, SUB, 1, 1) == [] && Mined(CHAIN, SUB, 1, 2) == MINED
    ensures Sum(MINED) == 5 && PaidFold(MINED, 5) == Some(1)
  {
    assert TIP.txs[..0] == [] && TX.owned[..0] == [] && MINED[..0] == [];
    assert OutputPayments(TX.owned, 5, SUB, Some(1)) == MINED;
    assert BlockPayments(TIP.txs, SUB, 1) == MINED;
  }

  lemma ExampleReport()
    ensures ContainsAtOrAbove({ID}, SUB) && ChainCredits(CHAIN, {ID}, 1, 2) == REPORT
  {
    assert ID in {ID} && ID.Cmp(InvoiceId(SUB, 0)) != Less;
    assert ContainsAtOrAbove({ID}, SUB);
    assert TIP.txs[..0] == [] && TX.owned[..0] == [];
    assert OwnedAmounts(TX.owned, 5, {ID}) == [OwnedAmount(SUB, 5)];
    assert ReportedAll(TIP.txs, {ID}) == [OwnedAmount(SUB, 5)];
    assert [OwnedAmount(SUB, 5)][..0] == [];
    assert Lift([OwnedAmount(SUB, 5)], Some(1)) == REPORT;
    assert ChainCredits(CHAIN, {ID}, 1, 1) == [];
  }

  lemma ExamplePool()
    ensures TxPayments(POOLED, SUB, None) == [Transfer(3, None)]
  {
    assert POOLED.owned[..0] == [];
    assert OutputPayments(POOLED.owned, 3, SUB, None) == [Transfer(3, None)];
  }

  lemma PaidIsConsistent()
    ensures Consistent(PAID, CHAIN)
  {
    hide Mined, Sum, PaidFold;
    ExamplePayments();
  }

  lemma SettledInv(pool: map<Hash, Tx>, met: map<Hash, set<InvoiceId>>)
    requires Unscanned(pool, met)
    ensures Inv(Settled(pool, met))
  {
    hide MemoExact, Consistent, NoneFrom;
    PaidIsConsistent();
    StartMemo(Settled(pool, met));
  }

  lemma SameChain(pool: map<Hash, Tx>)
    requires 7 !in pool
    ensures SameDaemon(pool).Chain() == CHAIN
  {
    var d := SameDaemon(pool);
    forall h | 0 <= h < 2 ensures d.Chain()[h] == CHAIN[h] {
      d.ChainAt(h);
      assert d.Reply([]) == [] && [7][..0] == [];
      assert d.Reply([7]) == [TX];
    }
  }

  /** A scan of an unchanged pool finds nothing. */
  lemma PoolUnchanged(pool: map<Hash, Tx>, met: map<Hash, set<InvoiceId>>, s: State, s': State)
    requires Unscanned(pool, met)
    requires s.txs == s'.txs == pool && s.discovered == s'.discovered == map[] && s.met == s'.met == met
    ensures SameDaemon(pool).Valid() && PoolStep(s, SameDaemon(pool), s')
  {
  }

  // ---- A run that leaves everything as it is ----

  lemma NothingToRefresh()
    ensures Refresh(PAID, [], 2, 1) == PAID
  {
    assert PAID.transfers[..0] == [];
    assert Below(PAID.transfers, 2) == PAID.transfers;
    assert Below(PAID.transfers, 2) + For([], SUB, 1) == PAID.transfers;
  }

  lemma NoNewBlock(s: State, s': State, pool: map<Hash, Tx>)
    requires s.chain == CHAIN && s.size <= 2
    requires s'.size == s.size && s'.chain == CHAIN && s'.daemonHeight == 2
    ensures CacheStep(s, SameDaemon(pool).Chain(), s', 0)
  {
  }

  /** After the first scan, a scan of the unchanged daemon leaves the paid invoice as it is. */
  lemma SettledScan(pool: map<Hash, Tx>, met: map<Hash, set<InvoiceId>>)
    requires Unscanned(pool, met)
    ensures ScanStep(Settled(pool, met), SameDaemon(pool), Settled(pool, met), 0, [], [])
  {
    hide PoolStep, Refresh, CacheStep;
    var s := Settled(pool, met);
    PoolUnchanged(pool, met, s, s);
    NoNewBlock(s, s, pool);
    FlatNone<Credit>();
    SettledStore(s);
    OverlayOfItself(CHAIN, CHAIN, 2, 2);
  }

  lemma SettledStore(s: State)
    requires s.store == map[ID := PAID] && s.chain == CHAIN
    ensures StoreStep(s, s, 0, [] + [])
  {
    hide Refresh;
    NothingToRefresh();
    var none: seq<Credit> := [];
    assert none + none == none;
  }

  lemma SettledRun(pool: map<Hash, Tx>, met: map<Hash, set<InvoiceId>>) returns (states: seq<State>, steps: seq<Step>)
    requires Unscanned(pool, met)
    ensures IsRun(states, steps) && Inv(states[0])
    ensures states == [Settled(pool, met), Settled(pool, met)] && steps == [Scanned(SameDaemon(pool), 0, [], [])]
  {
    hide ScanStep, Inv;
    SettledInv(pool, met);
    SettledScan(pool, met);
    states, steps := [Settled(pool, met), Settled(pool, met)], [Scanned(SameDaemon(pool), 0, [], [])];
  }

  /** A transaction that was in the pool at start-up pays 3 more, but is not credited: the pool
      is known, and the transaction was scanned for nobody. */
  lemma StartUpPoolMissed() returns (states: seq<State>, steps: seq<Step>)
    ensures IsRun(states, steps) && Inv(states[0]) && |steps| == 1 && steps[0].Scanned?
    ensures states[1].txs == map[8 := POOLED] && TxPayments(POOLED, SUB, None) == [Transfer(3, None)]
    ensures states[1].store == map[ID := PAID] && PAID.transfers == [Transfer(5, Some(1))]
    ensures states[1].met.Keys == states[1].txs.Keys && !LookedAt(states[1], 8, SUB)
  {
    hide IsRun, Inv;
    states, steps := SettledRun(map[8 := POOLED], map[8 := {}]);
    ExamplePool();
  }

  // ---- A restart that counts a payment twice ----

  /** The same gateway after a restart. */
  ghost function Restarted(): State {
    Settled(map[], map[]).(firstScan := true)
  }

  lemma RestartedStarts()
    ensures SameDaemon(map[]).Height() == 2 && Started(Restarted(), SameDaemon(map[]), map[ID := PAID], 1, 2)
    ensures CoreInv(Restarted())
  {
    hide MemoExact, Consistent, Inv;
    PaidIsConsistent();
    StartMemo(Restarted());
    SameChain(map[]);
  }

  lemma NothingNew(s: State, s': State, n: nat)
    requires s.chain == CHAIN && s.store != map[] && s.view == CHAIN && s.size == 1 && s.firstScan
    requires s.txs == map[] && s.discovered == map[]
    requires CacheStep(s, SameDaemon(map[]).Chain(), s', n) && PoolStep(s, SameDaemon(map[]), s')
    requires s'.view == Looked(s, s'.chain, ScanFrom(s, s', n))
    ensures n == 0 && s'.view == CHAIN && s'.txs == map[]
  {
    OverlayOfItself(CHAIN, CHAIN, 2, 1);
  }

  /** The restarted gateway is consistent and holds its one payment of 5; any first scan of
      the unchanged daemon credits that payment twice. */
  lemma RestartCountsTwice(s': State, n: nat, mined: seq<Credit>, pooled: seq<Credit>)
    requires ScanStep(Restarted(), SameDaemon(map[]), s', n, mined, pooled)
    ensures CoreInv(Restarted()) && ID in s'.store
    ensures Restarted().store[ID].amountPaid == 5 && s'.store[ID].amountPaid == 10
  {
    hide CoreInv, CacheStep, PoolStep, BlockScan, StoreStep, Mined, Sum, Overlay, PoolPayments;
    RestartedStarts();
    FirstScanTransfers(Restarted(), SameDaemon(map[]), s', n, mined, pooled, ID);
    NothingNew(Restarted(), s', n);
    ExamplePayments();
    EmptyPool(s');
  }

  lemma EmptyPool(s: State)
    requires s.txs == map[]
    ensures Batch(CHAIN, Seen(s, SUB), SUB, 1) == Mined(CHAIN, SUB, 1, 2)
  {
    assert PoolPayments(Seen(s, SUB), SUB) == map[];
  }

  lemma StoreRefreshed(s: State, s': State, credits: seq<Credit>)
    requires s.store == map[ID := PAID]
    requires s'.chain == CHAIN && s'.store == map[ID := Refresh(PAID, credits, 2, 1)]
    ensures StoreStep(s, s', 0, credits)
  {
    hide Refresh;
  }

  /** Such a first scan exists. */
  lemma RestartScans() returns (s': State)
    ensures ScanStep(Restarted(), SameDaemon(map[]), s', 0, REPORT, [])
  {
    hide PoolStep, StoreStep, ChainCredits, Refresh, CacheStep;
    s' := Restarted().(store := map[ID := Refresh(PAID, REPORT + [], 2, 1)], firstScan := false);
    ExampleReport();
    PoolUnchanged(map[], map[], Restarted(), s');
    NoNewBlock(Restarted(), s', map[]);
    StoreRefreshed(Restarted(), s', REPORT + []);
    FlatNone<Credit>();
    OverlayOfItself(CHAIN, CHAIN, 2, 1);
    assert Restarted().store.Keys == {ID};
  }

  // ---- A scan that fails after a repair ----

  const FORK := Entry(12, 1, Block(10, []), [])
  const NEXT := Entry(13, 2, Block(12, []), [])
  const FORKED := [GENESIS, FORK, NEXT]

  /** The daemon has dropped the paying block, and a payment of 3 arrives in the pool together
      with a transaction that makes the scan fail. */
  function ForkedDaemon(): Daemon {
    Daemon([(10, Block(9, [])), (12, Block(10, [])), (13, Block(12, []))], map[6 := BLINDED, 8 := POOLED], {6, 8})
  }

  /** Before the fork, with a window of two blocks. */
  ghost function Before(): State {
    Settled(map[], map[]).(size := 2)
  }

  /** After the failed scan: the window shows the fork, the store does not. */
  ghost function AfterFailure(): State {
    State(FORKED, 2, 3, map[6 := BLINDED, 8 := POOLED], map[], map[ID := PAID], false, CHAIN, map[6 := {}, 8 := {}])
  }

  /** After the next scan, which finds nothing new. */
  ghost function AfterRecovery(): State {
    AfterFailure().(store := map[ID := PAID.(currentHeight := 3)], view := CHAIN + [Blank(2)])
  }

  lemma ForkedChain()
    ensures ForkedDaemon().Valid() && ForkedDaemon().Chain() == FORKED
  {
    var d := ForkedDaemon();
    assert d.Reply([]) == [];
    forall h | 0 <= h < 3 ensures d.Chain()[h] == FORKED[h] {
      d.ChainAt(h);
    }
  }

  lemma BeforeInv()
    ensures Inv(Before())
  {
    hide MemoExact, Consistent, NoneFrom;
    PaidIsConsistent();
    StartMemo(Before());
  }

  lemma ScanFails()
    ensures Unreadable(BLINDED, Before().store.Keys)
    ensures FailStep(Before(), ForkedDaemon(), AfterFailure(), 2, Lost)
  {
    ForkedChain();
    ExampleReport();
    assert Before().store.Keys == {ID};
    assert BLINDED.owned[0] in BLINDED.owned;
  }

  lemma RecoveryRefreshes()
    ensures Refresh(PAID, [], 3, 2) == PAID.(currentHeight := 3)
  {
    assert PAID.transfers[..0] == [] && MINED == PAID.transfers;
    ExamplePayments();
    assert Below(PAID.transfers, 3) == PAID.transfers;
    assert Below(PAID.transfers, 3) + For([], SUB, 1) == PAID.transfers;
  }

  lemma RecoveryStore()
    ensures StoreStep(AfterFailure(), AfterRecovery(), 0, [] + [])
  {
    hide Refresh;
    RecoveryRefreshes();
    var none: seq<Credit> := [];
    assert none + none == none;
  }

  lemma RecoveryPool()
    ensures PoolStep(AfterFailure(), ForkedDaemon(), AfterRecovery())
  {
    var s, d := AfterFailure(), ForkedDaemon();
    assert s.txs.Keys == s.met.Keys == d.pool;
  }

  lemma ScanRecovers()
    ensures ScanStep(AfterFailure(), ForkedDaemon(), AfterRecovery(), 0, [], [])
  {
    hide PoolStep, StoreStep;
    ForkedChain();
    RecoveryPool();
    RecoveryStore();
    FlatNone<Credit>();
    assert Overlay(CHAIN, FORKED, 3) == CHAIN + [Blank(2)];
    assert ID in AfterFailure().store;
  }

  /**
   * The payment of the dropped block stays, and the one in the pool is not credited: after a scan
   * that failed and one that succeeded, the invoice holds 5, while the believed chain pays
   * nothing to it and the pool pays 3.
   */
  lemma FailureAfterRepair() returns (states: seq<State>, steps: seq<Step>)
    ensures IsRun(states, steps) && Inv(states[0]) && |steps| == 2 && steps[0].Failed? && steps[1].Scanned?
    ensures states[2].store == map[ID := PAID.(currentHeight := 3)]
    ensures PAID.transfers == [Transfer(5, Some(1))] && PAID.amountPaid == 5
    ensures states[2].chain == FORKED && Mined(FORKED, SUB, 1, 3) == []
    ensures states[2].txs == map[6 := BLINDED, 8 := POOLED] && TxPayments(POOLED, SUB, None) == [Transfer(3, None)]
  {
    hide FailStep, ScanStep, Inv;
    BeforeInv();
    ScanFails();
    ScanRecovers();
    ExamplePool();
    MinedEmpty(FORKED, SUB, 1, 3);
    states := [Before(), AfterFailure(), AfterRecovery()];
    steps := [Failed(ForkedDaemon(), 2, Lost), Scanned(ForkedDaemon(), 0, [], [])];
  }

  // ---- An invoice created below the cache ----

  const FRESH := Invoice("a", SUB, 1, 5, 0, None, 0, 0, 9, [], "paid once")

  /** The daemon has reported a height of 1 after the cache had reached height 1. */
  function Behind(): State {
    State(CHAIN, 1, 1, map[], map[], map[], false, CHAIN, map[])
  }

  /** The block at the reported height was scanned already and pays to the new invoice: creating it
      breaks the invariant. */
  lemma CreatedBelowCache()
    ensures var s' := Behind().(store := map[ID := FRESH]);
            Inv(Behind()) && NewStep(Behind(), FRESH, s') && !Unpaid(Behind(), FRESH) && !Inv(s')
  {
    hide Inv, Unpaid;
    var s' := Behind().(store := map[ID := FRESH]);
    BehindInv();
    assert Behind().store[ID := FRESH] == map[ID := FRESH];
    assert NewStep(Behind(), FRESH, s');
    PaidAlready();
    CreateKeepsInvIff(Behind(), FRESH, s');
  }

  lemma PaidAlready()
    ensures !Unpaid(Behind(), FRESH)
  {
    hide Mined;
    ExamplePayments();
  }

  lemma BehindInv()
    ensures Inv(Behind())
  {
    hide MemoExact;
    StartMemo(Behind());
  }

  // ---- An invoice inserted between the test for an empty store and the jump ----

  const LAST := Entry(14, 2, Block(11, []), [])
  const GROWN := [GENESIS, TIP, LAST]
  const SKIPPED := [GENESIS, Blank(1), LAST]
  const MISSED := FRESH.(currentHeight := 3)

  function GrownDaemon(): Daemon {
    Daemon([(10, Block(9, [])), (11, Block(10, [7])), (14, Block(11, []))], map[7 := TX], {})
  }

  /** Two blocks behind, with a window of one and nothing stored. */
  function TwoBehind(): State {
    State([GENESIS], 1, 1, map[], map[], map[], false, [GENESIS], map[])
  }

  function Inserted(): State {
    TwoBehind().(store := map[ID := FRESH])
  }

  function Jumped(): State {
    Inserted().(chain := GROWN, daemonHeight := 3)
  }

  lemma GrownChain()
    ensures GrownDaemon().Valid() && GrownDaemon().Chain() == GROWN
  {
    var d := GrownDaemon();
    assert d.Reply([]) == [] && [7][..0] == [];
    assert d.Reply([7]) == [TX];
    forall h | 0 <= h < 3 ensures d.Chain()[h] == GROWN[h] {
      d.ChainAt(h);
    }
  }

  lemma TwoBehindInv()
    ensures LiveScans.LiveInv(LiveScans.Live(TwoBehind(), LiveScans.Idle))
  {
    hide MemoExact;
    StartMemo(TwoBehind());
  }

  lemma JumpReports()
    ensures LiveScans.ReportStep(LiveScans.Live(Inserted(), LiveScans.Tested(true)), GrownDaemon(), 1, [], [],
                                 LiveScans.Live(Jumped(), LiveScans.Reported({ID}, 2, 2, [], [], SKIPPED)))
  {
    hide Reported, PoolStep;
    GrownChain();
    FlatNone<Credit>();
    assert Inserted().store.Keys == {ID} && ID in Inserted().store;
    assert Overlay([GENESIS], GROWN, 2) == SKIPPED;
    assert LAST.txs == [] && ReportedAll([], {ID}) == [];
    assert ChainCredits(GROWN, {ID}, 2, 2) == [] && ChainCredits(GROWN, {ID}, 2, 3) == [];
    JumpPool();
  }

  lemma JumpPool()
    ensures GrownDaemon().pool <= GrownDaemon().known.Keys && PoolStep(Inserted(), GrownDaemon(), Jumped())
  {
  }

  lemma JumpRefreshes()
    ensures Refresh(FRESH, [], 2, 2) == MISSED
  {
    assert Below([], 2) + For([], SUB, 1) == [];
  }

  lemma JumpCollects()
    ensures LiveScans.CollectStep(LiveScans.Live(Jumped(), LiveScans.Reported({ID}, 2, 2, [], [], SKIPPED)), [MISSED],
              LiveScans.Live(Jumped(), LiveScans.Saving(map[ID := FRESH], [MISSED], map[], SKIPPED)))
  {
    hide Refresh;
    var none: seq<Credit> := [];
    assert none + none == none;
    JumpRefreshes();
    assert MISSED in [MISSED];
  }

  /** The payment is in the chain since the invoice's creation, but the scan that started with an empty
      store never looks at its block: it finishes, and the invoice holds nothing. */
  lemma InsertedBeforeJump() returns (states: seq<LiveScans.Live>, steps: seq<LiveScans.Step>)
    ensures LiveScans.IsRun(states, steps) && LiveScans.LiveInv(states[0])
    ensures |steps| == 6 && steps[0].Test? && steps[1] == LiveScans.Create(FRESH) && steps[5].Finish?
    ensures states[6].s.store == map[ID := MISSED] && MISSED.transfers == []
    ensures states[6].s.chain == GROWN && Mined(GROWN, SUB, 1, 3) != []
  {
    hide Inv, Mined, LiveScans.ReportStep, LiveScans.CollectStep, LiveScans.LiveInv;
    TwoBehindInv();
    JumpReports();
    JumpCollects();
    GrownPays();
    var saving := LiveScans.Saving(map[ID := FRESH], [MISSED], map[], SKIPPED);
    var saved := Jumped().(store := map[ID := MISSED]);
    assert [MISSED][1..] == [];
    assert Jumped().store[ID := MISSED] == map[ID := MISSED];
    assert TwoBehind().store[ID := FRESH] == map[ID := FRESH];
    states := [LiveScans.Live(TwoBehind(), LiveScans.Idle),
               LiveScans.Live(TwoBehind(), LiveScans.Tested(true)),
               LiveScans.Live(Inserted(), LiveScans.Tested(true)),
               LiveScans.Live(Jumped(), LiveScans.Reported({ID}, 2, 2, [], [], SKIPPED)),
               LiveScans.Live(Jumped(), saving),
               LiveScans.Live(saved, saving.(pending := [])),
               LiveScans.Live(saved.(view := SKIPPED), LiveScans.Idle)];
    steps := [LiveScans.Test, LiveScans.Create(FRESH), LiveScans.Report(GrownDaemon(), 1, [], []),
              LiveScans.Collect([MISSED]), LiveScans.Save, LiveScans.Finish];
  }

  lemma GrownPays()
    ensures Mined(GROWN, SUB, 1, 3) != []
  {
    hide BlockPayments;
    MinedAtHeight(GROWN, SUB, 1, 3, Transfer(5, Some(1)));
    TipPays();
  }

  lemma TipPays()
    ensures BlockPayments(TIP.txs, SUB, 1) == MINED
  {
    assert TIP.txs[..0] == [] && TX.owned[..0] == [];
    assert OutputPayments(TX.owned, 5, SUB, Some(1)) == MINED;
  }
}
