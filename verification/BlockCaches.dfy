/** The sliding window over the newest blocks, newest first, repaired link by link. */
module BlockCaches {
  import opened Common
  import opened Daemons
  import Rpc

  /** From index `from` on, each entry's header names the id of the entry after it. */
  ghost predicate LinkedFrom(blocks: seq<Entry>, from: nat) {
    forall i, j | from <= i && j == i + 1 < |blocks| :: blocks[i].block.prevId == blocks[j].id
  }

  ghost predicate Linked(blocks: seq<Entry>) {
    LinkedFrom(blocks, 0)
  }

  /** Heights count down from `top`. */
  ghost predicate CountsDown(blocks: seq<Entry>, top: nat) {
    forall i | 0 <= i < |blocks| :: blocks[i].height == top - i
  }

  /** Every entry of `blocks` is the chain's block at its height, counting down from `top`. */
  ghost predicate FromChain(blocks: seq<Entry>, chain: seq<Entry>, top: nat) {
    && |blocks| <= top + 1 <= |chain|
    && forall i | 0 <= i < |blocks| :: blocks[i] == chain[top - i]
  }

  /** Ids are collision-free: an entry with the id of the chain's block at the same height is
      that block. */
  ghost predicate Collisionless(blocks: seq<Entry>, top: nat, chain: seq<Entry>) {
    forall i | 0 <= i < |blocks| && 0 <= top - i < |chain| ::
      blocks[i].id == chain[top - i].id ==> blocks[i] == chain[top - i]
  }

  /**
   * What advancing by one block does to the window: the new window is the daemon's, the
   * entries that were replaced are a contiguous run just under the new tip, and `updated`
   * counts the tip and that run, so that every entry from index `updated` on is an old one.
   */
  ghost predicate Advanced(before: seq<Entry>, chain: seq<Entry>, top: nat, after: seq<Entry>, updated: nat) {
    && |after| == |before|
    && 1 <= updated <= |after|
    && FromChain(after, chain, top)
    && (forall i | 1 <= i < updated :: after[i] != before[i - 1])
    && (forall i | updated <= i < |after| :: after[i] == before[i - 1])
  }

  lemma ChainWindowLinked(blocks: seq<Entry>, chain: seq<Entry>, top: nat)
    requires IsChain(chain) && FromChain(blocks, chain, top)
    ensures Linked(blocks) && CountsDown(blocks, top)
  {
  }

  /** The entries after the `fetched` newest ones are the old, linked window. */
  ghost predicate Repairable(blocks: seq<Entry>, chain: seq<Entry>, top: nat, fetched: nat) {
    && IsChain(chain)
    && 1 <= fetched <= |blocks| <= top + 1 <= |chain|
    && Collisionless(blocks, top, chain)
    && (forall i | 0 <= i < fetched :: blocks[i] == chain[top - i])
    && LinkedFrom(blocks, fetched)
  }

  /** The repair has worked its way down to index `i`: everything above is the daemon's, and
      what was replaced is the run of `updated - 1` entries under the fetched ones. */
  ghost predicate RepairedTo(before: seq<Entry>, chain: seq<Entry>, top: nat, fetched: nat,
                             after: seq<Entry>, i: int, updated: nat) {
    && |after| == |before| <= top + 1 <= |chain|
    && 0 <= i < |before|
    && (forall j | 0 <= j <= i :: after[j] == chain[top - j])
    && (forall j | i < j < |after| :: after[j] == before[j])
    && (updated != 0 ==> 2 <= updated && fetched + updated - 2 <= i)
    && (forall j | 0 <= j <= i :: after[j] != before[j] <==> fetched <= j < fetched + updated - 1)
  }

  /** One turn of the repair loop: the next link is intact and nothing changes, or the entry
      under it is fetched again. */
  lemma RepairStep(before: seq<Entry>, chain: seq<Entry>, top: nat, fetched: nat, after: seq<Entry>, i: nat, updated: nat,
                   next: seq<Entry>, nextUpdated: nat)
    requires Repairable(before, chain, top, fetched)
    requires RepairedTo(before, chain, top, fetched, after, i, updated)
    requires i + 1 < |after|
    requires if after[i].block.prevId == after[i + 1].id then next == after && nextUpdated == updated
             else next == after[i + 1 := chain[top - 1 - i]] && nextUpdated == Max(updated, 1) + 1
    ensures RepairedTo(before, chain, top, fetched, next, i + 1, nextUpdated)
  {
    var h := top - (i + 1);
    assert after[i] == chain[top - i] && after[i + 1] == before[i + 1];
    assert chain[top - i].block.prevId == chain[h].id;
    if fetched <= i && fetched + updated - 1 <= i {
      assert after[i] == before[i];
    }
  }

  /** The repair loop from index `i` on: the window and the count that it ends with. */
  ghost function Repair(blocks: seq<Entry>, chain: seq<Entry>, top: nat, i: nat, updated: nat): (seq<Entry>, nat)
    requires |blocks| <= top + 1 <= |chain|
    decreases |blocks| - i
  {
    if i + 1 >= |blocks| then (blocks, updated)
    else if blocks[i].block.prevId == blocks[i + 1].id then Repair(blocks, chain, top, i + 1, updated)
    else Repair(blocks[i + 1 := chain[top - 1 - i]], chain, top, i + 1, Max(updated, 1) + 1)
  }

  /** A linked window needs no repair. */
  lemma {:induction false} RepairLinked(blocks: seq<Entry>, chain: seq<Entry>, top: nat, i: nat, updated: nat)
    requires |blocks| <= top + 1 <= |chain| && Linked(blocks)
    ensures Repair(blocks, chain, top, i, updated) == (blocks, updated)
    decreases |blocks| - i
  {
    if i + 1 < |blocks| {
      RepairLinked(blocks, chain, top, i + 1, updated);
    }
  }

  /** Repairing replaces exactly the entries that are not the daemon's, a contiguous run. */
  lemma {:induction false} RepairRestores(before: seq<Entry>, chain: seq<Entry>, top: nat, fetched: nat,
                                          after: seq<Entry>, i: nat, updated: nat)
    requires Repairable(before, chain, top, fetched)
    requires RepairedTo(before, chain, top, fetched, after, i, updated)
    ensures var (last, count) := Repair(after, chain, top, i, updated);
            RepairedTo(before, chain, top, fetched, last, |before| - 1, count)
    decreases |after| - i
  {
    if i + 1 < |after| {
      var intact := after[i].block.prevId == after[i + 1].id;
      var next := if intact then after else after[i + 1 := chain[top - 1 - i]];
      var nextUpdated := if intact then updated else Max(updated, 1) + 1;
      RepairStep(before, chain, top, fetched, after, i, updated, next, nextUpdated);
      RepairRestores(before, chain, top, fetched, next, i + 1, nextUpdated);
    }
  }

  /** `n` entries pushed on top of a window, and as many dropped from its end. */
  function Pushed(entries: seq<Entry>, before: seq<Entry>): (after: seq<Entry>)
    requires |entries| <= |before|
    ensures |after| == |before|
  {
    entries + before[..|before| - |entries|]
  }

  /** The `n` newest blocks of the chain up to `top`, newest first. */
  ghost function Newest(chain: seq<Entry>, top: nat, n: nat): (blocks: seq<Entry>)
    requires n <= top + 1 <= |chain|
    ensures |blocks| == n
  {
    seq(n, i requires 0 <= i < n => chain[top - i])
  }

  lemma PushedNone(before: seq<Entry>)
    ensures Pushed([], before) == before
  {
  }

  lemma FromChainUnique(blocks: seq<Entry>, chain: seq<Entry>, top: nat)
    requires FromChain(blocks, chain, top)
    ensures blocks == Newest(chain, top, |blocks|)
  {
  }

  lemma PushOne(tip: Entry, entries: seq<Entry>, before: seq<Entry>, chain: seq<Entry>, top: nat)
    requires |entries| < |before| && top < |chain| && tip == chain[top]
    requires entries == [] || (top > 0 && FromChain(entries, chain, top - 1))
    requires entries == [] || |entries| <= top
    ensures ([tip] + Pushed(entries, before))[..|before|] == Pushed([tip] + entries, before)
    ensures FromChain([tip] + entries, chain, top)
  {
    var all := [tip] + entries;
    forall i | 0 <= i < |all| ensures all[i] == chain[top - i] {
      if i > 0 {
        assert entries[i - 1] == chain[top - 1 - (i - 1)];
      }
    }
  }

  /** After pushing the chain's blocks above `oldTop`, the rest is the old window. */
  lemma PushedRepairable(entries: seq<Entry>, before: seq<Entry>, chain: seq<Entry>, oldTop: nat, top: nat)
    requires IsChain(chain) && |entries| <= |before| <= top + 1 <= |chain|
    requires FromChain(entries, chain, top)
    requires |entries| > 0
    requires |entries| == top - oldTop || |entries| == |before|
    requires Linked(before) && Collisionless(before, oldTop, chain)
    ensures Repairable(Pushed(entries, before), chain, top, |entries|)
  {
    var after, n := Pushed(entries, before), |entries|;
    forall i | n <= i < |after| && 0 <= top - i < |chain|
      ensures after[i].id == chain[top - i].id ==> after[i] == chain[top - i]
    {
      assert after[i] == before[i - n] && top - i == oldTop - (i - n);
    }
    forall i, j | n <= i && j == i + 1 < |after|
      ensures after[i].block.prevId == after[j].id
    {
      assert after[i] == before[i - n] && after[j] == before[j - n];
    }
  }

  /** Pushing the new tip and repairing advances the window by one block. */
  lemma UpdateRepairs(tip: Entry, before: seq<Entry>, chain: seq<Entry>, top: nat)
    requires IsChain(chain) && 1 <= |before| <= top < |chain| && tip == chain[top]
    requires Linked(before) && Collisionless(before, top - 1, chain)
    ensures var (after, count) := Repair(Pushed([tip], before), chain, top, 0, 0);
            && Advanced(before, chain, top, after, Max(1, count))
            && Linked(after) && CountsDown(after, top)
  {
    var start := Pushed([tip], before);
    PushedRepairable([tip], before, chain, top - 1, top);
    RepairRestores(start, chain, top, 1, start, 0, 0);
    var (after, count) := Repair(start, chain, top, 0, 0);
    forall i | 1 <= i < |after|
      ensures after[i] != before[i - 1] <==> i < Max(1, count)
    {
      assert start[i] == before[i - 1];
    }
    ChainWindowLinked(after, chain, top);
  }

  /** Pushing the missing blocks, or as many as fit, and repairing leaves the daemon's window. */
  lemma SkipRepairs(entries: seq<Entry>, before: seq<Entry>, chain: seq<Entry>, oldTop: nat, top: nat)
    requires IsChain(chain) && 1 <= |entries| <= |before| <= top + 1 <= |chain|
    requires FromChain(entries, chain, top)
    requires |entries| == top - oldTop || |entries| == |before|
    requires Linked(before) && Collisionless(before, oldTop, chain)
    ensures var (after, count) := Repair(Pushed(entries, before), chain, top, 0, 0);
            && |after| == |before| && count <= |before|
            && FromChain(after, chain, top) && Linked(after) && CountsDown(after, top)
  {
    var start := Pushed(entries, before);
    PushedRepairable(entries, before, chain, oldTop, top);
    RepairRestores(start, chain, top, |entries|, start, 0, 0);
    var (after, count) := Repair(start, chain, top, 0, 0);
    ChainWindowLinked(after, chain, top);
  }

  /**
   * The count that skipping ahead returns covers every replaced entry if and only if one block is
   * missing, or so many that the whole window is new, or the old tip is still on the daemon's
   * chain. Otherwise pushed and repaired blocks both count, but only the larger of the two numbers
   * is returned.
   */
  lemma SkipCountCoversIff(entries: seq<Entry>, before: seq<Entry>, chain: seq<Entry>, oldTop: nat, top: nat)
    requires IsChain(chain) && oldTop < top && 1 <= |entries| <= |before| <= top + 1 <= |chain|
    requires FromChain(entries, chain, top)
    requires |entries| == Min(top - oldTop, |before|)
    requires Linked(before) && Collisionless(before, oldTop, chain)
    ensures var start := Pushed(entries, before);
            var (after, count) := Repair(start, chain, top, 0, 0);
            && |after| == |before|
            && ((forall i | Max(|entries|, count) <= i < |after| :: after[i] == start[i]) <==>
                |entries| == 1 || |entries| == |before| || before[0] == chain[oldTop])
  {
    var start, n := Pushed(entries, before), |entries|;
    PushedRepairable(entries, before, chain, oldTop, top);
    RepairRestores(start, chain, top, n, start, 0, 0);
    var (after, count) := Repair(start, chain, top, 0, 0);
    if n < |before| {
      assert start[n] == before[0] && after[n] == chain[oldTop];
      if n > 1 && count > 0 {
        var last := n + count - 2;
        assert after[last] != start[last];
      }
    }
  }

  // A window of two forked blocks that is two blocks behind.

  const COMMON := Entry(20, 0, Block(19, []), [])
  const FORK1 := Entry(31, 1, Block(20, []), [])
  const FORK2 := Entry(32, 2, Block(31, []), [])
  const MAIN1 := Entry(41, 1, Block(20, []), [])
  const MAIN2 := Entry(42, 2, Block(41, []), [])
  const MAIN3 := Entry(43, 3, Block(42, []), [])
  const MAIN4 := Entry(44, 4, Block(43, []), [])
  const MAIN := [COMMON, MAIN1, MAIN2, MAIN3, MAIN4]
  const WINDOW := [FORK2, FORK1, COMMON]

  lemma ForkedWindow()
    ensures IsChain(MAIN) && Linked(WINDOW) && CountsDown(WINDOW, 2) && Collisionless(WINDOW, 2, MAIN)
    ensures FromChain([MAIN4, MAIN3], MAIN, 4)
    ensures Pushed([MAIN4, MAIN3], WINDOW) == [MAIN4, MAIN3, FORK2]
  {
  }

  /** Three blocks change, the two that were pushed and one that was repaired, but the count is 2. */
  lemma SkipCountFallsShort()
    ensures Repair(Pushed([MAIN4, MAIN3], WINDOW), MAIN, 4, 0, 0) == ([MAIN4, MAIN3, MAIN2], 2)
    ensures Max(|[MAIN4, MAIN3]|, 2) == 2 && MAIN2 != FORK2
  {
    ForkedWindow();
    var start := [MAIN4, MAIN3, FORK2];
    assert start[2 := MAIN2] == [MAIN4, MAIN3, MAIN2];
    assert Repair(start, MAIN, 4, 2, 0) == (start, 0);
    assert Repair([MAIN4, MAIN3, MAIN2], MAIN, 4, 2, 2) == ([MAIN4, MAIN3, MAIN2], 2);
    assert Repair(start, MAIN, 4, 1, 0) == ([MAIN4, MAIN3, MAIN2], 2);
  }

  class BlockCache {
    var height: nat
    var daemonHeight: nat
    var blocks: seq<Entry>
    const cacheSize: nat

    ghost predicate Valid()
      reads this
    {
      && |blocks| == cacheSize
      && 1 <= cacheSize <= height + 1
      && CountsDown(blocks, height)
      && Linked(blocks)
    }

    /** Fills the window downwards from the initial height. */
    constructor (daemon: Daemon, cacheSize: nat, initialHeight: nat)
      requires daemon.Valid()
      requires 1 <= cacheSize <= initialHeight + 1 <= daemon.Height()
      ensures Valid() && this.cacheSize == cacheSize
      ensures height == initialHeight && daemonHeight == daemon.Height()
      ensures FromChain(blocks, daemon.Chain(), height)
    {
      var filled: seq<Entry> := [];
      for i := 0 to cacheSize
        invariant |filled| == i
        invariant forall j | 0 <= j < i :: filled[j] == daemon.Chain()[initialHeight - j]
      {
        var entry := Rpc.FetchEntry(daemon, initialHeight - i);
        filled := filled + [entry];
      }
      this.cacheSize := cacheSize;
      height := initialHeight;
      daemonHeight := daemon.Height();
      blocks := filled;
      new;
      daemon.ChainIsLinked();
      ChainWindowLinked(blocks, daemon.Chain(), height);
    }

    /** Jumps to the daemon's tip. While it catches up, heights need not be consecutive. */
    method SkipAhead(daemon: Daemon) returns (updated: nat)
      requires Valid() && daemon.Valid()
      requires Collisionless(blocks, height, daemon.Chain())
      modifies this`height, this`daemonHeight, this`blocks
      ensures Valid() && daemonHeight == daemon.Height()
      ensures old(height) + 1 < daemon.Height() ==>
                height == daemon.Height() - 1 && FromChain(blocks, daemon.Chain(), height) && 1 <= updated <= cacheSize
      ensures old(height) + 1 < daemon.Height() ==>
                var pushed := Min(daemon.Height() - 1 - old(height), cacheSize);
                var start := Pushed(Newest(daemon.Chain(), height, pushed), old(blocks));
                var (after, count) := Repair(start, daemon.Chain(), height, 0, 0);
                blocks == after && updated == Max(pushed, count)
      ensures old(height) + 1 >= daemon.Height() ==>
                height == old(height) && blocks == old(blocks) && updated == 0
    {
      hide Repair, Newest, Pushed, FromChain, Collisionless, LinkedFrom, CountsDown, IsChain;
      daemon.ChainIsLinked();
      updated := 0;
      var cacheHeight := height;
      daemonHeight := daemon.Height();
      if cacheHeight < daemon.Height() - 1 {
        var n := Min(daemon.Height() - (cacheHeight + 1), cacheSize);
        var i := n;
        ghost var pushed: seq<Entry> := [];
        PushedNone(blocks);
        while i > 0
          invariant daemonHeight == daemon.Height()
          invariant 0 <= i <= n && updated == n - i == |pushed|
          invariant height == if i == n then cacheHeight else daemon.Height() - 1 - i
          invariant i < n ==> FromChain(pushed, daemon.Chain(), height)
          invariant blocks == Pushed(pushed, old(blocks))
        {
          i := i - 1;
          var newHeight := daemon.Height() - 1 - i;
          var entry := Rpc.FetchEntry(daemon, newHeight);
          blocks := [entry] + blocks;
          blocks := blocks[..|blocks| - 1];
          height := newHeight;
          updated := updated + 1;
          PushOne(entry, pushed, old(blocks), daemon.Chain(), newHeight);
          pushed := [entry] + pushed;
        }
        FromChainUnique(pushed, daemon.Chain(), height);
        SkipRepairs(pushed, old(blocks), daemon.Chain(), old(height), height);
        var repaired := CheckAndFixReorg(daemon);
        updated := Max(updated, repaired);
      }
    }

    /** Advances by one block if there is a new one, and repairs the window if that shows that
        it has been reorganised. */
    method Update(daemon: Daemon) returns (updated: nat)
      requires Valid() && daemon.Valid()
      requires Collisionless(blocks, height, daemon.Chain())
      modifies this`height, this`daemonHeight, this`blocks
      ensures Valid() && daemonHeight == daemon.Height()
      ensures old(height) + 1 < daemon.Height() ==>
                height == old(height) + 1 && Advanced(old(blocks), daemon.Chain(), height, blocks, updated)
      ensures old(height) + 1 >= daemon.Height() ==>
                height == old(height) && blocks == old(blocks) && updated == 0
    {
      hide Repair, Collisionless, LinkedFrom, CountsDown, IsChain;
      daemon.ChainIsLinked();
      updated := 0;
      daemonHeight := daemon.Height();
      if height < daemon.Height() - 1 {
        var entry := Rpc.FetchEntry(daemon, height + 1);
        blocks := [entry] + blocks;
        blocks := blocks[..|blocks| - 1];
        height := height + 1;
        updated := updated + 1;
        assert blocks == Pushed([entry], old(blocks));
        UpdateRepairs(entry, old(blocks), daemon.Chain(), height);
        var repaired := CheckAndFixReorg(daemon);
        updated := Max(updated, repaired);
      } else {
        if height < daemon.Height() {
          RepairLinked(blocks, daemon.Chain(), height, 0, 0);
        }
        var repaired := CheckAndFixReorg(daemon);
        updated := Max(updated, repaired);
      }
    }

    /** Walks down the window and fetches again every entry that the entry above does not name. */
    method CheckAndFixReorg(daemon: Daemon) returns (updated: nat)
      requires 1 <= |blocks| <= height + 1
      requires height < daemon.Height() || Linked(blocks)
      modifies this`blocks
      ensures height >= daemon.Height() ==> blocks == old(blocks) && updated == 0
      ensures height < daemon.Height() ==>
                (blocks, updated) == Repair(old(blocks), daemon.Chain(), height, 0, 0)
    {
      updated := 0;
      for i := 0 to |blocks| - 1
        invariant |blocks| == |old(blocks)|
        invariant height >= daemon.Height() ==> updated == 0 && blocks == old(blocks)
        invariant height < daemon.Height() ==>
            Repair(blocks, daemon.Chain(), height, i, updated) == Repair(old(blocks), daemon.Chain(), height, 0, 0)
      {
        if blocks[i].block.prevId != blocks[i + 1].id {
          var entry := Rpc.FetchEntry(daemon, height - 1 - i);
          blocks := blocks[i + 1 := entry];
          updated := Max(updated, 1);
          updated := updated + 1;
        }
      }
    }
  }
}
