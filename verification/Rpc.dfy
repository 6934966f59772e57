/** Fetching transactions from the daemon in requests of bounded size. */
module Rpc {
  import opened Common
  import opened Daemons

  const MAX_REQUESTED_TRANSACTIONS: nat := 100

  /** Appending one slice extends both the concatenation and the answers. */
  lemma ConcatSnoc<T>(parts: seq<seq<T>>, last: seq<T>)
    ensures Concat(parts + [last]) == Concat(parts) + last
  {
    assert (parts + [last])[..|parts + [last]| - 1] == parts;
  }

  /** `requests` lists the hash slices that were posted to the daemon. */
  method TransactionsByHashes(daemon: Daemon, hashes: seq<Hash>)
    returns (txs: seq<Tx>, requests: seq<seq<Hash>>)
    ensures txs == daemon.Reply(hashes)
    ensures Concat(requests) == hashes
    ensures forall r | r in requests :: 1 <= |r| <= 100
    ensures forall i | 0 <= i < |requests| - 1 :: |requests[i]| == 100
  {
    txs, requests := [], [];
    for i := 0 to |hashes| / MAX_REQUESTED_TRANSACTIONS + 1
      invariant |requests| == i
      invariant forall r | r in requests :: 1 <= |r| <= MAX_REQUESTED_TRANSACTIONS
      invariant forall j | 0 <= j < |requests| - 1 :: |requests[j]| == MAX_REQUESTED_TRANSACTIONS
      invariant i > 0 && i * MAX_REQUESTED_TRANSACTIONS <= |hashes| ==>
          |requests[i - 1]| == MAX_REQUESTED_TRANSACTIONS
      invariant Concat(requests) == hashes[..Min(i * MAX_REQUESTED_TRANSACTIONS, |hashes|)]
      invariant txs == daemon.Reply(hashes[..Min(i * MAX_REQUESTED_TRANSACTIONS, |hashes|)])
    {
      var start := i * MAX_REQUESTED_TRANSACTIONS;
      var end := Min(MAX_REQUESTED_TRANSACTIONS * (i + 1), |hashes|);
      if end == start {
        assert hashes[..start] == hashes;
        return;
      }
      var slice := hashes[start..end];
      assert hashes[..end] == hashes[..start] + slice;
      daemon.ReplyConcat(hashes[..start], slice);
      ConcatSnoc(requests, slice);
      txs := txs + daemon.Reply(slice);
      requests := requests + [slice];
    }
    assert hashes[..|hashes|] == hashes;
  }

  /** The block at a height with all its transactions. */
  method FetchEntry(daemon: Daemon, height: nat) returns (e: Entry)
    requires height < daemon.Height()
    ensures e == daemon.Chain()[height]
    ensures e.height == height && (e.id, e.block) == daemon.blocks[height]
    ensures daemon.Valid() && (forall k | k in e.block.txHashes :: k in daemon.known) ==>
              |e.txs| == |e.block.txHashes|
              && forall i | 0 <= i < |e.txs| :: e.txs[i].hash == e.block.txHashes[i]
  {
    var (id, block) := daemon.blocks[height];
    var txs, _ := TransactionsByHashes(daemon, block.txHashes);
    e := Entry(id, height, block, txs);
    daemon.ChainAt(height);
    if daemon.Valid() {
      daemon.EntryComplete(height);
    }
  }
}
