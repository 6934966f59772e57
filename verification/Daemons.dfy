/**
 * What the payment gateway can see of the monero daemon: blocks by height, transactions by
 * hash, and the set of hashes in the transaction pool. One `Daemon` value is one snapshot;
 * every request of a scan is answered from the same snapshot.
 */
module Daemons {
  import opened Common
  import opened Indexes

  /** A 32-byte hash, as a number. */
  type Hash = nat

  /** An output that the key checker recognises as ours. The amount is missing when the
      output cannot be unblinded. */
  datatype Output = Output(sub: SubIndex, amount: Option<nat>)

  /** `owned` lists what the key checker reports for the transaction, in output order. */
  datatype Tx = Tx(hash: Hash, unlockTime: nat, owned: seq<Output>)

  datatype Block = Block(prevId: Hash, txHashes: seq<Hash>)

  /** A block together with its id, its height and its transactions, as the cache holds it. */
  datatype Entry = Entry(id: Hash, height: nat, block: Block, txs: seq<Tx>)

  datatype Daemon = Daemon(blocks: seq<(Hash, Block)>, known: map<Hash, Tx>, pool: set<Hash>) {

    /** The chain is hash-linked, transactions are filed under their own hash, and the
        transactions of the pool can be fetched. */
    ghost predicate Valid() {
      && |blocks| >= 1
      && (forall g, h | 0 <= g && h == g + 1 < |blocks| :: blocks[h].1.prevId == blocks[g].0)
      && (forall k | k in known :: known[k].hash == k)
      && pool <= known.Keys
    }

    /** The reported daemon height is the number of blocks, one more than the top height. */
    function Height(): nat {
      |blocks|
    }

    /** The answer to one request: the known transactions among `hashes`, in order. */
    function Reply(hashes: seq<Hash>): seq<Tx> {
      if hashes == [] then []
      else
        var last := hashes[|hashes| - 1];
        Reply(hashes[..|hashes| - 1]) + (if last in known then [known[last]] else [])
    }

    /** The transactions of the pool are known: those known before keep their value, the others
        are fetched. */
    ghost predicate PoolKnown(before: map<Hash, Tx>, after: map<Hash, Tx>)
      requires pool <= known.Keys
    {
      && after.Keys == pool
      && forall h | h in pool :: after[h] == if h in before then before[h] else known[h]
    }

    function EntryAt(h: nat): Entry
      requires h < |blocks|
    {
      Entry(blocks[h].0, h, blocks[h].1, Reply(blocks[h].1.txHashes))
    }

    /** The daemon's chain below a height, lowest first. */
    ghost function ChainBelow(height: nat): (c: seq<Entry>)
      requires height <= |blocks|
      ensures |c| == height
    {
      if height == 0 then [] else ChainBelow(height - 1) + [EntryAt(height - 1)]
    }

    ghost function Chain(): (c: seq<Entry>)
      ensures |c| == Height()
    {
      ChainBelow(|blocks|)
    }

    lemma {:induction false} ChainBelowAt(height: nat, h: nat)
      requires h < height <= |blocks|
      ensures ChainBelow(height)[h] == EntryAt(h)
    {
      if h < height - 1 {
        ChainBelowAt(height - 1, h);
      }
    }

    lemma ChainAt(h: nat)
      requires h < Height()
      ensures Chain()[h] == EntryAt(h)
    {
      ChainBelowAt(|blocks|, h);
    }

    lemma ChainIsLinked()
      requires Valid()
      ensures IsChain(Chain())
    {
      forall h | 0 <= h < |blocks| ensures Chain()[h] == EntryAt(h) {
        ChainAt(h);
      }
    }

    /** Asking for known transactions yields exactly those, in order. */
    lemma {:induction false} ReplyKnown(hashes: seq<Hash>)
      requires forall h | h in hashes :: h in known
      ensures |Reply(hashes)| == |hashes|
      ensures forall i | 0 <= i < |hashes| :: Reply(hashes)[i] == known[hashes[i]]
    {
      if hashes != [] {
        ReplyKnown(hashes[..|hashes| - 1]);
      }
    }

    /** Whatever else is asked for, nothing else comes back. */
    lemma {:induction false} ReplyOnly(hashes: seq<Hash>, tx: Tx)
      requires Valid()
      ensures tx in Reply(hashes) <==> tx.hash in hashes && tx.hash in known && known[tx.hash] == tx
    {
      if hashes != [] {
        ReplyOnly(hashes[..|hashes| - 1], tx);
        assert hashes == hashes[..|hashes| - 1] + [hashes[|hashes| - 1]];
      }
    }

    /** An entry of the chain is its block with all known transactions of the block; if all of them
        are known, one for each hash, in order. */
    lemma EntryComplete(h: nat)
      requires Valid() && h < Height()
      ensures var e, hashes := Chain()[h], blocks[h].1.txHashes;
              && e.id == blocks[h].0 && e.height == h && e.block == blocks[h].1
              && (forall tx :: tx in e.txs <==> tx.hash in hashes && tx.hash in known && known[tx.hash] == tx)
              && ((forall k | k in hashes :: k in known) ==>
                    |e.txs| == |hashes| && forall i | 0 <= i < |hashes| :: e.txs[i].hash == hashes[i])
    {
      var hashes := blocks[h].1.txHashes;
      ChainAt(h);
      forall tx ensures tx in Reply(hashes) <==> tx.hash in hashes && tx.hash in known && known[tx.hash] == tx {
        ReplyOnly(hashes, tx);
      }
      if forall k | k in hashes :: k in known {
        ReplyKnown(hashes);
      }
    }

    lemma {:induction false} ReplyConcat(a: seq<Hash>, b: seq<Hash>)
      ensures Reply(a + b) == Reply(a) + Reply(b)
    {
      if b == [] {
        assert a + b == a;
      } else {
        var c := b[..|b| - 1];
        assert (a + b)[..|a + b| - 1] == a + c;
        ReplyConcat(a, c);
      }
    }
  }

  /** Entries at their heights, each naming the id of the one below. */
  ghost predicate IsChain(c: seq<Entry>) {
    && (forall h | 0 <= h < |c| :: c[h].height == h)
    && (forall g, h | 0 <= g && h == g + 1 < |c| :: c[h].block.prevId == c[g].id)
  }

  /** Block ids are collision-free: two chains that carry the same id at the same height
      carry the same block there. */
  ghost predicate SameIdSameBlock(a: seq<Entry>, b: seq<Entry>) {
    forall h | 0 <= h < |a| && h < |b| :: a[h].id == b[h].id ==> a[h] == b[h]
  }
}
