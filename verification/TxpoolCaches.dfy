/** The memo over the transaction pool: which transactions were seen, and what they paid. */
module TxpoolCaches {
  import opened Common
  import opened Daemons
  import opened Payments
  import Rpc

  /** `arrived` are the transactions of the pool that were not known before, each once. */
  ghost predicate Arrivals(arrived: seq<Tx>, daemon: Daemon, known: set<Hash>) {
    && (forall i, j | 0 <= i < j < |arrived| :: arrived[i].hash != arrived[j].hash)
    && (forall tx | tx in arrived ::
          tx.hash in daemon.pool && tx.hash !in known && tx.hash in daemon.known && tx == daemon.known[tx.hash])
    && (forall h | h in daemon.pool && h !in known :: exists tx :: tx in arrived && tx.hash == h)
  }

  lemma ReplyArrivals(daemon: Daemon, hashes: seq<Hash>, known: set<Hash>)
    requires daemon.Valid()
    requires forall i, j | 0 <= i < j < |hashes| :: hashes[i] != hashes[j]
    requires forall h :: h in hashes <==> h in daemon.pool && h !in known
    ensures Arrivals(daemon.Reply(hashes), daemon, known)
  {
    daemon.ReplyKnown(hashes);
    var arrived := daemon.Reply(hashes);
    forall h | h in daemon.pool && h !in known
      ensures exists tx :: tx in arrived && tx.hash == h
    {
      var i :| 0 <= i < |hashes| && hashes[i] == h;
      assert arrived[i] in arrived;
    }
  }

  /** Files transactions under their hashes, a later one over an earlier one. */
  function Extended(m: map<Hash, Tx>, txs: seq<Tx>): map<Hash, Tx> {
    if txs == [] then m else Extended(m, txs[..|txs| - 1])[txs[|txs| - 1].hash := txs[|txs| - 1]]
  }

  lemma ExtendedStart(m: map<Hash, Tx>, txs: seq<Tx>)
    ensures Extended(m, txs[..0]) == m && Extended(m, txs[..|txs|]) == Extended(m, txs)
  {
    assert txs[..|txs|] == txs;
  }

  lemma ExtendedNext(m: map<Hash, Tx>, txs: seq<Tx>, i: nat)
    requires i < |txs|
    ensures Extended(m, txs[..i + 1]) == Extended(m, txs[..i])[txs[i].hash := txs[i]]
  {
    assert txs[..i + 1][..i] == txs[..i];
  }

  lemma {:induction false} ExtendedAt(m: map<Hash, Tx>, txs: seq<Tx>, h: Hash)
    ensures h in Extended(m, txs) <==> h in m || exists tx :: tx in txs && tx.hash == h
    ensures h in Extended(m, txs) ==>
              (exists tx :: tx in txs && tx.hash == h && Extended(m, txs)[h] == tx)
              || (h in m && Extended(m, txs)[h] == m[h] && forall tx | tx in txs :: tx.hash != h)
  {
    if txs != [] {
      ExtendedAt(m, txs[..|txs| - 1], h);
      assert txs == txs[..|txs| - 1] + [txs[|txs| - 1]];
    }
  }

  /** Filing the arrivals next to what was kept gives the transactions of the pool. */
  lemma FiledArrivals(daemon: Daemon, known: map<Hash, Tx>, arrived: seq<Tx>)
    requires daemon.Valid() && Arrivals(arrived, daemon, known.Keys)
    ensures daemon.PoolKnown(known, Extended(Kept(known, daemon.pool), arrived))
  {
    var filed := Extended(Kept(known, daemon.pool), arrived);
    forall h
      ensures h in filed <==> h in daemon.pool
      ensures h in filed ==> filed[h] == if h in known then known[h] else daemon.known[h]
    {
      ExtendedAt(Kept(known, daemon.pool), arrived, h);
    }
    assert filed.Keys == daemon.pool;
  }

  class TxpoolCache {
    var transactions: map<Hash, Tx>
    var discovered: map<Hash, seq<Credit>>

    /** The transactions in the pool at start-up count as seen, and are never scanned. */
    constructor (daemon: Daemon)
      requires daemon.Valid()
      ensures daemon.PoolKnown(map[], transactions)
      ensures discovered == map[]
    {
      transactions := map h | h in daemon.pool :: daemon.known[h];
      discovered := map[];
    }

    /** Forgets what left the pool and returns what arrived. */
    method Update(daemon: Daemon) returns (arrived: seq<Tx>)
      requires daemon.Valid()
      modifies this
      ensures Arrivals(arrived, daemon, old(transactions).Keys)
      ensures daemon.PoolKnown(old(transactions), transactions)
      ensures discovered == Kept(old(discovered), daemon.pool)
    {
      hide Arrivals, Extended, Kept;
      var newHashes := NewHashes(daemon.pool);
      ReplyArrivals(daemon, newHashes, transactions.Keys);
      var txs, _ := Rpc.TransactionsByHashes(daemon, newHashes);
      arrived := txs;
      transactions := Kept(transactions, daemon.pool);
      discovered := Kept(discovered, daemon.pool);
      ExtendedStart(transactions, arrived);
      for i := 0 to |arrived|
        invariant transactions == Extended(Kept(old(transactions), daemon.pool), arrived[..i])
        modifies this`transactions
      {
        ExtendedNext(Kept(old(transactions), daemon.pool), arrived, i);
        transactions := transactions[arrived[i].hash := arrived[i]];
      }
      FiledArrivals(daemon, old(transactions), arrived);
    }

    /** The pool's hashes that are not among the known transactions, in some order. */
    method NewHashes(pool: set<Hash>) returns (hashes: seq<Hash>)
      ensures forall i, j | 0 <= i < j < |hashes| :: hashes[i] != hashes[j]
      ensures forall h :: h in hashes <==> h in pool && h !in transactions
    {
      hashes := [];
      var rest := pool;
      while rest != {}
        invariant rest <= pool
        invariant forall i, j | 0 <= i < j < |hashes| :: hashes[i] != hashes[j]
        invariant forall h :: h in hashes <==> h in pool && h !in rest && h !in transactions
        decreases rest
      {
        var h :| h in rest;
        assert h !in hashes;
        if h !in transactions {
          hashes := hashes + [h];
        }
        rest := rest - {h};
      }
    }

    method InsertTransfers(transfers: map<Hash, seq<Credit>>)
      modifies this`discovered
      ensures discovered == old(discovered) + transfers
    {
      discovered := discovered + transfers;
    }
  }
}
