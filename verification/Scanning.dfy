/** Scanning lists of transactions for outputs to tracked subaddresses. */
module Scanning {
  import opened Common
  import opened Indexes
  import opened Daemons
  import opened Stores
  import opened Payments

  lemma {:induction false} OwnedAmountsNone(owned: seq<Output>, amount: nat, ids: set<InvoiceId>)
    ensures OwnedAmounts(owned, amount, ids) == [] <==> forall o | o in owned :: !ContainsAtOrAbove(ids, o.sub)
  {
    if owned != [] {
      OwnedAmountsNone(owned[..|owned| - 1], amount, ids);
      assert owned == owned[..|owned| - 1] + [owned[|owned| - 1]];
    }
  }

  lemma PushPush<T>(m: map<Hash, seq<T>>, h: Hash, a: seq<T>, x: T)
    ensures Push(Push(m, h, a), h, [x]) == Push(m, h, a + [x])
  {
    if a == [] {
      assert a + [x] == [x];
    } else if h in m {
      assert m[h] + (a + [x]) == (m[h] + a) + [x];
    } else {
      assert [] + (a + [x]) == ([] + a) + [x];
    }
  }

  lemma {:induction false} ByHashAt(txs: seq<Tx>, ids: set<InvoiceId>, h: Hash)
    requires forall i, j | 0 <= i < j < |txs| :: txs[i].hash != txs[j].hash
    ensures h in ByHash(txs, ids) <==> exists tx :: tx in txs && tx.hash == h && Reported(tx, ids) != []
    ensures h in ByHash(txs, ids) ==> forall tx | tx in txs && tx.hash == h :: ByHash(txs, ids)[h] == Reported(tx, ids)
  {
    hide Reported;
    if txs != [] {
      var pre, last := txs[..|txs| - 1], txs[|txs| - 1];
      ByHashAt(pre, ids, h);
      assert forall tx :: tx in txs <==> tx in pre || tx == last;
      assert last.hash !in ByHash(pre, ids) by {
        ByHashAt(pre, ids, last.hash);
        assert forall tx | tx in pre :: tx.hash != last.hash;
      }
    }
  }

  ghost predicate DistinctHashes(txs: seq<Tx>) {
    forall i, j | 0 <= i < j < |txs| :: txs[i].hash != txs[j].hash
  }

  /** The report has an entry for the transaction exactly if it is unlocked and has an output that the
      store answers for, and the entry holds those outputs with the amount of the first one. */
  ghost predicate IsReported(tx: Tx, ids: set<InvoiceId>, report: map<Hash, seq<OwnedAmount>>) {
    && (tx.hash in report <==> tx.unlockTime == 0 && exists o :: o in tx.owned && ContainsAtOrAbove(ids, o.sub))
    && (tx.hash in report ==>
          && tx.owned != [] && tx.owned[0].amount.Some?
          && forall a :: multiset(report[tx.hash])[a] ==
               if a.amount == tx.owned[0].amount.value && ContainsAtOrAbove(ids, a.sub)
               then |OutputsTo(tx.owned, a.sub)| else 0)
  }

  lemma ReportedExactly(txs: seq<Tx>, ids: set<InvoiceId>, tx: Tx)
    requires DistinctHashes(txs) && Readable(txs, ids) && tx in txs
    ensures IsReported(tx, ids, ByHash(txs, ids))
  {
    hide OwnedAmounts, ContainsAtOrAbove, ByHash, OutputsTo;
    ByHashAt(txs, ids, tx.hash);
    OwnedAmountsNone(tx.owned, FirstAmount(tx), ids);
    assert forall u | u in txs && u.hash == tx.hash :: u == tx;
    assert !Unreadable(tx, ids);
    forall a
      ensures multiset(OwnedAmounts(tx.owned, FirstAmount(tx), ids))[a] ==
              if a.amount == FirstAmount(tx) && ContainsAtOrAbove(ids, a.sub) then |OutputsTo(tx.owned, a.sub)| else 0
    {
      OwnedAmountsExact(tx.owned, FirstAmount(tx), ids, a);
    }
  }

  lemma AllReported(txs: seq<Tx>, ids: set<InvoiceId>)
    requires Readable(txs, ids)
    ensures DistinctHashes(txs) ==> forall tx | tx in txs :: IsReported(tx, ids, ByHash(txs, ids))
  {
    hide IsReported, ByHash, Readable;
    if DistinctHashes(txs) {
      forall tx | tx in txs ensures IsReported(tx, ids, ByHash(txs, ids)) {
        ReportedExactly(txs, ids, tx);
      }
    }
  }

  /** What can be read: every transaction with an unlocked output to report has an unblinded first one. */
  lemma ReadableMeans(txs: seq<Tx>, ids: set<InvoiceId>)
    ensures Readable(txs, ids) <==> forall tx, o | tx in txs && o in tx.owned ::
              tx.unlockTime == 0 && ContainsAtOrAbove(ids, o.sub) ==> tx.owned[0].amount.Some?
  {
    hide ContainsAtOrAbove;
  }

  lemma FirstIsBlamed(txs: seq<Tx>, ids: set<InvoiceId>, i: nat, j: nat)
    requires i < |txs| && j < |txs[i].owned| && txs[i].unlockTime == 0
    requires Readable(txs[..i], ids) && txs[i].owned[0].amount.None? && ContainsAtOrAbove(ids, txs[i].owned[j].sub)
    requires OwnedAmounts(txs[i].owned[..j], FirstAmount(txs[i]), ids) == []
    ensures !Readable(txs, ids) && Blames(txs, ids, txs[i].owned[j].sub)
  {
    hide ContainsAtOrAbove;
    OwnedAmountsNone(txs[i].owned[..j], FirstAmount(txs[i]), ids);
    assert forall k | 0 <= k < j :: txs[i].owned[k] in txs[i].owned[..j];
    assert txs[i] in txs && txs[i].owned[j] in txs[i].owned;
    assert IsFirst(txs, ids, i, j);
  }

  /** Reports what the transactions pay to tracked subaddresses, by transaction; fails on an
      output to a tracked subaddress if the first owned output cannot be unblinded. */
  method ScanTransactions(store: InMemory, txs: seq<Tx>) returns (r: Result<map<Hash, seq<OwnedAmount>>, SubIndex>)
    ensures r.Ok? <==> Readable(txs, store.invoices.Keys)
    ensures r.Ok? <==> forall tx, o | tx in txs && o in tx.owned ::
              tx.unlockTime == 0 && ContainsAtOrAbove(store.invoices.Keys, o.sub) ==> tx.owned[0].amount.Some?
    ensures r.Err? ==> Blames(txs, store.invoices.Keys, r.error)
    ensures r.Ok? ==> r.value == ByHash(txs, store.invoices.Keys)
    ensures r.Ok? && DistinctHashes(txs) ==> forall tx | tx in txs :: IsReported(tx, store.invoices.Keys, r.value)
  {
    hide OutputsTo, IsReported, Blames, IsFirst, DistinctHashes, ContainsAtOrAbove;
    ghost var ids := store.invoices.Keys;
    ReadableMeans(txs, ids);
    var received: map<Hash, seq<OwnedAmount>> := map[];
    for i := 0 to |txs|
      invariant received == ByHash(txs[..i], ids)
      invariant Readable(txs[..i], ids)
    {
      var tx := txs[i];
      assert txs[..i + 1] == txs[..i] + [tx];
      assert txs[..i + 1][..|txs[..i + 1]| - 1] == txs[..i];
      if tx.unlockTime != 0 {
        continue;
      }
      ghost var before := received;
      for j := 0 to |tx.owned|
        invariant received == Push(before, tx.hash, OwnedAmounts(tx.owned[..j], FirstAmount(tx), ids))
        invariant OwnedAmounts(tx.owned[..j], FirstAmount(tx), ids) != [] ==> tx.owned[0].amount.Some?
      {
        var sub := tx.owned[j].sub;
        assert tx.owned[..j + 1][..|tx.owned[..j + 1]| - 1] == tx.owned[..j];
        var contained := store.ContainsSubIndex(sub);
        if contained {
          if tx.owned[0].amount.None? {
            FirstIsBlamed(txs, ids, i, j);
            return Err(sub);
          }
          var amount := OwnedAmount(sub, tx.owned[0].amount.value);
          PushPush(before, tx.hash, OwnedAmounts(tx.owned[..j], FirstAmount(tx), ids), amount);
          received := received[tx.hash := (if tx.hash in received then received[tx.hash] else []) + [amount]];
        }
      }
      assert tx.owned[..|tx.owned|] == tx.owned;
      OwnedAmountsNone(tx.owned, FirstAmount(tx), ids);
    }
    assert txs[..|txs|] == txs;
    AllReported(txs, ids);
    r := Ok(received);
  }

  /** The values of a map, one after the other; the order of the keys is not fixed. */
  method Flatten(m: map<Hash, seq<Credit>>) returns (all: seq<Credit>)
    ensures multiset(all) == multiset(Flat(m))
  {
    all := [];
    var rest := m;
    while rest.Keys != {}
      invariant multiset(all) + multiset(Flat(rest)) == multiset(Flat(m))
      decreases rest.Keys
    {
      var h :| h in rest.Keys;
      FlatSplit(rest, h);
      all := all + rest[h];
      rest := rest - {h};
    }
    assert rest == map[];
  }
}
