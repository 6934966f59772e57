/**
 * What transactions pay: the report of the scanner, which looks at the store to decide which
 * outputs to report, and the payments to one subaddress, which do not depend on the store.
 */
module Payments {
  import opened Common
  import opened Indexes
  import opened Transfers
  import opened Daemons
  import opened Stores

  /** An amount received by a subaddress. */
  datatype OwnedAmount = OwnedAmount(sub: SubIndex, amount: nat)

  /** A transfer received by a subaddress. */
  datatype Credit = Credit(sub: SubIndex, transfer: Transfer)

  // ---- What a scan reports ----

  /** The amount of the first owned output, which stands in for every owned output. */
  function FirstAmount(tx: Tx): nat {
    if tx.owned != [] && tx.owned[0].amount.Some? then tx.owned[0].amount.value else 0
  }

  function OwnedAmounts(owned: seq<Output>, amount: nat, ids: set<InvoiceId>): seq<OwnedAmount> {
    if owned == [] then []
    else
      var o, rest := owned[|owned| - 1], OwnedAmounts(owned[..|owned| - 1], amount, ids);
      if ContainsAtOrAbove(ids, o.sub) then rest + [OwnedAmount(o.sub, amount)] else rest
  }

  /** Time-locked transactions are ignored. */
  function Reported(tx: Tx, ids: set<InvoiceId>): seq<OwnedAmount> {
    if tx.unlockTime != 0 then [] else OwnedAmounts(tx.owned, FirstAmount(tx), ids)
  }

  function ReportedAll(txs: seq<Tx>, ids: set<InvoiceId>): seq<OwnedAmount> {
    if txs == [] then [] else ReportedAll(txs[..|txs| - 1], ids) + Reported(txs[|txs| - 1], ids)
  }

  /** A transaction with something to report, but whose first owned output is blinded. */
  ghost predicate Unreadable(tx: Tx, ids: set<InvoiceId>) {
    && tx.unlockTime == 0
    && (exists o :: o in tx.owned && ContainsAtOrAbove(ids, o.sub))
    && tx.owned[0].amount.None?
  }

  /** Every transaction with something to report can be read. */
  ghost predicate Readable(txs: seq<Tx>, ids: set<InvoiceId>) {
    forall tx | tx in txs :: !Unreadable(tx, ids)
  }

  /** The output to blame when a scan of `txs` fails: the first one that the store answers for, in the
      first transaction that cannot be read. */
  ghost predicate Blames(txs: seq<Tx>, ids: set<InvoiceId>, sub: SubIndex) {
    exists i, j :: 0 <= i < |txs| && 0 <= j < |txs[i].owned| && IsFirst(txs, ids, i, j) && txs[i].owned[j].sub == sub
  }

  ghost predicate IsFirst(txs: seq<Tx>, ids: set<InvoiceId>, i: nat, j: nat)
    requires i < |txs| && j < |txs[i].owned|
  {
    && Readable(txs[..i], ids) && Unreadable(txs[i], ids)
    && ContainsAtOrAbove(ids, txs[i].owned[j].sub)
    && forall k | 0 <= k < j :: !ContainsAtOrAbove(ids, txs[i].owned[k].sub)
  }

  function Push<T>(m: map<Hash, seq<T>>, h: Hash, more: seq<T>): map<Hash, seq<T>> {
    if more == [] then m else m[h := (if h in m then m[h] else []) + more]
  }

  /** Reports gathered under the hash of their transaction. */
  function ByHash(txs: seq<Tx>, ids: set<InvoiceId>): map<Hash, seq<OwnedAmount>> {
    if txs == [] then map[]
    else
      var tx := txs[|txs| - 1];
      Push(ByHash(txs[..|txs| - 1], ids), tx.hash, Reported(tx, ids))
  }

  // ---- Payments to one subaddress ----

  function OutputPayments(owned: seq<Output>, amount: nat, sub: SubIndex, height: Option<nat>): seq<Transfer> {
    if owned == [] then []
    else
      var rest := OutputPayments(owned[..|owned| - 1], amount, sub, height);
      if owned[|owned| - 1].sub == sub then rest + [Transfer(amount, height)] else rest
  }

  function TxPayments(tx: Tx, sub: SubIndex, height: Option<nat>): seq<Transfer> {
    if tx.unlockTime != 0 then [] else OutputPayments(tx.owned, FirstAmount(tx), sub, height)
  }

  function BlockPayments(txs: seq<Tx>, sub: SubIndex, height: nat): seq<Transfer> {
    if txs == [] then []
    else BlockPayments(txs[..|txs| - 1], sub, height) + TxPayments(txs[|txs| - 1], sub, Some(height))
  }

  /** All payments to a subaddress in the blocks of heights `lo` up to but not including `hi`. */
  function Mined(chain: seq<Entry>, sub: SubIndex, lo: nat, hi: nat): seq<Transfer>
    requires hi <= |chain|
    decreases hi
  {
    if hi <= lo then [] else Mined(chain, sub, lo, hi - 1) + BlockPayments(chain[hi - 1].txs, sub, hi - 1)
  }

  /** What each transaction of the pool pays to a subaddress, by going through all of them. */
  function PoolPayments(txs: map<Hash, Tx>, sub: SubIndex): map<Hash, seq<Transfer>> {
    map h | h in txs :: TxPayments(txs[h], sub, None)
  }

  // ---- Credits ----

  function Lift(amounts: seq<OwnedAmount>, height: Option<nat>): seq<Credit> {
    if amounts == [] then []
    else
      var a := amounts[|amounts| - 1];
      Lift(amounts[..|amounts| - 1], height) + [Credit(a.sub, Transfer(a.amount, height))]
  }

  /** Mined before creation does not count; everything in the pool does. */
  predicate Due(t: Transfer, creation: nat) {
    t.height.None? || t.height.value >= creation
  }

  /** The transfers among `credits` that belong to an invoice. */
  function For(credits: seq<Credit>, sub: SubIndex, creation: nat): seq<Transfer> {
    if credits == [] then []
    else
      var c, rest := credits[|credits| - 1], For(credits[..|credits| - 1], sub, creation);
      if c.sub == sub && Due(c.transfer, creation) then rest + [c.transfer] else rest
  }

  /** The credits of the blocks of heights `lo` up to but not including `hi`. */
  function ChainCredits(chain: seq<Entry>, ids: set<InvoiceId>, lo: nat, hi: nat): seq<Credit>
    requires hi <= |chain|
    decreases hi
  {
    if hi <= lo then []
    else ChainCredits(chain, ids, lo, hi - 1) + Lift(ReportedAll(chain[hi - 1].txs, ids), Some(hi - 1))
  }

  /** The values of a map, one after the other, in some order. */
  ghost function Flat<T>(m: map<Hash, seq<T>>): seq<T> {
    if m == map[] then []
    else
      var h :| h in m;
      m[h] + Flat(m - {h})
  }

  /** Keeps the entries whose key is still in the pool. */
  function Kept<T>(m: map<Hash, T>, pool: set<Hash>): map<Hash, T> {
    map h | h in m && h in pool :: m[h]
  }

  // ---- Lists ----

  lemma {:induction false} LiftConcat(a: seq<OwnedAmount>, b: seq<OwnedAmount>, height: Option<nat>)
    ensures Lift(a + b, height) == Lift(a, height) + Lift(b, height)
  {
    if b == [] {
      assert a + b == a;
    } else {
      assert (a + b)[..|a + b| - 1] == a + b[..|b| - 1];
      LiftConcat(a, b[..|b| - 1], height);
    }
  }

  lemma ForNone(sub: SubIndex, creation: nat)
    ensures For([], sub, creation) == []
  {
  }

  lemma {:induction false} ForConcat(a: seq<Credit>, b: seq<Credit>, sub: SubIndex, creation: nat)
    ensures For(a + b, sub, creation) == For(a, sub, creation) + For(b, sub, creation)
  {
    if b == [] {
      assert a + b == a;
    } else {
      assert (a + b)[..|a + b| - 1] == a + b[..|b| - 1];
      ForConcat(a, b[..|b| - 1], sub, creation);
    }
  }

  lemma {:induction false} ForCount(credits: seq<Credit>, sub: SubIndex, creation: nat, t: Transfer)
    ensures multiset(For(credits, sub, creation))[t] ==
            if Due(t, creation) then multiset(credits)[Credit(sub, t)] else 0
  {
    if credits != [] {
      ForCount(credits[..|credits| - 1], sub, creation, t);
      MultisetSnoc(credits);
    }
  }

  /** The order of the credits does not matter for what an invoice gets. */
  lemma ForPermutation(a: seq<Credit>, b: seq<Credit>, sub: SubIndex, creation: nat)
    requires multiset(a) == multiset(b)
    ensures multiset(For(a, sub, creation)) == multiset(For(b, sub, creation))
  {
    forall t
      ensures multiset(For(a, sub, creation))[t] == multiset(For(b, sub, creation))[t]
    {
      ForCount(a, sub, creation, t);
      ForCount(b, sub, creation, t);
    }
  }

  lemma {:induction false} MinedSplit(chain: seq<Entry>, sub: SubIndex, lo: nat, mid: nat, hi: nat)
    requires lo <= mid <= hi <= |chain|
    ensures Mined(chain, sub, lo, hi) == Mined(chain, sub, lo, mid) + Mined(chain, sub, mid, hi)
  {
    if mid < hi {
      MinedSplit(chain, sub, lo, mid, hi - 1);
    }
  }

  /** Chains that hold the same transactions in a stretch of heights pay the same there. */
  lemma {:induction false} MinedAgree(a: seq<Entry>, b: seq<Entry>, sub: SubIndex, lo: nat, hi: nat)
    requires hi <= |a| && hi <= |b|
    requires forall h | lo <= h < hi :: a[h].txs == b[h].txs
    ensures Mined(a, sub, lo, hi) == Mined(b, sub, lo, hi)
  {
    if lo < hi {
      MinedAgree(a, b, sub, lo, hi - 1);
    }
  }

  lemma {:induction false} MinedEmpty(chain: seq<Entry>, sub: SubIndex, lo: nat, hi: nat)
    requires hi <= |chain| && forall h | lo <= h < hi :: chain[h].txs == []
    ensures Mined(chain, sub, lo, hi) == []
  {
    if lo < hi {
      MinedEmpty(chain, sub, lo, hi - 1);
    }
  }

  lemma {:induction false} OutputPaymentsHeight(owned: seq<Output>, amount: nat, sub: SubIndex, height: Option<nat>)
    ensures forall t | t in OutputPayments(owned, amount, sub, height) :: t.height == height
  {
    if owned != [] {
      OutputPaymentsHeight(owned[..|owned| - 1], amount, sub, height);
    }
  }

  lemma {:induction false} BlockPaymentsHeight(txs: seq<Tx>, sub: SubIndex, height: nat)
    ensures forall t | t in BlockPayments(txs, sub, height) :: t.height == Some(height)
  {
    if txs != [] {
      BlockPaymentsHeight(txs[..|txs| - 1], sub, height);
      OutputPaymentsHeight(txs[|txs| - 1].owned, FirstAmount(txs[|txs| - 1]), sub, Some(height));
    }
  }

  lemma {:induction false} MinedHeights(chain: seq<Entry>, sub: SubIndex, lo: nat, hi: nat)
    requires hi <= |chain|
    ensures forall t | t in Mined(chain, sub, lo, hi) :: t.height.Some? && lo <= t.height.value < hi
  {
    if lo < hi {
      MinedHeights(chain, sub, lo, hi - 1);
      BlockPaymentsHeight(chain[hi - 1].txs, sub, hi - 1);
    }
  }

  /** The payments mined below a height are those of the chain cut off there. */
  lemma MinedBelow(chain: seq<Entry>, sub: SubIndex, lo: nat, mid: nat, t: Transfer)
    requires mid <= |chain|
    requires t.height.Some? && t.height.value < mid
    ensures multiset(Mined(chain, sub, lo, |chain|))[t] == multiset(Mined(chain, sub, lo, mid))[t]
  {
    var m := Max(lo, mid);
    if m <= |chain| {
      MinedSplit(chain, sub, lo, m, |chain|);
      MinedHeights(chain, sub, m, |chain|);
      assert t !in Mined(chain, sub, m, |chain|);
      if m == lo {
        assert Mined(chain, sub, lo, mid) == [];
      }
    }
  }

  /** What is mined at one height is what the block there pays. */
  lemma {:induction false} MinedAtHeight(chain: seq<Entry>, sub: SubIndex, lo: nat, hi: nat, t: Transfer)
    requires hi <= |chain|
    ensures multiset(Mined(chain, sub, lo, hi))[t] ==
            if t.height.Some? && lo <= t.height.value < hi
            then multiset(BlockPayments(chain[t.height.value].txs, sub, t.height.value))[t] else 0
  {
    hide BlockPayments;
    if lo < hi {
      MinedAtHeight(chain, sub, lo, hi - 1, t);
      PaidAtHeight(chain[hi - 1].txs, sub, hi - 1, t);
    }
  }

  lemma PaidAtHeight(txs: seq<Tx>, sub: SubIndex, height: nat, t: Transfer)
    ensures t.height != Some(height) ==> multiset(BlockPayments(txs, sub, height))[t] == 0
  {
    BlockPaymentsHeight(txs, sub, height);
    if t in multiset(BlockPayments(txs, sub, height)) {
      assert t in BlockPayments(txs, sub, height);
    }
  }

  /** Two chains pay the same since a height if and only if they do at every height. */
  lemma SameMinedIff(a: seq<Entry>, b: seq<Entry>, sub: SubIndex, c: nat)
    requires |a| == |b|
    ensures multiset(Mined(a, sub, c, |a|)) == multiset(Mined(b, sub, c, |b|)) <==>
            forall h | c <= h < |a| ::
              multiset(BlockPayments(a[h].txs, sub, h)) == multiset(BlockPayments(b[h].txs, sub, h))
  {
    hide BlockPayments;
    var x, y := multiset(Mined(a, sub, c, |a|)), multiset(Mined(b, sub, c, |b|));
    if x == y {
      forall h | c <= h < |a|
        ensures multiset(BlockPayments(a[h].txs, sub, h)) == multiset(BlockPayments(b[h].txs, sub, h))
      {
        forall t ensures multiset(BlockPayments(a[h].txs, sub, h))[t] == multiset(BlockPayments(b[h].txs, sub, h))[t] {
          PaidAtHeight(a[h].txs, sub, h, t);
          PaidAtHeight(b[h].txs, sub, h, t);
          MinedAtHeight(a, sub, c, |a|, t);
          MinedAtHeight(b, sub, c, |b|, t);
        }
      }
    }
    if forall h | c <= h < |a| :: multiset(BlockPayments(a[h].txs, sub, h)) == multiset(BlockPayments(b[h].txs, sub, h)) {
      forall t ensures x[t] == y[t] {
        MinedAtHeight(a, sub, c, |a|, t);
        MinedAtHeight(b, sub, c, |b|, t);
      }
      assert x == y;
    }
  }

  // ---- The report restricted to a tracked subaddress is what the transactions pay to it ----

  lemma {:induction false} ReportedFor(owned: seq<Output>, amount: nat, ids: set<InvoiceId>, height: Option<nat>,
                                       sub: SubIndex, creation: nat)
    requires ContainsAtOrAbove(ids, sub)
    ensures For(Lift(OwnedAmounts(owned, amount, ids), height), sub, creation) ==
            if Due(Transfer(0, height), creation) then OutputPayments(owned, amount, sub, height) else []
  {
    if owned != [] {
      var o, rest := owned[|owned| - 1], OwnedAmounts(owned[..|owned| - 1], amount, ids);
      ReportedFor(owned[..|owned| - 1], amount, ids, height, sub, creation);
      var last := OwnedAmount(o.sub, amount);
      assert (rest + [last])[..|rest + [last]| - 1] == rest;
      var lifted, c := Lift(rest, height), Credit(o.sub, Transfer(amount, height));
      assert (lifted + [c])[..|lifted + [c]| - 1] == lifted;
    }
  }

  /** Nothing is reported to a subaddress for which the store does not answer. */
  lemma {:induction false} UnreportedFor(owned: seq<Output>, amount: nat, ids: set<InvoiceId>, height: Option<nat>,
                                         sub: SubIndex, creation: nat)
    requires !ContainsAtOrAbove(ids, sub)
    ensures For(Lift(OwnedAmounts(owned, amount, ids), height), sub, creation) == []
  {
    if owned != [] {
      var o, rest := owned[|owned| - 1], OwnedAmounts(owned[..|owned| - 1], amount, ids);
      UnreportedFor(owned[..|owned| - 1], amount, ids, height, sub, creation);
      var last := OwnedAmount(o.sub, amount);
      assert (rest + [last])[..|rest + [last]| - 1] == rest;
      var lifted, c := Lift(rest, height), Credit(o.sub, Transfer(amount, height));
      assert (lifted + [c])[..|lifted + [c]| - 1] == lifted;
    }
  }

  lemma {:induction false} ReportedAllFor(txs: seq<Tx>, ids: set<InvoiceId>, height: nat, sub: SubIndex, creation: nat)
    requires ContainsAtOrAbove(ids, sub)
    ensures For(Lift(ReportedAll(txs, ids), Some(height)), sub, creation) ==
            if height >= creation then BlockPayments(txs, sub, height) else []
  {
    if txs != [] {
      var tx, pre := txs[|txs| - 1], txs[..|txs| - 1];
      ReportedAllFor(pre, ids, height, sub, creation);
      ReportedFor(tx.owned, FirstAmount(tx), ids, Some(height), sub, creation);
      LiftConcat(ReportedAll(pre, ids), Reported(tx, ids), Some(height));
      ForConcat(Lift(ReportedAll(pre, ids), Some(height)), Lift(Reported(tx, ids), Some(height)), sub, creation);
    }
  }

  /** The credits of a stretch of blocks, restricted to an invoice, are its payments there. */
  lemma {:induction false} ChainCreditsFor(chain: seq<Entry>, ids: set<InvoiceId>, lo: nat, hi: nat,
                                           sub: SubIndex, creation: nat)
    requires hi <= |chain| && ContainsAtOrAbove(ids, sub)
    ensures For(ChainCredits(chain, ids, lo, hi), sub, creation) == Mined(chain, sub, Max(lo, creation), hi)
  {
    hide For, Lift, ReportedAll, BlockPayments, ContainsAtOrAbove;
    ForNone(sub, creation);
    if lo < hi {
      var block := Lift(ReportedAll(chain[hi - 1].txs, ids), Some(hi - 1));
      ChainCreditsFor(chain, ids, lo, hi - 1, sub, creation);
      ReportedAllFor(chain[hi - 1].txs, ids, hi - 1, sub, creation);
      ForConcat(ChainCredits(chain, ids, lo, hi - 1), block, sub, creation);
    }
  }

  // ---- What exactly a transaction pays and what is reported of it ----

  /** The outputs of a transaction to a subaddress, by position. */
  ghost function OutputsTo(owned: seq<Output>, sub: SubIndex): set<nat> {
    set i | 0 <= i < |owned| && owned[i].sub == sub
  }

  lemma OutputsToSnoc(owned: seq<Output>, sub: SubIndex)
    requires owned != []
    ensures |OutputsTo(owned, sub)| ==
            |OutputsTo(owned[..|owned| - 1], sub)| + (if owned[|owned| - 1].sub == sub then 1 else 0)
  {
    var n := |owned| - 1;
    var pre := OutputsTo(owned[..n], sub);
    assert n !in pre;
    assert OutputsTo(owned, sub) == if owned[n].sub == sub then pre + {n} else pre;
  }

  lemma {:induction false} OutputPaymentsExact(owned: seq<Output>, amount: nat, sub: SubIndex, height: Option<nat>)
    ensures |OutputPayments(owned, amount, sub, height)| == |OutputsTo(owned, sub)|
    ensures forall t | t in OutputPayments(owned, amount, sub, height) :: t == Transfer(amount, height)
  {
    if owned == [] {
      assert OutputsTo(owned, sub) == {};
    } else {
      OutputPaymentsExact(owned[..|owned| - 1], amount, sub, height);
      OutputsToSnoc(owned, sub);
    }
  }

  /** A transaction pays one transfer for each of its outputs to a subaddress, each with the amount of
      the first output that is ours; a time-locked one pays nothing. */
  lemma TxPaysExactly(tx: Tx, sub: SubIndex, height: Option<nat>)
    ensures tx.unlockTime != 0 ==> TxPayments(tx, sub, height) == []
    ensures tx.unlockTime == 0 ==> |TxPayments(tx, sub, height)| == |OutputsTo(tx.owned, sub)|
    ensures tx.unlockTime == 0 && tx.owned != [] && tx.owned[0].amount.Some? ==>
              forall t | t in TxPayments(tx, sub, height) :: t == Transfer(tx.owned[0].amount.value, height)
  {
    OutputPaymentsExact(tx.owned, FirstAmount(tx), sub, height);
  }

  /** A transaction with one output that is ours pays its true amount, and nothing to anybody else. */
  lemma SingleOutputPays(tx: Tx, o: Output, sub: SubIndex, height: Option<nat>)
    requires tx.unlockTime == 0 && tx.owned == [o] && o.amount.Some?
    ensures TxPayments(tx, sub, height) == if sub == o.sub then [Transfer(o.amount.value, height)] else []
  {
    assert tx.owned[..0] == [];
    assert OutputPayments([o][..0], o.amount.value, sub, height) == [];
  }

  /** A block pays what its transactions pay, one after the other. */
  lemma {:induction false} BlockPaysAll(txs: seq<Tx>, i: nat, sub: SubIndex, height: nat)
    requires i < |txs|
    ensures BlockPayments(txs, sub, height) ==
            BlockPayments(txs[..i], sub, height) + TxPayments(txs[i], sub, Some(height))
            + BlockPayments(txs[i + 1..], sub, height)
  {
    hide TxPayments;
    var n := |txs| - 1;
    if i == n {
      assert txs[i + 1..] == [] && txs[..n] == txs[..i];
    } else {
      BlockPaysAll(txs[..n], i, sub, height);
      assert txs[..n][..i] == txs[..i] && txs[..n][i + 1..] == txs[i + 1..][..n - i - 1];
    }
  }

  /** Of an unlocked transaction exactly its outputs to subaddresses for which the store answers are
      reported, each with the amount of the first output that is ours. */
  lemma {:induction false} OwnedAmountsExact(owned: seq<Output>, amount: nat, ids: set<InvoiceId>, a: OwnedAmount)
    ensures multiset(OwnedAmounts(owned, amount, ids))[a] ==
            if a.amount == amount && ContainsAtOrAbove(ids, a.sub) then |OutputsTo(owned, a.sub)| else 0
  {
    if owned == [] {
      assert OutputsTo(owned, a.sub) == {};
    } else {
      OwnedAmountsExact(owned[..|owned| - 1], amount, ids, a);
      OutputsToSnoc(owned, a.sub);
    }
  }

  // ---- Flattening ----

  lemma FlatNone<T>()
    ensures Flat<T>(map[]) == []
  {
  }

  lemma {:induction false} FlatSplit<T>(m: map<Hash, seq<T>>, h: Hash)
    requires h in m
    ensures multiset(Flat(m)) == multiset(m[h]) + multiset(Flat(m - {h}))
  {
    var g :| g in m && Flat(m) == m[g] + Flat(m - {g});
    if g != h {
      assert (m - {g}) - {h} == (m - {h}) - {g};
      FlatSplit(m - {g}, h);
      FlatSplit(m - {h}, g);
    }
  }

  lemma FlatUpdate<T>(m: map<Hash, seq<T>>, h: Hash, value: seq<T>)
    ensures multiset(Flat(m[h := value])) == multiset(value) + multiset(Flat(m - {h}))
  {
    FlatSplit(m[h := value], h);
    assert m[h := value] - {h} == m - {h};
  }

  lemma {:induction false} FlatUnion<T>(a: map<Hash, seq<T>>, b: map<Hash, seq<T>>)
    requires a.Keys !! b.Keys
    ensures multiset(Flat(a + b)) == multiset(Flat(a)) + multiset(Flat(b))
    decreases |b|
  {
    hide Flat;
    if h :| h in b {
      SmallerMap(b, h);
      UnionMinus(a, b, h);
      FlatUnion(a, b - {h});
      FlatSplit(a + b, h);
      FlatSplit(b, h);
    } else {
      UnionNone(a, b);
      FlatNone<T>();
    }
  }

  lemma UnionNone<T>(a: map<Hash, T>, b: map<Hash, T>)
    requires forall h :: h !in b
    ensures b == map[] && a + b == a
  {
  }

  /** A flattened map is empty exactly if all its values are. */
  lemma {:induction false} FlatNothing<T>(m: map<Hash, seq<T>>)
    ensures Flat(m) == [] <==> forall h | h in m :: m[h] == []
    decreases |m|
  {
    if m != map[] {
      var h :| h in m && Flat(m) == m[h] + Flat(m - {h});
      var rest := m - {h};
      SmallerMap(m, h);
      FlatNothing(rest);
      assert forall k | k in m :: k == h || (k in rest && rest[k] == m[k]);
      assert forall k | k in rest :: k in m && rest[k] == m[k];
    }
  }

  lemma FlatPush<T>(m: map<Hash, seq<T>>, h: Hash, more: seq<T>)
    ensures multiset(Flat(Push(m, h, more))) == multiset(Flat(m)) + multiset(more)
  {
    if more != [] {
      if h in m {
        FlatUpdate(m, h, m[h] + more);
        FlatSplit(m, h);
      } else {
        FlatUpdate(m, h, [] + more);
        assert m - {h} == m;
      }
    }
  }

  /** Gathering the reports by hash loses and invents nothing. */
  lemma {:induction false} ByHashFlat(txs: seq<Tx>, ids: set<InvoiceId>)
    ensures multiset(Flat(ByHash(txs, ids))) == multiset(ReportedAll(txs, ids))
  {
    if txs != [] {
      var tx, pre := txs[|txs| - 1], txs[..|txs| - 1];
      ByHashFlat(pre, ids);
      FlatPush(ByHash(pre, ids), tx.hash, Reported(tx, ids));
    }
  }

  function LiftAll(m: map<Hash, seq<OwnedAmount>>, height: Option<nat>): map<Hash, seq<Credit>> {
    map h | h in m :: Lift(m[h], height)
  }

  lemma {:induction false} LiftCount(a: seq<OwnedAmount>, height: Option<nat>, c: Credit)
    ensures multiset(Lift(a, height))[c] ==
            if c.transfer.height == height then multiset(a)[OwnedAmount(c.sub, c.transfer.amount)] else 0
  {
    if a != [] {
      LiftCount(a[..|a| - 1], height, c);
      MultisetSnoc(a);
    }
  }

  lemma LiftPermutation(a: seq<OwnedAmount>, b: seq<OwnedAmount>, height: Option<nat>)
    requires multiset(a) == multiset(b)
    ensures multiset(Lift(a, height)) == multiset(Lift(b, height))
  {
    forall c ensures multiset(Lift(a, height))[c] == multiset(Lift(b, height))[c] {
      LiftCount(a, height, c);
      LiftCount(b, height, c);
    }
  }

  lemma LiftAllMinus(m: map<Hash, seq<OwnedAmount>>, h: Hash, height: Option<nat>)
    ensures LiftAll(m, height) - {h} == LiftAll(m - {h}, height)
  {
    hide Lift;
  }

  lemma LiftAllSplit(m: map<Hash, seq<OwnedAmount>>, h: Hash, height: Option<nat>)
    requires h in m
    ensures multiset(Flat(LiftAll(m, height))) == multiset(Lift(m[h], height)) + multiset(Flat(LiftAll(m - {h}, height)))
  {
    hide Flat, Lift;
    LiftAllMinus(m, h, height);
    FlatSplit(LiftAll(m, height), h);
  }

  lemma {:induction false} FlatLiftAll(m: map<Hash, seq<OwnedAmount>>, height: Option<nat>)
    ensures multiset(Flat(LiftAll(m, height))) == multiset(Lift(Flat(m), height))
  {
    if h :| h in m {
      var rest := Flat(m - {h});
      FlatLiftAll(m - {h}, height);
      LiftAllSplit(m, h, height);
      FlatSplit(m, h);
      LiftPermutation(Flat(m), m[h] + rest, height);
      LiftConcat(m[h], rest, height);
    }
  }
}
