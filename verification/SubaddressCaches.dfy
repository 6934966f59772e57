/** The pool of subaddresses that are ready to be handed out. */
module SubaddressCaches {
  import opened Common
  import opened Indexes
  import opened Invoices
  import opened Stores

  const MIN_AVAILABLE_SUBADDRESSES: nat := 100

  type Entry = (SubIndex, string)

  ghost predicate DistinctKeys(entries: seq<Entry>) {
    forall i, j | 0 <= i < j < |entries| :: entries[i].0 != entries[j].0
  }

  ghost predicate HasKey(entries: seq<Entry>, k: SubIndex) {
    exists e :: e in entries && e.0 == k
  }

  /** The index belongs to the account and is not above the highest generated one. */
  predicate Generated(k: SubIndex, major: u32, highest: u32) {
    k.major == major && k.minor <= highest
  }

  /** The consecutive addresses of one account, both ends included. */
  function Range(major: u32, lo: nat, hi: nat, address: SubIndex -> string): (r: seq<Entry>)
    requires hi <= U32_MAX
    ensures |r| == if lo <= hi then hi - lo + 1 else 0
    decreases hi + 1 - lo
  {
    if hi < lo then [] else
      var k := SubIndex(major, lo);
      [(k, address(k))] + Range(major, lo + 1, hi, address)
  }

  lemma {:induction false} RangeAt(major: u32, lo: nat, hi: nat, address: SubIndex -> string, i: nat)
    requires hi <= U32_MAX && i < |Range(major, lo, hi, address)|
    ensures lo + i <= U32_MAX
    ensures Range(major, lo, hi, address)[i] == (SubIndex(major, lo + i), address(SubIndex(major, lo + i)))
    decreases hi + 1 - lo
  {
    if i > 0 {
      RangeAt(major, lo + 1, hi, address, i - 1);
    }
  }

  lemma {:induction false} RangeSnoc(major: u32, lo: nat, hi: nat, address: SubIndex -> string)
    requires lo <= hi <= U32_MAX
    ensures Range(major, lo, hi, address) ==
            (if hi == 0 then [] else Range(major, lo, hi - 1, address)) + [(SubIndex(major, hi), address(SubIndex(major, hi)))]
    decreases hi - lo
  {
    if lo < hi {
      RangeSnoc(major, lo + 1, hi, address);
    }
  }

  lemma {:induction false} RangeMember(major: u32, lo: nat, hi: nat, address: SubIndex -> string, e: Entry)
    requires hi <= U32_MAX
    ensures e in Range(major, lo, hi, address) <==> e.0.major == major && lo <= e.0.minor <= hi && e.1 == address(e.0)
    decreases hi + 1 - lo
  {
    if lo <= hi {
      RangeMember(major, lo + 1, hi, address, e);
    }
  }

  lemma RangeDistinct(major: u32, lo: nat, hi: nat, address: SubIndex -> string)
    requires hi <= U32_MAX
    ensures DistinctKeys(Range(major, lo, hi, address))
  {
    var r := Range(major, lo, hi, address);
    forall i, j | 0 <= i < j < |r| ensures r[i].0 != r[j].0 {
      RangeAt(major, lo, hi, address, i);
      RangeAt(major, lo, hi, address, j);
    }
  }

  /** Generates the addresses from one index to another, both included; stops at the end of
      the first account if the second index is in a later one. */
  method GenerateRange(from: SubIndex, to: SubIndex, address: SubIndex -> string) returns (r: seq<Entry>)
    ensures r == if to.Cmp(from) == Less then []
                 else Range(from.major, from.minor, if to.major == from.major then to.minor else U32_MAX, address)
  {
    r := [];
    if to.Cmp(from) == Less {
      return;
    }
    ghost var last: nat := if to.major == from.major then to.minor else U32_MAX;
    var current := from;
    while current.Cmp(to) != Greater
      invariant current.major == from.major && from.minor <= current.minor <= last + 1
      invariant r == if current.minor == 0 then [] else Range(from.major, from.minor, current.minor - 1, address)
      decreases U32_MAX - current.minor
    {
      RangeSnoc(from.major, from.minor, current.minor, address);
      r := r + [(current, address(current))];
      if current.minor < U32_MAX {
        current := current.(minor := current.minor + 1);
      } else {
        return;
      }
    }
  }

  /** Inserting an existing key replaces its value in place; a new key goes to the end. */
  function Inserted(entries: seq<Entry>, e: Entry): seq<Entry> {
    if entries == [] then [e]
    else if entries[0].0 == e.0 then [e] + entries[1..]
    else [entries[0]] + Inserted(entries[1..], e)
  }

  lemma {:induction false} InsertedNew(entries: seq<Entry>, e: Entry)
    requires !HasKey(entries, e.0)
    ensures Inserted(entries, e) == entries + [e]
  {
    if entries != [] {
      assert entries[0] in entries;
      forall x | x in entries[1..] ensures x.0 != e.0 {
        assert x in entries;
      }
      InsertedNew(entries[1..], e);
    }
  }

  lemma {:induction false} InsertedMember(entries: seq<Entry>, e: Entry, x: Entry)
    requires DistinctKeys(entries)
    ensures x in Inserted(entries, e) <==> x == e || (x in entries && x.0 != e.0)
  {
    if entries != [] {
      assert entries == [entries[0]] + entries[1..];
      if entries[0].0 == e.0 {
        assert forall y | y in entries[1..] :: y.0 != e.0;
      } else {
        InsertedMember(entries[1..], e, x);
      }
    }
  }

  lemma {:induction false} InsertedDistinct(entries: seq<Entry>, e: Entry)
    requires DistinctKeys(entries)
    ensures DistinctKeys(Inserted(entries, e))
  {
    if entries != [] && entries[0].0 != e.0 {
      InsertedDistinct(entries[1..], e);
      var rest := Inserted(entries[1..], e);
      forall j | 0 <= j < |rest| ensures entries[0].0 != rest[j].0 {
        InsertedMember(entries[1..], e, rest[j]);
      }
    }
  }

  /** Keys are distinct and were generated. */
  ghost predicate ValidEntries(entries: seq<Entry>, major: u32, highest: u32) {
    DistinctKeys(entries) && forall e | e in entries :: Generated(e.0, major, highest)
  }

  lemma {:induction false} InsertedLength(entries: seq<Entry>, e: Entry)
    ensures |Inserted(entries, e)| == |entries| + (if HasKey(entries, e.0) then 0 else 1)
  {
    if entries != [] {
      assert entries[0] in entries;
      assert entries == [entries[0]] + entries[1..];
      InsertedLength(entries[1..], e);
      assert entries[0].0 != e.0 ==> (HasKey(entries, e.0) <==> HasKey(entries[1..], e.0));
    }
  }

  /** Inserting one after the other. */
  function InsertedAll(entries: seq<Entry>, more: seq<Entry>): seq<Entry> {
    if more == [] then entries else Inserted(InsertedAll(entries, more[..|more| - 1]), more[|more| - 1])
  }

  lemma InsertedAllSnoc(entries: seq<Entry>, more: seq<Entry>, e: Entry)
    ensures InsertedAll(entries, more + [e]) == Inserted(InsertedAll(entries, more), e)
  {
    assert (more + [e])[..|more|] == more;
  }

  lemma {:induction false} InsertedAllMember(entries: seq<Entry>, more: seq<Entry>, x: Entry)
    requires DistinctKeys(entries) && DistinctKeys(more)
    ensures DistinctKeys(InsertedAll(entries, more))
    ensures x in InsertedAll(entries, more) <==> x in more || (x in entries && !HasKey(more, x.0))
  {
    if more != [] {
      var pre, e := more[..|more| - 1], more[|more| - 1];
      InsertedAllMember(entries, pre, x);
      InsertedMember(InsertedAll(entries, pre), e, x);
      InsertedDistinct(InsertedAll(entries, pre), e);
      assert more == pre + [e];
      assert HasKey(more, x.0) <==> HasKey(pre, x.0) || e.0 == x.0 by {
        assert e in more;
        if y :| y in pre && y.0 == x.0 {
          assert y in more;
        }
      }
      assert x.0 == e.0 && x != e ==> x !in pre;
    }
  }

  /** The next addresses of an account are new keys if no entry lies above them. */
  lemma {:induction false} InsertedAllNew(entries: seq<Entry>, major: u32, lo: nat, hi: nat, address: SubIndex -> string)
    requires lo <= hi <= U32_MAX && forall e | e in entries :: e.0.minor <= lo
    ensures InsertedAll(entries, Range(major, lo + 1, hi, address)) == entries + Range(major, lo + 1, hi, address)
    decreases hi - lo
  {
    hide Inserted, HasKey, Range, InsertedAll;
    NothingInserted(entries, major, lo, address);
    if lo < hi {
      var pre, k := Range(major, lo + 1, hi - 1, address), SubIndex(major, hi);
      var e := (k, address(k));
      InsertedAllNew(entries, major, lo, hi - 1, address);
      RangeSnoc(major, lo + 1, hi, address);
      InsertedAllSnoc(entries, pre, e);
      NextIsNew(entries, major, lo, hi, address);
      InsertedNew(entries + pre, e);
      assert (entries + pre) + [e] == entries + (pre + [e]);
    }
  }

  lemma NothingInserted(entries: seq<Entry>, major: u32, highest: nat, address: SubIndex -> string)
    requires highest <= U32_MAX
    ensures Range(major, highest + 1, highest, address) == []
    ensures InsertedAll(entries, Range(major, highest + 1, highest, address)) == entries
  {
  }

  lemma NextIsNew(entries: seq<Entry>, major: u32, lo: nat, hi: nat, address: SubIndex -> string)
    requires lo < hi <= U32_MAX && forall e | e in entries :: e.0.minor <= lo
    ensures !HasKey(entries + Range(major, lo + 1, hi - 1, address), SubIndex(major, hi))
  {
    forall x | x in entries + Range(major, lo + 1, hi - 1, address) ensures x.0 != SubIndex(major, hi) {
      RangeMember(major, lo + 1, hi - 1, address, x);
    }
  }

  lemma RangeKeys(major: u32, lo: nat, hi: nat, address: SubIndex -> string, k: SubIndex)
    requires hi <= U32_MAX
    ensures HasKey(Range(major, lo, hi, address), k) <==> k.major == major && lo <= k.minor <= hi
  {
    RangeMember(major, lo, hi, address, (k, address(k)));
    if e :| e in Range(major, lo, hi, address) && e.0 == k {
      RangeMember(major, lo, hi, address, e);
    }
  }

  class SubaddressCache {
    const major: u32
    const address: SubIndex -> string
    var highest: u32
    var available: seq<Entry>

    ghost predicate Valid()
      reads this
    {
      DistinctKeys(available)
    }

    /** Every free address was generated by this cache. */
    ghost predicate Tidy()
      reads this
    {
      ValidEntries(available, major, highest)
    }

    /** Enough addresses are free, unless the account is exhausted. */
    ghost predicate Stocked()
      reads this
    {
      Len() >= MIN_AVAILABLE_SUBADDRESSES || highest == U32_MAX
    }

    /** Generates at least 100 addresses, and as many as the greatest used index says, and
        leaves out the used ones. */
    constructor (store: InMemory, major: u32, address: SubIndex -> string)
      requires store.Valid()
      ensures Valid() && Tidy() && this.major == major && this.address == address
      ensures highest == HighestFor(store.invoices.Keys)
      ensures Len() == highest + 1 - |Used(store.invoices.Keys, major, highest)|
      ensures Starts(available, store.invoices.Keys, major, highest, address)
    {
      var used := set id | id in store.invoices :: store.invoices[id].index;
      forall k ensures k in used <==> Tracks(store.invoices.Keys, k) {
        if k in used {
          var id :| id in store.invoices && store.invoices[id].index == k;
          assert id.sub == k;
        }
        if Tracks(store.invoices.Keys, k) {
          var id :| id in store.invoices.Keys && id.sub == k;
          assert store.invoices[id].index == k;
        }
      }
      var greatest := Greatest(used);
      GreatestHighest(store.invoices.Keys, used, greatest);
      var top: u32 := Max(MIN_AVAILABLE_SUBADDRESSES - 1, if greatest.Some? then greatest.value.minor else 0);
      var all := GenerateRange(SubIndex(major, 0), SubIndex(major, top), address);
      RangeDistinct(major, 0, top, address);
      var unused := RetainUnused(all, used);
      forall e ensures e in all <==> Generated(e.0, major, top) && e.1 == address(e.0) {
        RangeMember(major, 0, top, address, e);
      }
      this.major := major;
      this.address := address;
      highest := top;
      available := unused;
      new;
      FreeCount(available, store.invoices.Keys, major, highest, address);
    }

    static method Greatest(used: set<SubIndex>) returns (greatest: Option<SubIndex>)
      ensures greatest.None? <==> used == {}
      ensures greatest.Some? ==> greatest.value in used && forall k | k in used :: k.Cmp(greatest.value) != Greater
    {
      greatest := None;
      var rest := used;
      while rest != {}
        invariant rest <= used
        invariant greatest.None? <==> rest == used
        invariant greatest.Some? ==> greatest.value in used
        invariant greatest.Some? ==> forall k | k in used - rest :: k.Cmp(greatest.value) != Greater
        decreases rest
      {
        var k :| k in rest;
        forall j | greatest.Some? && j in used ensures
          k.Cmp(greatest.value) == Greater && j.Cmp(greatest.value) != Greater ==> j.Cmp(k) != Greater
        {
          SubIndexOrder(j, greatest.value, k);
          SubIndexOrder(greatest.value, k, k);
        }
        SubIndexOrder(k, k, k);
        if greatest.None? || k.Cmp(greatest.value) == Greater {
          greatest := Some(k);
        }
        rest := rest - {k};
      }
    }

    static method RetainUnused(all: seq<Entry>, used: set<SubIndex>) returns (kept: seq<Entry>)
      requires DistinctKeys(all)
      ensures DistinctKeys(kept) && forall e :: e in kept <==> e in all && e.0 !in used
    {
      kept := [];
      for i := 0 to |all|
        invariant DistinctKeys(kept) && forall e :: e in kept <==> e in all[..i] && e.0 !in used
      {
        assert all[..i + 1] == all[..i] + [all[i]];
        if all[i].0 !in used {
          forall j | 0 <= j < |kept| ensures kept[j].0 != all[i].0 {
            assert kept[j] in kept;
            var m :| 0 <= m < i && all[m] == kept[j];
          }
          kept := kept + [all[i]];
        }
      }
      assert all[..|all|] == all;
    }

    function Len(): nat
      reads this
    {
      |available|
    }

    /** Hands out an address at a random position, and generates more if few remain. */
    method RemoveRandom() returns (taken: Entry)
      requires Valid() && Len() > 0
      modifies this
      ensures Valid() && taken in old(available)
      ensures highest as nat == if old(Len()) - 1 <= MIN_AVAILABLE_SUBADDRESSES
                                then Min(old(highest) + MIN_AVAILABLE_SUBADDRESSES, U32_MAX) else old(highest)
      ensures forall e :: e in available <==>
                (e in old(available) && e != taken && !IsNew(e.0, major, old(highest), highest))
                || (IsNew(e.0, major, old(highest), highest) && e.1 == address(e.0))
      ensures old(Tidy()) ==> Tidy() && Stocked() && !HasKey(available, taken.0)
                              && Len() == old(Len()) - 1 + (highest - old(highest))
    {
      hide ValidEntries, DistinctKeys, HasKey;
      var pick :| 0 <= pick < |available|;
      if pick < |available| {
        taken := available[pick];
        ghost var rest := available[..pick] + available[pick + 1..];
        RemovedAt(available, pick, major, highest);
        available := available[..pick] + available[pick + 1..];
        if Len() <= MIN_AVAILABLE_SUBADDRESSES {
          var _ := ExtendBy(MIN_AVAILABLE_SUBADDRESSES);
          ExtendedMembers(rest, major, old(highest), highest, address);
          TakenStays(old(available), rest, taken, major, old(highest), highest, address);
        }
      } else {
        assert false;
      }
    }

    /** Puts an address back. */
    method Insert(sub: SubIndex, addr: string) returns (previous: Option<string>)
      requires Valid()
      modifies this`available
      ensures Valid() && (old(Tidy()) && Generated(sub, major, highest) ==> Tidy())
      ensures previous.Some? <==> HasKey(old(available), sub)
      ensures previous.Some? ==> (sub, previous.value) in old(available)
      ensures forall e :: e in available <==> e == (sub, addr) || (e in old(available) && e.0 != sub)
      ensures Len() == old(Len()) + (if previous.Some? then 0 else 1)
    {
      previous := None;
      for i := 0 to |available|
        invariant previous.Some? <==> HasKey(available[..i], sub)
        invariant previous.Some? ==> (sub, previous.value) in available
      {
        assert available[..i + 1] == available[..i] + [available[i]];
        if available[i].0 == sub {
          previous := Some(available[i].1);
          assert available[i] in available[..i + 1];
        }
      }
      assert available[..|available|] == available;
      forall e ensures e in Inserted(available, (sub, addr)) <==> e == (sub, addr) || (e in available && e.0 != sub) {
        InsertedMember(available, (sub, addr), e);
      }
      InsertedDistinct(available, (sub, addr));
      InsertedLength(available, (sub, addr));
      available := Inserted(available, (sub, addr));
    }

    /** Generates the next `n` addresses, or as many as there are before the greatest index. */
    method ExtendBy(n: nat) returns (count: nat)
      requires Valid() && n <= U32_MAX
      modifies this
      ensures Valid()
      ensures count == Min(n, U32_MAX - old(highest)) && highest == old(highest) + count
      ensures available == InsertedAll(old(available), Range(major, old(highest) + 1, highest, address))
      ensures old(Tidy()) ==> Tidy() && available == old(available) + Range(major, old(highest) + 1, highest, address)
    {
      hide ValidEntries, Inserted, DistinctKeys, InsertedAll;
      count := 0;
      NothingInserted(available, major, highest, address);
      for i := 0 to n
        invariant Valid() && count == i && highest == old(highest) + count
        invariant available == InsertedAll(old(available), Range(major, old(highest) + 1, highest, address))
      {
        if highest == U32_MAX {
          ExtendedTidy(old(available), major, old(highest), highest, address);
          return;
        }
        var sub := SubIndex(major, highest + 1);
        RangeSnoc(major, old(highest) + 1, highest + 1, address);
        InsertedAllSnoc(old(available), Range(major, old(highest) + 1, highest, address), (sub, address(sub)));
        InsertedDistinct(available, (sub, address(sub)));
        available := Inserted(available, (sub, address(sub)));
        highest := sub.minor;
        count := count + 1;
      }
      ExtendedTidy(old(available), major, old(highest), highest, address);
    }
  }

  /** The index was generated by the last extension. */
  predicate IsNew(k: SubIndex, major: u32, before: u32, highest: u32) {
    k.major == major && before < k.minor <= highest
  }

  lemma ExtendedMembers(entries: seq<Entry>, major: u32, before: u32, highest: u32, address: SubIndex -> string)
    requires DistinctKeys(entries) && before <= highest
    ensures var after := InsertedAll(entries, Range(major, before + 1, highest, address));
            forall e :: e in after <==> (e in entries && !IsNew(e.0, major, before, highest))
                                        || (IsNew(e.0, major, before, highest) && e.1 == address(e.0))
  {
    var more := Range(major, before + 1, highest, address);
    RangeDistinct(major, before + 1, highest, address);
    forall e
      ensures e in InsertedAll(entries, more) <==> (e in entries && !IsNew(e.0, major, before, highest))
                                                   || (IsNew(e.0, major, before, highest) && e.1 == address(e.0))
    {
      InsertedAllMember(entries, more, e);
      RangeMember(major, before + 1, highest, address, e);
      RangeKeys(major, before + 1, highest, address, e.0);
    }
  }

  /** If everything was generated by the cache, the new addresses go to the end. */
  lemma ExtendedTidy(entries: seq<Entry>, major: u32, before: u32, highest: u32, address: SubIndex -> string)
    requires before <= highest
    ensures ValidEntries(entries, major, before) ==>
              var after := InsertedAll(entries, Range(major, before + 1, highest, address));
              after == entries + Range(major, before + 1, highest, address) && ValidEntries(after, major, highest)
  {
    if ValidEntries(entries, major, before) {
      var after := InsertedAll(entries, Range(major, before + 1, highest, address));
      InsertedAllNew(entries, major, before, highest, address);
      RangeDistinct(major, before + 1, highest, address);
      if after != [] {
        InsertedAllMember(entries, Range(major, before + 1, highest, address), after[0]);
      }
      forall e | e in after ensures Generated(e.0, major, highest) {
        RangeMember(major, before + 1, highest, address, e);
      }
    }
  }

  /** The address that was handed out is not generated again. */
  lemma TakenStays(entries: seq<Entry>, rest: seq<Entry>, taken: Entry, major: u32, before: u32, highest: u32,
                   address: SubIndex -> string)
    requires before <= highest && taken in entries && !HasKey(rest, taken.0)
    ensures ValidEntries(entries, major, before) ==>
              !HasKey(rest + Range(major, before + 1, highest, address), taken.0)
  {
    RangeKeys(major, before + 1, highest, address, taken.0);
    var more := Range(major, before + 1, highest, address);
    if ValidEntries(entries, major, before) {
      forall e | e in rest + more ensures e.0 != taken.0 {
        assert e in rest || e in more;
      }
    }
  }

  lemma RemovedAt(entries: seq<Entry>, pick: nat, major: u32, highest: u32)
    requires DistinctKeys(entries) && pick < |entries|
    ensures var rest := entries[..pick] + entries[pick + 1..];
            && DistinctKeys(rest)
            && (ValidEntries(entries, major, highest) ==> ValidEntries(rest, major, highest))
            && (forall e :: e in rest <==> e in entries && e != entries[pick])
            && !HasKey(rest, entries[pick].0)
  {
    var rest := entries[..pick] + entries[pick + 1..];
    assert entries == entries[..pick] + [entries[pick]] + entries[pick + 1..];
    forall i | 0 <= i < |rest| ensures rest[i].0 != entries[pick].0 {
      assert rest[i] == entries[if i < pick then i else i + 1];
    }
    forall e | e in rest ensures e != entries[pick] {
      var i :| 0 <= i < |rest| && rest[i] == e;
    }
  }

  // ---- Start-up ----

  /** The highest index generated at start-up, from the greatest used index of any account. */
  ghost function HighestFor(ids: set<InvoiceId>): u32 {
    if k :| Tracks(ids, k) && forall id | id in ids :: id.sub.Cmp(k) != Greater
    then Max(MIN_AVAILABLE_SUBADDRESSES - 1, k.minor) else MIN_AVAILABLE_SUBADDRESSES - 1
  }

  lemma GreatestHighest(ids: set<InvoiceId>, used: set<SubIndex>, greatest: Option<SubIndex>)
    requires forall k :: k in used <==> Tracks(ids, k)
    requires greatest.None? <==> used == {}
    requires greatest.Some? ==> greatest.value in used && forall k | k in used :: k.Cmp(greatest.value) != Greater
    ensures HighestFor(ids) as nat == Max(MIN_AVAILABLE_SUBADDRESSES - 1, if greatest.Some? then greatest.value.minor else 0)
  {
  }

  lemma {:induction false} SomeGreatest(used: set<SubIndex>) returns (greatest: SubIndex)
    requires used != {}
    ensures greatest in used && forall k | k in used :: k.Cmp(greatest) != Greater
  {
    var k :| k in used;
    SubIndexOrder(k, k, k);
    if used == {k} {
      greatest := k;
    } else {
      var rest := SomeGreatest(used - {k});
      greatest := if k.Cmp(rest) == Greater then k else rest;
      forall j | j in used ensures j.Cmp(greatest) != Greater {
        SubIndexOrder(rest, k, k);
        SubIndexOrder(j, rest, k);
      }
    }
  }

  /** Every stored index of the account is among the generated ones. */
  ghost predicate StoredGenerated(ids: set<InvoiceId>, major: u32, highest: u32) {
    forall id | id in ids && id.sub.major == major :: id.sub.minor <= highest
  }

  /**
   * Start-up generates every stored index of its account if and only if the greatest of them is
   * below 100 or not above the position of the greatest stored index of any account, which is
   * another one only if a later account has stored indexes.
   */
  lemma StartUpCoversIff(ids: set<InvoiceId>, major: u32, own: u32, greatest: SubIndex)
    requires Tracks(ids, greatest) && forall id | id in ids :: id.sub.Cmp(greatest) != Greater
    requires Tracks(ids, SubIndex(major, own)) && forall id | id in ids && id.sub.major == major :: id.sub.minor <= own
    ensures StoredGenerated(ids, major, HighestFor(ids)) <==>
            own < MIN_AVAILABLE_SUBADDRESSES || own <= greatest.minor
    ensures greatest.major == major ==> greatest.minor == own
  {
    var used := set id | id in ids :: id.sub;
    assert forall k :: k in used <==> Tracks(ids, k);
    GreatestHighest(ids, used, Some(greatest));
  }

  /** Index 500 of account 0 is in use but not generated, and will be handed out again. */
  lemma StartUpMisses()
    ensures var ids := {InvoiceId(SubIndex(0, 500), 7), InvoiceId(SubIndex(1, 3), 7)};
            HighestFor(ids) == 99 && !StoredGenerated(ids, 0, HighestFor(ids))
  {
    var a, b := InvoiceId(SubIndex(0, 500), 7), InvoiceId(SubIndex(1, 3), 7);
    var ids := {a, b};
    assert a in ids && b in ids;
    var used := {a.sub, b.sub};
    forall k ensures k in used <==> Tracks(ids, k) {
      if Tracks(ids, k) {
        var id :| id in ids && id.sub == k;
      }
    }
    GreatestHighest(ids, used, Some(b.sub));
  }

  // ---- How many addresses are free at start-up ----

  /** The positions of the stored indexes of an account, up to the highest generated one. */
  ghost function Used(ids: set<InvoiceId>, major: u32, highest: u32): set<nat> {
    set id | id in ids && id.sub.major == major && id.sub.minor <= highest :: id.sub.minor as nat
  }

  ghost function UpTo(n: nat): (s: set<nat>)
    ensures |s| == n && forall k: nat :: k in s <==> k < n
  {
    if n == 0 then {} else UpTo(n - 1) + {n - 1}
  }

  ghost function Minors(entries: seq<Entry>): set<nat> {
    set e | e in entries :: e.0.minor as nat
  }

  lemma {:induction false} MinorsCount(entries: seq<Entry>, major: u32)
    requires DistinctKeys(entries) && forall e | e in entries :: e.0.major == major
    ensures |Minors(entries)| == |entries|
  {
    if entries == [] {
      assert Minors(entries) == {};
    } else {
      var pre, last := entries[..|entries| - 1], entries[|entries| - 1];
      MinorsCount(pre, major);
      assert entries == pre + [last];
      assert Minors(entries) == Minors(pre) + {last.0.minor as nat};
      assert last.0.minor as nat !in Minors(pre);
    }
  }

  /** What start-up promises of its addresses: the unused ones among the generated ones. */
  ghost predicate Starts(entries: seq<Entry>, ids: set<InvoiceId>, major: u32, highest: u32, address: SubIndex -> string) {
    forall e :: e in entries <==> Generated(e.0, major, highest) && e.1 == address(e.0) && !Tracks(ids, e.0)
  }

  /** The free addresses and the used positions are together all generated ones. */
  lemma FreeCount(entries: seq<Entry>, ids: set<InvoiceId>, major: u32, highest: u32, address: SubIndex -> string)
    requires DistinctKeys(entries) && Starts(entries, ids, major, highest, address)
    ensures |entries| + |Used(ids, major, highest)| == highest + 1
  {
    var free, used := Minors(entries), Used(ids, major, highest);
    MinorsCount(entries, major);
    forall n: nat ensures n in free <==> n <= highest && n !in used {
      if n <= highest {
        var k := SubIndex(major, n);
        assert n in used <==> Tracks(ids, k);
        assert (k, address(k)) in entries <==> !Tracks(ids, k);
      }
    }
    assert free + used == UpTo(highest + 1) && free !! used;
  }

  lemma {:induction false} UsedAtMost(ids: set<InvoiceId>, major: u32, highest: u32)
    ensures |Used(ids, major, highest)| <= |ids|
  {
    if ids == {} {
      assert Used(ids, major, highest) == {};
    } else {
      var id :| id in ids;
      var rest := ids - {id};
      UsedAtMost(rest, major, highest);
      assert Used(ids, major, highest) <= Used(rest, major, highest) + {id.sub.minor as nat};
      Smaller(Used(ids, major, highest), Used(rest, major, highest) + {id.sub.minor as nat});
    }
  }

  lemma {:induction false} Smaller(a: set<nat>, b: set<nat>)
    requires a <= b
    ensures |a| <= |b|
  {
    if x :| x in a {
      Smaller(a - {x}, b - {x});
    }
  }

  /** Start-up leaves no address free if and only if the used positions of its account number all
      generated ones. With fewer than 100 stored invoices one is always left. */
  lemma StartUpFreeIff(entries: seq<Entry>, ids: set<InvoiceId>, major: u32, address: SubIndex -> string)
    requires DistinctKeys(entries) && Starts(entries, ids, major, HighestFor(ids), address)
    ensures entries == [] <==> |Used(ids, major, HighestFor(ids))| == HighestFor(ids) + 1
    ensures |ids| < MIN_AVAILABLE_SUBADDRESSES ==> entries != []
  {
    FreeCount(entries, ids, major, HighestFor(ids), address);
    UsedAtMost(ids, major, HighestFor(ids));
    AtLeast99(ids);
  }

  lemma AtLeast99(ids: set<InvoiceId>)
    ensures HighestFor(ids) >= MIN_AVAILABLE_SUBADDRESSES - 1
  {
  }

  /** One hundred stored invoices, at the positions 0 to 99. */
  ghost function Hundred(): set<InvoiceId> {
    set k: nat | k < MIN_AVAILABLE_SUBADDRESSES :: InvoiceId(SubIndex(0, k), 7)
  }

  /** With those, start-up leaves no address free, and the first request would draw from nothing. */
  lemma StartUpFull(entries: seq<Entry>, address: SubIndex -> string)
    requires DistinctKeys(entries) && Starts(entries, Hundred(), 0, HighestFor(Hundred()), address)
    ensures HighestFor(Hundred()) == 99 && entries == []
  {
    var ids, top := Hundred(), SubIndex(0, 99);
    assert InvoiceId(SubIndex(0, 99), 7) in ids;
    var used := set id | id in ids :: id.sub;
    assert forall k :: k in used <==> Tracks(ids, k);
    assert top in used;
    GreatestHighest(ids, used, Some(top));
    forall k | Generated(k, 0, 99) ensures Tracks(ids, k) {
      assert InvoiceId(SubIndex(0, k.minor), 7) in ids;
    }
    HasMember(entries);
  }

  lemma HasMember(entries: seq<Entry>)
    ensures entries != [] ==> exists e :: e in entries
  {
    if entries != [] {
      assert entries[0] in entries;
    }
  }
}
