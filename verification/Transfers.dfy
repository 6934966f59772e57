/** Transfers, their order by height, and what folding a list of them means. */
module Transfers {
  import opened Common

  /** An amount received, at a block height, or without one while it is in the pool. */
  datatype Transfer = Transfer(amount: nat, height: Option<nat>) {
    /** Newer is greater; the pool is newest. */
    function CmpByHeight(other: Transfer): Ordering {
      match height
      case Some(h) => (
        match other.height
        case Some(g) => Compare(h, g)
        case None => Less
      )
      case None => (
        match other.height
        case Some(_) => Greater
        case None => Equal
      )
    }
  }

  ghost predicate SortedByHeight(ts: seq<Transfer>) {
    forall i, j | 0 <= i < j < |ts| :: ts[i].CmpByHeight(ts[j]) != Greater
  }

  function Sum(ts: seq<Transfer>): nat {
    if ts == [] then 0 else Sum(ts[..|ts| - 1]) + ts[|ts| - 1].amount
  }

  /** The mined transfers below a height. */
  function Below(ts: seq<Transfer>, height: nat): seq<Transfer> {
    if ts == [] then []
    else
      var t, rest := ts[|ts| - 1], Below(ts[..|ts| - 1], height);
      if t.CmpByHeight(Transfer(0, Some(height))) == Less then rest + [t] else rest
  }

  /** The height of the transfer that brings the running total up to `requested`. A later
      transfer gets the chance only while no height has been found. */
  function PaidFold(ts: seq<Transfer>, requested: nat): Option<nat> {
    if ts == [] then None
    else
      var paid := PaidFold(ts[..|ts| - 1], requested);
      if Sum(ts) >= requested && paid.None? then ts[|ts| - 1].height else paid
  }

  /** The total mined at or below a height. */
  function MinedBy(ts: seq<Transfer>, height: nat): nat {
    if ts == [] then 0
    else
      var t := ts[|ts| - 1];
      MinedBy(ts[..|ts| - 1], height) + (if t.height.Some? && t.height.value <= height then t.amount else 0)
  }

  /**
   * What `paid` promises of the transfers `ts`, whatever their order: the least height of a
   * transfer up to which the mined total reaches `requested`, or that no such height exists.
   */
  ghost predicate IsPaidHeight(ts: seq<Transfer>, requested: nat, paid: Option<nat>) {
    match paid
    case Some(h) =>
      && (exists t :: t in ts && t.height == Some(h))
      && MinedBy(ts, h) >= requested
      && forall t | t in ts && t.height.Some? && t.height.value < h :: MinedBy(ts, t.height.value) < requested
    case None =>
      forall t | t in ts && t.height.Some? :: MinedBy(ts, t.height.value) < requested
  }

  /** Two lists hold the same mined transfers, in any order, up to a height. */
  ghost predicate SameMinedUpTo(a: seq<Transfer>, b: seq<Transfer>, height: nat) {
    forall t: Transfer {:trigger multiset(a)[t]} {:trigger multiset(b)[t]} ::
      t.height.Some? && t.height.value <= height ==> multiset(a)[t] == multiset(b)[t]
  }

  /** Two lists hold the same mined transfers, in any order. */
  ghost predicate SameMined(a: seq<Transfer>, b: seq<Transfer>) {
    forall t: Transfer {:trigger multiset(a)[t]} {:trigger multiset(b)[t]} ::
      t.height.Some? ==> multiset(a)[t] == multiset(b)[t]
  }

  lemma SameMinedMembers(a: seq<Transfer>, b: seq<Transfer>, t: Transfer)
    requires t.height.Some? && multiset(a)[t] == multiset(b)[t]
    ensures t in a <==> t in b
  {
    assert t in a <==> t in multiset(a);
    assert t in b <==> t in multiset(b);
  }

  // ---- Multiplicities ----

  lemma MultisetSnoc<T>(s: seq<T>)
    requires s != []
    ensures multiset(s) == multiset(s[..|s| - 1]) + multiset{s[|s| - 1]}
  {
    assert s == s[..|s| - 1] + [s[|s| - 1]];
  }

  lemma {:induction false} BelowCount(ts: seq<Transfer>, height: nat, t: Transfer)
    ensures multiset(Below(ts, height))[t] ==
            if t.height.Some? && t.height.value < height then multiset(ts)[t] else 0
  {
    if ts != [] {
      BelowCount(ts[..|ts| - 1], height, t);
      MultisetSnoc(ts);
    }
  }

  /** What makes it the total: one transfer counts with its amount, and lists add up. */
  lemma {:induction false} SumConcat(a: seq<Transfer>, b: seq<Transfer>)
    ensures Sum(a + b) == Sum(a) + Sum(b)
    ensures |a| == 1 ==> Sum(a) == a[0].amount
  {
    if b == [] {
      assert a + b == a;
    } else {
      assert (a + b)[..|a + b| - 1] == a + b[..|b| - 1];
      SumConcat(a, b[..|b| - 1]);
    }
  }

  /** The sum does not depend on the order of the transfers. */
  lemma {:induction false} SumPermutation(a: seq<Transfer>, b: seq<Transfer>)
    requires multiset(a) == multiset(b)
    ensures Sum(a) == Sum(b)
  {
    if a == [] {
      assert |multiset(b)| == |b|;
    } else {
      var t := a[|a| - 1];
      assert t in multiset(b);
      var i :| 0 <= i < |b| && b[i] == t;
      var lo, hi := b[..i], b[i + 1..];
      assert b == lo + ([t] + hi);
      assert multiset(b) == multiset(lo) + multiset{t} + multiset(hi);
      MultisetSnoc(a);
      assert multiset(a[..|a| - 1]) == multiset(a) - multiset{t};
      assert multiset(lo + hi) == multiset(b) - multiset{t};
      SumPermutation(a[..|a| - 1], lo + hi);
      SumConcat(lo, hi);
      SumConcat(lo, [t] + hi);
      SumConcat([t], hi);
    }
  }

  lemma {:induction false} MinedByIsSum(ts: seq<Transfer>, height: nat)
    ensures MinedBy(ts, height) == Sum(Below(ts, height + 1))
  {
    if ts != [] {
      var pre, t := ts[..|ts| - 1], ts[|ts| - 1];
      MinedByIsSum(pre, height);
      SumConcat(Below(pre, height + 1), [t]);
    }
  }

  /** The mined total up to a height depends only on which transfers were mined up to there. */
  lemma MinedByPermutation(a: seq<Transfer>, b: seq<Transfer>, height: nat)
    requires SameMinedUpTo(a, b, height)
    ensures MinedBy(a, height) == MinedBy(b, height)
  {
    var x, y := Below(a, height + 1), Below(b, height + 1);
    forall t
      ensures multiset(x)[t] == multiset(y)[t]
    {
      BelowCount(a, height + 1, t);
      BelowCount(b, height + 1, t);
    }
    assert multiset(x) == multiset(y);
    SumPermutation(x, y);
    MinedByIsSum(a, height);
    MinedByIsSum(b, height);
  }

  lemma {:induction false} MinedByMonotone(ts: seq<Transfer>, lo: nat, hi: nat)
    requires lo <= hi
    ensures MinedBy(ts, lo) <= MinedBy(ts, hi) <= Sum(ts)
  {
    if ts != [] {
      MinedByMonotone(ts[..|ts| - 1], lo, hi);
    }
  }

  lemma {:induction false} MinedByAll(ts: seq<Transfer>, height: nat)
    requires forall t | t in ts :: t.height.Some? && t.height.value <= height
    ensures MinedBy(ts, height) == Sum(ts)
  {
    if ts != [] {
      MinedByAll(ts[..|ts| - 1], height);
    }
  }

  // ---- Order ----

  lemma {:induction false} BelowSorted(ts: seq<Transfer>, height: nat)
    requires SortedByHeight(ts)
    ensures SortedByHeight(Below(ts, height))
    ensures forall t | t in Below(ts, height) :: t in ts && t.height.Some? && t.height.value < height
  {
    if ts != [] {
      BelowSorted(ts[..|ts| - 1], height);
    }
  }

  lemma SortedLast(ts: seq<Transfer>, t: Transfer)
    requires SortedByHeight(ts) && t in ts
    ensures t.CmpByHeight(ts[|ts| - 1]) != Greater
  {
    var i :| 0 <= i < |ts| && ts[i] == t;
  }

  /** On a sorted list the fold finds exactly the paid height. */
  lemma {:induction false} PaidFoldMeaning(ts: seq<Transfer>, requested: nat)
    requires SortedByHeight(ts)
    ensures IsPaidHeight(ts, requested, PaidFold(ts, requested))
  {
    if ts != [] {
      var n := |ts| - 1;
      var pre, t := ts[..n], ts[n];
      PaidFoldMeaning(pre, requested);
      forall u | u in ts
        ensures u.CmpByHeight(t) != Greater && (u == t || u in pre)
      {
        SortedLast(ts, u);
      }
      assert forall u | u in pre :: u in ts;
      assert t in ts;
      if PaidFold(pre, requested).None? {
        if Sum(ts) < requested {
          forall u | u in ts && u.height.Some?
            ensures MinedBy(ts, u.height.value) < requested
          {
            MinedByMonotone(ts, u.height.value, u.height.value);
          }
        } else if t.height.Some? {
          MinedByAll(ts, t.height.value);
        }
      }
    }
  }

  /** The paid height is decided by the mined transfers, in any order. */
  lemma SamePaidHeight(a: seq<Transfer>, b: seq<Transfer>, requested: nat, paid: Option<nat>)
    requires SameMined(a, b)
    requires IsPaidHeight(a, requested, paid)
    ensures IsPaidHeight(b, requested, paid)
  {
    forall t: Transfer | t.height.Some? ensures t in a <==> t in b {
      SameMinedMembers(a, b, t);
    }
    forall h: nat ensures MinedBy(a, h) == MinedBy(b, h) {
      MinedByPermutation(a, b, h);
    }
    if paid.Some? {
      var t :| t in a && t.height == paid;
      assert t in b;
    }
  }

  /** There is at most one paid height. */
  lemma PaidHeightUnique(ts: seq<Transfer>, requested: nat, p: Option<nat>, q: Option<nat>)
    requires IsPaidHeight(ts, requested, p) && IsPaidHeight(ts, requested, q)
    ensures p == q
  {
  }

  /** Lists that agree up to the paid height of one of them have the same paid height. */
  lemma PaidHeightKept(a: seq<Transfer>, b: seq<Transfer>, requested: nat, p: Option<nat>, q: Option<nat>)
    requires IsPaidHeight(a, requested, p) && IsPaidHeight(b, requested, q) && p.Some?
    requires SameMinedUpTo(a, b, p.value)
    ensures q == p
  {
    forall t: Transfer | t.height.Some? && t.height.value <= p.value ensures t in a <==> t in b {
      SameMinedMembers(a, b, t);
    }
    forall h: nat | h <= p.value ensures MinedBy(a, h) == MinedBy(b, h) {
      MinedByPermutation(a, b, h);
    }
    var t :| t in a && t.height == p;
    assert t in b && MinedBy(b, p.value) >= requested;
    if q.Some? {
      assert q.value <= p.value;
      var u :| u in b && u.height == q;
      assert u in a && MinedBy(a, q.value) >= requested;
    }
  }

  /** For a positive request the paid height is the least height of all at which the mined
      total reaches the request, and there is none only if it never does. */
  lemma PaidHeightIsLeast(ts: seq<Transfer>, requested: nat, paid: Option<nat>)
    requires requested > 0
    requires IsPaidHeight(ts, requested, paid)
    ensures forall h: nat :: MinedBy(ts, h) >= requested <==> paid.Some? && paid.value <= h
  {
    forall h: nat
      ensures MinedBy(ts, h) >= requested <==> paid.Some? && paid.value <= h
    {
      if paid.Some? && paid.value <= h {
        MinedByMonotone(ts, paid.value, h);
      } else if MinedBy(ts, h) > 0 {
        var t := Latest(ts, h);
      }
    }
  }

  /** If anything was mined up to a height, the newest of it accounts for all of it. */
  lemma {:induction false} Latest(ts: seq<Transfer>, height: nat) returns (t: Transfer)
    requires MinedBy(ts, height) > 0
    ensures t in ts && t.height.Some? && t.height.value <= height
    ensures MinedBy(ts, t.height.value) == MinedBy(ts, height)
    decreases height
  {
    if u :| u in ts && u.height == Some(height) {
      t := u;
    } else {
      SkipHeight(ts, height);
      t := Latest(ts, height - 1);
    }
  }

  lemma {:induction false} SkipHeight(ts: seq<Transfer>, height: nat)
    requires forall t | t in ts :: t.height != Some(height)
    ensures MinedBy(ts, height) == if height == 0 then 0 else MinedBy(ts, height - 1)
  {
    if ts != [] {
      SkipHeight(ts[..|ts| - 1], height);
    }
  }
}
