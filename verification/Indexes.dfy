/** Subaddress indexes and invoice ids, with the orders that `BTreeMap` keys use. */
module Indexes {
  import opened Common

  const U32_MAX: nat := 0xFFFF_FFFF

  type u32 = x: int | 0 <= x <= U32_MAX

  datatype SubIndex = SubIndex(major: u32, minor: u32) {
    /** Account first, then position in the account. */
    function Cmp(other: SubIndex): Ordering {
      match Compare(major, other.major)
      case Equal => Compare(minor, other.minor)
      case o => o
    }
  }

  /** A total order: by account, and inside an account by position. */
  lemma SubIndexOrder(a: SubIndex, b: SubIndex, c: SubIndex)
    ensures a.Cmp(b) == Equal <==> a == b
    ensures a.Cmp(b) == Less <==> a.major < b.major || (a.major == b.major && a.minor < b.minor)
    ensures a.Cmp(b) == Less <==> b.Cmp(a) == Greater
    ensures a.Cmp(b) != Greater && b.Cmp(c) != Greater ==> a.Cmp(c) != Greater
  {
  }

  datatype InvoiceId = InvoiceId(sub: SubIndex, creationHeight: nat) {
    /** Subaddress first, then creation height. */
    function Cmp(other: InvoiceId): Ordering {
      match sub.Cmp(other.sub)
      case Equal => Compare(creationHeight, other.creationHeight)
      case o => o
    }
  }

  /** A total order: by subaddress, and for one subaddress by creation height. */
  lemma InvoiceIdOrder(a: InvoiceId, b: InvoiceId, c: InvoiceId)
    ensures a.Cmp(b) == Equal <==> a == b
    ensures a.Cmp(b) == Less <==> a.sub.Cmp(b.sub) == Less || (a.sub == b.sub && a.creationHeight < b.creationHeight)
    ensures a.Cmp(b) == Less <==> b.Cmp(a) == Greater
    ensures a.Cmp(b) != Greater && b.Cmp(c) != Greater ==> a.Cmp(c) != Greater
  {
    SubIndexOrder(a.sub, b.sub, c.sub);
    SubIndexOrder(b.sub, c.sub, a.sub);
    SubIndexOrder(b.sub, a.sub, c.sub);
  }
}
