/** Invoices: their state, what it says about payment, and equality up to transfer order. */
module Invoices {
  import opened Common
  import opened Indexes
  import opened Transfers

  datatype Invoice = Invoice(
    address: string,
    index: SubIndex,
    creationHeight: nat,
    amountRequested: nat,
    amountPaid: nat,
    paidHeight: Option<nat>,
    confirmationsRequired: nat,
    currentHeight: nat,
    expirationHeight: nat,
    transfers: seq<Transfer>,
    description: string)
  {
    function Id(): InvoiceId {
      InvoiceId(index, creationHeight)
    }

    /** Confirmations since the invoice was paid in full, if it was. */
    function Confirmations(): Option<nat> {
      if amountPaid >= amountRequested then
        match paidHeight
        case None => Some(0)
        case Some(h) => Some(Max(currentHeight - h, 0))
      else None
    }

    predicate IsConfirmed() {
      match Confirmations()
      case None => false
      case Some(c) => c >= confirmationsRequired
    }

    predicate IsExpired() {
      currentHeight >= expirationHeight && paidHeight.None?
    }

    /** What never changes over the life of an invoice. */
    ghost predicate SameTerms(other: Invoice) {
      && address == other.address
      && index == other.index
      && creationHeight == other.creationHeight
      && amountRequested == other.amountRequested
      && confirmationsRequired == other.confirmationsRequired
      && expirationHeight == other.expirationHeight
      && description == other.description
    }

    /** The terms are everything but what a scan works out. */
    lemma TermsAre(other: Invoice)
      ensures SameTerms(other) <==>
              this.(amountPaid := other.amountPaid, paidHeight := other.paidHeight,
                    currentHeight := other.currentHeight, transfers := other.transfers) == other
    {
    }

    /** Equality of invoices: the order of the transfers does not matter. */
    ghost predicate Same(other: Invoice) {
      && multiset(transfers) == multiset(other.transfers)
      && SameTerms(other)
      && amountPaid == other.amountPaid
      && paidHeight == other.paidHeight
      && currentHeight == other.currentHeight
    }

    /** The totals are those that folding the transfers gives. */
    ghost predicate Folded() {
      && amountPaid == Sum(transfers)
      && paidHeight == PaidFold(transfers, amountRequested)
    }
  }

  /** A fresh invoice. */
  function NewInvoice(address: string, index: SubIndex, creationHeight: nat, amountRequested: nat,
                      confirmationsRequired: nat, expirationIn: nat, description: string): (inv: Invoice)
    ensures inv.Folded()
  {
    Invoice(address, index, creationHeight, amountRequested, 0, None, confirmationsRequired, 0,
            creationHeight + expirationIn, [], description)
  }

  /** `m` counts every transfer of `ts`. */
  ghost predicate Counts(m: map<Transfer, nat>, ts: seq<Transfer>) {
    forall t :: (if t in m then m[t] else 0) == multiset(ts)[t] && (t in m ==> m[t] > 0)
  }

  method CountTransfers(ts: seq<Transfer>) returns (m: map<Transfer, nat>)
    ensures Counts(m, ts)
  {
    m := map[];
    for i := 0 to |ts|
      invariant Counts(m, ts[..i])
    {
      var t := ts[i];
      MultisetSnoc(ts[..i + 1]);
      assert ts[..i + 1][..i] == ts[..i];
      m := m[t := (if t in m then m[t] else 0) + 1];
    }
    assert ts[..|ts|] == ts;
  }

  lemma CountsAgree(m: map<Transfer, nat>, n: map<Transfer, nat>, a: seq<Transfer>, b: seq<Transfer>)
    requires Counts(m, a) && Counts(n, b)
    ensures m == n <==> multiset(a) == multiset(b)
  {
    if m == n {
      forall t ensures multiset(a)[t] == multiset(b)[t] {
        assert (if t in m then m[t] else 0) == multiset(a)[t];
      }
      assert multiset(a) == multiset(b);
    }
  }

  /** The two counting maps agree exactly when the transfers are permutations of each other. */
  method Equals(a: Invoice, b: Invoice) returns (same: bool)
    ensures same <==> a.Same(b)
    ensures same <==> multiset(a.transfers) == multiset(b.transfers) && a.(transfers := b.transfers) == b
  {
    var lhs := CountTransfers(a.transfers);
    var rhs := CountTransfers(b.transfers);
    CountsAgree(lhs, rhs, a.transfers, b.transfers);
    same := lhs == rhs
            && a.address == b.address
            && a.index == b.index
            && a.creationHeight == b.creationHeight
            && a.amountRequested == b.amountRequested
            && a.amountPaid == b.amountPaid
            && a.paidHeight == b.paidHeight
            && a.confirmationsRequired == b.confirmationsRequired
            && a.currentHeight == b.currentHeight
            && a.expirationHeight == b.expirationHeight
            && a.description == b.description;
  }

  /** Skipping the refold is sound: when two sorted invoices are equal and one holds the
      totals of its own transfers, those are also the totals of the other's transfers. */
  lemma SkippedRefold(before: Invoice, after: Invoice)
    requires before.Folded() && before.Same(after)
    requires SortedByHeight(before.transfers) && SortedByHeight(after.transfers)
    ensures after.Folded()
  {
    SumPermutation(before.transfers, after.transfers);
    PaidFoldMeaning(before.transfers, before.amountRequested);
    PaidFoldMeaning(after.transfers, after.amountRequested);
    SamePaidHeight(before.transfers, after.transfers, before.amountRequested, before.paidHeight);
    PaidHeightUnique(after.transfers, before.amountRequested, before.paidHeight,
                     PaidFold(after.transfers, before.amountRequested));
  }
}
