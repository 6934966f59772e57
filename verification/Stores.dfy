/** The in-memory invoice store: a map from invoice id to invoice, ordered by id. */
module Stores {
  import opened Common
  import opened Indexes
  import opened Invoices

  /** Some stored id lies at or above the least id of the subaddress. */
  predicate ContainsAtOrAbove(ids: set<InvoiceId>, sub: SubIndex) {
    exists id | id in ids :: id.Cmp(InvoiceId(sub, 0)) != Less
  }

  ghost predicate Tracks(ids: set<InvoiceId>, sub: SubIndex) {
    exists id :: id in ids && id.sub == sub
  }

  /** The test never misses a tracked subaddress. It is exact for a subaddress unless that
      subaddress is untracked while a greater one is tracked. */
  lemma ContainsSubIndexExactness(ids: set<InvoiceId>, sub: SubIndex)
    ensures Tracks(ids, sub) ==> ContainsAtOrAbove(ids, sub)
    ensures (ContainsAtOrAbove(ids, sub) <==> Tracks(ids, sub)) <==>
            Tracks(ids, sub) || forall id | id in ids :: id.sub.Cmp(sub) == Less
  {
    if Tracks(ids, sub) {
      var id :| id in ids && id.sub == sub;
      assert id.Cmp(InvoiceId(sub, 0)) != Less;
    } else {
      forall id | id in ids
        ensures id.Cmp(InvoiceId(sub, 0)) != Less <==> id.sub.Cmp(sub) != Less
      {
      }
    }
  }

  /** An untracked subaddress that the test reports as tracked. */
  lemma ContainsSubIndexOverReports()
    ensures var ids := {InvoiceId(SubIndex(1, 5), 7)};
            ContainsAtOrAbove(ids, SubIndex(1, 2)) && !Tracks(ids, SubIndex(1, 2))
  {
    var id := InvoiceId(SubIndex(1, 5), 7);
    assert id in {id} && id.Cmp(InvoiceId(SubIndex(1, 2), 0)) != Less;
  }

  /** No stored invoice has a lower current height. */
  ghost predicate IsLowest(invoices: map<InvoiceId, Invoice>, low: InvoiceId) {
    low in invoices && forall id | id in invoices :: invoices[low].currentHeight <= invoices[id].currentHeight
  }

  datatype StoreError = DuplicateEntry

  class InMemory {
    var invoices: map<InvoiceId, Invoice>

    /** Every invoice is filed under its own id. */
    ghost predicate Valid()
      reads this
    {
      forall id | id in invoices :: invoices[id].Id() == id
    }

    constructor ()
      ensures Valid() && invoices == map[]
    {
      invoices := map[];
    }

    method Insert(invoice: Invoice) returns (r: Result<(), StoreError>)
      requires Valid()
      modifies this
      ensures Valid()
      ensures r.Err? <==> invoice.Id() in old(invoices)
      ensures invoices == if r.Err? then old(invoices) else old(invoices)[invoice.Id() := invoice]
    {
      if invoice.Id() in invoices {
        return Err(DuplicateEntry);
      }
      invoices := invoices[invoice.Id() := invoice];
      r := Ok(());
    }

    method Remove(id: InvoiceId) returns (removed: Option<Invoice>)
      requires Valid()
      modifies this
      ensures Valid()
      ensures removed == if id in old(invoices) then Some(old(invoices)[id]) else None
      ensures invoices == old(invoices) - {id}
    {
      removed := if id in invoices then Some(invoices[id]) else None;
      invoices := invoices - {id};
    }

    /** Overwrites a stored invoice; an invoice that is not stored is not added. */
    method Update(invoice: Invoice) returns (previous: Option<Invoice>)
      requires Valid()
      modifies this
      ensures Valid()
      ensures previous == if invoice.Id() in old(invoices) then Some(old(invoices)[invoice.Id()]) else None
      ensures invoices.Keys == old(invoices).Keys
      ensures forall id | id in invoices :: invoices[id] == if id == invoice.Id() then invoice else old(invoices)[id]
    {
      if invoice.Id() in invoices {
        previous := Some(invoices[invoice.Id()]);
        invoices := invoices[invoice.Id() := invoice];
      } else {
        previous := None;
      }
    }

    /** What is found under an id is the stored invoice with that id. */
    method Get(id: InvoiceId) returns (found: Option<Invoice>)
      requires Valid()
      ensures found.Some? <==> id in invoices
      ensures found.Some? ==> found.value.Id() == id && invoices[id] == found.value
    {
      found := if id in invoices then Some(invoices[id]) else None;
    }

    method ContainsSubIndex(sub: SubIndex) returns (contained: bool)
      ensures contained <==> ContainsAtOrAbove(invoices.Keys, sub)
    {
      contained := ContainsAtOrAbove(invoices.Keys, sub);
    }

    method IsEmpty() returns (empty: bool)
      ensures empty <==> invoices == map[]
    {
      empty := invoices.Keys == {};
    }

    /** The least current height of any stored invoice; scanning resumes from there. */
    method LowestHeight() returns (lowest: Option<nat>)
      ensures lowest.None? <==> invoices == map[]
      ensures lowest.Some? ==> exists id :: id in invoices && invoices[id].currentHeight == lowest.value
                                            && IsLowest(invoices, id)
      ensures forall id | id in invoices && IsLowest(invoices, id) :: lowest == Some(invoices[id].currentHeight)
    {
      lowest := None;
      var rest := invoices.Keys;
      while rest != {}
        invariant rest <= invoices.Keys
        invariant lowest.None? <==> rest == invoices.Keys
        invariant lowest.Some? ==> exists id :: id in invoices && invoices[id].currentHeight == lowest.value
        invariant lowest.Some? ==> forall id | id in invoices.Keys - rest :: lowest.value <= invoices[id].currentHeight
        decreases rest
      {
        var id :| id in rest;
        if lowest.None? || invoices[id].currentHeight < lowest.value {
          lowest := Some(invoices[id].currentHeight);
        }
        rest := rest - {id};
      }
      if lowest.Some? {
        var id :| id in invoices && invoices[id].currentHeight == lowest.value;
        assert IsLowest(invoices, id);
      }
    }
  }
}
