/** Fan-out of invoice updates to subscribers, dropping senders whose receiver is gone. */
module PubSub {
  import opened Common
  import opened Indexes
  import opened Invoices

  /** A sender, and whether its receiver still exists. */
  datatype Sender = Sender(id: nat, open: bool)

  datatype Delivery = Delivery(sender: Sender, invoice: Invoice)

  ghost predicate DistinctIds(senders: seq<Sender>) {
    forall i, j | 0 <= i < j < |senders| :: senders[i].id != senders[j].id
  }

  /** Removal moves the last sender into the gap. */
  function SwapRemove(senders: seq<Sender>, i: nat): (rest: seq<Sender>)
    requires i < |senders|
    ensures |rest| == |senders| - 1
  {
    senders[i := senders[|senders| - 1]][..|senders| - 1]
  }

  /** The index of the first closed sender, or the number of senders. */
  function FirstClosed(senders: seq<Sender>): (k: nat)
    ensures k <= |senders|
    ensures forall i | 0 <= i < k :: senders[i].open
    ensures k < |senders| ==> !senders[k].open
  {
    if senders == [] || !senders[0].open then 0 else 1 + FirstClosed(senders[1..])
  }

  function Reverse<T>(s: seq<T>): (r: seq<T>)
    ensures |r| == |s|
    ensures forall i | 0 <= i < |s| :: r[i] == s[|s| - 1 - i]
  {
    if s == [] then [] else [s[|s| - 1]] + Reverse(s[..|s| - 1])
  }

  /** The order in which one update reaches the senders: in list order up to the first closed
      one, and from there on backwards from the end. */
  function SendOrder(senders: seq<Sender>): seq<Sender> {
    var k := FirstClosed(senders);
    if k == |senders| then senders else senders[..k + 1] + Reverse(senders[k + 1..])
  }

  function Deliveries(senders: seq<Sender>, invoice: Invoice): (d: seq<Delivery>)
    ensures |d| == |senders|
    ensures forall i | 0 <= i < |senders| :: d[i] == Delivery(senders[i], invoice)
  {
    if senders == [] then []
    else Deliveries(senders[..|senders| - 1], invoice) + [Delivery(senders[|senders| - 1], invoice)]
  }

  lemma {:induction false} ReversePermutation<T>(s: seq<T>)
    ensures multiset(Reverse(s)) == multiset(s)
  {
    if s != [] {
      ReversePermutation(s[..|s| - 1]);
      assert s == s[..|s| - 1] + [s[|s| - 1]];
    }
  }

  /** Every registered sender is reached exactly once. */
  lemma ReachesEachOnce(senders: seq<Sender>)
    ensures multiset(SendOrder(senders)) == multiset(senders)
  {
    hide FirstClosed, Reverse;
    var k := FirstClosed(senders);
    if k < |senders| {
      var front, back := senders[..k + 1], senders[k + 1..];
      ReversePermutation(back);
      assert senders == front + back;
      assert multiset(front + Reverse(back)) == multiset(front) + multiset(Reverse(back));
    }
  }

  /** No closed sender stays registered, and the list is unchanged exactly if none was closed. */
  lemma ClosedSendersDropped(senders: seq<Sender>)
    ensures forall s | s in senders[..FirstClosed(senders)] :: s.open
    ensures senders[..FirstClosed(senders)] == senders <==> forall s | s in senders :: s.open
  {
    var k := FirstClosed(senders);
    if k < |senders| {
      assert senders[k] in senders;
    }
  }

  /** No open sender comes after a closed one. */
  ghost predicate OpenFirst(senders: seq<Sender>) {
    forall i, j | 0 <= i < j < |senders| :: senders[i].open || !senders[j].open
  }

  ghost predicate KeepsOpen(senders: seq<Sender>, kept: seq<Sender>) {
    forall s | s in senders && s.open :: s in kept
  }

  lemma BehindClosedLost(senders: seq<Sender>, i: nat, j: nat)
    requires DistinctIds(senders) && i < j < |senders| && !senders[i].open
    ensures senders[j] !in senders[..FirstClosed(senders)]
  {
    assert FirstClosed(senders) <= i;
  }

  lemma OpenBeforeFirstClosed(senders: seq<Sender>, j: nat)
    requires OpenFirst(senders) && j < |senders| && senders[j].open
    ensures senders[j] in senders[..FirstClosed(senders)]
  {
    var k := FirstClosed(senders);
    assert j < k;
    assert senders[..k][j] == senders[j];
  }

  /** All open senders stay registered exactly if none of them comes after a closed one. */
  lemma OpenSendersKeptIff(senders: seq<Sender>)
    requires DistinctIds(senders)
    ensures KeepsOpen(senders, senders[..FirstClosed(senders)]) <==> OpenFirst(senders)
  {
    hide FirstClosed;
    if OpenFirst(senders) {
      forall s | s in senders && s.open ensures s in senders[..FirstClosed(senders)] {
        var j :| 0 <= j < |senders| && senders[j] == s;
        OpenBeforeFirstClosed(senders, j);
      }
    } else {
      var i, j :| 0 <= i < j < |senders| && !senders[i].open && senders[j].open;
      BehindClosedLost(senders, i, j);
      assert senders[j] in senders;
    }
  }

  /** An open sender that loses its registration because it comes after a closed one. */
  lemma OpenSenderDropped()
    ensures var senders := [Sender(1, false), Sender(2, true)];
            senders[1].open && senders[..FirstClosed(senders)] == []
  {
  }

  /** The fan-out loop from an index on: the senders it still reaches, and the list it leaves.
      The flag stays set once a closed sender has been met. */
  function Rounds(senders: seq<Sender>, index: nat, closed: bool): (seq<Sender>, seq<Sender>)
    decreases |senders| - index
  {
    if index >= |senders| then ([], senders)
    else
      var s := senders[index];
      var (reached, left) := if closed || !s.open then Rounds(SwapRemove(senders, index), index, true)
                             else Rounds(senders, index + 1, false);
      ([s] + reached, left)
  }

  /** One turn of the loop, seen from its end: `all` is everything that is ever reached. */
  lemma RoundsStep(all: seq<Sender>, reached: seq<Sender>, senders: seq<Sender>, index: nat, closed: bool)
    requires index < |senders| && all == reached + Rounds(senders, index, closed).0
    ensures var s := senders[index];
            var c := closed || !s.open;
            var (rest, left) := if c then Rounds(SwapRemove(senders, index), index, true)
                                else Rounds(senders, index + 1, false);
            all == (reached + [s]) + rest && Rounds(senders, index, closed).1 == left
  {
  }

  lemma RoundsDone(senders: seq<Sender>, index: nat, closed: bool)
    requires index >= |senders|
    ensures Rounds(senders, index, closed) == ([], senders)
  {
  }

  lemma {:induction false} RoundsClosed(senders: seq<Sender>, index: nat)
    requires index < |senders|
    ensures Rounds(senders, index, true) == ([senders[index]] + Reverse(senders[index + 1..]), senders[..index])
    decreases |senders| - index
  {
    var rest := SwapRemove(senders, index);
    if index < |rest| {
      RoundsClosed(rest, index);
      assert rest[index + 1..] == senders[index + 1..][..|senders| - index - 2];
      assert rest[..index] == senders[..index];
    } else {
      assert rest == senders[..index];
    }
  }

  lemma {:induction false} RoundsOpen(senders: seq<Sender>, index: nat)
    requires index <= FirstClosed(senders)
    ensures Rounds(senders, index, false) == (SendOrder(senders)[index..], senders[..FirstClosed(senders)])
    decreases |senders| - index
  {
    var order := SendOrder(senders);
    if index == |senders| {
      assert senders[..index] == senders && order[index..] == [];
    } else if senders[index].open {
      RoundsOpen(senders, index + 1);
      assert order[index..] == [order[index]] + order[index + 1..];
    } else {
      RoundsClosed(senders, index);
      assert Rounds(senders, index, false) == Rounds(senders, index, true);
      assert order[index..] == [senders[index]] + Reverse(senders[index + 1..]);
    }
  }

  /** The whole loop reaches every sender once, in `SendOrder`, and keeps those before the
      first closed one. */
  lemma RoundsMeaning(senders: seq<Sender>)
    ensures Rounds(senders, 0, false) == (SendOrder(senders), senders[..FirstClosed(senders)])
  {
    RoundsOpen(senders, 0);
  }

  lemma DeliveriesNone(invoice: Invoice)
    ensures Deliveries([], invoice) == []
  {
  }

  lemma {:induction false} DeliveriesSnoc(senders: seq<Sender>, s: Sender, invoice: Invoice)
    ensures Deliveries(senders + [s], invoice) == Deliveries(senders, invoice) + [Delivery(s, invoice)]
  {
  }

  // ---- Announcing updates ----

  /** Who is registered for the updates of one invoice, and for all updates. */
  datatype Subscribers = Subscribers(byInvoice: map<InvoiceId, seq<Sender>>, global: seq<Sender>) {
    function Of(target: Option<InvoiceId>): seq<Sender> {
      match target
      case None => global
      case Some(id) => if id in byInvoice then byInvoice[id] else []
    }

    /** Who is still registered after one update was sent. */
    function After(invoice: Invoice): Subscribers {
      var id, own := invoice.Id(), Of(Some(invoice.Id()));
      Subscribers(if id in byInvoice then byInvoice[id := own[..FirstClosed(own)]] else byInvoice,
                  global[..FirstClosed(global)])
    }

    /** The attempts to send one update. */
    function Sent(invoice: Invoice): seq<Delivery> {
      Deliveries(SendOrder(Of(Some(invoice.Id()))), invoice) + Deliveries(SendOrder(global), invoice)
    }
  }

  lemma {:induction false} DeliveriesCount(senders: seq<Sender>, invoice: Invoice, d: Delivery)
    ensures multiset(Deliveries(senders, invoice))[d] == if d.invoice == invoice then multiset(senders)[d.sender] else 0
  {
    if senders != [] {
      var pre, last := senders[..|senders| - 1], senders[|senders| - 1];
      DeliveriesCount(pre, invoice, d);
      assert senders == pre + [last];
      assert Deliveries(senders, invoice) == Deliveries(pre, invoice) + [Delivery(last, invoice)];
    }
  }

  /** Sending to the senders in the order of the loop is sending to each registered one once. */
  lemma OrderedDeliveries(senders: seq<Sender>, invoice: Invoice)
    ensures |Deliveries(SendOrder(senders), invoice)| == |senders|
    ensures multiset(Deliveries(SendOrder(senders), invoice)) == multiset(Deliveries(senders, invoice))
  {
    ReachesEachOnce(senders);
    assert |multiset(SendOrder(senders))| == |multiset(senders)|;
    forall d
      ensures multiset(Deliveries(SendOrder(senders), invoice))[d] == multiset(Deliveries(senders, invoice))[d]
    {
      DeliveriesCount(SendOrder(senders), invoice, d);
      DeliveriesCount(senders, invoice, d);
    }
  }

  /** The attempts `log` are one for each of the invoice's own subscribers and then one for each
      subscriber of all invoices, as registered in `subs`. */
  ghost predicate SentToEach(log: seq<Delivery>, subs: Subscribers, invoice: Invoice) {
    var own := subs.Of(Some(invoice.Id()));
    && |log| == |own| + |subs.global|
    && multiset(log[..|own|]) == multiset(Deliveries(own, invoice))
    && multiset(log[|own|..]) == multiset(Deliveries(subs.global, invoice))
  }

  lemma SentIsToEach(subs: Subscribers, invoice: Invoice)
    ensures SentToEach(subs.Sent(invoice), subs, invoice)
  {
    hide SendOrder, Deliveries;
    var own := subs.Of(Some(invoice.Id()));
    OrderedDeliveries(own, invoice);
    OrderedDeliveries(subs.global, invoice);
    var log := subs.Sent(invoice);
    assert log[..|own|] == Deliveries(SendOrder(own), invoice);
    assert log[|own|..] == Deliveries(SendOrder(subs.global), invoice);
  }

  /** Announcing updates one after the other: the attempts, and who is still registered. */
  function Announced(subs: Subscribers, updates: seq<Invoice>): (seq<Delivery>, Subscribers) {
    if updates == [] then ([], subs)
    else
      var last := updates[|updates| - 1];
      var (log, left) := Announced(subs, updates[..|updates| - 1]);
      (log + left.Sent(last), left.After(last))
  }

  lemma NothingAnnounced(subs: Subscribers)
    ensures Announced(subs, []) == ([], subs)
  {
  }

  lemma AnnouncedNext(subs: Subscribers, updates: seq<Invoice>, i: nat)
    requires i < |updates|
    ensures var (log, left) := Announced(subs, updates[..i]);
            Announced(subs, updates[..i + 1]) == (log + left.Sent(updates[i]), left.After(updates[i]))
  {
    assert updates[..i + 1][..i] == updates[..i];
  }

  /** A sender is registered and every sender before it is open, and so is the sender itself. */
  ghost predicate Reachable(senders: seq<Sender>, s: Sender) {
    s in senders[..FirstClosed(senders)]
  }

  lemma ReachableStays(senders: seq<Sender>, s: Sender)
    requires Reachable(senders, s)
    ensures Reachable(senders[..FirstClosed(senders)], s)
  {
    var kept := senders[..FirstClosed(senders)];
    assert FirstClosed(kept) == |kept|;
    assert kept[..|kept|] == kept;
  }

  lemma ReachableIsSent(senders: seq<Sender>, s: Sender, invoice: Invoice)
    requires Reachable(senders, s)
    ensures Delivery(s, invoice) in Deliveries(SendOrder(senders), invoice)
  {
    assert s in senders;
    ReachesEachOnce(senders);
    assert s in multiset(SendOrder(senders));
    var i :| 0 <= i < |SendOrder(senders)| && SendOrder(senders)[i] == s;
    assert Deliveries(SendOrder(senders), invoice)[i] == Delivery(s, invoice);
  }

  /** A subscriber with no closed sender before it stays registered and is sent every update
      that it subscribed to. */
  lemma {:induction false} AnnouncedToReachable(subs: Subscribers, updates: seq<Invoice>, target: Option<InvoiceId>, s: Sender)
    requires Reachable(subs.Of(target), s)
    ensures var (log, left) := Announced(subs, updates);
            && Reachable(left.Of(target), s)
            && forall u | u in updates && (target.None? || target.value == u.Id()) :: Delivery(s, u) in log
  {
    hide FirstClosed, SendOrder, Deliveries, Reachable;
    if updates != [] {
      var pre, last := updates[..|updates| - 1], updates[|updates| - 1];
      AnnouncedToReachable(subs, pre, target, s);
      var left := Announced(subs, pre).1;
      assert updates == pre + [last];
      if target.None? || target.value == last.Id() {
        ReachableStays(left.Of(target), s);
        ReachableIsSent(left.Of(target), s, last);
      }
    }
  }

  /** How often a sender is registered for the updates of an invoice. */
  ghost function Registrations(subs: Subscribers, s: Sender, id: InvoiceId): nat {
    multiset(subs.Of(Some(id)))[s] + multiset(subs.global)[s]
  }

  lemma SentCount(subs: Subscribers, invoice: Invoice, d: Delivery)
    ensures multiset(subs.Sent(invoice))[d] ==
            if d.invoice == invoice then Registrations(subs, d.sender, invoice.Id()) else 0
  {
    hide SendOrder, Deliveries;
    var own := subs.Of(Some(invoice.Id()));
    OrderedDeliveries(own, invoice);
    OrderedDeliveries(subs.global, invoice);
    DeliveriesCount(own, invoice, d);
    DeliveriesCount(subs.global, invoice, d);
  }

  lemma PrefixCount<T>(s: seq<T>, k: nat, x: T)
    requires k <= |s|
    ensures multiset(s[..k])[x] <= multiset(s)[x]
  {
    assert s == s[..k] + s[k..];
  }

  /** Registrations only shrink, those before the first closed sender stay. */
  lemma {:induction false} RegistrationsShrink(subs: Subscribers, updates: seq<Invoice>, s: Sender, id: InvoiceId)
    ensures Registrations(Announced(subs, updates).1, s, id) <= Registrations(subs, s, id)
  {
    hide FirstClosed, SendOrder, Deliveries;
    if updates != [] {
      var left := Announced(subs, updates[..|updates| - 1]).1;
      RegistrationsShrink(subs, updates[..|updates| - 1], s, id);
      PrefixCount(left.global, FirstClosed(left.global), s);
      PrefixCount(left.Of(Some(id)), FirstClosed(left.Of(Some(id))), s);
    }
  }

  /** Over all updates of a scan, each of them different, no sender is sent an update more often than
      it was registered for it, and nothing else is sent. */
  lemma {:induction false} AnnouncedAtMost(subs: Subscribers, updates: seq<Invoice>, d: Delivery)
    requires forall i, j | 0 <= i < j < |updates| :: updates[i] != updates[j]
    ensures multiset(Announced(subs, updates).0)[d] <=
            if d.invoice in updates then Registrations(subs, d.sender, d.invoice.Id()) else 0
  {
    hide *;
    if updates == [] {
      NothingAnnounced(subs);
    } else {
      var pre, last := updates[..|updates| - 1], updates[|updates| - 1];
      AnnouncedAtMost(subs, pre, d);
      AnnouncedMore(subs, updates, d);
      RegistrationsShrink(subs, pre, d.sender, last.Id());
      assert updates == pre + [last];
      assert last !in pre;
    }
  }

  lemma AnnouncedMore(subs: Subscribers, updates: seq<Invoice>, d: Delivery)
    requires updates != []
    ensures var pre, last := updates[..|updates| - 1], updates[|updates| - 1];
            multiset(Announced(subs, updates).0)[d] == multiset(Announced(subs, pre).0)[d] +
              if d.invoice == last then Registrations(Announced(subs, pre).1, d.sender, last.Id()) else 0
  {
    hide SendOrder, Deliveries, FirstClosed, Registrations;
    var left := Announced(subs, updates[..|updates| - 1]).1;
    SentCount(left, updates[|updates| - 1], d);
  }

  /** A subscriber that is registered once for an update, with no closed sender before it, is sent
      that update exactly once. */
  lemma AnnouncedExactlyOnce(subs: Subscribers, updates: seq<Invoice>, target: Option<InvoiceId>, s: Sender, u: Invoice)
    requires forall i, j | 0 <= i < j < |updates| :: updates[i] != updates[j]
    requires Reachable(subs.Of(target), s) && u in updates && (target.None? || target.value == u.Id())
    requires Registrations(subs, s, u.Id()) == 1
    ensures multiset(Announced(subs, updates).0)[Delivery(s, u)] == 1
  {
    AnnouncedToReachable(subs, updates, target, s);
    AnnouncedAtMost(subs, updates, Delivery(s, u));
    assert Delivery(s, u) in multiset(Announced(subs, updates).0);
  }

  class Publisher {
    var invoiceSubs: map<InvoiceId, seq<Sender>>
    var globalSubs: seq<Sender>
    /** Every attempt to send, in order. */
    ghost var log: seq<Delivery>

    ghost predicate Valid()
      reads this
    {
      DistinctIds(globalSubs) && forall id | id in invoiceSubs :: DistinctIds(invoiceSubs[id])
    }

    constructor ()
      ensures Valid() && invoiceSubs == map[] && globalSubs == [] && log == []
    {
      invoiceSubs := map[];
      globalSubs := [];
      log := [];
    }

    function Registered(): Subscribers
      reads this
    {
      Subscribers(invoiceSubs, globalSubs)
    }

    function Subs(target: Option<InvoiceId>): seq<Sender>
      reads this
    {
      Registered().Of(target)
    }

    method InsertInvoice(id: InvoiceId)
      requires Valid()
      modifies this`invoiceSubs
      ensures Valid() && invoiceSubs == old(invoiceSubs)[id := []]
    {
      invoiceSubs := invoiceSubs[id := []];
    }

    method RemoveInvoice(id: InvoiceId)
      requires Valid()
      modifies this`invoiceSubs
      ensures Valid() && invoiceSubs == old(invoiceSubs) - {id}
    {
      invoiceSubs := invoiceSubs - {id};
    }

    /** Registers an open sender under a new id, if the invoice is known. */
    method Subscribe(id: InvoiceId, senderId: nat) returns (subscribed: bool)
      requires Valid() && forall s | s in Subs(Some(id)) :: s.id != senderId
      modifies this`invoiceSubs
      ensures Valid() && (subscribed <==> id in old(invoiceSubs))
      ensures invoiceSubs == if !subscribed then old(invoiceSubs)
                             else old(invoiceSubs)[id := old(invoiceSubs)[id] + [Sender(senderId, true)]]
    {
      subscribed := id in invoiceSubs;
      if subscribed {
        invoiceSubs := invoiceSubs[id := invoiceSubs[id] + [Sender(senderId, true)]];
      }
    }

    method SubscribeAll(senderId: nat)
      requires Valid() && forall s | s in globalSubs :: s.id != senderId
      modifies this`globalSubs
      ensures Valid() && globalSubs == old(globalSubs) + [Sender(senderId, true)]
    {
      globalSubs := globalSubs + [Sender(senderId, true)];
    }

    method GetSenderByIndex(target: Option<InvoiceId>, index: nat) returns (sender: Option<Sender>)
      ensures sender == if index < |Subs(target)| then Some(Subs(target)[index]) else None
    {
      sender := if index < |Subs(target)| then Some(Subs(target)[index]) else None;
    }

    /** Removes the sender with the given id, wherever it is. */
    method RemoveSender(target: Option<InvoiceId>, senderId: nat, ghost at: nat)
      requires Valid() && at < |Subs(target)| && Subs(target)[at].id == senderId
      modifies this`invoiceSubs, this`globalSubs
      ensures Valid() && Subs(target) == SwapRemove(old(Subs(target)), at)
      ensures invoiceSubs.Keys == old(invoiceSubs).Keys
      ensures target.Some? ==> globalSubs == old(globalSubs)
      ensures forall id | id in invoiceSubs && target != Some(id) :: invoiceSubs[id] == old(invoiceSubs)[id]
    {
      var senders := Subs(target);
      var i := 0;
      while senders[i].id != senderId
        invariant 0 <= i <= at
        decreases at - i
      {
        i := i + 1;
      }
      assert i == at;
      var rest := SwapRemove(senders, i);
      match target
      case None => globalSubs := rest;
      case Some(id) => invoiceSubs := invoiceSubs[id := rest];
    }

    /** One of the two fan-out loops of `SendUpdates`. Once a closed sender has been met, every
        further sender is removed as well. */
    method SendTo(target: Option<InvoiceId>, invoice: Invoice)
      requires Valid()
      modifies this
      ensures Valid()
      ensures Subs(target) == old(Subs(target))[..FirstClosed(old(Subs(target)))]
      ensures invoiceSubs.Keys == old(invoiceSubs).Keys
      ensures target.Some? ==> globalSubs == old(globalSubs)
      ensures forall id | id in invoiceSubs && target != Some(id) :: invoiceSubs[id] == old(invoiceSubs)[id]
      ensures log == old(log) + Deliveries(SendOrder(old(Subs(target))), invoice)
    {
      hide Rounds, SwapRemove, Deliveries, SendOrder, FirstClosed, DistinctIds;
      ghost var senders := Subs(target);
      ghost var reached: seq<Sender> := [];
      ghost var (all, last) := Rounds(senders, 0, false);
      RoundsMeaning(senders);
      DeliveriesNone(invoice);
      var index := 0;
      var closed := false;
      var sender := GetSenderByIndex(target, index);
      while sender.Some?
        invariant Valid()
        invariant sender == if index < |Subs(target)| then Some(Subs(target)[index]) else None
        invariant all == reached + Rounds(Subs(target), index, closed).0
        invariant last == Rounds(Subs(target), index, closed).1
        invariant invoiceSubs.Keys == old(invoiceSubs).Keys
        invariant target.Some? ==> globalSubs == old(globalSubs)
        invariant forall id | id in invoiceSubs && target != Some(id) :: invoiceSubs[id] == old(invoiceSubs)[id]
        invariant log == old(log) + Deliveries(reached, invoice)
        decreases |Subs(target)| - index
      {
        DeliveriesSnoc(reached, sender.value, invoice);
        RoundsStep(all, reached, Subs(target), index, closed);
        log := log + [Delivery(sender.value, invoice)];
        reached := reached + [sender.value];
        if !sender.value.open {
          closed := true;
        }
        if closed {
          RemoveSender(target, sender.value.id, index);
        } else {
          index := index + 1;
        }
        sender := GetSenderByIndex(target, index);
      }
      RoundsDone(Subs(target), index, closed);
      assert all == reached;
    }

    /** Sends the update to the subscribers of the invoice, then to those of all invoices. */
    method SendUpdates(invoice: Invoice)
      requires Valid()
      modifies this
      ensures Valid()
      ensures Registered() == old(Registered()).After(invoice)
      ensures log == old(log) + old(Registered()).Sent(invoice)
      ensures |old(log)| <= |log| && log[..|old(log)|] == old(log)
      ensures SentToEach(log[|old(log)|..], old(Registered()), invoice)
      ensures globalSubs == old(globalSubs)[..FirstClosed(old(globalSubs))]
      ensures Subs(Some(invoice.Id())) == old(Subs(Some(invoice.Id())))[..FirstClosed(old(Subs(Some(invoice.Id()))))]
      ensures invoiceSubs.Keys == old(invoiceSubs).Keys
      ensures forall id | id in invoiceSubs && id != invoice.Id() :: invoiceSubs[id] == old(invoiceSubs)[id]
    {
      hide FirstClosed, SendOrder, Deliveries, SentToEach;
      SentIsToEach(Registered(), invoice);
      SendTo(Some(invoice.Id()), invoice);
      assert Subs(None) == old(Subs(None));
      SendTo(None, invoice);
    }
  }
}
