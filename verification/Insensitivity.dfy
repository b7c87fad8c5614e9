/**
 Delivery insensitivity: what payment events do to the books depends only on which events
 arrived, not on their order, their number, or the times of their handling.
 */
module Insensitivity {
  import opened Tables
  import opened Shapes
  import Pipeline
  import Pool

  /** Events of one outpoint report one payment. */
  predicate SamePayment(a: Event, b: Event) {
    a.outpoint == b.outpoint ==> a.address == b.address && a.amount == b.amount
  }

  ghost predicate Consistent(events: seq<Event>) {
    forall i, j | 0 <= i < |events| && 0 <= j < |events| :: SamePayment(events[i], events[j])
  }

  /** The parts of the tables that events do not change and that decide what they do. */
  ghost predicate SameBindings(s: Shape, t: Shape) {
    && t.users == s.users && t.machines == s.machines && |t.addresses| == |s.addresses|
    && forall a | 0 <= a < |s.addresses| :: t.addresses[a].(useCount := 0) == s.addresses[a].(useCount := 0)
  }

  lemma BoundTheSame(s: Shape, t: Shape, a: nat)
    requires SameBindings(s, t) && a < |s.addresses|
    ensures
      var x, y := s.addresses[a], t.addresses[a];
      x.address == y.address && x.purpose == y.purpose && x.machine == y.machine && x.user == y.user
  {
    assert t.addresses[a].(useCount := 0) == s.addresses[a].(useCount := 0);
  }

  lemma RunReadsBindings(s: Shape, t: Shape, outpoint: Outpoint, slot: Slot, policy: Policy)
    requires SameBindings(s, t)
    ensures CreditRun(t, outpoint, slot, policy) == CreditRun(s, outpoint, slot, policy)
    ensures Works(t, slot, policy) == Works(s, slot, policy)
  {
    if slot.addressId < |s.addresses| {
      BoundTheSame(s, t, slot.addressId);
    }
  }

  lemma SameIds(s: Shape, t: Shape, address: string)
    requires SameBindings(s, t)
    ensures Pool.IdOf(t.addresses, address) == Pool.IdOf(s.addresses, address)
  {
    forall a: nat | a < |s.addresses|
      ensures t.addresses[a].address == s.addresses[a].address
    {
      BoundTheSame(s, t, a);
    }
  }

  lemma DeliverKeepsBindings(s: Shape, event: Event, policy: Policy)
    ensures SameBindings(s, Deliver(s, event, policy))
  {
  }

  lemma UsedCommutes(addresses: seq<Address>, a: Option<nat>, b: Option<nat>)
    ensures Used(Used(addresses, a), b) == Used(Used(addresses, b), a)
  {
  }

  lemma AppliedCommutes(s: Shape, o: Outpoint, p: Outpoint, e: Effect, f: Effect)
    requires o != p
    ensures Applied(Applied(s, o, e), p, f) == Applied(Applied(s, p, f), o, e)
  {
    UsedCommutes(s.addresses, e.used, f.used);
    assert s.slots[o := e.slot][p := f.slot] == s.slots[p := f.slot][o := e.slot];
  }

  /** An event of another outpoint does not change what an event does. */
  lemma EffectIsLocal(s: Shape, a: Event, b: Event, policy: Policy, addressId: nat)
    requires a.outpoint != b.outpoint
    ensures EffectOf(Deliver(s, a, policy), b, policy, addressId) == EffectOf(s, b, policy, addressId)
  {
    var t := Deliver(s, a, policy);
    DeliverKeepsBindings(s, a, policy);
    RunReadsBindings(s, t, b.outpoint, Advanced(Known(s, b, addressId), b, policy), policy);
  }

  lemma OthersCommute(s: Shape, a: Event, b: Event, policy: Policy)
    requires a.outpoint != b.outpoint
    ensures Deliver(Deliver(s, a, policy), b, policy) == Deliver(Deliver(s, b, policy), a, policy)
  {
    DeliverKeepsBindings(s, a, policy);
    DeliverKeepsBindings(s, b, policy);
    SameIds(s, Deliver(s, a, policy), b.address);
    SameIds(s, Deliver(s, b, policy), a.address);
    var x, y := Pool.IdOf(s.addresses, a.address), Pool.IdOf(s.addresses, b.address);
    if x.Some? && y.Some? {
      EffectIsLocal(s, a, b, policy, y.value);
      EffectIsLocal(s, b, a, policy, x.value);
      AppliedCommutes(s, a.outpoint, b.outpoint, EffectOf(s, a, policy, x.value), EffectOf(s, b, policy, y.value));
    }
  }

  /** The event finds its deposit confirmed, or confirms it. */
  predicate Ready(slot: Slot, event: Event, policy: Policy) {
    slot.state == Confirmed || (slot.state == Seen && !Below(event, policy))
  }

  lemma EffectByReadiness(s: Shape, event: Event, policy: Policy, addressId: nat)
    ensures
      var slot := Known(s, event, addressId);
      EffectOf(s, event, policy, addressId) == if Ready(slot, event, policy)
                                               then CreditRun(s, event.outpoint, slot.(state := Confirmed), policy)
                                               else Silent(slot)
  {
    var slot := Known(s, event, addressId);
    assert slot.state == Confirmed ==> slot == slot.(state := Confirmed);
  }

  /** A known deposit stays as it is when an event finds nothing to do. */
  lemma SilentStays(s: Shape, outpoint: Outpoint)
    requires outpoint in s.slots
    ensures Applied(s, outpoint, Silent(s.slots[outpoint])) == s
  {
    assert s.slots[outpoint := s.slots[outpoint]] == s.slots;
  }

  /** Of two reports of one payment, the first that is ready does everything. */
  lemma FirstReadyActs(s: Shape, a: Event, b: Event, policy: Policy, addressId: nat)
    requires a.outpoint == b.outpoint && SamePayment(a, b)
    requires Pool.IdOf(s.addresses, a.address) == Some(addressId)
    ensures
      var slot := Known(s, a, addressId);
      Deliver(Deliver(s, a, policy), b, policy)
      == if Ready(slot, a, policy) then Deliver(s, a, policy) else Deliver(s, b, policy)
  {
    var slot, t := Known(s, a, addressId), Deliver(s, a, policy);
    var o := a.outpoint;
    DeliverKeepsBindings(s, a, policy);
    SameIds(s, t, b.address);
    EffectByReadiness(s, a, policy, addressId);
    EffectByReadiness(s, b, policy, addressId);
    EffectByReadiness(t, b, policy, addressId);
    SilentStays(t, o);
    var confirmed := slot.(state := Confirmed);
    RunReadsBindings(s, t, o, confirmed, policy);
    RunEndsCredited(s, o, confirmed, policy);
    if !Ready(slot, a, policy) {
      RunIgnoresSlots(s, o, slot, policy);
      assert t == s.(slots := s.slots[o := slot]);
    }
  }

  lemma Commutes(s: Shape, a: Event, b: Event, policy: Policy)
    requires SamePayment(a, b)
    ensures Deliver(Deliver(s, a, policy), b, policy) == Deliver(Deliver(s, b, policy), a, policy)
  {
    if a.outpoint != b.outpoint {
      OthersCommute(s, a, b, policy);
    } else if Pool.IdOf(s.addresses, a.address).Some? {
      var addressId := Pool.IdOf(s.addresses, a.address).value;
      FirstReadyActs(s, a, b, policy, addressId);
      FirstReadyActs(s, b, a, policy, addressId);
      EffectByReadiness(s, a, policy, addressId);
      EffectByReadiness(s, b, policy, addressId);
    }
  }

  lemma Repeats(s: Shape, event: Event, policy: Policy)
    ensures Deliver(Deliver(s, event, policy), event, policy) == Deliver(s, event, policy)
  {
    if Pool.IdOf(s.addresses, event.address).Some? {
      FirstReadyActs(s, event, event, policy, Pool.IdOf(s.addresses, event.address).value);
    }
  }

  function DeliverAll(s: Shape, events: seq<Event>, policy: Policy): Shape
    decreases |events|
  {
    if events == [] then s else DeliverAll(Deliver(s, events[0], policy), events[1..], policy)
  }

  ghost predicate ConsistentWith(event: Event, events: seq<Event>) {
    forall i | 0 <= i < |events| :: SamePayment(event, events[i])
  }

  lemma {:induction false} MovesPast(s: Shape, event: Event, events: seq<Event>, policy: Policy)
    requires ConsistentWith(event, events)
    ensures DeliverAll(Deliver(s, event, policy), events, policy) == Deliver(DeliverAll(s, events, policy), event, policy)
    decreases |events|
  {
    if events != [] {
      assert SamePayment(event, events[0]);
      Commutes(s, event, events[0], policy);
      MovesPast(Deliver(s, events[0], policy), event, events[1..], policy);
    }
  }

  /** An event that comes again later might as well not have come. */
  lemma {:induction false} Absorbed(s: Shape, event: Event, events: seq<Event>, policy: Policy)
    requires event in events && ConsistentWith(event, events)
    ensures DeliverAll(Deliver(s, event, policy), events, policy) == DeliverAll(s, events, policy)
    decreases |events|
  {
    if events[0] == event {
      Repeats(s, event, policy);
    } else {
      assert SamePayment(event, events[0]);
      Commutes(s, event, events[0], policy);
      Absorbed(Deliver(s, events[0], policy), event, events[1..], policy);
    }
  }

  lemma {:induction false} AllAbsorbed(s: Shape, xs: seq<Event>, ys: seq<Event>, policy: Policy)
    requires Consistent(ys) && forall x | x in xs :: x in ys
    ensures DeliverAll(DeliverAll(s, xs, policy), ys, policy) == DeliverAll(s, ys, policy)
    decreases |xs|
  {
    if xs != [] {
      AllAbsorbed(Deliver(s, xs[0], policy), xs[1..], ys, policy);
      assert xs[0] in ys;
      Absorbed(s, xs[0], ys, policy);
    }
  }

  lemma {:induction false} ListsCommute(s: Shape, xs: seq<Event>, ys: seq<Event>, policy: Policy)
    requires forall i, j | 0 <= i < |xs| && 0 <= j < |ys| :: SamePayment(xs[i], ys[j])
    ensures DeliverAll(DeliverAll(s, xs, policy), ys, policy) == DeliverAll(DeliverAll(s, ys, policy), xs, policy)
    decreases |xs|
  {
    if xs != [] {
      MovesPast(s, xs[0], ys, policy);
      ListsCommute(Deliver(s, xs[0], policy), xs[1..], ys, policy);
    }
  }

  /** Two streams of the same events, in any order and with any repetitions, have one effect. */
  lemma {:induction false} SameEventsSameShape(s: Shape, xs: seq<Event>, ys: seq<Event>, policy: Policy)
    requires Consistent(xs) && forall e :: e in xs <==> e in ys
    ensures DeliverAll(s, xs, policy) == DeliverAll(s, ys, policy)
  {
    forall i, j | 0 <= i < |xs| && 0 <= j < |ys|
      ensures SamePayment(xs[i], ys[j])
    {
      assert ys[j] in xs;
    }
    forall i, j | 0 <= i < |ys| && 0 <= j < |ys|
      ensures SamePayment(ys[i], ys[j])
    {
      assert ys[i] in xs && ys[j] in xs;
    }
    AllAbsorbed(s, xs, ys, policy);
    AllAbsorbed(s, ys, xs, policy);
    ListsCommute(s, xs, ys, policy);
  }

  // --- streams of deliveries ---

  /** An event with the clock readings of its handling. */
  datatype Delivery = Delivery(event: Event, start: nat, now: nat)

  function HandleAll(db: DB, deliveries: seq<Delivery>, policy: Policy): DB
    decreases |deliveries|
  {
    if deliveries == [] then db
    else
      var d := deliveries[0];
      HandleAll(Pipeline.Handle(db, d.event, policy, d.start, d.now).0, deliveries[1..], policy)
  }

  function EventsOf(deliveries: seq<Delivery>): (events: seq<Event>)
    ensures |events| == |deliveries| && forall i | 0 <= i < |deliveries| :: events[i] == deliveries[i].event
  {
    seq(|deliveries|, i requires 0 <= i < |deliveries| => deliveries[i].event)
  }

  lemma {:induction false} HandleAllIsDeliverAll(db: DB, deliveries: seq<Delivery>, policy: Policy)
    requires Idle(db)
    ensures Idle(HandleAll(db, deliveries, policy))
    ensures ShapeOf(HandleAll(db, deliveries, policy)) == DeliverAll(ShapeOf(db), EventsOf(deliveries), policy)
    decreases |deliveries|
  {
    if deliveries != [] {
      var d := deliveries[0];
      HandleIsDeliver(db, d.event, policy, d.start, d.now);
      HandleAllIsDeliverAll(Pipeline.Handle(db, d.event, policy, d.start, d.now).0, deliveries[1..], policy);
      assert EventsOf(deliveries)[1..] == EventsOf(deliveries[1..]);
    }
  }

  /**
   Delivery insensitivity. For any streams of payment events, of one outpoint or many, that
   report the same events in whatever order, however often and whenever: the deposits (but for
   confirmations and time stamps), the ledger keyed by outpoint, the pulses and the use counts
   come out the same, whether or not the credit hook fails for some of them.
   */
  lemma {:induction false} DeliveryInsensitive(db: DB, xs: seq<Delivery>, ys: seq<Delivery>, policy: Policy)
    requires Idle(db) && Consistent(EventsOf(xs))
    requires forall e :: e in EventsOf(xs) <==> e in EventsOf(ys)
    ensures ShapeOf(HandleAll(db, xs, policy)) == ShapeOf(HandleAll(db, ys, policy))
  {
    HandleAllIsDeliverAll(db, xs, policy);
    HandleAllIsDeliverAll(db, ys, policy);
    SameEventsSameShape(ShapeOf(db), EventsOf(xs), EventsOf(ys), policy);
  }

  predicate Reports(event: Event, outpoint: Outpoint, bar: Option<Policy>) {
    event.outpoint == outpoint && (bar.Some? ==> !Below(event, bar.value))
  }

  /** Some event of the outpoint arrives, and meets the policy if one is given. */
  predicate Arrives(events: seq<Event>, outpoint: Outpoint, bar: Option<Policy>) {
    exists i | 0 <= i < |events| :: Reports(events[i], outpoint, bar)
  }

  lemma ArrivesFirstOrLater(events: seq<Event>, outpoint: Outpoint, bar: Option<Policy>)
    requires events != []
    ensures Arrives(events, outpoint, bar)
       <==> Reports(events[0], outpoint, bar) || Arrives(events[1..], outpoint, bar)
  {
    assert forall i | 1 <= i < |events| :: events[i] == events[1..][i - 1];
    assert forall i | 0 <= i < |events| - 1 :: events[1..][i] == events[i + 1];
  }

  /** What becomes of a deposit that is reported at least once, by whether a report ever meets the policy. */
  function Outcome(s: Shape, outpoint: Outpoint, slot: Slot, met: bool, policy: Policy): Slot {
    if slot.state == Confirmed || (slot.state == Seen && met)
    then CreditRun(s, outpoint, slot.(state := Confirmed), policy).slot else slot
  }

  lemma OutcomeOfOne(s: Shape, event: Event, policy: Policy, addressId: nat)
    requires Pool.IdOf(s.addresses, event.address) == Some(addressId)
    ensures
      var t := Deliver(s, event, policy);
      && event.outpoint in t.slots
      && t.slots[event.outpoint]
         == Outcome(s, event.outpoint, Known(s, event, addressId), !Below(event, policy), policy)
  {
    EffectByReadiness(s, event, policy, addressId);
  }

  lemma OutcomesCompose(s: Shape, t: Shape, outpoint: Outpoint, slot: Slot, first: bool, then_: bool, policy: Policy)
    requires SameBindings(s, t)
    ensures Outcome(t, outpoint, Outcome(s, outpoint, slot, first, policy), then_, policy)
         == Outcome(s, outpoint, slot, first || then_, policy)
  {
    var confirmed := slot.(state := Confirmed);
    RunReadsBindings(s, t, outpoint, confirmed, policy);
    RunEndsCredited(s, outpoint, confirmed, policy);
  }

  ghost predicate AddressesKnown(s: Shape, events: seq<Event>, outpoint: Outpoint) {
    forall i | 0 <= i < |events| && events[i].outpoint == outpoint :: Pool.IdOf(s.addresses, events[i].address).Some?
  }

  lemma StillKnown(s: Shape, events: seq<Event>, outpoint: Outpoint, policy: Policy)
    requires events != [] && AddressesKnown(s, events, outpoint)
    ensures AddressesKnown(Deliver(s, events[0], policy), events[1..], outpoint)
  {
    var t := Deliver(s, events[0], policy);
    DeliverKeepsBindings(s, events[0], policy);
    forall i | 0 <= i < |events| - 1 && events[1..][i].outpoint == outpoint
      ensures Pool.IdOf(t.addresses, events[1..][i].address).Some?
    {
      assert events[1..][i] == events[i + 1];
      SameIds(s, t, events[i + 1].address);
    }
  }

  lemma {:induction false} OutcomeOfKnown(s: Shape, events: seq<Event>, outpoint: Outpoint, policy: Policy)
    requires outpoint in s.slots && AddressesKnown(s, events, outpoint)
    ensures outpoint in DeliverAll(s, events, policy).slots
    ensures DeliverAll(s, events, policy).slots[outpoint]
         == if Arrives(events, outpoint, None)
            then Outcome(s, outpoint, s.slots[outpoint], Arrives(events, outpoint, Some(policy)), policy)
            else s.slots[outpoint]
    decreases |events|
  {
    if events != [] {
      var event, rest := events[0], events[1..];
      var t := Deliver(s, event, policy);
      DeliverKeepsBindings(s, event, policy);
      StillKnown(s, events, outpoint, policy);
      ArrivesFirstOrLater(events, outpoint, None);
      ArrivesFirstOrLater(events, outpoint, Some(policy));
      var now, later := !Below(event, policy), Arrives(rest, outpoint, Some(policy));
      if event.outpoint == outpoint {
        assert Pool.IdOf(s.addresses, event.address).Some?;
        OutcomeOfOne(s, event, policy, Pool.IdOf(s.addresses, event.address).value);
        OutcomesCompose(s, t, outpoint, s.slots[outpoint], now, later, policy);
      } else {
        OutcomesAgree(s, t, outpoint, s.slots[outpoint], later, policy);
      }
      OutcomeOfKnown(t, rest, outpoint, policy);
      if !Arrives(rest, outpoint, None) {
        NothingArrives(rest, outpoint, policy);
      }
    }
  }

  lemma NothingArrives(events: seq<Event>, outpoint: Outpoint, policy: Policy)
    requires !Arrives(events, outpoint, None)
    ensures !Arrives(events, outpoint, Some(policy))
  {
    assert forall i | 0 <= i < |events| :: Reports(events[i], outpoint, Some(policy)) ==> Reports(events[i], outpoint, None);
  }

  lemma OutcomesAgree(s: Shape, t: Shape, outpoint: Outpoint, slot: Slot, met: bool, policy: Policy)
    requires SameBindings(s, t)
    ensures Outcome(t, outpoint, slot, met, policy) == Outcome(s, outpoint, slot, met, policy)
  {
    RunReadsBindings(s, t, outpoint, slot.(state := Confirmed), policy);
  }

  lemma {:induction false} OutcomeOfReported(s: Shape, events: seq<Event>, payment: Event, policy: Policy, addressId: nat)
    requires payment in events && Consistent(events)
    requires Pool.IdOf(s.addresses, payment.address) == Some(addressId)
    ensures
      var o := payment.outpoint;
      && o in DeliverAll(s, events, policy).slots
      && DeliverAll(s, events, policy).slots[o]
         == Outcome(s, o, Known(s, payment, addressId), Arrives(events, o, Some(policy)), policy)
  {
    var o, t := payment.outpoint, Deliver(s, payment, policy);
    var k :| 0 <= k < |events| && events[k] == payment;
    assert ConsistentWith(payment, events);
    Absorbed(s, payment, events, policy);
    DeliverKeepsBindings(s, payment, policy);
    SameIds(s, t, payment.address);
    forall i | 0 <= i < |events| && events[i].outpoint == o
      ensures Pool.IdOf(t.addresses, events[i].address).Some?
    {
      assert SamePayment(payment, events[i]);
    }
    OutcomeOfOne(s, payment, policy, addressId);
    OutcomeOfKnown(t, events, o, policy);
    assert Reports(events[k], o, None);
    assert !Below(payment, policy) ==> Reports(events[k], o, Some(policy));
    OutcomesCompose(s, t, o, Known(s, payment, addressId), !Below(payment, policy),
                    Arrives(events, o, Some(policy)), policy);
  }

  lemma OutcomeState(s: Shape, outpoint: Outpoint, slot: Slot, met: bool, policy: Policy)
    requires slot.state == Seen
    ensures Outcome(s, outpoint, slot, met, policy).state
         == if !met then Seen else if Works(s, slot, policy) then Credited else Confirmed
  {
    RunEndsCredited(s, outpoint, slot.(state := Confirmed), policy);
  }

  /**
   A new or merely seen deposit that is reported for a known address ends credited exactly
   when some report meets the policy and the credit hook works for it; confirmed when only the
   first holds; and seen otherwise.
   */
  lemma {:induction false} CreditedExactly(db: DB, deliveries: seq<Delivery>, k: nat, policy: Policy)
    requires Idle(db) && Consistent(EventsOf(deliveries)) && k < |deliveries|
    requires Pool.IdOf(db.addresses, deliveries[k].event.address).Some?
    requires
      var found := Pipeline.FindDeposit(db.deposits, deliveries[k].event.outpoint);
      found.Some? ==> db.deposits[found.value].state == Seen
    ensures
      var payment, events := deliveries[k].event, EventsOf(deliveries);
      var slot := Known(ShapeOf(db), payment, Pool.IdOf(db.addresses, payment.address).value);
      var after := HandleAll(db, deliveries, policy);
      var found := Pipeline.FindDeposit(after.deposits, payment.outpoint);
      && found.Some?
      && after.deposits[found.value].state == if !Arrives(events, payment.outpoint, Some(policy)) then Seen
                                              else if Works(ShapeOf(db), slot, policy) then Credited
                                              else Confirmed
  {
    var payment, events := deliveries[k].event, EventsOf(deliveries);
    var s, addressId := ShapeOf(db), Pool.IdOf(db.addresses, payment.address).value;
    var slot := Known(s, payment, addressId);
    assert events[k] == payment;
    SlotsAt(db.deposits, payment.outpoint);
    HandleAllIsDeliverAll(db, deliveries, policy);
    OutcomeOfReported(s, events, payment, policy, addressId);
    OutcomeState(s, payment.outpoint, slot, Arrives(events, payment.outpoint, Some(policy)), policy);
    SlotsAt(HandleAll(db, deliveries, policy).deposits, payment.outpoint);
  }
}
