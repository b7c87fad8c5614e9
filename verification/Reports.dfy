/**
 What reports of a payment, and its removal, do to its deposit, told in the fields of events
 and settings: reports that meet neither threshold record themselves and do nothing else, one
 that meets a threshold has the deposit credited, and what a reorganisation has orphaned
 stays so.
 */
module Reports {
  import opened Tables
  import opened Shapes
  import opened Insensitivity
  import DirectPay
  import Like
  import Pipeline
  import Pool

  // --- reports that change nothing ---

  /** Nothing can happen to the deposit: it is final, or every report of it is below the thresholds. */
  ghost predicate Dormant(s: Shape, events: seq<Event>, outpoint: Outpoint, policy: Policy) {
    && (outpoint in s.slots ==> s.slots[outpoint].state != Confirmed)
    && ((outpoint in s.slots ==> s.slots[outpoint].state == Seen) ==>
          forall i | 0 <= i < |events| && events[i].outpoint == outpoint :: Below(events[i], policy))
  }

  function Others(events: seq<Event>, outpoint: Outpoint): (rest: seq<Event>)
    ensures forall i | 0 <= i < |rest| :: rest[i].outpoint != outpoint
    decreases |events|
  {
    if events == [] then []
    else (if events[0].outpoint == outpoint then [] else [events[0]]) + Others(events[1..], outpoint)
  }

  /** The tables but for one deposit. */
  function Without(s: Shape, outpoint: Outpoint): Shape {
    s.(slots := s.slots - {outpoint})
  }

  lemma OwnReportIsSilent(s: Shape, events: seq<Event>, policy: Policy)
    requires events != [] && Dormant(s, events, events[0].outpoint, policy)
    ensures
      var o, t := events[0].outpoint, Deliver(s, events[0], policy);
      && Without(t, o) == Without(s, o) && Dormant(t, events[1..], o, policy)
      && (o in s.slots ==> o in t.slots && t.slots[o] == s.slots[o])
      && (o !in s.slots && o in t.slots ==> t.slots[o].state == Seen && t.slots[o].remainder.None?)
  {
    var o, t := events[0].outpoint, Deliver(s, events[0], policy);
    assert forall i | 0 <= i < |events| - 1 :: events[1..][i] == events[i + 1];
    if Pool.IdOf(s.addresses, events[0].address).Some? {
      EffectByReadiness(s, events[0], policy, Pool.IdOf(s.addresses, events[0].address).value);
    }
  }

  lemma OtherReportIsBlind(s: Shape, event: Event, outpoint: Outpoint, policy: Policy)
    requires event.outpoint != outpoint
    ensures
      var t := Deliver(s, event, policy);
      && Without(t, outpoint) == Deliver(Without(s, outpoint), event, policy)
      && (outpoint in t.slots <==> outpoint in s.slots)
      && (outpoint in s.slots ==> t.slots[outpoint] == s.slots[outpoint])
  {
    var u := Without(s, outpoint);
    if Pool.IdOf(s.addresses, event.address).Some? {
      var addressId := Pool.IdOf(s.addresses, event.address).value;
      RunReadsBindings(s, u, event.outpoint, Advanced(Known(s, event, addressId), event, policy), policy);
      var effect := EffectOf(s, event, policy, addressId);
      assert s.slots[event.outpoint := effect.slot] - {outpoint} == (s.slots - {outpoint})[event.outpoint := effect.slot];
    }
  }

  lemma {:induction false} DormantStays(s: Shape, events: seq<Event>, outpoint: Outpoint, policy: Policy)
    requires Dormant(s, events, outpoint, policy)
    ensures
      var t := DeliverAll(s, events, policy);
      && Without(t, outpoint) == DeliverAll(Without(s, outpoint), Others(events, outpoint), policy)
      && (outpoint in s.slots ==> outpoint in t.slots && t.slots[outpoint] == s.slots[outpoint])
      && (outpoint !in s.slots && outpoint in t.slots ==>
            t.slots[outpoint].state == Seen && t.slots[outpoint].remainder.None?)
    decreases |events|
  {
    if events != [] {
      var t := Deliver(s, events[0], policy);
      if events[0].outpoint == outpoint {
        OwnReportIsSilent(s, events, policy);
        DormantStays(t, events[1..], outpoint, policy);
        assert Others(events, outpoint) == Others(events[1..], outpoint);
      } else {
        OtherReportIsBlind(s, events[0], outpoint, policy);
        assert forall i | 0 <= i < |events| - 1 :: events[1..][i] == events[i + 1];
        DormantStays(t, events[1..], outpoint, policy);
        assert Others(events, outpoint) == [events[0]] + Others(events[1..], outpoint);
        assert Others(events, outpoint)[1..] == Others(events[1..], outpoint);
      }
    }
  }

  ghost predicate NoRowFor(s: Shape, outpoint: Outpoint) {
    forall key: Keyed | key in s.books :: key.outpoint != Some(outpoint)
  }

  lemma OtherWritesIts(s: Shape, event: Event, outpoint: Outpoint, policy: Policy)
    requires NoRowFor(s, outpoint) && event.outpoint != outpoint
    ensures NoRowFor(Deliver(s, event, policy), outpoint)
  {
    if Pool.IdOf(s.addresses, event.address).Some? {
      var effect := EffectOf(s, event, policy, Pool.IdOf(s.addresses, event.address).value);
      assert forall key: Keyed | key in effect.books :: key.outpoint == Some(event.outpoint);
    }
  }

  lemma {:induction false} OthersWriteTheirs(s: Shape, events: seq<Event>, outpoint: Outpoint, policy: Policy)
    requires NoRowFor(s, outpoint) && forall i | 0 <= i < |events| :: events[i].outpoint != outpoint
    ensures NoRowFor(DeliverAll(s, events, policy), outpoint)
    decreases |events|
  {
    if events != [] {
      assert forall i | 0 <= i < |events| - 1 :: events[1..][i] == events[i + 1];
      OtherWritesIts(s, events[0], outpoint, policy);
      OthersWriteTheirs(Deliver(s, events[0], policy), events[1..], outpoint, policy);
    }
  }

  lemma {:induction false} NewHasNoRow(db: DB, outpoint: Outpoint)
    requires Idle(db) && Pipeline.FindDeposit(db.deposits, outpoint).None?
    ensures NoRowFor(ShapeOf(db), outpoint)
  {
    var keys := Keys(db.deposits, db.ledger);
    forall key: Keyed | key in multiset(keys)
      ensures key.outpoint != Some(outpoint)
    {
      assert key in keys;
    }
  }

  lemma {:induction false} NoRowInTable(db: DB, outpoint: Outpoint, id: nat)
    requires Idle(db) && NoRowFor(ShapeOf(db), outpoint) && id < |db.deposits| && db.deposits[id].outpoint == outpoint
    ensures forall i | 0 <= i < |db.ledger| :: db.ledger[i].deposit != Some(id)
  {
    var keys := Keys(db.deposits, db.ledger);
    forall i | 0 <= i < |db.ledger|
      ensures db.ledger[i].deposit != Some(id)
    {
      assert keys[i] in multiset(keys);
    }
  }

  function OtherDeliveries(deliveries: seq<Delivery>, outpoint: Outpoint): (rest: seq<Delivery>)
    decreases |deliveries|
  {
    if deliveries == [] then []
    else
      (if deliveries[0].event.outpoint == outpoint then [] else [deliveries[0]]) + OtherDeliveries(deliveries[1..], outpoint)
  }

  lemma {:induction false} OthersAgree(deliveries: seq<Delivery>, outpoint: Outpoint)
    ensures EventsOf(OtherDeliveries(deliveries, outpoint)) == Others(EventsOf(deliveries), outpoint)
    decreases |deliveries|
  {
    if deliveries != [] {
      OthersAgree(deliveries[1..], outpoint);
      assert EventsOf(deliveries)[1..] == EventsOf(deliveries[1..]);
    }
  }

  /** Everything but the deposit itself is as if it had never been reported. */
  ghost predicate AsIfUnreported(after: DB, without: DB, outpoint: Outpoint) {
    && after.users == without.users && after.machines == without.machines && after.addresses == without.addresses
    && multiset(after.pulses) == multiset(without.pulses)
    && multiset(Keys(after.deposits, after.ledger)) == multiset(Keys(without.deposits, without.ledger))
    && Slots(after.deposits) - {outpoint} == Slots(without.deposits) - {outpoint}
  }

  lemma {:induction false} DormantDeposit(db: DB, deliveries: seq<Delivery>, outpoint: Outpoint, policy: Policy)
    requires Idle(db) && Dormant(ShapeOf(db), EventsOf(deliveries), outpoint, policy)
    ensures
      var after, without := HandleAll(db, deliveries, policy), HandleAll(db, OtherDeliveries(deliveries, outpoint), policy);
      && AsIfUnreported(after, without, outpoint)
      && (outpoint in ShapeOf(db).slots ==>
            outpoint in ShapeOf(after).slots && ShapeOf(after).slots[outpoint] == ShapeOf(db).slots[outpoint])
      && (outpoint !in ShapeOf(db).slots && outpoint in ShapeOf(after).slots ==>
            && ShapeOf(after).slots[outpoint].state == Seen && ShapeOf(after).slots[outpoint].remainder.None?
            && (NoRowFor(ShapeOf(db), outpoint) ==> NoRowFor(ShapeOf(after), outpoint)))
  {
    var s, events := ShapeOf(db), EventsOf(deliveries);
    var rest := Others(events, outpoint);
    HandleAllIsDeliverAll(db, deliveries, policy);
    HandleAllIsDeliverAll(db, OtherDeliveries(deliveries, outpoint), policy);
    OthersAgree(deliveries, outpoint);
    DormantStays(s, events, outpoint, policy);
    DormantAlone(s, rest, outpoint, policy);
    if NoRowFor(s, outpoint) {
      OthersWriteTheirs(Without(s, outpoint), rest, outpoint, policy);
    }
  }

  lemma {:induction false} DormantAlone(s: Shape, rest: seq<Event>, outpoint: Outpoint, policy: Policy)
    requires forall i | 0 <= i < |rest| :: rest[i].outpoint != outpoint
    ensures Without(DeliverAll(s, rest, policy), outpoint) == DeliverAll(Without(s, outpoint), rest, policy)
    decreases |rest|
  {
    if rest != [] {
      OtherReportIsBlind(s, rest[0], outpoint, policy);
      assert forall i | 0 <= i < |rest| - 1 :: rest[1..][i] == rest[i + 1];
      DormantAlone(Deliver(s, rest[0], policy), rest[1..], outpoint, policy);
    }
  }

  /**
   A new deposit all of whose reports are below the thresholds is only seen, however many there
   are: no ledger row, pulse, remainder or use count comes of it.
   */
  lemma {:induction false} BelowIsOnlySeen(db: DB, deliveries: seq<Delivery>, outpoint: Outpoint, policy: Policy)
    requires Idle(db) && Pipeline.FindDeposit(db.deposits, outpoint).None?
    requires forall i | 0 <= i < |deliveries| && deliveries[i].event.outpoint == outpoint ::
               deliveries[i].event.confirmations < policy.minConfirmations
               && (policy.zeroConfMax <= 0 || deliveries[i].event.amount > policy.zeroConfMax)
    ensures
      var after := HandleAll(db, deliveries, policy);
      && AsIfUnreported(after, HandleAll(db, OtherDeliveries(deliveries, outpoint), policy), outpoint)
      && match Pipeline.FindDeposit(after.deposits, outpoint)
         case None => true
         case Some(id) =>
           && after.deposits[id].state == Seen && after.deposits[id].remainder.None?
           && forall i | 0 <= i < |after.ledger| :: after.ledger[i].deposit != Some(id)
  {
    var after := HandleAll(db, deliveries, policy);
    SlotsAt(db.deposits, outpoint);
    NewHasNoRow(db, outpoint);
    DormantDeposit(db, deliveries, outpoint, policy);
    HandleAllIsDeliverAll(db, deliveries, policy);
    SlotsAt(after.deposits, outpoint);
    var found := Pipeline.FindDeposit(after.deposits, outpoint);
    if found.Some? {
      NoRowInTable(after, outpoint, found.value);
    }
  }

  /** A deposit that is orphaned or credited stays what it is, whatever is reported later. */
  lemma {:induction false} FinalForGood(db: DB, deliveries: seq<Delivery>, id: nat, policy: Policy)
    requires Idle(db) && id < |db.deposits| && (db.deposits[id].state == Orphaned || db.deposits[id].state == Credited)
    ensures
      var o, after := db.deposits[id].outpoint, HandleAll(db, deliveries, policy);
      && AsIfUnreported(after, HandleAll(db, OtherDeliveries(deliveries, o), policy), o)
      && match Pipeline.FindDeposit(after.deposits, o)
         case None => false
         case Some(found) =>
           after.deposits[found].state == db.deposits[id].state && after.deposits[found].remainder == db.deposits[id].remainder
  {
    var o, after := db.deposits[id].outpoint, HandleAll(db, deliveries, policy);
    SlotsAt(db.deposits, o);
    assert Pipeline.FindDeposit(db.deposits, o) == Some(id);
    DormantDeposit(db, deliveries, o, policy);
    HandleAllIsDeliverAll(db, deliveries, policy);
    SlotsAt(after.deposits, o);
  }

  // --- reports that credit ---

  /**
   A new or merely seen deposit with one report that has the confirmations asked for, or whose
   amount may do without, ends credited exactly when the credit hook works for it.
   */
  lemma {:induction false} AboveIsCredited(db: DB, deliveries: seq<Delivery>, k: nat, policy: Policy)
    requires Idle(db) && Consistent(EventsOf(deliveries)) && k < |deliveries|
    requires Pool.IdOf(db.addresses, deliveries[k].event.address).Some?
    requires
      var found := Pipeline.FindDeposit(db.deposits, deliveries[k].event.outpoint);
      found.Some? ==> db.deposits[found.value].state == Seen
    requires
      || deliveries[k].event.confirmations >= policy.minConfirmations
      || (0 < policy.zeroConfMax && deliveries[k].event.amount <= policy.zeroConfMax)
    ensures
      var payment := deliveries[k].event;
      var slot := Known(ShapeOf(db), payment, Pool.IdOf(db.addresses, payment.address).value);
      var after := HandleAll(db, deliveries, policy);
      match Pipeline.FindDeposit(after.deposits, payment.outpoint)
      case None => false
      case Some(id) => after.deposits[id].state == if Works(ShapeOf(db), slot, policy) then Credited else Confirmed
  {
    CreditedExactly(db, deliveries, k, policy);
    var events := EventsOf(deliveries);
    assert Insensitivity.Reports(events[k], deliveries[k].event.outpoint, Some(policy));
  }

  /**
   A confirmed deposit, whether its hook failed or its run was cut off, is credited by the next
   report of it exactly when no claim of the last two minutes holds it and the hook works.
   */
  lemma ConfirmedIsRetried(db: DB, event: Event, policy: Policy, start: nat, now: nat, id: nat)
    requires Pool.IdOf(db.addresses, event.address).Some?
    requires Pipeline.FindDeposit(db.deposits, event.outpoint) == Some(id) && db.deposits[id].state == Confirmed
    ensures
      var claim, after := db.deposits[id].claimedAt, Pipeline.Handle(db, event, policy, start, now).0;
      var held := claim.Some? && now / 1_000_000_000 <= claim.value + 120;
      var works := Works(ShapeOf(db), SlotOf(db.deposits[id]), policy);
      && id < |after.deposits| && after.deposits[id].state == (if !held && works then Credited else Confirmed)
      && after.deposits[id].claimedAt
         == if held then claim else if works then Some(start / 1_000_000_000) else None
  {
    var upserted := Pipeline.Upsert(db, Pool.IdOf(db.addresses, event.address).value, event, policy).0;
    var claimed := Pipeline.SetClaim(upserted, id, Some(Pipeline.Stamp(start)));
    HookFailsExactly(claimed, id, policy);
    CreditRecords(upserted, id, policy, start, now);
  }

  // --- the row ---

  /** What handling an event for a known address leaves in the deposit's row; no other row changes. */
  lemma HandleRecords(db: DB, event: Event, policy: Policy, start: nat, now: nat)
    requires Pool.IdOf(db.addresses, event.address).Some?
    ensures
      var before, after := db.deposits, Pipeline.Handle(db, event, policy, start, now).0.deposits;
      var old_ := Pipeline.FindDeposit(before, event.outpoint);
      var id := if old_.Some? then old_.value else |before|;
      && |after| == |before| + (if old_.Some? then 0 else 1)
      && (forall d | 0 <= d < |before| && d != id :: after[d] == before[d])
      && after[id].outpoint == event.outpoint && after[id].confirmations == event.confirmations
      && after[id].blockHeight == (if event.blockHeight > 0 then Some(event.blockHeight)
                                   else if old_.Some? then before[id].blockHeight else None)
      && (old_.Some? ==> after[id].addressId == before[id].addressId && after[id].amount == before[id].amount)
      && (old_.None? ==>
            after[id].addressId == Pool.IdOf(db.addresses, event.address).value && after[id].amount == event.amount)
      && (after[id].state == Credited && (old_.Some? ==> before[id].state != Credited) ==>
            after[id].claimedAt == Some(start / 1_000_000_000))
  {
    var addressId := Pool.IdOf(db.addresses, event.address).value;
    var (upserted, id) := Pipeline.Upsert(db, addressId, event, policy);
    if upserted.deposits[id].state == Confirmed {
      CreditRecords(upserted, id, policy, start, now);
    }
  }

  lemma CreditRecords(db: DB, id: nat, policy: Policy, start: nat, now: nat)
    requires id < |db.deposits| && db.deposits[id].state == Confirmed
    ensures
      var after := Pipeline.CreditConfirmed(db, id, policy, start, now).0.deposits;
      && |after| == |db.deposits| && (forall d | 0 <= d < |after| && d != id :: after[d] == db.deposits[d])
      && after[id] == db.deposits[id].(state := after[id].state, claimedAt := after[id].claimedAt, remainder := after[id].remainder)
      && (after[id].state == Credited ==> after[id].claimedAt == Some(start / 1_000_000_000))
  {
    var claimed := Pipeline.SetClaim(db, id, Some(Pipeline.Stamp(start)));
    var plan := DirectPay.PlanHook(claimed, id, policy.tokenPrice, policy.directPayCap);
    if plan.Ok? {
      HookRecords(claimed, id, plan.value);
    }
  }

  lemma HookRecords(db: DB, id: nat, plan: DirectPay.Plan)
    requires id < |db.deposits| && DirectPay.Sound(db, plan)
    ensures
      var tx := DirectPay.CommitHook(db, id, plan);
      tx.Commit? ==>
        tx.db.deposits == db.deposits[id := db.deposits[id].(remainder := tx.db.deposits[id].remainder)]
  {
  }

  // --- removal ---

  /**
   A removed transaction: its deposit is orphaned afterwards exactly when it was seen, confirmed
   or orphaned, and nothing else changes, but that a credited one may raise an alert.
   */
  lemma ReorgOrphans(db: DB, outpoint: Outpoint)
    ensures
      var after := Pipeline.Reorg(db, outpoint);
      && after == db.(deposits := after.deposits, alerts := after.alerts) && |after.deposits| == |db.deposits|
      && db.alerts <= after.alerts && |after.alerts| <= |db.alerts| + 1
      && match Pipeline.FindDeposit(db.deposits, outpoint)
         case None => after == db
         case Some(id) =>
           var was := db.deposits[id].state;
           && (forall d | 0 <= d < |db.deposits| && d != id :: after.deposits[d] == db.deposits[d])
           && after.deposits[id] == db.deposits[id].(state := after.deposits[id].state)
           && (after.deposits[id].state == Orphaned <==> was == Seen || was == Confirmed || was == Orphaned)
           && (was == Credited ==> after.deposits[id].state == Credited)
           && (was != Credited ==> after.alerts == db.alerts)
           && (after.alerts == db.alerts
               || after.alerts == db.alerts + [Alert("deposit_reorged_after_credit", Like.AlertMessage(id, outpoint.txid), false)])
  {
  }

  /** What a reorganisation has orphaned, no later stream of reports credits. */
  lemma {:induction false} OrphanedForGood(db: DB, outpoint: Outpoint, id: nat, deliveries: seq<Delivery>, policy: Policy)
    requires Idle(db) && Pipeline.FindDeposit(db.deposits, outpoint) == Some(id)
    requires db.deposits[id].state == Seen || db.deposits[id].state == Confirmed
    ensures
      var removed := Pipeline.Reorg(db, outpoint);
      var after := HandleAll(removed, deliveries, policy);
      && AsIfUnreported(after, HandleAll(removed, OtherDeliveries(deliveries, outpoint), policy), outpoint)
      && match Pipeline.FindDeposit(after.deposits, outpoint)
         case None => false
         case Some(found) => after.deposits[found].state == Orphaned
  {
    ReorgOrphans(db, outpoint);
    var removed := Pipeline.Reorg(db, outpoint);
    assert forall d | 0 <= d < |db.deposits| :: removed.deposits[d].outpoint == db.deposits[d].outpoint;
    FinalForGood(removed, deliveries, id, policy);
  }
}
