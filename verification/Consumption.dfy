/**
 From the channel to the tables: once the channel is drained, every payment that was sent to
 a known address, since the last restart or handler error, has its deposits row.
 */
module Consumption {
  import opened Tables
  import opened Watcher
  import DirectPay
  import Economy
  import Pipeline
  import Pool
  import References

  ghost predicate HasRow(db: DB, outpoint: Outpoint) {
    exists d | 0 <= d < |db.deposits| :: db.deposits[d].outpoint == outpoint
  }

  ghost predicate AddressKnown(db: DB, address: string) {
    exists a | 0 <= a < |db.addresses| :: db.addresses[a].address == address
  }

  lemma GrowthKeeps(before: DB, after: DB, address: string, outpoint: Outpoint)
    requires Grows(before, after)
    ensures AddressKnown(before, address) ==> AddressKnown(after, address)
    ensures HasRow(before, outpoint) ==> HasRow(after, outpoint)
  {
    if AddressKnown(before, address) {
      var a :| 0 <= a < |before.addresses| && before.addresses[a].address == address;
      assert after.addresses[a].address == address;
    }
    if HasRow(before, outpoint) {
      var d :| 0 <= d < |before.deposits| && before.deposits[d].outpoint == outpoint;
      assert after.deposits[d].outpoint == outpoint;
    }
  }

  lemma UpsertGrows(db: DB, addressId: nat, event: Event, policy: Pipeline.Policy)
    ensures
      var (after, id) := Pipeline.Upsert(db, addressId, event, policy);
      Grows(db, after) && after.deposits[id].outpoint == event.outpoint
  {
  }

  lemma CreditGrows(db: DB, id: nat, policy: Pipeline.Policy, start: nat, now: nat)
    requires id < |db.deposits|
    ensures Grows(db, Pipeline.CreditConfirmed(db, id, policy, start, now).0)
  {
    var claimed := Pipeline.SetClaim(db, id, Some(Pipeline.Stamp(start)));
    var plan := DirectPay.PlanHook(claimed, id, policy.tokenPrice, policy.directPayCap);
    if plan.Ok? {
      References.HookFrame(claimed, id, plan.value);
    }
  }

  /** Handling an event for a known address leaves a row, even when the credit hook fails. */
  lemma HandlingLeavesRow(db: DB, event: Event, policy: Pipeline.Policy, start: nat, now: nat)
    ensures
      var after := Pipeline.Handle(db, event, policy, start, now).0;
      Grows(db, after) && (AddressKnown(db, event.address) ==> HasRow(after, event.outpoint))
  {
    var addressId := Pool.IdOf(db.addresses, event.address);
    if addressId.Some? {
      UpsertGrows(db, addressId.value, event, policy);
      var (upserted, id) := Pipeline.Upsert(db, addressId.value, event, policy);
      assert HasRow(upserted, event.outpoint);
      if upserted.deposits[id].state == Confirmed {
        CreditGrows(upserted, id, policy, start, now);
        var after := Pipeline.CreditConfirmed(upserted, id, policy, start, now).0;
        GrowthKeeps(upserted, after, event.address, event.outpoint);
      }
    }
  }

  lemma ReorgGrows(db: DB, outpoint: Outpoint)
    ensures Grows(db, Pipeline.Reorg(db, outpoint))
  {
  }

  ghost predicate Smooth(step: Step) {
    !step.Restart? && (step.FinishEvent? ==> step.ok)
  }

  ghost predicate Waiting(s: System, payment: Payment) {
    (exists k | 0 <= k < |s.queue| :: PaymentIn(s.queue[k]) == payment)
    || (s.handling.Some? && PaymentIn(s.handling.value) == payment)
  }

  /** Every sent payment to a known address, but for `gone`, is in the channel, at the consumer, or in the tables. */
  ghost predicate Accounted(s: System, known: set<string>, gone: set<Payment>) {
    && (forall a | a in known :: AddressKnown(s.db, a))
    && (forall p: Payment | p in s.sent && p.address in known && p !in gone :: Waiting(s, p) || HasRow(s.db, p.outpoint))
  }

  lemma TablesGrow(s: System, step: Step)
    requires Enabled(s, step)
    ensures Grows(s.db, Apply(s, step).db)
  {
    match step {
      case FinishEvent(policy, start, now, ok) => HandlingLeavesRow(s.db, s.handling.value, policy, start, now);
      case HandleRemoval(ok) => ReorgGrows(s.db, s.removedQueue[0].outpoint);
      case _ =>
    }
  }

  lemma PaymentKept(s: System, step: Step, payment: Payment)
    requires Enabled(s, step) && Smooth(step)
    requires AddressKnown(s.db, payment.address)
    requires Waiting(s, payment) || HasRow(s.db, payment.outpoint) || (step.SendEvent? && payment == PaymentIn(s.polling.events[0]))
    ensures Waiting(Apply(s, step), payment) || HasRow(Apply(s, step).db, payment.outpoint)
  {
    var t := Apply(s, step);
    TablesGrow(s, step);
    GrowthKeeps(s.db, t.db, payment.address, payment.outpoint);
    if HasRow(s.db, payment.outpoint) {
    } else if step.SendEvent? {
      assert forall k | 0 <= k < |s.queue| :: t.queue[k] == s.queue[k];
      assert t.queue[|s.queue|] == s.polling.events[0];
    } else if step.TakeEvent? {
      assert forall k | 1 <= k < |s.queue| :: t.queue[k - 1] == s.queue[k];
    } else if step.FinishEvent? {
      HandlingLeavesRow(s.db, s.handling.value, step.policy, step.start, step.now);
    }
  }

  lemma AccountedKept(s: System, step: Step, known: set<string>, gone: set<Payment>)
    requires Accounted(s, known, gone) && Enabled(s, step) && Smooth(step)
    ensures Accounted(Apply(s, step), known, gone)
  {
    var t := Apply(s, step);
    TablesGrow(s, step);
    forall a | a in known
      ensures AddressKnown(t.db, a)
    {
      GrowthKeeps(s.db, t.db, a, Outpoint("", 0));
    }
    forall p: Payment | p in t.sent && p.address in known && p !in gone
      ensures Waiting(t, p) || HasRow(t.db, p.outpoint)
    {
      PaymentKept(s, step, p);
    }
  }

  ghost predicate SmoothRun(steps: seq<Step>) {
    forall i | 0 <= i < |steps| :: Smooth(steps[i])
  }

  lemma {:induction false} AccountedAlways(s: System, steps: seq<Step>, known: set<string>, gone: set<Payment>)
    requires Accounted(s, known, gone) && Allowed(s, steps) && SmoothRun(steps)
    ensures Accounted(Exec(s, steps), known, gone)
    decreases |steps|
  {
    if steps != [] {
      assert Smooth(steps[0]);
      AccountedKept(s, steps[0], known, gone);
      AccountedAlways(Apply(s, steps[0]), steps[1..], known, gone);
    }
  }

  /** Output j of block i is a receive output of the path. */
  ghost predicate PaidIn(path: Path, i: int, j: int) {
    && 0 <= i < |path| && 0 <= j < |path[i].outputs| && path[i].outputs[j].category == "receive"
  }

  /** The payment went out before this point and is nowhere any more. */
  ghost predicate Gone(s: System, payment: Payment) {
    payment in s.sent && !Waiting(s, payment) && !HasRow(s.db, payment.outpoint)
  }

  /**
   After any careful run, restarts and handler errors included, consider a point from which on
   there are none. When the channel is drained and the consumer idle, every receive output in
   a block at or below the persisted cursor that pays an address known at that point has a
   deposits row, unless its payment was already gone then.
   */
  lemma {:induction false} DrainedMeansRecorded(s: System, first: seq<Step>, rest: seq<Step>)
    requires Initial(s) && Allowed(s, first) && CarefulRun(s, first)
    requires Allowed(Exec(s, first), rest) && CarefulRun(Exec(s, first), rest) && SmoothRun(rest)
    requires Exec(Exec(s, first), rest).queue == [] && Exec(Exec(s, first), rest).handling.None?
    ensures
      var mid := Exec(s, first);
      var t := Exec(mid, rest);
      forall i, j | PaidIn(t.cursor, i, j) && AddressKnown(mid.db, t.cursor[i].outputs[j].address)
                    && !Gone(mid, PaymentTo(t.cursor[i].outputs[j])) ::
        HasRow(t.db, PaymentTo(t.cursor[i].outputs[j]).outpoint)
  {
    var mid := Exec(s, first);
    var t := Exec(mid, rest);
    var known := set a | 0 <= a < |mid.db.addresses| :: mid.db.addresses[a].address;
    var gone := set p | p in mid.sent && Gone(mid, p);
    InvAlways(s, first);
    InvAlways(mid, rest);
    AccountedAlways(mid, rest, known, gone);
    forall i, j | PaidIn(t.cursor, i, j) && AddressKnown(mid.db, t.cursor[i].outputs[j].address)
                  && !Gone(mid, PaymentTo(t.cursor[i].outputs[j]))
      ensures HasRow(t.db, PaymentTo(t.cursor[i].outputs[j]).outpoint)
    {
      assert BlockCovered(t.cursor[i], t.sent);
      assert !Waiting(t, PaymentTo(t.cursor[i].outputs[j]));
    }
  }

  /** Every step of the token economy is one of the steps that the watcher allows to others. */
  lemma EconomyGrows(s: Economy.System, step: Economy.Step)
    requires Economy.Refs(s) && Economy.Enabled(s, step)
    ensures Grows(s.db, Economy.Apply(s, step).db)
  {
    if References.AddressStep(step) {
      References.AddressFrame(s, step);
      AddressesStay(s, step);
    } else if References.CreditStep(step) {
      CreditStepGrows(s, step);
    } else if References.DispatchStep(step) {
      References.DispatchFrame(s, step);
    } else if step.Receive? {
      ReceiveGrows(s, step.call, step.event, step.policy);
    }
  }

  lemma CreditStepGrows(s: Economy.System, step: Economy.Step)
    requires Economy.Refs(s) && Economy.Enabled(s, step) && References.CreditStep(step)
    ensures Grows(s.db, Economy.Apply(s, step).db)
  {
    if step.RunHook? {
      References.HookFrame(s.db, s.calls[step.call].deposit, s.calls[step.call].plan);
    } else {
      References.CreditFrame(s, step);
    }
  }

  lemma ReceiveGrows(s: Economy.System, c: nat, event: Event, policy: Pipeline.Policy)
    requires Economy.Refs(s)
    ensures Grows(s.db, Economy.ApplyReceive(s, c, event, policy).db)
  {
    var addressId := Pool.IdOf(s.db.addresses, event.address);
    if addressId.Some? {
      References.UpsertFrame(s.db, addressId.value, event, policy);
    }
  }

  lemma AddressesStay(s: Economy.System, step: Economy.Step)
    requires Economy.Refs(s) && References.AddressStep(step)
    ensures
      var t := Economy.Apply(s, step);
      && |s.db.addresses| <= |t.db.addresses|
      && forall a | 0 <= a < |s.db.addresses| :: t.db.addresses[a].address == s.db.addresses[a].address
  {
    if step.Rotate? {
      RotationStays(s.db, step.machine, Pipeline.Stamp(s.clock));
    } else if step.StartPurchase? {
      PurchaseStays(s, step.user);
    }
  }

  lemma RotationStays(db: DB, machine: nat, now: int)
    ensures
      var after := DirectPay.RotateMachine(db, machine, now).0;
      && |db.addresses| == |after.addresses| && after.ledger == db.ledger
      && forall a | 0 <= a < |db.addresses| :: after.addresses[a].address == db.addresses[a].address
  {
  }

  lemma PurchaseStays(s: Economy.System, user: nat)
    ensures
      var t := Economy.ApplyStart(s, user);
      && |s.db.addresses| == |t.db.addresses|
      && forall a | 0 <= a < |s.db.addresses| :: t.db.addresses[a].address == s.db.addresses[a].address
  {
  }
}
