/**
 Payments reach whom their address belongs to. A deposit on an address that was given to a
 user before is credited to the account that the user is merged into by now, with the address
 retired or not; one on an address that was bound to a machine before queues plays there.
 */
module Payees {
  import opened Tables
  import opened Economy
  import Bindings
  import DirectPay
  import Lease
  import Ownership
  import Pipeline
  import Pool
  import Quotes
  import References
  import Settlement
  import SingleConsumer
  import TableInvariants

  // --- what stays from the payment on ---

  ghost predicate DepositsStay(s: System, t: System) {
    && |s.db.deposits| <= |t.db.deposits|
    && forall d | 0 <= d < |s.db.deposits| :: t.db.deposits[d].addressId == s.db.deposits[d].addressId
  }

  lemma DepositsKept(s: System, step: Step)
    requires Refs(s) && Enabled(s, step)
    ensures DepositsStay(s, Apply(s, step))
  {
    if References.AddressStep(step) {
      References.AddressFrame(s, step);
    } else if step.RunHook? {
      References.HookFrame(s.db, s.calls[step.call].deposit, s.calls[step.call].plan);
    } else if References.CreditStep(step) {
      CreditKept(s, step);
    } else if References.DispatchStep(step) {
      References.DispatchFrame(s, step);
    } else if step.Receive? {
      ReceiveKept(s, step.call, step.event, step.policy);
    }
  }

  lemma CreditKept(s: System, step: Step)
    requires Refs(s) && Enabled(s, step) && References.CreditStep(step) && !step.RunHook?
    ensures DepositsStay(s, Apply(s, step))
  {
  }

  lemma ReceiveKept(s: System, c: nat, event: Pipeline.Event, policy: Pipeline.Policy)
    requires Refs(s)
    ensures DepositsStay(s, ApplyReceive(s, c, event, policy))
  {
    var addressId := Pool.IdOf(s.db.addresses, event.address);
    if addressId.Some? {
      References.UpsertFrame(s.db, addressId.value, event, policy);
    }
  }

  lemma {:induction false} DepositsAlways(s: System, steps: seq<Step>)
    requires Allowed(s, steps)
    ensures DepositsStay(s, Exec(s, steps))
    decreases |steps|
  {
    if steps != [] {
      DepositsKept(s, steps[0]);
      DepositsAlways(Apply(s, steps[0]), steps[1..]);
    }
  }

  /** Addresses that were given to a user stay with their first user. */
  ghost predicate OwnersStay(s: System, t: System) {
    forall a | a in s.history.owners :: a in t.history.owners && t.history.owners[a] == s.history.owners[a]
  }

  lemma OwnersKept(s: System, step: Step)
    requires Ownership.Inv(s) && Enabled(s, step)
    ensures OwnersStay(s, Apply(s, step))
  {
    if step.StartPurchase? {
      StartOwners(s, step.user);
    } else if References.AddressStep(step) {
      References.AddressFrame(s, step);
    } else if References.DispatchStep(step) {
      References.DispatchFrame(s, step);
    } else if References.CreditStep(step) || step.Receive? {
      CreditOwners(s, step);
    }
  }

  lemma StartOwners(s: System, user: nat)
    requires Ownership.Inv(s)
    ensures OwnersStay(s, ApplyStart(s, user))
  {
    Ownership.StartFrame(s, user);
  }

  lemma CreditOwners(s: System, step: Step)
    requires Refs(s) && Enabled(s, step) && (References.CreditStep(step) || step.Receive?)
    ensures Apply(s, step).history.owners == s.history.owners
  {
  }

  lemma {:induction false} OwnersAlways(s: System, steps: seq<Step>)
    requires Ownership.Inv(s) && Allowed(s, steps) && Ownership.OrderlyRun(s, steps)
    ensures OwnersStay(s, Exec(s, steps))
    decreases |steps|
  {
    if steps != [] {
      OwnersKept(s, steps[0]);
      Ownership.InvKept(s, steps[0]);
      OwnersAlways(Apply(s, steps[0]), steps[1..]);
    }
  }

  /** Addresses that are bound to a machine stay bound to it. */
  ghost predicate MachinesStay(s: System, t: System) {
    && |s.db.addresses| <= |t.db.addresses|
    && forall a | 0 <= a < |s.db.addresses| && s.db.addresses[a].machine.Some? ::
         t.db.addresses[a].machine == s.db.addresses[a].machine
  }

  lemma MachinesKept(s: System, step: Step)
    requires Refs(s) && Bindings.Sound(s.db.addresses) && Enabled(s, step) && !step.Release?
    ensures MachinesStay(s, Apply(s, step))
  {
    if References.AddressStep(step) {
      RowsBound(s, step);
    } else if References.CreditStep(step) {
      CreditBound(s, step);
    } else if References.DispatchStep(step) {
      References.DispatchFrame(s, step);
    }
  }

  lemma RowsBound(s: System, step: Step)
    requires Refs(s) && Bindings.Sound(s.db.addresses) && References.AddressStep(step) && !step.Release?
    ensures MachinesStay(s, Apply(s, step))
  {
    if step.StartPurchase? {
      StartBound(s, step.user);
    } else if step.Rotate? {
      RotationBound(s.db, step.machine, Pipeline.Stamp(s.clock));
    }
  }

  lemma StartBound(s: System, user: nat)
    requires Bindings.Sound(s.db.addresses)
    ensures MachinesStay(s, ApplyStart(s, user))
  {
    Ownership.StartFrame(s, user);
  }

  lemma RotationBound(db: DB, machine: nat, now: int)
    requires Bindings.Sound(db.addresses)
    ensures
      var after := DirectPay.RotateMachine(db, machine, now).0;
      && |after.addresses| == |db.addresses|
      && forall a | 0 <= a < |db.addresses| && db.addresses[a].machine.Some? ::
           after.addresses[a].machine == db.addresses[a].machine
  {
  }

  lemma CreditBound(s: System, step: Step)
    requires Refs(s) && Enabled(s, step) && References.CreditStep(step)
    ensures MachinesStay(s, Apply(s, step))
  {
    if step.RunHook? {
      References.HookFrame(s.db, s.calls[step.call].deposit, s.calls[step.call].plan);
    } else {
      References.CreditFrame(s, step);
    }
  }

  predicate NoRelease(steps: seq<Step>) {
    forall i | 0 <= i < |steps| :: !steps[i].Release?
  }

  lemma {:induction false} MachinesAlways(s: System, steps: seq<Step>)
    requires TableInvariants.Inv(s) && Allowed(s, steps) && NoRelease(steps)
    ensures MachinesStay(s, Exec(s, steps))
    decreases |steps|
  {
    if steps != [] {
      MachinesKept(s, steps[0]);
      TableInvariants.InvKept(s, steps[0]);
      assert forall i | 0 <= i < |steps| - 1 :: steps[1..][i] == steps[i + 1];
      MachinesAlways(Apply(s, steps[0]), steps[1..]);
    }
  }

  // --- users ---

  /** The purchase rows of a deposit, in ledger order. */
  function PurchaseRows(ledger: seq<Entry>, d: nat): seq<Entry> {
    if ledger == [] then []
    else
      var n := |ledger| - 1;
      PurchaseRows(ledger[..n], d)
      + if ledger[n].kind == Purchase && ledger[n].deposit == Some(d) then [ledger[n]] else []
  }

  function PaidTo(user: nat, d: nat, deltas: seq<int>): seq<Entry> {
    seq(|deltas|, i requires 0 <= i < |deltas| => Entry(user, deltas[i], Purchase, Some(d), None))
  }

  lemma {:induction false} RowsOfOne(ledger: seq<Entry>, d: nat, user: nat)
    requires forall i | 0 <= i < |ledger| && ledger[i].kind == Purchase && ledger[i].deposit == Some(d) ::
               ledger[i].user == user && ledger[i].pulse.None?
    ensures PurchaseRows(ledger, d) == PaidTo(user, d, Settlement.RowsOf(ledger, d))
  {
    if ledger != [] {
      RowsOfOne(ledger[..|ledger| - 1], d, user);
    }
  }

  /** The deposit gave these whole tokens at this price to the user, in one ledger row, and kept the rest. */
  ghost predicate CreditedTo(s: System, d: nat, user: nat, price: int)
    requires d < |s.db.deposits|
  {
    var row := s.db.deposits[d];
    && price > 0 && row.remainder.Some?
    && exists tokens ::
         && Splits(row.amount, price, tokens, row.remainder.value)
         && PurchaseRows(s.db.ledger, d) == if tokens > 0 then [Entry(user, tokens, Purchase, Some(d), None)] else []
  }

  lemma {:induction false} RowsGoToOwner(s: System, d: nat)
    requires Ownership.Inv(s) && d < |s.db.deposits| && s.db.deposits[d].addressId in s.history.owners
    ensures
      var heir := s.history.heirs[s.history.owners[s.db.deposits[d].addressId]];
      PurchaseRows(s.db.ledger, d) == PaidTo(heir, d, Settlement.RowsOf(s.db.ledger, d))
  {
    var heir := s.history.heirs[s.history.owners[s.db.deposits[d].addressId]];
    forall i | 0 <= i < |s.db.ledger| && s.db.ledger[i].kind == Purchase && s.db.ledger[i].deposit == Some(d)
      ensures s.db.ledger[i].user == heir && s.db.ledger[i].pulse.None?
    {
      assert EntryRefs(s.db, s.db.ledger[i]);
    }
    RowsOfOne(s.db.ledger, d, heir);
  }

  /** What was read for a deposit on a user's address is a purchase for that user. */
  lemma {:induction false} ReadForOwner(s: System, steps: seq<Step>, k: int, d: nat, run: DirectPay.Plan)
    requires Ownership.Inv(s) && Allowed(s, steps) && Ownership.OrderlyRun(s, steps) && Quotes.ReadAt(s, steps, k, d, run)
    requires d < |Exec(s, steps).db.deposits| && Exec(s, steps).db.deposits[d].addressId in s.history.owners
    ensures run.PayUser? && run.purchase.user.Some? && run.purchase.price == steps[k].tokenPrice > 0
  {
    var now := Exec(s, steps[..k]);
    Quotes.PrefixAllowed(s, steps, k);
    OrderlyPrefix(s, steps, k);
    Ownership.InvAlways(s, steps[..k]);
    OwnersAlways(s, steps[..k]);
    DepositsAlways(now, steps[k..]);
  }

  lemma {:induction false} OrderlyPrefix(s: System, steps: seq<Step>, k: nat)
    requires Allowed(s, steps) && Ownership.OrderlyRun(s, steps) && k <= |steps| && Allowed(s, steps[..k])
    ensures Ownership.OrderlyRun(s, steps[..k])
    decreases k
  {
    if k > 0 {
      assert steps[..k][1..] == steps[1..][..k - 1];
      OrderlyPrefix(Apply(s, steps[0]), steps[1..], k - 1);
    }
  }

  /**
   In every orderly run whose crediting runs are over within their lease or alone: a credited,
   fault-free deposit that came in after its address was given to a user has exactly one
   purchase row, for the heir of that user and the whole tokens at the price that the hook
   read; no row for less than one token.
   */
  lemma {:induction false} UserIsPaid(first: seq<Step>, rest: seq<Step>, d: nat)
    requires Allowed(INITIAL, first) && Lease.LeasedRun(INITIAL, first) && Ownership.OrderlyRun(INITIAL, first)
    requires
      var given := Exec(INITIAL, first);
      Allowed(given, rest) && Lease.LeasedRun(given, rest) && Ownership.OrderlyRun(given, rest)
    requires
      var given := Exec(INITIAL, first);
      var s := Exec(given, rest);
      && |given.db.deposits| <= d < |s.db.deposits| == |s.history.traces|
      && s.db.deposits[d].addressId in given.history.owners
      && s.db.deposits[d].state == Credited && s.history.traces[d].faults == 0
    ensures
      var given := Exec(INITIAL, first);
      var s := Exec(given, rest);
      var user := given.history.owners[s.db.deposits[d].addressId];
      && user in s.history.heirs
      && exists k, run :: Quotes.ReadAt(given, rest, k, d, run) && CreditedTo(s, d, s.history.heirs[user], rest[k].tokenPrice)
  {
    Reached(first, rest);
    assert Ownership.Inv(INITIAL);
    Ownership.InvAlways(INITIAL, first);
    var k, run := UserIsPaidFrom(Exec(INITIAL, first), rest, d);
  }

  lemma UserIsPaidFrom(given: System, rest: seq<Step>, d: nat) returns (k: int, run: DirectPay.Plan)
    requires Ownership.Inv(given) && Allowed(given, rest) && Ownership.OrderlyRun(given, rest)
    requires
      var s := Exec(given, rest);
      && Lease.Inv(s) && Settlement.Inv(s) && |given.db.deposits| <= d < |s.db.deposits|
      && s.db.deposits[d].addressId in given.history.owners
      && s.db.deposits[d].state == Credited && s.history.traces[d].faults == 0
    ensures
      var s := Exec(given, rest);
      var user := given.history.owners[s.db.deposits[d].addressId];
      && user in s.history.heirs && Quotes.ReadAt(given, rest, k, d, run)
      && CreditedTo(s, d, s.history.heirs[user], rest[k].tokenPrice)
  {
    var s := Exec(given, rest);
    EveryRunPaysOwner(given, rest, d);
    run := PaidBy(s, d);
    k :| Quotes.ReadAt(given, rest, k, d, run);
    CreditOfRead(given, rest, s, k, d, run);
  }

  lemma PaidBy(s: System, d: nat) returns (run: DirectPay.Plan)
    requires Lease.Inv(s) && Settlement.Inv(s) && d < |s.db.deposits|
    requires s.db.deposits[d].state == Credited && s.history.traces[d].faults == 0
    ensures SingleConsumer.PaidOnce(s, d, run) && run in s.history.traces[d].runs
  {
    SingleConsumer.RunsOfFaultFree(s, d);
    run := s.history.traces[d].runs[0];
    assert s.history.traces[d].runs == [run];
    SingleConsumer.OneRun(s, d, run);
  }

  lemma {:induction false} CreditOfRead(given: System, rest: seq<Step>, s: System, k: int, d: nat, run: DirectPay.Plan)
    requires Ownership.Inv(given) && Allowed(given, rest) && Ownership.OrderlyRun(given, rest) && s == Exec(given, rest)
    requires Quotes.ReadAt(given, rest, k, d, run)
    requires d < |s.db.deposits| && d < |s.history.traces| && SingleConsumer.PaidOnce(s, d, run)
    requires s.db.deposits[d].addressId in given.history.owners
    ensures
      var a := s.db.deposits[d].addressId;
      && a in s.history.owners && s.history.owners[a] == given.history.owners[a] && s.history.owners[a] in s.history.heirs
      && CreditedTo(s, d, s.history.heirs[s.history.owners[a]], rest[k].tokenPrice)
  {
    Ownership.InvAlways(given, rest);
    OwnersAlways(given, rest);
    ReadForOwner(given, rest, k, d, run);
    RowsGoToOwner(s, d);
    PaidOnceIsCredited(s, d, run, s.history.heirs[s.history.owners[s.db.deposits[d].addressId]]);
  }

  /**
   In every orderly run, with a lease or without: each committed hook run of a deposit that
   came in after its address was given to a user was read as a purchase for that user, and
   the deposit's purchase rows are those of these runs, all of them the heir's.
   */
  lemma {:induction false} EveryRunPaysOwner(given: System, rest: seq<Step>, d: nat)
    requires Ownership.Inv(given) && Allowed(given, rest) && Ownership.OrderlyRun(given, rest)
    requires
      var s := Exec(given, rest);
      && Settlement.Inv(s) && |given.db.deposits| <= d < |s.db.deposits|
      && s.db.deposits[d].addressId in given.history.owners
    ensures
      var s := Exec(given, rest);
      var a := s.db.deposits[d].addressId;
      && a in s.history.owners && s.history.owners[a] == given.history.owners[a] && s.history.owners[a] in s.history.heirs
      && (forall run | run in s.history.traces[d].runs ::
            run.PayUser? && run.purchase.user.Some? && Quotes.WasRead(given, rest, d, run))
      && PurchaseRows(s.db.ledger, d)
         == PaidTo(s.history.heirs[s.history.owners[a]], d,
                   Settlement.TokensOfRuns(s.history.traces[d].runs, s.db.deposits[d].amount))
  {
    var s := Exec(given, rest);
    Ownership.InvAlways(given, rest);
    OwnersAlways(given, rest);
    Quotes.RunsWereRead(given, rest);
    forall run | run in s.history.traces[d].runs
      ensures run.PayUser? && run.purchase.user.Some? && Quotes.WasRead(given, rest, d, run)
    {
      assert Quotes.WasRead(given, rest, d, run);
      var k :| Quotes.ReadAt(given, rest, k, d, run);
      ReadForOwner(given, rest, k, d, run);
    }
    RowsGoToOwner(s, d);
    assert Settlement.DepositMatches(s, d);
  }

  lemma {:induction false} PaidOnceIsCredited(s: System, d: nat, run: DirectPay.Plan, user: nat)
    requires d < |s.db.deposits| && d < |s.history.traces| && SingleConsumer.PaidOnce(s, d, run)
    requires run.PayUser? && run.purchase.user.Some?
    requires PurchaseRows(s.db.ledger, d) == PaidTo(user, d, Settlement.RowsOf(s.db.ledger, d))
    ensures CreditedTo(s, d, user, run.purchase.price)
  {
  }

  /** The lease and the settlement hold all along. */
  lemma {:induction false} Reached(first: seq<Step>, rest: seq<Step>)
    requires Allowed(INITIAL, first) && Lease.LeasedRun(INITIAL, first)
    requires Allowed(Exec(INITIAL, first), rest) && Lease.LeasedRun(Exec(INITIAL, first), rest)
    ensures Refs(Exec(INITIAL, first))
    ensures Lease.Inv(Exec(Exec(INITIAL, first), rest)) && Settlement.Inv(Exec(Exec(INITIAL, first), rest))
  {
    Lease.InitialInv();
    Settlement.InitialInv();
    Lease.InvAlways(INITIAL, first);
    Settlement.InvAlways(INITIAL, first);
    Lease.InvAlways(Exec(INITIAL, first), rest);
    Settlement.InvAlways(Exec(INITIAL, first), rest);
  }

  // --- machines ---

  /**
   The deposit queued the whole plays at the machine's price, cut at the cap, and kept the
   rest; or, with no price set, left no trace. It credited no user.
   */
  ghost predicate QueuedFor(s: System, d: nat, machine: nat, price: Option<int>, cap: int)
    requires d < |s.db.deposits| && d < |s.history.traces|
  {
    var row := s.db.deposits[d];
    && PurchaseRows(s.db.ledger, d) == []
    && if price.Some? && price.value > 0 then
         && row.remainder.Some?
         && exists units ::
              && Splits(row.amount, price.value, units, row.remainder.value)
              && SingleConsumer.QueuedOnly(s, d, Some(machine), SingleConsumer.Capped(units, cap))
       else row.remainder.None? && SingleConsumer.QueuedOnly(s, d, None, 0)
  }

  /** Step k found the machine at this price. */
  ghost predicate PricedAt(s: System, steps: seq<Step>, k: int, machine: nat, price: Option<int>) {
    && 0 <= k < |steps| && Allowed(s, steps[..k])
    && machine in Exec(s, steps[..k]).db.machines && Exec(s, steps[..k]).db.machines[machine].price == price
  }

  lemma {:induction false} NoDeltasNoRows(ledger: seq<Entry>, d: nat)
    ensures |PurchaseRows(ledger, d)| == |Settlement.RowsOf(ledger, d)|
  {
    if ledger != [] {
      NoDeltasNoRows(ledger[..|ledger| - 1], d);
    }
  }

  /** What was read for a deposit on a machine's address is the machine's, at its price of that moment. */
  lemma {:induction false} ReadForMachine(s: System, steps: seq<Step>, k: int, d: nat, run: DirectPay.Plan, machine: nat)
    requires TableInvariants.Inv(s) && Allowed(s, steps) && NoRelease(steps) && Quotes.ReadAt(s, steps, k, d, run)
    requires d < |Exec(s, steps).db.deposits| && Exec(s, steps).db.deposits[d].addressId < |s.db.addresses|
    requires s.db.addresses[Exec(s, steps).db.deposits[d].addressId].machine == Some(machine)
    ensures
      var id := Exec(s, steps).db.deposits[d].addressId;
      exists price ::
        && PricedAt(s, steps, k, machine, price)
        && run == if price.Some? && price.value > 0 then DirectPay.PayMachine(machine, id, price.value, steps[k].cap)
                  else DirectPay.PayNothing
  {
    var now := Exec(s, steps[..k]);
    Quotes.PrefixAllowed(s, steps, k);
    MachinesAlways(s, steps[..k]);
    TableInvariants.TablesStaySound(s, steps[..k]);
    DepositsAlways(now, steps[k..]);
    assert PricedAt(s, steps, k, machine, now.db.machines[machine].price);
  }

  lemma PaidOnceIsQueued(s: System, d: nat, run: DirectPay.Plan, machine: nat, id: nat, price: Option<int>, cap: int)
    requires d < |s.db.deposits| && d < |s.history.traces| && SingleConsumer.PaidOnce(s, d, run)
    requires run == if price.Some? && price.value > 0 then DirectPay.PayMachine(machine, id, price.value, cap)
                    else DirectPay.PayNothing
    ensures QueuedFor(s, d, machine, price, cap)
  {
    NoDeltasNoRows(s.db.ledger, d);
  }

  /**
   In every run without releases whose crediting runs are over within their lease or alone: a
   credited, fault-free deposit that came in after its address was bound to a machine has
   queued exactly the whole plays at that machine's price, up to the cap, as the hook read them.
   */
  lemma {:induction false} MachineIsPaid(first: seq<Step>, rest: seq<Step>, d: nat, machine: nat)
    requires Allowed(INITIAL, first) && Lease.LeasedRun(INITIAL, first)
    requires Allowed(Exec(INITIAL, first), rest) && Lease.LeasedRun(Exec(INITIAL, first), rest) && NoRelease(rest)
    requires
      var bound := Exec(INITIAL, first);
      var s := Exec(bound, rest);
      && |bound.db.deposits| <= d < |s.db.deposits| == |s.history.traces|
      && s.db.deposits[d].addressId < |bound.db.addresses|
      && bound.db.addresses[s.db.deposits[d].addressId].machine == Some(machine)
      && s.db.deposits[d].state == Credited && s.history.traces[d].faults == 0
    ensures
      var bound := Exec(INITIAL, first);
      var s := Exec(bound, rest);
      exists k, run, price ::
        && Quotes.ReadAt(bound, rest, k, d, run) && PricedAt(bound, rest, k, machine, price)
        && QueuedFor(s, d, machine, price, rest[k].cap)
  {
    var bound := Exec(INITIAL, first);
    var s := Exec(bound, rest);
    Reached(first, rest);
    TableInvariants.TablesStaySound(INITIAL, []);
    TableInvariants.TablesStaySound(INITIAL, first);
    Quotes.RunsWereRead(bound, rest);
    var run := PaidBy(s, d);
    var k :| Quotes.ReadAt(bound, rest, k, d, run);
    ReadForMachine(bound, rest, k, d, run, machine);
    var id := s.db.deposits[d].addressId;
    var price :|
      && PricedAt(bound, rest, k, machine, price)
      && run == if price.Some? && price.value > 0 then DirectPay.PayMachine(machine, id, price.value, rest[k].cap)
                else DirectPay.PayNothing;
    PaidOnceIsQueued(s, d, run, machine, id, price, rest[k].cap);
  }
}
