/**
 Ownership survives merges: in every run in which no address goes back to the pool, an
 address belongs to the account that its first user is merged into by now, every payment to
 it is credited to that account, and that account's balance is the sum over its merge class.
 */
module Ownership {
  import opened Tables
  import opened Sums
  import opened Economy
  import Bindings
  import DirectPay
  import Ledger
  import Pipeline
  import Pool
  import PurchaseFlow
  import References

  /** No release, and only existing users buy or survive a merge. */
  ghost predicate Orderly(s: System, step: Step) {
    && !step.Release?
    && (step.StartPurchase? ==> step.user in s.db.users)
    && (step.Merge? ==> step.to in s.db.users)
  }

  ghost predicate OrderlyRun(s: System, steps: seq<Step>)
    requires Allowed(s, steps)
    decreases |steps|
  {
    steps == [] || (Orderly(s, steps[0]) && OrderlyRun(Apply(s, steps[0]), steps[1..]))
  }

  /** Every user ever created has a living heir, and the living are their own heirs. */
  ghost predicate HeirsLive(s: System) {
    && (forall u | u in s.history.heirs :: s.history.heirs[u] in s.db.users)
    && (forall u | u in s.db.users :: u in s.history.heirs && s.history.heirs[u] == u)
  }

  /** An address belongs to its first user's heir. */
  ghost predicate AddressesOwned(s: System) {
    && (forall a | a in s.history.owners ::
          && a < |s.db.addresses| && s.history.owners[a] in s.history.heirs
          && s.db.addresses[a].user == Some(s.history.heirs[s.history.owners[a]]))
    && (forall a | 0 <= a < |s.db.addresses| && s.db.addresses[a].user.Some? :: a in s.history.owners)
  }

  /** A ledger row belongs to the heir of the user it was written for. */
  ghost predicate RowsOwned(s: System) {
    && |s.history.origins| == |s.db.ledger|
    && (forall i | 0 <= i < |s.db.ledger| ::
          s.history.origins[i] in s.history.heirs && s.db.ledger[i].user == s.history.heirs[s.history.origins[i]])
  }

  ghost function Payee(s: System, d: nat): Option<nat>
    requires Refs(s) && d < |s.db.deposits|
  {
    s.db.addresses[s.db.deposits[d].addressId].user
  }

  ghost predicate PaymentsOwned(s: System)
    requires Refs(s)
  {
    forall i | 0 <= i < |s.db.ledger| && s.db.ledger[i].kind == Purchase ::
      EntryRefs(s.db, s.db.ledger[i]) && Payee(s, s.db.ledger[i].deposit.value) == Some(s.db.ledger[i].user)
  }

  /** A hook that read a user who still exists will pay the right one. */
  ghost predicate PlanOwned(s: System, call: Call)
    requires Refs(s) && call.deposit < |s.db.deposits|
  {
    call.Planned? && call.plan.PayUser? && call.plan.purchase.user.Some? ==>
      var u := call.plan.purchase.user.value;
      u in s.history.heirs && (u in s.db.users ==> Payee(s, call.deposit) == Some(u))
  }

  ghost predicate PlansOwned(s: System)
    requires Refs(s)
  {
    forall c | c in s.calls :: PlanOwned(s, s.calls[c])
  }

  ghost predicate Inv(s: System) {
    && Refs(s) && Bindings.Sound(s.db.addresses)
    && HeirsLive(s) && AddressesOwned(s) && RowsOwned(s) && PaymentsOwned(s) && PlansOwned(s)
  }

  /** Addresses keep their users and rows their owners; new rows are written for living users. */
  lemma Frame(s: System, t: System)
    requires Inv(s) && Refs(t) && Bindings.Sound(t.db.addresses)
    requires t.db.users == s.db.users && t.history.heirs == s.history.heirs && t.history.owners == s.history.owners
    requires |t.db.addresses| >= |s.db.addresses|
    requires forall a | 0 <= a < |s.db.addresses| :: t.db.addresses[a].user == s.db.addresses[a].user
    requires forall a | |s.db.addresses| <= a < |t.db.addresses| :: t.db.addresses[a].user.None?
    requires |t.db.deposits| >= |s.db.deposits|
    requires forall d | 0 <= d < |s.db.deposits| :: t.db.deposits[d].addressId == s.db.deposits[d].addressId
    requires RowsOwned(t) && PaymentsOwned(t)
    requires forall c | c in t.calls :: (c in s.calls && t.calls[c] == s.calls[c]) || PlanOwned(t, t.calls[c])
    ensures Inv(t)
  {
    forall c | c in t.calls
      ensures PlanOwned(t, t.calls[c])
    {
      if c in s.calls && t.calls[c] == s.calls[c] {
        assert PlanOwned(s, s.calls[c]);
      }
    }
  }

  lemma RowsStay(s: System, t: System)
    requires Inv(s) && Refs(t) && t.db.ledger == s.db.ledger && t.history.origins == s.history.origins
    requires t.history.heirs == s.history.heirs
    requires |t.db.addresses| >= |s.db.addresses| && |t.db.deposits| >= |s.db.deposits|
    requires forall a | 0 <= a < |s.db.addresses| && s.db.addresses[a].user.Some? ::
               t.db.addresses[a].user == s.db.addresses[a].user
    requires forall d | 0 <= d < |s.db.deposits| :: t.db.deposits[d].addressId == s.db.deposits[d].addressId
    ensures RowsOwned(t) && PaymentsOwned(t)
  {
    forall i | 0 <= i < |t.db.ledger| && t.db.ledger[i].kind == Purchase
      ensures EntryRefs(t.db, t.db.ledger[i]) && Payee(t, t.db.ledger[i].deposit.value) == Some(t.db.ledger[i].user)
    {
      assert EntryRefs(s.db, s.db.ledger[i]);
    }
  }

  lemma RowAdded(s: System, t: System)
    requires Inv(s) && Refs(t)
    requires |t.db.ledger| == |s.db.ledger| + 1 && t.db.ledger[..|s.db.ledger|] == s.db.ledger
    requires t.history.origins == s.history.origins + [t.db.ledger[|s.db.ledger|].user]
    requires t.history.heirs == s.history.heirs && t.db.users == s.db.users
    requires |t.db.addresses| == |s.db.addresses| && |t.db.deposits| == |s.db.deposits|
    requires forall a | 0 <= a < |s.db.addresses| :: t.db.addresses[a].user == s.db.addresses[a].user
    requires forall d | 0 <= d < |s.db.deposits| :: t.db.deposits[d].addressId == s.db.deposits[d].addressId
    requires
      var e := t.db.ledger[|s.db.ledger|];
      e.kind == Purchase ==> e.deposit.Some? && e.deposit.value < |t.db.deposits| && Payee(t, e.deposit.value) == Some(e.user)
    ensures RowsOwned(t) && PaymentsOwned(t)
  {
    var n := |s.db.ledger|;
    assert EntryRefs(t.db, t.db.ledger[n]);
    forall i | 0 <= i < |t.db.ledger|
      ensures t.history.origins[i] in t.history.heirs && t.db.ledger[i].user == t.history.heirs[t.history.origins[i]]
      ensures t.db.ledger[i].kind == Purchase ==>
                EntryRefs(t.db, t.db.ledger[i]) && Payee(t, t.db.ledger[i].deposit.value) == Some(t.db.ledger[i].user)
    {
      if i < n {
        assert t.db.ledger[i] == t.db.ledger[..n][i] == s.db.ledger[i];
        assert EntryRefs(s.db, s.db.ledger[i]);
      }
    }
  }

  lemma AddressKeeps(s: System, step: Step)
    requires Inv(s) && Enabled(s, step) && Orderly(s, step) && References.AddressStep(step) && !step.StartPurchase?
    ensures Inv(Apply(s, step))
  {
    var t := Apply(s, step);
    References.RefsKept(s, step);
    References.AddressFrame(s, step);
    var now := Pipeline.Stamp(s.clock);
    match step {
      case Import(order, purpose) => Bindings.ImportKeeps(s.db, order, purpose);
      case Assign(purpose) => Bindings.AssignKeeps(s.db, purpose, now);
      case Activate(machine) => Bindings.ActivateKeeps(s.db, machine, now);
      case Rotate(machine) => Bindings.RotateKeeps(s.db, machine, now);
      case Retire(id) => Bindings.RetireKeeps(s.db, id);
    }
    UsersStay(s, step);
    RowsStay(s, t);
    Frame(s, t);
  }

  lemma UsersStay(s: System, step: Step)
    requires Refs(s) && References.AddressStep(step) && !step.StartPurchase? && !step.Release?
    ensures
      var t := Apply(s, step);
      && |t.db.addresses| >= |s.db.addresses|
      && (forall a | 0 <= a < |s.db.addresses| :: t.db.addresses[a].user == s.db.addresses[a].user)
      && (forall a | |s.db.addresses| <= a < |t.db.addresses| :: t.db.addresses[a].user.None?)
  {
    if step.Rotate? {
      RotationStays(s.db, step.machine, Pipeline.Stamp(s.clock));
    }
  }

  lemma RotationStays(db: DB, machine: nat, now: int)
    ensures
      var after := DirectPay.RotateMachine(db, machine, now).0;
      && |after.addresses| == |db.addresses|
      && forall a | 0 <= a < |db.addresses| :: after.addresses[a].user == db.addresses[a].user
  {
  }

  /** StartPurchase touches one unbound row, which it gives to the user. */
  lemma StartFrame(s: System, user: nat)
    requires Bindings.Sound(s.db.addresses)
    ensures
      var t := ApplyStart(s, user);
      t != s ==> exists a :: Given(s, t, user, a)
  {
    var t := ApplyStart(s, user);
    var tx := PurchaseFlow.Start(s.db, user, Pipeline.Stamp(s.clock));
    if t != s {
      assert Given(s, t, user, tx.result);
    }
  }

  ghost predicate Given(s: System, t: System, user: nat, a: nat) {
    && a < |s.db.addresses| && s.db.addresses[a].user.None?
    && |t.db.addresses| == |s.db.addresses| && t.db.addresses[a].user == Some(user)
    && (forall i | 0 <= i < |s.db.addresses| && i != a :: t.db.addresses[i] == s.db.addresses[i])
    && t == s.(db := s.db.(addresses := t.db.addresses),
               history := s.history.(owners := s.history.owners[a := user]))
  }

  lemma StartKeeps(s: System, user: nat)
    requires Inv(s) && user in s.db.users
    ensures Inv(ApplyStart(s, user))
  {
    var t := ApplyStart(s, user);
    References.RefsAfterStart(s, user);
    Bindings.StartKeeps(s.db, user, Pipeline.Stamp(s.clock));
    StartFrame(s, user);
    if t != s {
      var a :| Given(s, t, user, a);
      GivenKeeps(s, t, user, a);
    }
  }

  lemma GivenKeeps(s: System, t: System, user: nat, a: nat)
    requires Inv(s) && user in s.db.users && Given(s, t, user, a)
    requires Refs(t) && Bindings.Sound(t.db.addresses)
    ensures Inv(t)
  {
    RowsStay(s, t);
    forall c | c in t.calls
      ensures PlanOwned(t, t.calls[c])
    {
      assert PlanOwned(s, s.calls[c]);
    }
  }

  lemma MergeKeeps(s: System, from: nat, to: nat)
    requires Inv(s) && to in s.db.users
    ensures Inv(ApplyMerge(s, from, to))
  {
    var t := ApplyMerge(s, from, to);
    References.RefsKeptByMerge(s, from, to);
    Bindings.MergeExactly(s.db, from, to);
    if t != s {
      forall i | 0 <= i < |t.db.ledger| && t.db.ledger[i].kind == Purchase
        ensures EntryRefs(t.db, t.db.ledger[i]) && Payee(t, t.db.ledger[i].deposit.value) == Some(t.db.ledger[i].user)
      {
        assert EntryRefs(s.db, s.db.ledger[i]);
      }
      forall c | c in t.calls
        ensures PlanOwned(t, t.calls[c])
      {
        assert PlanOwned(s, s.calls[c]);
      }
    }
  }

  lemma HookKeeps(s: System, c: nat, written: bool)
    requires Inv(s) && c in s.calls && s.calls[c].Planned?
    ensures Inv(ApplyHook(s, c, written))
  {
    var t := ApplyHook(s, c, written);
    References.RefsKeptByHook(s, c, written);
    References.HookFrame(s.db, s.calls[c].deposit, s.calls[c].plan);
    HookRows(s, c, written);
    if t.db != s.db {
      Bindings.CreditKeeps(s.db, s.calls[c].deposit, s.calls[c].plan);
    }
    Frame(s, t);
  }

  lemma HookRows(s: System, c: nat, written: bool)
    requires Inv(s) && c in s.calls && s.calls[c].Planned? && Refs(ApplyHook(s, c, written))
    ensures RowsOwned(ApplyHook(s, c, written)) && PaymentsOwned(ApplyHook(s, c, written))
  {
    var t := ApplyHook(s, c, written);
    var Planned(id, start, plan) := s.calls[c];
    References.HookFrame(s.db, id, plan);
    assert PlanOwned(s, s.calls[c]);
    var paid := References.Payment(s.db, id, plan);
    if t.db == s.db || paid == [] {
      RowsStay(s, t);
    } else {
      assert paid == [paid[0]] && paid[0].user in s.db.users;
      RowAdded(s, t);
    }
  }

  lemma PlanKeeps(s: System, c: nat, tokenPrice: int, cap: int)
    requires Inv(s) && c in s.calls && s.calls[c].Claimed?
    ensures Inv(ApplyPlan(s, c, tokenPrice, cap))
  {
    var t := ApplyPlan(s, c, tokenPrice, cap);
    References.RefsAfterPlan(s, c, tokenPrice, cap);
    RowsStay(s, t);
    var payee := Payee(s, s.calls[c].deposit);
    assert payee.Some? ==> payee.value in s.history.heirs;
    assert PlanOwned(t, t.calls[c]);
    Frame(s, t);
  }

  lemma LedgerKeeps(s: System, step: Step)
    requires Inv(s) && Enabled(s, step) && (step.Redeem? || step.Adjust? || step.WriteRefund?)
    ensures Inv(Apply(s, step))
  {
    var t := Apply(s, step);
    References.RefsKept(s, step);
    LedgerFrame(s, step);
    if t.db.ledger == s.db.ledger {
      RowsStay(s, t);
    } else {
      RowAdded(s, t);
    }
    Frame(s, t);
  }

  lemma LedgerFrame(s: System, step: Step)
    requires Refs(s) && Enabled(s, step) && (step.Redeem? || step.Adjust? || step.WriteRefund?)
    ensures
      var t := Apply(s, step);
      && t.db == s.db.(pulses := t.db.pulses, ledger := t.db.ledger) && t.calls == s.calls
      && t.history == s.history.(lost := t.history.lost, origins := t.history.origins)
      && (t.db.ledger != s.db.ledger ==>
            && |t.db.ledger| == |s.db.ledger| + 1 && t.db.ledger[..|s.db.ledger|] == s.db.ledger
            && t.db.ledger[|s.db.ledger|].kind != Purchase
            && t.history.origins == s.history.origins + [t.db.ledger[|s.db.ledger|].user])
      && (t.db.ledger == s.db.ledger ==> t.history.origins == s.history.origins)
  {
  }

  lemma CreateKeeps(s: System, user: nat)
    requires Inv(s) && user !in s.history.heirs
    ensures Inv(Apply(s, CreateUser(user)))
  {
    var t := Apply(s, CreateUser(user));
    References.RefsKept(s, CreateUser(user));
    forall c | c in t.calls
      ensures PlanOwned(t, t.calls[c])
    {
      assert PlanOwned(s, s.calls[c]);
    }
    forall i | 0 <= i < |t.db.ledger| && t.db.ledger[i].kind == Purchase
      ensures EntryRefs(t.db, t.db.ledger[i]) && Payee(t, t.db.ledger[i].deposit.value) == Some(t.db.ledger[i].user)
    {
      assert EntryRefs(s.db, s.db.ledger[i]);
    }
  }

  lemma ReceiveKeeps(s: System, c: nat, event: Pipeline.Event, policy: Pipeline.Policy)
    requires Inv(s) && c !in s.calls
    ensures Inv(ApplyReceive(s, c, event, policy))
  {
    var t := ApplyReceive(s, c, event, policy);
    References.RefsKeptByReceive(s, c, event, policy);
    var addressId := Pool.IdOf(s.db.addresses, event.address);
    if addressId.Some? {
      References.UpsertFrame(s.db, addressId.value, event, policy);
      RowsStay(s, t);
      Frame(s, t);
    }
  }

  predicate OtherStep(step: Step) {
    step.Audit? || step.SetMachine? || step.TakeClaim? || step.Mark? || step.Unclaim? || step.LoseCall?
    || step.ReadReorg? || step.WriteReorg? || step.WriteAlert? || step.FetchPulses? || step.Attempt?
    || step.CrashDispatcher? || step.Raise? || step.Acknowledge? || step.Tick?
  }

  /** Steps that write neither ledger, addresses nor plans. */
  lemma OtherFrame(s: System, step: Step)
    requires Refs(s) && Enabled(s, step) && OtherStep(step)
    ensures
      var t := Apply(s, step);
      && t.db.users == s.db.users && t.db.addresses == s.db.addresses && t.db.ledger == s.db.ledger
      && t.history.origins == s.history.origins && t.history.owners == s.history.owners && t.history.heirs == s.history.heirs
      && |t.db.deposits| == |s.db.deposits|
      && (forall d | 0 <= d < |s.db.deposits| :: t.db.deposits[d].addressId == s.db.deposits[d].addressId)
      && (forall c | c in t.calls :: (c in s.calls && t.calls[c] == s.calls[c]) || !t.calls[c].Planned?)
  {
    if References.DispatchStep(step) {
      References.DispatchFrame(s, step);
    } else if References.CreditStep(step) {
      CreditCalls(s, step);
    }
  }

  lemma CreditCalls(s: System, step: Step)
    requires Refs(s) && Enabled(s, step) && References.CreditStep(step) && !step.RunHook? && !step.ReadPlan?
    ensures
      var t := Apply(s, step);
      && t.db == s.db.(deposits := t.db.deposits) && |t.db.deposits| == |s.db.deposits|
      && t == s.(db := t.db, calls := t.calls, history := s.history.(traces := t.history.traces))
      && (forall d | 0 <= d < |s.db.deposits| :: t.db.deposits[d].addressId == s.db.deposits[d].addressId)
      && (forall c | c in t.calls :: (c in s.calls && t.calls[c] == s.calls[c]) || !t.calls[c].Planned?)
  {
  }

  lemma InvKept(s: System, step: Step)
    requires Inv(s) && Enabled(s, step) && Orderly(s, step)
    ensures Inv(Apply(s, step))
  {
    if OtherStep(step) {
      References.RefsKept(s, step);
      OtherFrame(s, step);
      RowsStay(s, Apply(s, step));
      Frame(s, Apply(s, step));
    } else if step.StartPurchase? {
      StartKeeps(s, step.user);
    } else if References.AddressStep(step) {
      AddressKeeps(s, step);
    } else if step.Merge? {
      MergeKeeps(s, step.from, step.to);
    } else if step.RunHook? {
      HookKeeps(s, step.call, step.written);
    } else if step.ReadPlan? {
      PlanKeeps(s, step.call, step.tokenPrice, step.cap);
    } else if step.CreateUser? {
      CreateKeeps(s, step.user);
    } else if step.Receive? {
      ReceiveKeeps(s, step.call, step.event, step.policy);
    } else {
      LedgerKeeps(s, step);
    }
  }

  lemma {:induction false} InvAlways(s: System, steps: seq<Step>)
    requires Inv(s) && Allowed(s, steps) && OrderlyRun(s, steps)
    ensures Inv(Exec(s, steps))
    decreases |steps|
  {
    if steps != [] {
      InvKept(s, steps[0]);
      InvAlways(Apply(s, steps[0]), steps[1..]);
    }
  }

  // --- merge classes ---

  ghost function ClassDelta(s: System, members: set<nat>): nat -> int {
    (i: nat) => if i < |s.db.ledger| && i < |s.history.origins| && s.history.origins[i] in members then s.db.ledger[i].delta else 0
  }

  /** What was written for the members of a class, whoever's account it was at the time. */
  ghost function ClassTotal(s: System, members: set<nat>): int {
    Sum(|s.db.ledger|, ClassDelta(s, members))
  }

  /** The total of a class is the sum of its members' totals. */
  lemma ClassAdds(s: System, members: set<nat>, user: nat)
    requires user !in members
    ensures ClassTotal(s, members + {user}) == ClassTotal(s, members) + ClassTotal(s, {user})
  {
    SumAdds(|s.db.ledger|, ClassDelta(s, members), ClassDelta(s, {user}), ClassDelta(s, members + {user}));
  }

  ghost function MergeClass(s: System, user: nat): set<nat> {
    set u | u in s.history.heirs && s.history.heirs[u] == user
  }

  /**
   For every orderly run, with merges between any two statements of a hook: addresses and
   purchase rows belong to the heir of the address's first user, and a balance sums what was
   bought, redeemed, refunded and adjusted by all users merged into the account.
   */
  lemma {:induction false} OwnershipSurvivesMerges(steps: seq<Step>)
    requires Allowed(INITIAL, steps) && OrderlyRun(INITIAL, steps)
    ensures
      var s := Exec(INITIAL, steps);
      && Refs(s)
      && (forall a | a in s.history.owners ::
            && a < |s.db.addresses| && s.history.owners[a] in s.history.heirs
            && s.db.addresses[a].user == Some(s.history.heirs[s.history.owners[a]]))
      && (forall i | 0 <= i < |s.db.ledger| && s.db.ledger[i].kind == Purchase ::
            && EntryRefs(s.db, s.db.ledger[i])
            && var a := s.db.deposits[s.db.ledger[i].deposit.value].addressId;
               a in s.history.owners && s.history.owners[a] in s.history.heirs
               && s.db.ledger[i].user == s.history.heirs[s.history.owners[a]])
      && (forall user: nat :: Ledger.Balance(s.db.ledger, user) == ClassTotal(s, MergeClass(s, user)))
  {
    assert Inv(INITIAL);
    InvAlways(INITIAL, steps);
    var s := Exec(INITIAL, steps);
    forall user: nat
      ensures Ledger.Balance(s.db.ledger, user) == ClassTotal(s, MergeClass(s, user))
    {
      BalanceOfClass(s, user);
    }
    PaymentsToHeirs(s);
  }

  lemma BalanceOfClass(s: System, user: nat)
    requires RowsOwned(s)
    ensures Ledger.Balance(s.db.ledger, user) == ClassTotal(s, MergeClass(s, user))
  {
    SumCongruent(|s.db.ledger|, Ledger.Delta(s.db.ledger, user), ClassDelta(s, MergeClass(s, user)));
  }

  lemma PaymentsToHeirs(s: System)
    requires Inv(s)
    ensures forall i | 0 <= i < |s.db.ledger| && s.db.ledger[i].kind == Purchase ::
              && EntryRefs(s.db, s.db.ledger[i])
              && var a := s.db.deposits[s.db.ledger[i].deposit.value].addressId;
                 a in s.history.owners && s.history.owners[a] in s.history.heirs
                 && s.db.ledger[i].user == s.history.heirs[s.history.owners[a]]
  {
  }
}
