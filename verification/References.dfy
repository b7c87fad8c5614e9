/**
 What each kind of step writes, and that the references between rows, and from calls and the
 dispatcher to rows, never dangle.
 */
module References {
  import opened Tables
  import opened Economy
  import DirectPay
  import Dispatch
  import Pipeline
  import Pool
  import Users

  predicate AddressStep(step: Step) {
    step.Import? || step.Assign? || step.StartPurchase? || step.Activate? || step.Rotate? || step.Release? || step.Retire?
  }

  predicate CreditStep(step: Step) {
    step.TakeClaim? || step.ReadPlan? || step.RunHook? || step.Mark? || step.Unclaim? || step.LoseCall?
  }

  predicate DispatchStep(step: Step) {
    step.FetchPulses? || step.Attempt? || step.WriteRefund? || step.CrashDispatcher?
  }

  /** An address step writes the addresses table, its alert, and nothing else. */
  lemma AddressFrame(s: System, step: Step)
    requires Refs(s) && AddressStep(step)
    ensures
      var t := Apply(s, step);
      && t == s.(db := t.db, history := s.history.(owners := t.history.owners))
      && t.db == s.db.(addresses := t.db.addresses, alerts := t.db.alerts)
      && |t.db.addresses| >= |s.db.addresses|
      && (!step.StartPurchase? ==> t.history == s.history)
  {
  }

  /** Steps that write ledger rows, pulses or users, or move the dispatcher. */
  predicate BookStep(step: Step) {
    step.RunHook? || step.Redeem? || step.Adjust? || step.Merge? || step.CreateUser? || DispatchStep(step)
  }

  lemma CreditFrame(s: System, step: Step)
    requires Refs(s) && Enabled(s, step) && CreditStep(step) && !step.RunHook?
    ensures
      var t := Apply(s, step);
      && t.db == s.db.(deposits := t.db.deposits) && |t.db.deposits| == |s.db.deposits|
      && t == s.(db := t.db, calls := t.calls, history := s.history.(traces := t.history.traces))
  {
  }

  /** All other steps leave the books alone. */
  lemma BooksFrame(s: System, step: Step)
    requires Refs(s) && Enabled(s, step) && !BookStep(step)
    ensures SameBooks(s, Apply(s, step))
  {
    if AddressStep(step) {
      AddressFrame(s, step);
    } else if CreditStep(step) {
      CreditFrame(s, step);
    } else if step.Receive? {
      ReceiveBooks(s, step.call, step.event, step.policy);
    } else if ReorgStep(step) {
      ReorgBooks(s, step);
    }
  }

  ghost predicate SameBooks(s: System, t: System) {
    && t.db.ledger == s.db.ledger && t.db.pulses == s.db.pulses && t.db.users == s.db.users
    && t.dispatching == s.dispatching
    && t.history.lost == s.history.lost && t.history.heirs == s.history.heirs && t.history.origins == s.history.origins
  }

  lemma ReceiveBooks(s: System, c: nat, event: Pipeline.Event, policy: Pipeline.Policy)
    ensures SameBooks(s, ApplyReceive(s, c, event, policy))
  {
    var addressId := Pool.IdOf(s.db.addresses, event.address);
    if addressId.Some? {
      UpsertFrame(s.db, addressId.value, event, policy);
    }
  }

  lemma ReorgBooks(s: System, step: Step)
    requires Refs(s) && Enabled(s, step) && ReorgStep(step)
    ensures SameBooks(s, Apply(s, step))
  {
  }

  /** A dispatcher step writes pulses and, for a refund, the ledger. */
  lemma DispatchFrame(s: System, step: Step)
    requires Refs(s) && Enabled(s, step) && DispatchStep(step)
    ensures
      var t := Apply(s, step);
      && t.db == s.db.(pulses := t.db.pulses, ledger := t.db.ledger)
      && |t.db.pulses| == |s.db.pulses|
      && (forall p | 0 <= p < |s.db.pulses| ::
            t.db.pulses[p].user == s.db.pulses[p].user && t.db.pulses[p].source == s.db.pulses[p].source
            && t.db.pulses[p].machine == s.db.pulses[p].machine)
      && t.clock == s.clock && t.calls == s.calls && t.history.traces == s.history.traces
      && t.history.owners == s.history.owners && t.history.heirs == s.history.heirs
  {
  }

  /** What a committed hook run writes. */
  lemma HookFrame(db: DB, d: nat, plan: DirectPay.Plan)
    requires d < |db.deposits| && DirectPay.Sound(db, plan)
    ensures
      var tx := DirectPay.CommitHook(db, d, plan);
      tx.Commit? ==>
        && tx.db == db.(deposits := tx.db.deposits, ledger := tx.db.ledger, pulses := tx.db.pulses, addresses := tx.db.addresses)
        && tx.db.deposits == db.deposits[d := db.deposits[d].(remainder := tx.db.deposits[d].remainder)]
        && tx.db.ledger == db.ledger + Payment(db, d, plan)
        && (forall i | 0 <= i < |Payment(db, d, plan)| :: Payment(db, d, plan)[i].user in db.users)
        && tx.db.pulses == db.pulses + NewPulses(db, d, plan)
        && |tx.db.addresses| == |db.addresses|
        && (forall a | 0 <= a < |db.addresses| ::
              tx.db.addresses[a] == db.addresses[a].(useCount := tx.db.addresses[a].useCount))
  {
  }

  /** The ledger rows of a hook run: one for whole tokens, none for less than one. */
  function Payment(db: DB, d: nat, plan: DirectPay.Plan): (entries: seq<Entry>)
    requires d < |db.deposits| && (plan.PayUser? ==> plan.purchase.price > 0)
    ensures |entries| <= 1
  {
    if plan.PayUser? && plan.purchase.user.Some? && GoDiv(db.deposits[d].amount, plan.purchase.price) > 0 then
      [Entry(plan.purchase.user.value, GoDiv(db.deposits[d].amount, plan.purchase.price), Purchase, Some(d), None)]
    else []
  }

  /** The pulses of a hook run: whole credits up to the cap. */
  function NewPulses(db: DB, d: nat, plan: DirectPay.Plan): seq<Pulse>
    requires d < |db.deposits| && (plan.PayMachine? ==> plan.price > 0)
  {
    if plan.PayMachine? && DirectPay.Credits(db.deposits[d].amount, plan.price, plan.cap) > 0 then
      seq(DirectPay.Credits(db.deposits[d].amount, plan.price, plan.cap), _ => DirectPay.DirectPulse(plan.machine))
    else []
  }

  lemma RefsKeptByHook(s: System, c: nat, written: bool)
    requires Refs(s) && c in s.calls && s.calls[c].Planned?
    ensures Refs(ApplyHook(s, c, written))
  {
    var Planned(id, start, plan) := s.calls[c];
    HookFrame(s.db, id, plan);
    var t := ApplyHook(s, c, written);
    var tx := DirectPay.CommitHook(s.db, id, plan);
    if written && tx.Commit? {
      assert RowRefs(t.db) by {
        assert forall i | 0 <= i < |s.db.ledger| :: EntryRefs(s.db, s.db.ledger[i]);
      }
      assert forall k | k in s.calls && k != c :: t.calls[k] == s.calls[k];
    }
  }

  lemma RefsKeptByCredit(s: System, step: Step)
    requires Refs(s) && Enabled(s, step) && CreditStep(step) && !step.RunHook?
    ensures Refs(Apply(s, step))
  {
    var t := Apply(s, step);
    assert t.db == s.db.(deposits := t.db.deposits) && |t.db.deposits| == |s.db.deposits|;
    assert forall i | 0 <= i < |s.db.ledger| :: EntryRefs(s.db, s.db.ledger[i]);
  }

  lemma RefsKeptByDispatch(s: System, step: Step)
    requires Refs(s) && Enabled(s, step) && DispatchStep(step)
    ensures Refs(Apply(s, step))
  {
    DispatchFrame(s, step);
    if step.FetchPulses? {
      Dispatch.FetchedAreFresh(s.db.pulses, Pipeline.Stamp(s.clock));
    }
  }

  lemma RefsKeptByMerge(s: System, from: nat, to: nat)
    requires Refs(s)
    ensures Refs(ApplyMerge(s, from, to))
  {
    var tx := Users.MergeUsers(s.db, from, to);
    if tx.Commit? {
      assert forall i | 0 <= i < |s.db.ledger| :: EntryRefs(s.db, s.db.ledger[i]);
      assert to !in s.db.users ==> forall i | 0 <= i < |s.db.ledger| :: s.db.ledger[i].user != from;
    }
  }

  /** Recording an event touches one deposit, and keeps its address, outpoint and amount. */
  lemma UpsertFrame(db: DB, addressId: nat, event: Pipeline.Event, policy: Pipeline.Policy)
    ensures
      var (after, id) := Pipeline.Upsert(db, addressId, event, policy);
      && after == db.(deposits := after.deposits)
      && |db.deposits| <= |after.deposits| <= |db.deposits| + 1
      && (forall d | 0 <= d < |db.deposits| && d != id :: after.deposits[d] == db.deposits[d])
      && (id < |db.deposits| ==>
            |after.deposits| == |db.deposits|
            && after.deposits[id] == db.deposits[id].(state := after.deposits[id].state,
                 confirmations := after.deposits[id].confirmations, blockHeight := after.deposits[id].blockHeight))
      && (id == |db.deposits| ==>
            |after.deposits| == |db.deposits| + 1 && after.deposits[id].addressId == addressId
            && after.deposits[id].claimedAt.None? && after.deposits[id].remainder.None?)
  {
  }

  lemma RefsKeptByReceive(s: System, c: nat, event: Pipeline.Event, policy: Pipeline.Policy)
    requires Refs(s) && c !in s.calls
    ensures Refs(ApplyReceive(s, c, event, policy))
  {
    var addressId := Pool.IdOf(s.db.addresses, event.address);
    if addressId.Some? {
      UpsertFrame(s.db, addressId.value, event, policy);
      RefsFromDeposits(s, ApplyReceive(s, c, event, policy));
    }
  }

  /** Steps that write deposits and calls, but no new plan. */
  lemma RefsFromDeposits(s: System, t: System)
    requires Refs(s) && t.db == s.db.(deposits := t.db.deposits) && |s.db.deposits| <= |t.db.deposits|
    requires forall d | 0 <= d < |t.db.deposits| :: t.db.deposits[d].addressId < |t.db.addresses|
    requires t.dispatching == s.dispatching && t.history == s.history.(traces := t.history.traces)
    requires |t.history.traces| == |t.db.deposits|
    requires forall c | c in t.calls ::
               t.calls[c].deposit < |t.db.deposits|
               && (t.calls[c].Planned? ==> c in s.calls && t.calls[c] == s.calls[c])
    ensures Refs(t)
  {
    DepositsRefs(s.db, t.db);
    assert forall c | c in s.calls && s.calls[c].Planned? :: DirectPay.Sound(t.db, s.calls[c].plan);
  }

  /** Deposits that keep their addresses, and new ones on known addresses, leave no reference dangling. */
  lemma DepositsRefs(before: DB, after: DB)
    requires RowRefs(before) && after == before.(deposits := after.deposits) && |before.deposits| <= |after.deposits|
    requires forall d | 0 <= d < |after.deposits| :: after.deposits[d].addressId < |after.addresses|
    ensures RowRefs(after)
  {
    forall i | 0 <= i < |after.ledger|
      ensures EntryRefs(after, after.ledger[i])
    {
      assert EntryRefs(before, before.ledger[i]);
    }
  }

  predicate ReorgStep(step: Step) {
    step.ReadReorg? || step.WriteReorg? || step.WriteAlert? || step.Raise? || step.Acknowledge? || step.Tick?
  }

  lemma RefsKeptByReorg(s: System, step: Step)
    requires Refs(s) && Enabled(s, step) && ReorgStep(step)
    ensures Refs(Apply(s, step))
  {
    var t := Apply(s, step);
    assert t.db == s.db.(deposits := t.db.deposits, alerts := t.db.alerts) && |t.db.deposits| == |s.db.deposits|;
    assert forall i | 0 <= i < |s.db.ledger| :: EntryRefs(s.db, s.db.ledger[i]);
  }

  lemma RefsKeptByAccounts(s: System, step: Step)
    requires Refs(s) && Enabled(s, step)
    requires step.CreateUser? || step.Audit? || step.SetMachine? || step.Redeem? || step.Adjust?
    ensures Refs(Apply(s, step))
  {
    var t := Apply(s, step);
    AccountsFrame(s, step);
    forall i | 0 <= i < |t.db.ledger|
      ensures EntryRefs(t.db, t.db.ledger[i])
    {
      assert i < |s.db.ledger| ==> EntryRefs(s.db, s.db.ledger[i]) && t.db.ledger[i] == s.db.ledger[i];
    }
  }

  /** Accounts, machines, redemptions and adjustments: at most one more pulse and one more ledger row. */
  lemma AccountsFrame(s: System, step: Step)
    requires Refs(s) && Enabled(s, step)
    requires step.CreateUser? || step.Audit? || step.SetMachine? || step.Redeem? || step.Adjust?
    ensures
      var t := Apply(s, step);
      && s.db.users <= t.db.users && t.db.auditors <= t.db.users && t.db.users <= t.history.heirs.Keys
      && t.db.deposits == s.db.deposits && t.db.addresses == s.db.addresses && t.calls == s.calls
      && t.dispatching == s.dispatching && t.history.traces == s.history.traces
      && s.db.pulses <= t.db.pulses
      && (forall p | |s.db.pulses| <= p < |t.db.pulses| && t.db.pulses[p].user.Some? :: t.db.pulses[p].user.value in t.db.users)
      && s.db.ledger <= t.db.ledger && |t.history.origins| == |t.db.ledger|
      && (forall i | |s.db.ledger| <= i < |t.db.ledger| :: EntryRefs(t.db, t.db.ledger[i]))
  {
  }

  /** Refs is no restriction: it holds at the start and every step keeps it. */
  lemma RefsKept(s: System, step: Step)
    requires Refs(s) && Enabled(s, step)
    ensures Refs(INITIAL) && Refs(Apply(s, step))
  {
    if AddressStep(step) {
      AddressFrame(s, step);
    } else if step.RunHook? {
      RefsKeptByHook(s, step.call, step.written);
    } else if CreditStep(step) {
      RefsKeptByCredit(s, step);
    } else if DispatchStep(step) {
      RefsKeptByDispatch(s, step);
    } else if step.Merge? {
      RefsKeptByMerge(s, step.from, step.to);
    } else if step.Receive? {
      RefsKeptByReceive(s, step.call, step.event, step.policy);
    } else if ReorgStep(step) {
      RefsKeptByReorg(s, step);
    } else {
      RefsKeptByAccounts(s, step);
    }
  }

  // --- the same, step by step ---

  lemma RefsAfterClaim(s: System, c: nat)
    requires Refs(s) && c in s.calls && s.calls[c].Ready?
    ensures Refs(ApplyClaim(s, c))
  {
    RefsKept(s, TakeClaim(c));
  }

  lemma RefsAfterPlan(s: System, c: nat, tokenPrice: int, cap: int)
    requires Refs(s) && c in s.calls && s.calls[c].Claimed?
    ensures Refs(ApplyPlan(s, c, tokenPrice, cap))
  {
    RefsKept(s, ReadPlan(c, tokenPrice, cap));
  }

  lemma RefsAfterMark(s: System, c: nat)
    requires Refs(s) && c in s.calls && s.calls[c].Paid?
    ensures Refs(ApplyMark(s, c))
  {
    RefsKept(s, Mark(c));
  }

  lemma RefsAfterLose(s: System, c: nat)
    requires Refs(s) && c in s.calls
    ensures Refs(ApplyLose(s, c))
  {
    RefsKept(s, LoseCall(c));
  }

  lemma RefsAfterReadReorg(s: System, c: nat, outpoint: Outpoint)
    requires Refs(s) && c !in s.calls
    ensures Refs(ApplyReadReorg(s, c, outpoint))
  {
    RefsKept(s, ReadReorg(c, outpoint));
  }

  lemma RefsAfterWriteReorg(s: System, c: nat)
    requires Refs(s) && c in s.calls && s.calls[c].Reorging?
    ensures Refs(ApplyWriteReorg(s, c))
  {
    RefsKept(s, WriteReorg(c));
  }

  lemma RefsAfterStart(s: System, user: nat)
    requires Refs(s)
    ensures Refs(ApplyStart(s, user))
  {
    RefsKept(s, StartPurchase(user));
  }

  lemma RefsAfterRefund(s: System, written: bool)
    requires Refs(s) && s.dispatching.Owing?
    ensures Refs(ApplyRefund(s, written))
  {
    RefsKept(s, WriteRefund(written));
  }
}
