/** What the address, deposit and alert tables keep over whole runs. */
module TableInvariants {
  import opened Tables
  import opened Economy
  import Bindings
  import DirectPay
  import Like
  import Pipeline
  import Pool
  import References
  import SingleConsumer

  ghost predicate Inv(s: System) {
    Refs(s) && Bindings.Sound(s.db.addresses) && OutpointsUnique(s.db.deposits)
  }

  lemma AddressesKept(s: System, step: Step)
    requires Inv(s) && Enabled(s, step) && References.AddressStep(step)
    ensures Bindings.Sound(Apply(s, step).db.addresses)
  {
    var now := Pipeline.Stamp(s.clock);
    match step {
      case Import(order, purpose) => Bindings.ImportKeeps(s.db, order, purpose);
      case Assign(purpose) => Bindings.AssignKeeps(s.db, purpose, now);
      case StartPurchase(user) => Bindings.StartKeeps(s.db, user, now);
      case Activate(machine) => Bindings.ActivateKeeps(s.db, machine, now);
      case Rotate(machine) => Bindings.RotateKeeps(s.db, machine, now);
      case Release(id) => Bindings.ReleaseKeeps(s.db, id);
      case Retire(id) => Bindings.RetireKeeps(s.db, id);
    }
  }

  lemma HookKept(s: System, c: nat, written: bool)
    requires Inv(s) && c in s.calls && s.calls[c].Planned?
    ensures Inv(ApplyHook(s, c, written))
  {
    References.RefsKeptByHook(s, c, written);
    References.HookFrame(s.db, s.calls[c].deposit, s.calls[c].plan);
    Bindings.CreditKeeps(s.db, s.calls[c].deposit, s.calls[c].plan);
  }

  lemma ReceiveKept(s: System, c: nat, event: Pipeline.Event, policy: Pipeline.Policy)
    requires Inv(s) && c !in s.calls
    ensures Inv(ApplyReceive(s, c, event, policy))
  {
    References.RefsKeptByReceive(s, c, event, policy);
    var addressId := Pool.IdOf(s.db.addresses, event.address);
    if addressId.Some? {
      References.UpsertFrame(s.db, addressId.value, event, policy);
      var found := Pipeline.FindDeposit(s.db.deposits, event.outpoint);
      var t := ApplyReceive(s, c, event, policy);
      assert forall d | 0 <= d < |s.db.deposits| :: t.db.deposits[d].outpoint == s.db.deposits[d].outpoint;
    }
  }

  lemma CreditKept(s: System, step: Step)
    requires Inv(s) && Enabled(s, step) && References.CreditStep(step) && !step.RunHook?
    ensures Inv(Apply(s, step))
  {
    References.RefsKept(s, step);
    var t := Apply(s, step);
    assert t.db.addresses == s.db.addresses && |t.db.deposits| == |s.db.deposits|;
    assert forall d | 0 <= d < |s.db.deposits| :: t.db.deposits[d].outpoint == s.db.deposits[d].outpoint;
  }

  lemma InvKept(s: System, step: Step)
    requires Inv(s) && Enabled(s, step)
    ensures Inv(Apply(s, step))
  {
    if step.RunHook? {
      HookKept(s, step.call, step.written);
    } else if step.Receive? {
      ReceiveKept(s, step.call, step.event, step.policy);
    } else if References.CreditStep(step) {
      CreditKept(s, step);
    } else {
      References.RefsKept(s, step);
      if References.AddressStep(step) {
        AddressesKept(s, step);
        References.AddressFrame(s, step);
      } else if step.Merge? {
        Bindings.MergeExactly(s.db, step.from, step.to);
      } else if References.DispatchStep(step) {
        References.DispatchFrame(s, step);
      } else {
        RestKept(s, step);
      }
    }
  }

  lemma RestKept(s: System, step: Step)
    requires Inv(s) && Enabled(s, step)
    requires !References.AddressStep(step) && !References.CreditStep(step) && !References.DispatchStep(step)
    requires !step.Receive? && !step.Merge?
    ensures Apply(s, step).db.addresses == s.db.addresses
    ensures |Apply(s, step).db.deposits| == |s.db.deposits|
    ensures forall d | 0 <= d < |s.db.deposits| :: Apply(s, step).db.deposits[d].outpoint == s.db.deposits[d].outpoint
  {
  }

  /**
   Over every interleaving of every service: addresses are unique, pool rows are bound to
   nobody, users hold token_deposit and machines machine_direct addresses, at most one of
   them assigned, and an outpoint has one deposit.
   */
  lemma {:induction false} TablesStaySound(s: System, steps: seq<Step>)
    requires Inv(s) && Allowed(s, steps)
    ensures Inv(INITIAL) && Inv(Exec(s, steps))
    decreases |steps|
  {
    if steps != [] {
      InvKept(s, steps[0]);
      TablesStaySound(Apply(s, steps[0]), steps[1..]);
    }
  }

  // --- reorg alerts ---

  ghost predicate HexReorg(step: Step) {
    step.ReadReorg? ==> Like.IsHex(step.outpoint.txid)
  }

  ghost predicate HexRun(s: System, steps: seq<Step>)
    requires Allowed(s, steps)
    decreases |steps|
  {
    steps == [] || (HexReorg(steps[0]) && HexRun(Apply(s, steps[0]), steps[1..]))
  }

  /** An unacknowledged alert that the dedup query for the deposit finds. */
  ghost predicate Names(alert: Alert, d: nat) {
    alert.kind == Pipeline.REORG_ALERT && !alert.acked && Like.Matches(Like.AlertPattern(d), alert.message, None)
  }

  ghost predicate OneAlertEach(alerts: seq<Alert>) {
    forall i, j, d | 0 <= i < j < |alerts| && Names(alerts[i], d) && Names(alerts[j], d) :: false
  }

  ghost predicate AlertInv(s: System) {
    && OneAlertEach(s.db.alerts)
    && (forall c | c in s.calls && (s.calls[c].Reorging? || s.calls[c].Alerting?) :: Like.IsHex(s.calls[c].txid))
    && (forall c, i | c in s.calls && s.calls[c].Alerting? && 0 <= i < |s.db.alerts| :: !Names(s.db.alerts[i], s.calls[c].deposit))
  }

  /** Calls about to alert have checked, or will check, the alerts as they are. */
  ghost predicate CallsAlerted(s: System, t: System) {
    && (forall c | c in t.calls && (t.calls[c].Reorging? || t.calls[c].Alerting?) :: Like.IsHex(t.calls[c].txid))
    && (forall c | c in t.calls && t.calls[c].Alerting? ::
          (c in s.calls && t.calls[c] == s.calls[c]) || !Pipeline.Reported(s.db.alerts, t.calls[c].deposit))
  }

  /** Steps that write no reorg alert. */
  lemma AlertFrame(s: System, t: System)
    requires AlertInv(s)
    requires |t.db.alerts| >= |s.db.alerts|
    requires forall i, d | 0 <= i < |s.db.alerts| && Names(t.db.alerts[i], d) :: Names(s.db.alerts[i], d)
    requires forall i | |s.db.alerts| <= i < |t.db.alerts| :: t.db.alerts[i].kind != Pipeline.REORG_ALERT
    requires CallsAlerted(s, t)
    ensures AlertInv(t)
  {
  }

  lemma AlertWritten(s: System, c: nat)
    requires AlertInv(s) && c in s.calls && s.calls[c].Alerting? && (forall k | k in s.calls :: k == c)
    ensures AlertInv(ApplyWriteAlert(s, c))
  {
    var t := ApplyWriteAlert(s, c);
    var Alerting(id, txid) := s.calls[c];
    forall d: nat
      ensures Names(t.db.alerts[|s.db.alerts|], d) <==> d == id
    {
      Like.AlertPatternIsExact(d, id, txid);
    }
    assert forall i | 0 <= i < |s.db.alerts| :: t.db.alerts[i] == s.db.alerts[i];
  }

  /** Every step but a write of a reorg alert leaves the reorg alerts alone, or acknowledges one. */
  lemma AlertsGrow(s: System, step: Step)
    requires Refs(s) && Enabled(s, step) && !step.WriteAlert?
    ensures
      var t := Apply(s, step);
      && |t.db.alerts| >= |s.db.alerts|
      && (forall i | 0 <= i < |s.db.alerts| ::
            t.db.alerts[i] == s.db.alerts[i] || t.db.alerts[i] == s.db.alerts[i].(acked := true))
      && (forall i | |s.db.alerts| <= i < |t.db.alerts| :: t.db.alerts[i].kind != Pipeline.REORG_ALERT)
  {
    if References.DispatchStep(step) {
      References.DispatchFrame(s, step);
    } else if References.CreditStep(step) || step.Receive? {
      PaymentsRaiseNothing(s, step);
    } else if References.AddressStep(step) {
      AddressAlerts(s, step);
    }
  }

  lemma PaymentsRaiseNothing(s: System, step: Step)
    requires Refs(s) && Enabled(s, step) && (References.CreditStep(step) || step.Receive?)
    ensures Apply(s, step).db.alerts == s.db.alerts
  {
    if step.RunHook? {
      References.HookFrame(s.db, s.calls[step.call].deposit, s.calls[step.call].plan);
    }
  }

  /** Only Rotate raises an alert, of another kind. */
  lemma AddressAlerts(s: System, step: Step)
    requires Refs(s) && References.AddressStep(step)
    ensures
      var alerts := Apply(s, step).db.alerts;
      && s.db.alerts <= alerts
      && (forall i | |s.db.alerts| <= i < |alerts| :: alerts[i].kind != Pipeline.REORG_ALERT)
  {
    if step.Rotate? {
      RotationRaises(s.db, step.machine, Pipeline.Stamp(s.clock));
    }
  }

  lemma RotationRaises(db: DB, machine: nat, now: int)
    ensures
      var (after, r) := DirectPay.RotateMachine(db, machine, now);
      && db.alerts <= after.alerts && after.ledger == db.ledger
      && (forall i | |db.alerts| <= i < |after.alerts| :: after.alerts[i].kind != Pipeline.REORG_ALERT)
  {
    assert |"direct_pay_pool_empty"| != |Pipeline.REORG_ALERT|;
  }

  lemma ReorgCalls(s: System, step: Step)
    requires AlertInv(s) && Refs(s) && Enabled(s, step) && HexReorg(step) && !step.WriteAlert?
    ensures CallsAlerted(s, Apply(s, step))
  {
    if References.AddressStep(step) {
      References.AddressFrame(s, step);
    } else if References.DispatchStep(step) {
      References.DispatchFrame(s, step);
    } else if References.CreditStep(step) {
      CreditCalls(s, step);
    } else if step.ReadReorg? || step.WriteReorg? {
      ReorgAlerted(s, step);
    }
  }

  lemma ReorgAlerted(s: System, step: Step)
    requires AlertInv(s) && Refs(s) && Enabled(s, step) && HexReorg(step) && (step.ReadReorg? || step.WriteReorg?)
    ensures CallsAlerted(s, Apply(s, step))
  {
  }

  lemma CreditCalls(s: System, step: Step)
    requires Refs(s) && Enabled(s, step) && References.CreditStep(step)
    ensures forall c | c in Apply(s, step).calls ::
              (c in s.calls && Apply(s, step).calls[c] == s.calls[c]) || Live(Apply(s, step).calls[c])
  {
  }

  lemma AlertInvKept(s: System, step: Step)
    requires AlertInv(s) && Refs(s) && Enabled(s, step) && HexReorg(step)
    requires forall c, k | c in s.calls && k in s.calls :: c == k
    ensures AlertInv(Apply(s, step))
  {
    if step.WriteAlert? {
      AlertWritten(s, step.call);
    } else {
      AlertsGrow(s, step);
      ReorgCalls(s, step);
      AlertFrame(s, Apply(s, step));
    }
  }

  /** With one consumer, however often reorgs repeat, a deposit has at most one unacknowledged alert. */
  lemma {:induction false} OneAlertPerDeposit(s: System, steps: seq<Step>)
    requires SingleConsumer.Inv(s) && AlertInv(s)
    requires Allowed(s, steps) && SingleConsumer.SerialRun(s, steps) && HexRun(s, steps)
    ensures AlertInv(INITIAL) && OneAlertEach(Exec(s, steps).db.alerts)
    decreases |steps|
  {
    if steps != [] {
      AlertInvKept(s, steps[0]);
      SingleConsumer.InvKept(s, steps[0]);
      OneAlertPerDeposit(Apply(s, steps[0]), steps[1..]);
    }
  }
}
