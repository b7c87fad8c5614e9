/**
 Every committed hook run was read off the tables: at some step of the run of the system, the
 address that the deposit paid had the binding, and the machine or the settings the price,
 that the hook run used.
 */
module Quotes {
  import opened Tables
  import opened Economy
  import DirectPay
  import Pipeline
  import References

  /** What a deposit's address and the settings ask a hook run to do. */
  ghost predicate Fits(db: DB, d: nat, tokenPrice: int, cap: int, run: DirectPay.Plan) {
    && d < |db.deposits| && db.deposits[d].addressId < |db.addresses|
    && var id := db.deposits[d].addressId;
       var a := db.addresses[id];
       if a.purpose == MachineDirect && a.machine.Some? then
         && a.machine.value in db.machines
         && var price := db.machines[a.machine.value].price;
            if price.Some? && price.value > 0
            then run == DirectPay.PayMachine(a.machine.value, id, price.value, cap)
            else run == DirectPay.PayNothing
       else
         && run.PayUser? && run.purchase.user == a.user
         && run.purchase.price == tokenPrice && tokenPrice > 0
  }

  /** The hook plans what fits, or fails when nothing does. */
  lemma PlanFits(db: DB, d: nat, tokenPrice: int, cap: int)
    ensures
      var plan := DirectPay.PlanHook(db, d, tokenPrice, cap);
      && (plan.Ok? ==> Fits(db, d, tokenPrice, cap, plan.value))
      && (plan.Err? ==> forall run :: !Fits(db, d, tokenPrice, cap, run))
  {
  }

  /** Step k read this run for deposit d, under the claim of its call. */
  ghost predicate ReadAt(s: System, steps: seq<Step>, k: int, d: nat, run: DirectPay.Plan) {
    && 0 <= k < |steps| && Allowed(s, steps[..k]) && steps[k].ReadPlan?
    && var now := Exec(s, steps[..k]);
       && steps[k].call in now.calls && now.calls[steps[k].call].Claimed? && now.calls[steps[k].call].deposit == d
       && Fits(now.db, d, steps[k].tokenPrice, steps[k].cap, run)
  }

  ghost predicate WasRead(s: System, steps: seq<Step>, d: nat, run: DirectPay.Plan) {
    exists k :: ReadAt(s, steps, k, d, run)
  }

  /** The last step of a run. */
  lemma {:induction false} LastStep(s: System, steps: seq<Step>)
    requires Allowed(s, steps) && steps != []
    ensures
      var n := |steps| - 1;
      && Allowed(s, steps[..n])
      && var before := Exec(s, steps[..n]);
         Refs(before) && Enabled(before, steps[n]) && Exec(s, steps) == Apply(before, steps[n])
    decreases |steps|
  {
    var n := |steps| - 1;
    if n == 0 {
      assert steps[..n] == [] && steps[1..] == [];
    } else {
      LastStep(Apply(s, steps[0]), steps[1..]);
      assert steps[1..][..n - 1] == steps[..n][1..];
    }
  }

  lemma {:induction false} PrefixAllowed(s: System, steps: seq<Step>, k: nat)
    requires Allowed(s, steps) && k <= |steps|
    ensures Allowed(s, steps[..k]) && Allowed(Exec(s, steps[..k]), steps[k..])
    ensures Exec(Exec(s, steps[..k]), steps[k..]) == Exec(s, steps)
    decreases k
  {
    if k == 0 {
      assert steps[..0] == [] && steps[0..] == steps;
    } else {
      PrefixAllowed(Apply(s, steps[0]), steps[1..], k - 1);
      assert steps[..k][1..] == steps[1..][..k - 1] && steps[k..] == steps[1..][k - 1..];
    }
  }

  lemma StillRead(s: System, steps: seq<Step>, d: nat, run: DirectPay.Plan)
    requires steps != [] && WasRead(s, steps[..|steps| - 1], d, run)
    ensures WasRead(s, steps, d, run)
  {
    var init := steps[..|steps| - 1];
    var k :| ReadAt(s, init, k, d, run);
    assert init[..k] == steps[..k];
    assert ReadAt(s, steps, k, d, run);
  }

  /** Plans are read by ReadPlan and become runs by RunHook; no other step makes either. */
  ghost predicate PlansStay(s: System, t: System) {
    && (forall c | c in t.calls && t.calls[c].Planned? :: c in s.calls && t.calls[c] == s.calls[c])
    && |s.history.traces| <= |t.history.traces|
    && (forall d | 0 <= d < |s.history.traces| :: t.history.traces[d].runs == s.history.traces[d].runs)
    && (forall d | |s.history.traces| <= d < |t.history.traces| :: t.history.traces[d].runs == [])
  }

  lemma PlansFrame(s: System, step: Step)
    requires Refs(s) && Enabled(s, step) && !step.ReadPlan? && !step.RunHook?
    ensures PlansStay(s, Apply(s, step))
  {
    if References.AddressStep(step) {
      References.AddressFrame(s, step);
    } else if References.DispatchStep(step) {
      References.DispatchFrame(s, step);
    } else if step.Receive? {
      ReceiveStays(s, step.call, step.event, step.policy);
    }
  }

  lemma ReceiveStays(s: System, c: nat, event: Pipeline.Event, policy: Pipeline.Policy)
    requires Refs(s) && c !in s.calls
    ensures PlansStay(s, ApplyReceive(s, c, event, policy))
  {
  }

  /** Every plan in a call, and every recorded run, for the deposits that are new since s, was read. */
  ghost predicate AllRead(s: System, steps: seq<Step>)
    requires Allowed(s, steps)
  {
    var t := Exec(s, steps);
    && (forall c | c in t.calls && t.calls[c].Planned? && t.calls[c].deposit >= |s.db.deposits| ::
          WasRead(s, steps, t.calls[c].deposit, t.calls[c].plan))
    && (forall d: nat, run | |s.db.deposits| <= d < |t.history.traces| && run in t.history.traces[d].runs ::
          WasRead(s, steps, d, run))
  }

  lemma {:induction false} RunsWereRead(s: System, steps: seq<Step>)
    requires Refs(s) && Allowed(s, steps)
    ensures AllRead(s, steps)
    decreases |steps|
  {
    if steps != [] {
      var n := |steps| - 1;
      LastStep(s, steps);
      RunsWereRead(s, steps[..n]);
      var before, step, t := Exec(s, steps[..n]), steps[n], Exec(s, steps);
      forall c | c in t.calls && t.calls[c].Planned? && t.calls[c].deposit >= |s.db.deposits|
        ensures WasRead(s, steps, t.calls[c].deposit, t.calls[c].plan)
      {
        PlanOfCall(s, steps, c);
      }
      forall d: nat, run | |s.db.deposits| <= d < |t.history.traces| && run in t.history.traces[d].runs
        ensures WasRead(s, steps, d, run)
      {
        RunOfTrace(s, steps, d, run);
      }
    }
  }

  lemma {:induction false} PlanOfCall(s: System, steps: seq<Step>, c: nat)
    requires Allowed(s, steps) && steps != [] && Allowed(s, steps[..|steps| - 1]) && AllRead(s, steps[..|steps| - 1])
    requires
      var before, step := Exec(s, steps[..|steps| - 1]), steps[|steps| - 1];
      Refs(before) && Enabled(before, step) && Exec(s, steps) == Apply(before, step)
    requires
      var t := Exec(s, steps);
      c in t.calls && t.calls[c].Planned? && t.calls[c].deposit >= |s.db.deposits|
    ensures WasRead(s, steps, Exec(s, steps).calls[c].deposit, Exec(s, steps).calls[c].plan)
  {
    var n := |steps| - 1;
    var before, step, t := Exec(s, steps[..n]), steps[n], Exec(s, steps);
    if c in before.calls && before.calls[c] == t.calls[c] {
      StillRead(s, steps, t.calls[c].deposit, t.calls[c].plan);
    } else if step.ReadPlan? {
      PlanFits(before.db, t.calls[c].deposit, step.tokenPrice, step.cap);
      assert ReadAt(s, steps, n, t.calls[c].deposit, t.calls[c].plan);
    } else if step.RunHook? {
      assert false;
    } else {
      PlansFrame(before, step);
    }
  }

  lemma {:induction false} RunOfTrace(s: System, steps: seq<Step>, d: nat, run: DirectPay.Plan)
    requires Allowed(s, steps) && steps != [] && Allowed(s, steps[..|steps| - 1]) && AllRead(s, steps[..|steps| - 1])
    requires
      var before, step := Exec(s, steps[..|steps| - 1]), steps[|steps| - 1];
      Refs(before) && Enabled(before, step) && Exec(s, steps) == Apply(before, step)
    requires |s.db.deposits| <= d < |Exec(s, steps).history.traces| && run in Exec(s, steps).history.traces[d].runs
    ensures WasRead(s, steps, d, run)
  {
    var n := |steps| - 1;
    var before, step, t := Exec(s, steps[..n]), steps[n], Exec(s, steps);
    if step.RunHook? {
      var call := before.calls[step.call];
      if run in before.history.traces[d].runs || run == call.plan {
        StillRead(s, steps, d, run);
      }
    } else if step.ReadPlan? {
      StillRead(s, steps, d, run);
    } else {
      PlansFrame(before, step);
      StillRead(s, steps, d, run);
    }
  }
}
