/**
 cmd/dogecade/main.go feeds payment and reorg events to the pipeline from one loop. Then no
 timing assumption is needed, credited and orphaned are final, and a deposit that met no
 fault is paid for exactly once if it is credited and not at all otherwise.
 */
module SingleConsumer {
  import opened Tables
  import opened Sums
  import opened Economy
  import DirectPay
  import Lease
  import Pipeline
  import Quotes
  import References
  import Settlement

  ghost predicate Serial(s: System, step: Step) {
    step.Receive? || step.ReadReorg? ==> s.calls == map[]
  }

  ghost predicate SerialRun(s: System, steps: seq<Step>)
    requires Allowed(s, steps)
    decreases |steps|
  {
    steps == [] || (Serial(s, steps[0]) && SerialRun(Apply(s, steps[0]), steps[1..]))
  }

  ghost predicate CallCurrent(s: System, c: nat)
    requires Refs(s) && c in s.calls
  {
    var call := s.calls[c];
    var state := s.db.deposits[call.deposit].state;
    && (call.Ready? || Live(call) ==> state == Confirmed)
    && (call.Reorging? ==> call.found == state)
  }

  ghost predicate Inv(s: System) {
    && Lease.Inv(s) && Settlement.Inv(s) && Lease.Single(s)
    && (forall c | c in s.calls :: CallCurrent(s, c))
    && (forall d | 0 <= d < |s.db.deposits| :: s.history.traces[d].marked <==> s.db.deposits[d].state == Credited)
  }

  ghost predicate Final(state: DepositState) {
    state == Credited || state == Orphaned
  }

  /** Calls find their rows as they left them, and final rows stay as they are. */
  ghost predicate Keeps(s: System, t: System)
    requires Refs(s) && Refs(t)
  {
    && Lease.Single(t)
    && (forall c | c in t.calls :: CallCurrent(t, c))
    && |s.db.deposits| <= |t.db.deposits|
    && (forall d | 0 <= d < |s.db.deposits| && Final(s.db.deposits[d].state) ::
          t.db.deposits[d].state == s.db.deposits[d].state)
    && (forall d | 0 <= d < |t.db.deposits| :: t.history.traces[d].marked <==> t.db.deposits[d].state == Credited)
  }

  /** With one consumer, steps of a call find the row as the call left it. */
  lemma CurrentKept(s: System, step: Step)
    requires Inv(s) && Enabled(s, step) && Serial(s, step) && !step.Receive? && Refs(Apply(s, step))
    ensures Keeps(s, Apply(s, step))
  {
    if Lease.CallStep(step) {
      CallCurrentKept(s, step);
    } else if References.AddressStep(step) {
      References.AddressFrame(s, step);
      SameRows(s, Apply(s, step));
    } else if References.DispatchStep(step) {
      References.DispatchFrame(s, step);
      SameRows(s, Apply(s, step));
    } else {
      SameRows(s, Apply(s, step));
    }
  }

  lemma SameRows(s: System, t: System)
    requires Inv(s) && Refs(t)
    requires t.calls == s.calls && t.db.deposits == s.db.deposits && t.history.traces == s.history.traces
    ensures Keeps(s, t)
  {
    assert forall c | c in t.calls :: CallCurrent(s, c);
  }

  lemma CallCurrentKept(s: System, step: Step)
    requires Inv(s) && Enabled(s, step) && Serial(s, step) && Lease.CallStep(step) && !step.Receive?
    requires Refs(Apply(s, step))
    ensures Keeps(s, Apply(s, step))
  {
    if step.ReadReorg? {
      ReadCurrent(s, step.call, step.outpoint);
    } else {
      assert CallCurrent(s, step.call);
      assert forall k | k in s.calls :: k == step.call;
      if step.RunHook? {
        HookCurrent(s, step.call, step.written);
      } else if step.WriteReorg? {
        WriteCurrent(s, step.call);
      } else if step.WriteAlert? {
        assert Apply(s, step).calls == map[];
      } else {
        CreditCurrent(s, step);
      }
    }
  }

  lemma ReadCurrent(s: System, c: nat, outpoint: Outpoint)
    requires Inv(s) && s.calls == map[] && Refs(ApplyReadReorg(s, c, outpoint))
    ensures Keeps(s, ApplyReadReorg(s, c, outpoint))
  {
  }

  lemma WriteCurrent(s: System, c: nat)
    requires Inv(s) && c in s.calls && s.calls[c].Reorging? && Refs(ApplyWriteReorg(s, c))
    requires CallCurrent(s, c) && forall k | k in s.calls :: k == c
    ensures Keeps(s, ApplyWriteReorg(s, c))
  {
  }

  lemma HookCurrent(s: System, c: nat, written: bool)
    requires Inv(s) && c in s.calls && s.calls[c].Planned?
    ensures
      var t := ApplyHook(s, c, written);
      && t.calls.Keys == s.calls.Keys && t.calls[c].deposit == s.calls[c].deposit && Live(t.calls[c])
      && |t.db.deposits| == |s.db.deposits| && |t.history.traces| == |s.history.traces|
      && (forall d | 0 <= d < |s.db.deposits| ::
            t.db.deposits[d].state == s.db.deposits[d].state && t.history.traces[d].marked == s.history.traces[d].marked)
  {
    References.HookFrame(s.db, s.calls[c].deposit, s.calls[c].plan);
  }

  lemma CreditCurrent(s: System, step: Step)
    requires Inv(s) && Enabled(s, step) && References.CreditStep(step) && !step.RunHook?
    requires CallCurrent(s, step.call)
    ensures
      var t := Apply(s, step);
      && t.calls.Keys <= s.calls.Keys
      && (step.call in t.calls ==> t.calls[step.call].deposit == s.calls[step.call].deposit && Live(t.calls[step.call])
                                   && t.db.deposits[t.calls[step.call].deposit].state == Confirmed)
      && |t.db.deposits| == |s.db.deposits| && |t.history.traces| == |s.history.traces|
      && (forall d | 0 <= d < |s.db.deposits| ::
            && (Final(s.db.deposits[d].state) ==> t.db.deposits[d].state == s.db.deposits[d].state)
            && (t.history.traces[d].marked <==> t.db.deposits[d].state == Credited))
  {
  }

  lemma ReceiveKept(s: System, c: nat, event: Pipeline.Event, policy: Pipeline.Policy)
    requires Inv(s) && s.calls == map[]
    ensures
      var t := ApplyReceive(s, c, event, policy);
      Refs(t) && Keeps(s, t)
  {
    Lease.ReceiveFacts(s, c, event, policy);
  }

  lemma InvKept(s: System, step: Step)
    requires Inv(s) && Enabled(s, step) && Serial(s, step)
    ensures Inv(Apply(s, step))
  {
    References.RefsKept(s, step);
    Lease.InvKept(s, step);
    Settlement.InvKept(s, step);
    if step.Receive? {
      ReceiveKept(s, step.call, step.event, step.policy);
    } else {
      CurrentKept(s, step);
    }
  }

  lemma {:induction false} InvAlways(s: System, steps: seq<Step>)
    requires Inv(s) && Allowed(s, steps) && SerialRun(s, steps)
    ensures Inv(Exec(s, steps))
    decreases |steps|
  {
    if steps != [] {
      InvKept(s, steps[0]);
      InvAlways(Apply(s, steps[0]), steps[1..]);
    }
  }

  lemma InitialInv()
    ensures Inv(INITIAL)
  {
    Settlement.InitialInv();
  }

  /** With one consumer no lease can be broken, however slow its calls are. */
  lemma {:induction false} SerialIsLeased(s: System, steps: seq<Step>)
    requires Inv(s) && Allowed(s, steps) && SerialRun(s, steps)
    ensures Lease.LeasedRun(s, steps)
    decreases |steps|
  {
    if steps != [] {
      InvKept(s, steps[0]);
      SerialIsLeased(Apply(s, steps[0]), steps[1..]);
    }
  }

  /** Credited and orphaned are absorbing. */
  lemma FinalStaysFinal(s: System, step: Step, d: nat)
    requires Inv(s) && Enabled(s, step) && Serial(s, step)
    requires d < |s.db.deposits| && Final(s.db.deposits[d].state)
    ensures d < |Apply(s, step).db.deposits| && Apply(s, step).db.deposits[d].state == s.db.deposits[d].state
  {
    References.RefsKept(s, step);
    if step.Receive? {
      ReceiveKept(s, step.call, step.event, step.policy);
    } else {
      CurrentKept(s, step);
    }
  }

  /** Whole credits cut at a positive cap, and none for a payment below the price. */
  function Capped(units: int, cap: int): int {
    if units <= 0 then 0 else if cap > 0 && units > cap then cap else units
  }

  /** What one hook run, and nothing more, has left behind for the deposit. */
  ghost predicate PaidOnce(s: System, d: nat, run: DirectPay.Plan)
    requires d < |s.db.deposits| && d < |s.history.traces|
  {
    var row, rows := s.db.deposits[d], Settlement.RowsOf(s.db.ledger, d);
    && s.history.traces[d].runs == [run]
    && match run
       case PayUser(purchase) =>
         && purchase.price > 0 && row.remainder.Some?
         && (exists tokens ::
               && Splits(row.amount, purchase.price, tokens, row.remainder.value)
               && rows == if purchase.user.Some? && tokens > 0 then [tokens] else [])
         && QueuedOnly(s, d, None, 0)
       case PayMachine(machine, _, price, cap) =>
         && price > 0 && row.remainder.Some? && rows == []
         && exists units ::
              && Splits(row.amount, price, units, row.remainder.value)
              && QueuedOnly(s, d, Some(machine), Capped(units, cap))
       case PayNothing => row.remainder.None? && rows == [] && QueuedOnly(s, d, None, 0)
  }

  /** The deposit has so many direct-pay pulses at this machine and none at any other. */
  ghost predicate QueuedOnly(s: System, d: nat, machine: Option<nat>, n: int)
    requires d < |s.db.deposits| && d < |s.history.traces|
  {
    forall m: nat ::
      Settlement.PulsesOfRuns(s.history.traces[d].runs, s.db.deposits[d].amount, m) == if machine == Some(m) then n else 0
  }

  lemma {:induction false} OneRun(s: System, d: nat, run: DirectPay.Plan)
    requires Settlement.Inv(s) && d < |s.db.deposits| && s.history.traces[d].runs == [run]
    ensures PaidOnce(s, d, run)
  {
    assert Settlement.DepositMatches(s, d);
    var row := s.db.deposits[d];
    assert Settlement.RunSound([run][0]);
    assert [run][..0] == [];
    assert Settlement.TokensOfRuns([run], row.amount) == Settlement.TokensOf(run, row.amount);
    assert Settlement.RemainderOf([run][..0], row.amount).None?;
    forall m
      ensures Settlement.PulsesOfRuns([run], row.amount, m) == Settlement.PulsesOf(run, row.amount, m)
    {
      assert Settlement.PulsesOfRuns([run][..0], row.amount, m) == 0;
    }
    if run.PayUser? {
      SplitsExactly(row.amount, run.purchase.price, GoDiv(row.amount, run.purchase.price), row.remainder.value);
    } else if run.PayMachine? {
      var units := GoDiv(row.amount, run.price);
      SplitsExactly(row.amount, run.price, units, row.remainder.value);
      forall m: nat
        ensures Settlement.PulsesOf(run, row.amount, m) == if run.machine == m then Capped(units, run.cap) else 0
      {
        CreditsAreCapped(row.amount, run, m);
      }
      assert QueuedOnly(s, d, Some(run.machine), Capped(units, run.cap));
    }
  }

  /** For one direct run, the queued pulses are the whole credits, cut at a positive cap. */
  lemma CreditsAreCapped(amount: int, run: DirectPay.Plan, machine: nat)
    requires run.PayMachine? && run.price > 0
    ensures Settlement.PulsesOf(run, amount, machine)
         == if run.machine == machine then Capped(GoDiv(amount, run.price), run.cap) else 0
  {
  }

  /** A fault-free deposit has a committed run while one is on its way to the mark, and once it is marked. */
  lemma RunsOfFaultFree(s: System, d: nat)
    requires Lease.Inv(s) && d < |s.db.deposits| && s.history.traces[d].faults == 0
    ensures s.history.traces[d].marked || Lease.PaidOn(s, d) ==> |s.history.traces[d].runs| == 1
    ensures !s.history.traces[d].marked && !Lease.PaidOn(s, d) ==> s.history.traces[d].runs == []
    ensures s.db.deposits[d].state == Credited ==> s.history.traces[d].marked
  {
    assert Lease.DepositSound(s, d);
    if Lease.PaidOn(s, d) {
      var c :| Lease.LiveOn(s, c, d) && s.calls[c].Paid?;
      assert Lease.CallSound(s, c);
    }
  }

  /**
   After any serial run, whatever was lost or refused on the way: a deposit that met no fault
   was paid for by exactly one hook run, which was read off its address, if it is credited or
   about to be marked; otherwise it has no purchase row, remainder or queued pulse. The
   direct-pay pulses of a machine are always the credits of the runs that paid it.
   */
  lemma {:induction false} DepositIsSettled(steps: seq<Step>, d: nat)
    requires Allowed(INITIAL, steps) && SerialRun(INITIAL, steps)
    requires
      var s := Exec(INITIAL, steps);
      d < |s.db.deposits| == |s.history.traces| && s.history.traces[d].faults == 0
    ensures
      var s := Exec(INITIAL, steps);
      && (s.db.deposits[d].state == Credited || Lease.PaidOn(s, d) ==>
            exists run :: PaidOnce(s, d, run) && Quotes.WasRead(INITIAL, steps, d, run))
      && (s.db.deposits[d].state != Credited && !Lease.PaidOn(s, d) ==>
            && s.history.traces[d].runs == [] && s.db.deposits[d].remainder.None?
            && Settlement.RowsOf(s.db.ledger, d) == [] && QueuedOnly(s, d, None, 0))
      && (forall machine :: Settlement.PulsesMatch(s, machine))
  {
    InitialInv();
    InvAlways(INITIAL, steps);
    Quotes.RunsWereRead(INITIAL, steps);
    var s := Exec(INITIAL, steps);
    RunsOfFaultFree(s, d);
    assert Settlement.DepositMatches(s, d);
    if s.db.deposits[d].state == Credited || Lease.PaidOn(s, d) {
      var run := s.history.traces[d].runs[0];
      assert s.history.traces[d].runs == [run] && run in s.history.traces[d].runs;
      OneRun(s, d, run);
    }
  }
}
