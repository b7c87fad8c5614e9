/**
 What a deposit pays for: its ledger rows, its remainder and the pulses it queued are exactly
 those of its committed hook runs; with a single consumer and no fault there is one run if
 the deposit is credited, and none otherwise.
 */
module Settlement {
  import opened Tables
  import opened Sums
  import opened Economy
  import DirectPay
  import Pipeline
  import Pool
  import References

  ghost predicate RunSound(run: DirectPay.Plan) {
    (run.PayUser? ==> run.purchase.price > 0) && (run.PayMachine? ==> run.price > 0)
  }

  /** The deltas of a deposit's purchase rows, in ledger order. */
  function RowsOf(ledger: seq<Entry>, d: nat): seq<int> {
    if ledger == [] then []
    else
      var n := |ledger| - 1;
      RowsOf(ledger[..n], d) + if ledger[n].kind == Purchase && ledger[n].deposit == Some(d) then [ledger[n].delta] else []
  }

  /** The tokens that one hook run pays for an amount. */
  function TokensOf(run: DirectPay.Plan, amount: int): seq<int> {
    if run.PayUser? && run.purchase.price > 0 && run.purchase.user.Some? && GoDiv(amount, run.purchase.price) > 0 then
      [GoDiv(amount, run.purchase.price)]
    else []
  }

  function TokensOfRuns(runs: seq<DirectPay.Plan>, amount: int): seq<int> {
    if runs == [] then []
    else TokensOfRuns(runs[..|runs| - 1], amount) + TokensOf(runs[|runs| - 1], amount)
  }

  /** The remainder that the last run which wrote one left. */
  function RemainderOf(runs: seq<DirectPay.Plan>, amount: int): Option<int> {
    if runs == [] then None
    else
      match runs[|runs| - 1]
      case PayUser(purchase) => if purchase.price > 0 then Some(GoMod(amount, purchase.price)) else None
      case PayMachine(_, _, price, _) => if price > 0 then Some(GoMod(amount, price)) else None
      case PayNothing => RemainderOf(runs[..|runs| - 1], amount)
  }

  /** The pulses that one run queues for a machine. */
  function PulsesOf(run: DirectPay.Plan, amount: int, machine: nat): int {
    if run.PayMachine? && run.price > 0 && run.machine == machine && DirectPay.Credits(amount, run.price, run.cap) > 0 then
      DirectPay.Credits(amount, run.price, run.cap)
    else 0
  }

  function PulsesOfRuns(runs: seq<DirectPay.Plan>, amount: int, machine: nat): int {
    if runs == [] then 0
    else PulsesOfRuns(runs[..|runs| - 1], amount, machine) + PulsesOf(runs[|runs| - 1], amount, machine)
  }

  function QueuedAt(deposits: seq<Deposit>, traces: seq<Trace>, machine: nat): nat -> int {
    (d: nat) => if d < |deposits| && d < |traces| then PulsesOfRuns(traces[d].runs, deposits[d].amount, machine) else 0
  }

  function DirectAt(pulses: seq<Pulse>, machine: nat): nat -> int {
    (p: nat) => if p < |pulses| && pulses[p].source == Source.DirectPay && pulses[p].machine == machine then 1 else 0
  }

  /** The direct-pay pulses of a machine are the ones that deposits' runs queued. */
  ghost predicate PulsesMatch(s: System, machine: nat) {
    Sum(|s.db.pulses|, DirectAt(s.db.pulses, machine))
    == Sum(|s.db.deposits|, QueuedAt(s.db.deposits, s.history.traces, machine))
  }

  ghost predicate DepositMatches(s: System, d: nat)
    requires d < |s.db.deposits| && d < |s.history.traces|
  {
    var runs, amount := s.history.traces[d].runs, s.db.deposits[d].amount;
    && RowsOf(s.db.ledger, d) == TokensOfRuns(runs, amount)
    && s.db.deposits[d].remainder == RemainderOf(runs, amount)
    && (forall k | 0 <= k < |runs| :: RunSound(runs[k]))
  }

  ghost predicate Inv(s: System) {
    && Refs(s)
    && (forall d: nat | d < |s.db.deposits| :: DepositMatches(s, d))
    && (forall machine :: PulsesMatch(s, machine))
  }

  lemma {:induction false} RowsAppended(ledger: seq<Entry>, e: Entry, d: nat)
    ensures RowsOf(ledger + [e], d)
         == RowsOf(ledger, d) + if e.kind == Purchase && e.deposit == Some(d) then [e.delta] else []
  {
    assert (ledger + [e])[..|ledger|] == ledger;
  }

  /** No ledger row refers to a deposit that does not exist yet. */
  lemma {:induction false} RowsOfNew(db: DB, n: nat)
    requires n <= |db.ledger|
    requires forall i | 0 <= i < |db.ledger| :: EntryRefs(db, db.ledger[i])
    ensures RowsOf(db.ledger[..n], |db.deposits|) == []
  {
    if n > 0 {
      RowsOfNew(db, n - 1);
      assert db.ledger[..n][..n - 1] == db.ledger[..n - 1];
      assert EntryRefs(db, db.ledger[n - 1]);
    }
  }

  lemma {:induction false} RowsMerged(ledger: seq<Entry>, merged: seq<Entry>, d: nat)
    requires |merged| == |ledger|
    requires forall i | 0 <= i < |ledger| ::
               merged[i].kind == ledger[i].kind && merged[i].deposit == ledger[i].deposit && merged[i].delta == ledger[i].delta
    ensures RowsOf(merged, d) == RowsOf(ledger, d)
  {
    if ledger != [] {
      RowsMerged(ledger[..|ledger| - 1], merged[..|ledger| - 1], d);
    }
  }

  /** Steps that write no purchase row, no direct pulse, and no deposit's amount or remainder. */
  lemma Frame(s: System, t: System)
    requires Inv(s) && Refs(t)
    requires t.history.traces == s.history.traces || forall d | 0 <= d < |s.history.traces| ::
               |t.history.traces| == |s.history.traces| && t.history.traces[d].runs == s.history.traces[d].runs
    requires |t.db.deposits| == |s.db.deposits|
    requires forall d | 0 <= d < |s.db.deposits| ::
               t.db.deposits[d].amount == s.db.deposits[d].amount && t.db.deposits[d].remainder == s.db.deposits[d].remainder
    requires forall d: nat :: RowsOf(t.db.ledger, d) == RowsOf(s.db.ledger, d)
    requires |t.db.pulses| >= |s.db.pulses|
    requires forall p | 0 <= p < |s.db.pulses| ::
               t.db.pulses[p].source == s.db.pulses[p].source && t.db.pulses[p].machine == s.db.pulses[p].machine
    requires forall p | |s.db.pulses| <= p < |t.db.pulses| :: t.db.pulses[p].source == TokenRedemption
    ensures Inv(t)
  {
    forall d: nat | d < |t.db.deposits|
      ensures DepositMatches(t, d)
    {
      assert DepositMatches(s, d);
    }
    forall machine
      ensures PulsesMatch(t, machine)
    {
      assert PulsesMatch(s, machine);
      SumPadded(|s.db.pulses|, |t.db.pulses|, DirectAt(s.db.pulses, machine), DirectAt(t.db.pulses, machine));
      SumCongruent(|s.db.deposits|, QueuedAt(s.db.deposits, s.history.traces, machine),
                   QueuedAt(t.db.deposits, t.history.traces, machine));
    }
  }

  lemma {:induction false} DirectAppended(pulses: seq<Pulse>, n: nat, m: nat, machine: nat)
    ensures
      var more := pulses + seq(n, _ => DirectPay.DirectPulse(m));
      Sum(|more|, DirectAt(more, machine))
      == Sum(|pulses|, DirectAt(pulses, machine)) + if m == machine then n else 0
  {
    var more := pulses + seq(n, _ => DirectPay.DirectPulse(m));
    if n == 0 {
      assert more == pulses;
    } else {
      var less := pulses + seq(n - 1, _ => DirectPay.DirectPulse(m));
      DirectAppended(pulses, n - 1, m, machine);
      assert more == less + [DirectPay.DirectPulse(m)];
      SumExtends(|less|, DirectAt(less, machine), DirectAt(more, machine));
    }
  }

  lemma PulsesAfterRun(db: DB, d: nat, run: DirectPay.Plan, machine: nat)
    requires d < |db.deposits| && DirectPay.Sound(db, run)
    ensures
      var more := db.pulses + References.NewPulses(db, d, run);
      Sum(|more|, DirectAt(more, machine))
      == Sum(|db.pulses|, DirectAt(db.pulses, machine)) + PulsesOf(run, db.deposits[d].amount, machine)
  {
    var new_ := References.NewPulses(db, d, run);
    if new_ == [] {
      assert db.pulses + new_ == db.pulses;
    } else {
      DirectAppended(db.pulses, |new_|, run.machine, machine);
    }
  }

  lemma RemainderAfterRun(db: DB, d: nat, run: DirectPay.Plan)
    requires d < |db.deposits| && DirectPay.Sound(db, run)
    ensures
      var tx := DirectPay.CommitHook(db, d, run);
      tx.Commit? ==> tx.db.deposits[d].remainder
                     == match run
                        case PayUser(purchase) => Some(GoMod(db.deposits[d].amount, purchase.price))
                        case PayMachine(_, _, price, _) => Some(GoMod(db.deposits[d].amount, price))
                        case PayNothing => db.deposits[d].remainder
  {
  }

  lemma MatchesAfterRun(s: System, t: System, id: nat, run: DirectPay.Plan, d: nat)
    requires Inv(s) && id < |s.db.deposits| && DirectPay.Sound(s.db, run) && DirectPay.CommitHook(s.db, id, run).Commit?
    requires t.db == DirectPay.CommitHook(s.db, id, run).db && d < |s.db.deposits|
    requires
      var trace := s.history.traces[id];
      t.history.traces == s.history.traces[id := trace.(runs := trace.runs + [run])]
    ensures |t.db.deposits| == |s.db.deposits| && DepositMatches(t, d)
  {
    References.HookFrame(s.db, id, run);
    assert DepositMatches(s, d);
    PaidRows(s.db, id, run, d);
    RemainderAfterRun(s.db, id, run);
    if d == id {
      assert t.history.traces[id].runs[..|s.history.traces[id].runs|] == s.history.traces[id].runs;
    }
  }

  lemma HookKeeps(s: System, c: nat, written: bool)
    requires Inv(s) && c in s.calls && s.calls[c].Planned?
    ensures Inv(ApplyHook(s, c, written))
  {
    var t := ApplyHook(s, c, written);
    References.RefsKeptByHook(s, c, written);
    var Planned(id, start, run) := s.calls[c];
    References.HookFrame(s.db, id, run);
    if t.calls[c].Refused? {
      Frame(s, t);
    } else {
      forall d: nat | d < |t.db.deposits|
        ensures DepositMatches(t, d)
      {
        MatchesAfterRun(s, t, id, run, d);
      }
      forall machine
        ensures PulsesMatch(t, machine)
      {
        PulsesMatchAfterRun(s, t, id, run, machine);
      }
    }
  }

  lemma {:induction false} PaidRows(db: DB, id: nat, run: DirectPay.Plan, d: nat)
    requires id < |db.deposits| && DirectPay.Sound(db, run)
    ensures RowsOf(db.ledger + References.Payment(db, id, run), d)
         == RowsOf(db.ledger, d) + if d == id then TokensOf(run, db.deposits[id].amount) else []
  {
    var paid := References.Payment(db, id, run);
    if paid == [] {
      assert db.ledger + paid == db.ledger;
    } else {
      assert paid == [paid[0]];
      RowsAppended(db.ledger, paid[0], d);
    }
  }

  lemma PulsesMatchAfterRun(s: System, t: System, id: nat, run: DirectPay.Plan, machine: nat)
    requires Refs(s) && Refs(t) && id < |s.db.deposits| && DirectPay.Sound(s.db, run) && PulsesMatch(s, machine)
    requires t.db.pulses == s.db.pulses + References.NewPulses(s.db, id, run)
    requires |t.db.deposits| == |s.db.deposits|
    requires forall d | 0 <= d < |s.db.deposits| :: t.db.deposits[d].amount == s.db.deposits[d].amount
    requires forall d | 0 <= d < |s.db.deposits| && d != id :: t.history.traces[d] == s.history.traces[d]
    requires t.history.traces[id].runs == s.history.traces[id].runs + [run]
    ensures PulsesMatch(t, machine)
  {
    PulsesAfterRun(s.db, id, run, machine);
    var runs := s.history.traces[id].runs;
    assert (runs + [run])[..|runs|] == runs;
    SumChangedAt(|s.db.deposits|, QueuedAt(s.db.deposits, s.history.traces, machine),
                 QueuedAt(t.db.deposits, t.history.traces, machine), id);
  }

  lemma NewDepositKeeps(s: System, t: System)
    requires Inv(s) && Refs(t)
    requires t.db.ledger == s.db.ledger && t.db.pulses == s.db.pulses
    requires |t.db.deposits| == |s.db.deposits| + 1 && t.db.deposits[..|s.db.deposits|] == s.db.deposits
    requires t.db.deposits[|s.db.deposits|].remainder.None?
    requires t.history.traces == s.history.traces + [Trace([], 0, false)]
    ensures Inv(t)
  {
    RowsOfNew(s.db, |s.db.ledger|);
    assert s.db.ledger[..|s.db.ledger|] == s.db.ledger;
    forall d: nat | d < |t.db.deposits|
      ensures DepositMatches(t, d)
    {
      if d < |s.db.deposits| {
        assert DepositMatches(s, d) && t.db.deposits[d] == s.db.deposits[d];
      }
    }
    forall machine
      ensures PulsesMatch(t, machine)
    {
      assert PulsesMatch(s, machine);
      assert forall d | 0 <= d < |s.db.deposits| :: t.db.deposits[d] == s.db.deposits[d];
      SumExtends(|s.db.deposits|, QueuedAt(s.db.deposits, s.history.traces, machine),
                 QueuedAt(t.db.deposits, t.history.traces, machine));
    }
  }

  lemma ReceiveKeeps(s: System, c: nat, event: Pipeline.Event, policy: Pipeline.Policy)
    requires Inv(s) && c !in s.calls
    ensures Inv(ApplyReceive(s, c, event, policy))
  {
    var t := ApplyReceive(s, c, event, policy);
    References.RefsKeptByReceive(s, c, event, policy);
    var addressId := Pool.IdOf(s.db.addresses, event.address);
    if addressId.Some? {
      References.UpsertFrame(s.db, addressId.value, event, policy);
      if |t.db.deposits| == |s.db.deposits| {
        Frame(s, t);
      } else {
        assert t.db.deposits[..|s.db.deposits|] == s.db.deposits;
        NewDepositKeeps(s, t);
      }
    }
  }

  /** Ledger rows that are no purchases. */
  lemma EntryKeeps(s: System, t: System, more: seq<Entry>)
    requires Inv(s) && Refs(t) && |more| <= 1
    requires t.db.deposits == s.db.deposits && t.history.traces == s.history.traces
    requires t.db.ledger == s.db.ledger + more && (more != [] ==> more[0].kind != Purchase)
    requires |t.db.pulses| >= |s.db.pulses|
    requires forall p | 0 <= p < |s.db.pulses| :: t.db.pulses[p] == s.db.pulses[p]
    requires forall p | |s.db.pulses| <= p < |t.db.pulses| :: t.db.pulses[p].source == TokenRedemption
    ensures Inv(t)
  {
    forall d: nat
      ensures RowsOf(t.db.ledger, d) == RowsOf(s.db.ledger, d)
    {
      if more == [] {
        assert s.db.ledger + more == s.db.ledger;
      } else {
        assert more == [more[0]];
        RowsAppended(s.db.ledger, more[0], d);
      }
    }
    Frame(s, t);
  }

  lemma LedgerKeeps(s: System, step: Step)
    requires Inv(s) && Enabled(s, step) && (step.Redeem? || step.Adjust? || step.WriteRefund?)
    ensures Inv(Apply(s, step))
  {
    var t := Apply(s, step);
    References.RefsKept(s, step);
    EntryKeeps(s, t, t.db.ledger[|s.db.ledger|..]);
  }

  lemma MergeKeeps(s: System, from: nat, to: nat)
    requires Inv(s)
    ensures Inv(ApplyMerge(s, from, to))
  {
    var t := ApplyMerge(s, from, to);
    References.RefsKeptByMerge(s, from, to);
    forall d: nat
      ensures RowsOf(t.db.ledger, d) == RowsOf(s.db.ledger, d)
    {
      RowsMerged(s.db.ledger, t.db.ledger, d);
    }
    Frame(s, t);
  }

  lemma InvKept(s: System, step: Step)
    requires Inv(s) && Enabled(s, step)
    ensures Inv(Apply(s, step))
  {
    if step.RunHook? {
      HookKeeps(s, step.call, step.written);
    } else if step.Receive? {
      ReceiveKeeps(s, step.call, step.event, step.policy);
    } else if step.Redeem? || step.Adjust? || step.WriteRefund? {
      LedgerKeeps(s, step);
    } else if step.Merge? {
      MergeKeeps(s, step.from, step.to);
    } else if References.CreditStep(step) {
      CreditKeeps(s, step);
    } else {
      RestKeeps(s, step);
    }
  }

  lemma CreditKeeps(s: System, step: Step)
    requires Inv(s) && Enabled(s, step) && References.CreditStep(step) && !step.RunHook?
    ensures Inv(Apply(s, step))
  {
    References.RefsKept(s, step);
    Frame(s, Apply(s, step));
  }

  predicate RestStep(step: Step) {
    !(step.RunHook? || step.Receive? || step.Redeem? || step.Adjust? || step.WriteRefund? || step.Merge?
      || References.CreditStep(step))
  }

  lemma RestKeeps(s: System, step: Step)
    requires Inv(s) && Enabled(s, step) && RestStep(step)
    ensures Inv(Apply(s, step))
  {
    References.RefsKept(s, step);
    RestFrame(s, step);
    Frame(s, Apply(s, step));
  }

  lemma RestFrame(s: System, step: Step)
    requires Refs(s) && Enabled(s, step) && RestStep(step)
    ensures
      var t := Apply(s, step);
      && t.history.traces == s.history.traces && |t.db.deposits| == |s.db.deposits| && t.db.ledger == s.db.ledger
      && (forall d | 0 <= d < |s.db.deposits| ::
            t.db.deposits[d].amount == s.db.deposits[d].amount && t.db.deposits[d].remainder == s.db.deposits[d].remainder)
      && |t.db.pulses| == |s.db.pulses|
      && (forall p | 0 <= p < |s.db.pulses| ::
            t.db.pulses[p].source == s.db.pulses[p].source && t.db.pulses[p].machine == s.db.pulses[p].machine)
  {
    if References.AddressStep(step) {
      References.AddressFrame(s, step);
    } else if References.DispatchStep(step) {
      References.DispatchFrame(s, step);
    }
  }

  lemma InitialInv()
    ensures Inv(INITIAL)
  {
    assert forall machine :: PulsesMatch(INITIAL, machine);
  }

  lemma {:induction false} InvAlways(s: System, steps: seq<Step>)
    requires Inv(s) && Allowed(s, steps)
    ensures Inv(Exec(s, steps))
    decreases |steps|
  {
    if steps != [] {
      InvKept(s, steps[0]);
      InvAlways(Apply(s, steps[0]), steps[1..]);
    }
  }
}
