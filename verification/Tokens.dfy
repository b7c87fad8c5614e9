/** The conservation theorems over whole runs. */
module Tokens {
  import opened Tables
  import opened Sums
  import opened Economy
  import opened Conservation
  import References
  import Dispatch
  import Ledger

  lemma InitialInv()
    ensures Inv(INITIAL)
  {
    assert forall user :: ConservedFor(INITIAL.db, user);
  }

  lemma {:induction false} InvAlways(s: System, steps: seq<Step>)
    requires Inv(s) && Allowed(s, steps)
    ensures Inv(Exec(s, steps))
    decreases |steps|
  {
    if steps != [] {
      InvKept(s, steps[0]);
      InvAlways(Apply(s, steps[0]), steps[1..]);
    }
  }

  ghost function HasRefund(ledger: seq<Entry>, pulse: nat): nat -> int {
    (i: nat) => if i < |ledger| && ledger[i].kind == Refund && ledger[i].pulse == Some(pulse) then 1 else 0
  }

  lemma {:induction false} AtMostOne(ledger: seq<Entry>, pulse: nat, n: nat)
    requires n <= |ledger|
    requires forall i, j | 0 <= i < j < |ledger| && ledger[i].kind == Refund && ledger[j].kind == Refund ::
               ledger[i].pulse != ledger[j].pulse
    ensures 0 <= Sum(n, HasRefund(ledger, pulse)) <= 1
    ensures Sum(n, HasRefund(ledger, pulse)) == 1
       <==> exists i :: 0 <= i < n && ledger[i].kind == Refund && ledger[i].pulse == Some(pulse)
  {
    if n > 0 {
      AtMostOne(ledger, pulse, n - 1);
      if ledger[n - 1].kind == Refund && ledger[n - 1].pulse == Some(pulse) {
        assert forall i | 0 <= i < n - 1 && ledger[i].kind == Refund :: ledger[i].pulse != Some(pulse);
      }
    }
  }

  /**
   Whatever concurrent calls, crashes, failed writes and merges a run contains: a balance is
   purchases plus adjustments less the user's unrefunded redemptions, a pulse never has two
   refunds, and only failed redemptions have one.
   */
  lemma {:induction false} TokensAreConserved(steps: seq<Step>)
    requires Allowed(INITIAL, steps)
    ensures
      var db := Exec(INITIAL, steps).db;
      && (forall user: nat :: Ledger.Balance(db.ledger, user)
            == Total(db.ledger, user, Purchase) + Total(db.ledger, user, AdminAdjust) - Held(db.pulses, db.ledger, user))
      && (forall pulse: nat :: Sum(|db.ledger|, HasRefund(db.ledger, pulse)) <= 1)
      && (forall pulse: nat | Refunded(db.ledger, pulse) ::
            pulse < |db.pulses| && db.pulses[pulse].state == Failed && db.pulses[pulse].source == TokenRedemption)
  {
    InitialInv();
    InvAlways(INITIAL, steps);
    var db := Exec(INITIAL, steps).db;
    forall user: nat
      ensures Ledger.Balance(db.ledger, user)
           == Total(db.ledger, user, Purchase) + Total(db.ledger, user, AdminAdjust) - Held(db.pulses, db.ledger, user)
    {
      assert ConservedFor(db, user);
    }
    forall pulse: nat
      ensures Sum(|db.ledger|, HasRefund(db.ledger, pulse)) <= 1
    {
      AtMostOne(db.ledger, pulse, |db.ledger|);
    }
  }

  // --- runs in which no refund is lost ---

  /**
   A step that loses no refund: the dispatcher does not die between its two writes, the
   refund's write works, and accounts are merged only between two passes of the dispatcher.
   */
  ghost predicate Quiet(s: System, step: Step) {
    match step
    case CrashDispatcher => s.dispatching.Pass?
    case WriteRefund(written) => written
    case Merge(_, _) => s.dispatching == Pass([])
    case _ => true
  }

  ghost predicate QuietRun(s: System, steps: seq<Step>)
    requires Allowed(s, steps)
    decreases |steps|
  {
    steps == [] || (Quiet(s, steps[0]) && QuietRun(Apply(s, steps[0]), steps[1..]))
  }

  /** Every user that the dispatcher remembers still exists. */
  ghost predicate NoStaleUsers(s: System) {
    && (forall k | 0 <= k < |s.dispatching.todo| ::
          s.dispatching.todo[k].user.Some? ==> s.dispatching.todo[k].user.value in s.db.users)
    && (s.dispatching.Owing? ==> s.dispatching.pulse.user.Some? && s.dispatching.pulse.user.value in s.db.users)
  }

  /** The tables hold a failed redemption that has no refund and that the dispatcher will not refund. */
  ghost predicate Stranded(s: System, p: nat) {
    && p < |s.db.pulses| && s.db.pulses[p].source == TokenRedemption && s.db.pulses[p].state == Failed
    && !Refunded(s.db.ledger, p) && !OwesFor(s, p)
  }

  /** The refunds noted as lost are the stranded redemptions, no more and no less. */
  lemma LostIsStranded(s: System)
    requires Inv(s)
    ensures forall p: nat :: p in s.history.lost <==> Stranded(s, p)
  {
  }

  /**
   A step strands a redemption exactly when the dispatcher owes its refund and dies, fails to
   write it, or remembers a user that is gone; and what is stranded stays so.
   */
  lemma LostExactly(s: System, step: Step, p: nat)
    requires Inv(s) && Enabled(s, step)
    ensures Stranded(s, p) ==> Stranded(Apply(s, step), p)
    ensures !Stranded(s, p) && Stranded(Apply(s, step), p)
       <==> OwesFor(s, p)
            && (step.CrashDispatcher?
                || (step.WriteRefund? && (!step.written || s.dispatching.pulse.user.value !in s.db.users)))
  {
    InvKept(s, step);
    LostIsStranded(s);
    LostIsStranded(Apply(s, step));
    LostOnes(s, step);
  }

  /** In every run, the redemptions that failed and are neither refunded nor owed are those whose refund was lost. */
  lemma {:induction false} StrandedAreLost(steps: seq<Step>, p: nat)
    requires Allowed(INITIAL, steps)
    ensures p in Exec(INITIAL, steps).history.lost <==> Stranded(Exec(INITIAL, steps), p)
  {
    InitialInv();
    InvAlways(INITIAL, steps);
    LostIsStranded(Exec(INITIAL, steps));
  }

  /** Which refunds a step notes as lost. */
  lemma LostOnes(s: System, step: Step)
    requires Inv(s) && Enabled(s, step)
    ensures
      var loses := s.dispatching.Owing?
                   && (step.CrashDispatcher?
                       || (step.WriteRefund? && (!step.written || s.dispatching.pulse.user.value !in s.db.users)));
      && Apply(s, step).history.lost == s.history.lost + (if loses then {s.dispatching.pulse.id} else {})
      && (s.dispatching.Owing? ==> s.dispatching.pulse.id !in s.history.lost)
  {
    if !References.BookStep(step) {
      References.BooksFrame(s, step);
    } else if step.WriteRefund? || step.CrashDispatcher? {
      LostOne(s, step);
    } else {
      LostByNone(s, step);
    }
  }

  lemma LostOne(s: System, step: Step)
    requires Inv(s) && Enabled(s, step) && (step.WriteRefund? || step.CrashDispatcher?)
    ensures
      var loses := s.dispatching.Owing?
                   && (step.CrashDispatcher? || !step.written || s.dispatching.pulse.user.value !in s.db.users);
      Apply(s, step).history.lost == s.history.lost + (if loses then {s.dispatching.pulse.id} else {})
  {
  }

  lemma LostByNone(s: System, step: Step)
    requires Refs(s) && Enabled(s, step) && References.BookStep(step) && !step.WriteRefund? && !step.CrashDispatcher?
    ensures Apply(s, step).history.lost == s.history.lost
  {
  }

  lemma NothingLost(s: System, step: Step)
    requires Inv(s) && Enabled(s, step) && Quiet(s, step)
    requires s.history.lost == {} && NoStaleUsers(s)
    ensures Apply(s, step).history.lost == {} && NoStaleUsers(Apply(s, step))
  {
    LostOnes(s, step);
    if !References.BookStep(step) {
      References.BooksFrame(s, step);
    } else if References.DispatchStep(step) {
      PassStaysCurrent(s, step);
    } else if step.RunHook? {
      References.HookFrame(s.db, s.calls[step.call].deposit, s.calls[step.call].plan);
    }
  }

  lemma PassStaysCurrent(s: System, step: Step)
    requires Refs(s) && Enabled(s, step) && References.DispatchStep(step) && NoStaleUsers(s)
    ensures NoStaleUsers(Apply(s, step))
  {
    if step.FetchPulses? {
      Dispatch.FetchedAreFresh(s.db.pulses, Economy.Pipeline.Stamp(s.clock));
    }
  }

  lemma {:induction false} QuietRunsLoseNothing(s: System, steps: seq<Step>)
    requires Inv(s) && s.history.lost == {} && NoStaleUsers(s)
    requires Allowed(s, steps) && QuietRun(s, steps)
    ensures Exec(s, steps).history.lost == {}
    decreases |steps|
  {
    if steps != [] {
      InvKept(s, steps[0]);
      NothingLost(s, steps[0]);
      QuietRunsLoseNothing(Apply(s, steps[0]), steps[1..]);
    }
  }

  ghost function OpenAt(pulses: seq<Pulse>, user: nat): nat -> int {
    (p: nat) => if p < |pulses| && Redeemed(pulses[p], user) && pulses[p].state != Failed then 1 else 0
  }

  lemma SettledBooks(s: System, user: nat)
    requires RefundsMatch(s) && Conserved(s.db) && s.history.lost == {} && s.dispatching.Pass?
    ensures forall p: nat | p < |s.db.pulses| && s.db.pulses[p].source == TokenRedemption ::
              Refunded(s.db.ledger, p) <==> s.db.pulses[p].state == Failed
    ensures Ledger.Balance(s.db.ledger, user)
         == Total(s.db.ledger, user, Purchase) + Total(s.db.ledger, user, AdminAdjust)
            - Sum(|s.db.pulses|, OpenAt(s.db.pulses, user))
  {
    assert ConservedFor(s.db, user);
    SumCongruent(|s.db.pulses|, HeldAt(s.db.pulses, s.db.ledger, user), OpenAt(s.db.pulses, user));
  }

  /**
   In a run that loses no refund, and with no refund just under way, a redemption pulse has a
   refund row exactly when it failed; so a balance is purchases plus adjustments less the
   user's redemptions that are pending or sent.
   */
  lemma {:induction false} BalanceIsEarnedLessOpen(steps: seq<Step>, user: nat)
    requires Allowed(INITIAL, steps) && QuietRun(INITIAL, steps)
    requires Exec(INITIAL, steps).dispatching.Pass?
    ensures
      var db := Exec(INITIAL, steps).db;
      && (forall p: nat | p < |db.pulses| && db.pulses[p].source == TokenRedemption ::
            Refunded(db.ledger, p) <==> db.pulses[p].state == Failed)
      && Ledger.Balance(db.ledger, user)
         == Total(db.ledger, user, Purchase) + Total(db.ledger, user, AdminAdjust) - Sum(|db.pulses|, OpenAt(db.pulses, user))
  {
    InitialInv();
    InvAlways(INITIAL, steps);
    QuietRunsLoseNothing(INITIAL, steps);
    SettledBooks(Exec(INITIAL, steps), user);
  }

  // --- solvency ---

  /** An administrator does not take more tokens than the user has. */
  ghost predicate Fair(s: System, step: Step) {
    step.Adjust? ==> Ledger.Balance(s.db.ledger, step.user) + step.delta >= 0
  }

  ghost predicate FairRun(s: System, steps: seq<Step>)
    requires Allowed(s, steps)
    decreases |steps|
  {
    steps == [] || (Fair(s, steps[0]) && FairRun(Apply(s, steps[0]), steps[1..]))
  }

  ghost predicate Solvent(db: DB) {
    forall user: nat :: Ledger.Balance(db.ledger, user) >= 0
  }

  lemma EntrySolvent(db: DB, after: DB, e: Entry)
    requires Solvent(db) && after.ledger == db.ledger + [e]
    requires Ledger.Balance(db.ledger, e.user) + e.delta >= 0
    ensures Solvent(after)
  {
    forall user: nat
      ensures Ledger.Balance(after.ledger, user) >= 0
    {
      Ledger.BalanceAppended(db.ledger, e, user);
    }
  }

  lemma SolventKept(s: System, step: Step)
    requires Refs(s) && Enabled(s, step) && Fair(s, step) && Solvent(s.db)
    ensures Solvent(Apply(s, step).db)
  {
    if step.RunHook? {
      HookSolvent(s, step.call, step.written);
    } else if step.Merge? {
      MergeSolvent(s, step.from, step.to);
    } else if step.Redeem? || step.Adjust? || step.WriteRefund? {
      var t := Apply(s, step);
      if t.db.ledger != s.db.ledger {
        EntrySolvent(s.db, t.db, t.db.ledger[|s.db.ledger|]);
      }
    } else if !References.BookStep(step) {
      References.BooksFrame(s, step);
    }
  }

  lemma HookSolvent(s: System, c: nat, written: bool)
    requires Refs(s) && Solvent(s.db) && c in s.calls && s.calls[c].Planned?
    ensures Solvent(ApplyHook(s, c, written).db)
  {
    var t, call := ApplyHook(s, c, written), s.calls[c];
    References.HookFrame(s.db, call.deposit, call.plan);
    var paid := References.Payment(s.db, call.deposit, call.plan);
    if t.db.ledger != s.db.ledger {
      assert paid == [paid[0]];
      EntrySolvent(s.db, t.db, paid[0]);
    }
  }

  lemma MergeSolvent(s: System, from: nat, to: nat)
    requires Solvent(s.db)
    ensures Solvent(ApplyMerge(s, from, to).db)
  {
    if ApplyMerge(s, from, to) != s {
      forall user: nat
        ensures Ledger.Balance(ApplyMerge(s, from, to).db.ledger, user) >= 0
      {
        MergedTotals(s.db.ledger, from, to, user, Purchase);
      }
    }
  }

  /** No balance is ever negative unless an administrator makes it so. */
  lemma {:induction false} BalancesStayNonNegative(s: System, steps: seq<Step>)
    requires Refs(s) && Solvent(s.db) && Allowed(s, steps) && FairRun(s, steps)
    ensures Solvent(Exec(s, steps).db)
    decreases |steps|
  {
    if steps != [] {
      SolventKept(s, steps[0]);
      References.RefsKept(s, steps[0]);
      BalancesStayNonNegative(Apply(s, steps[0]), steps[1..]);
    }
  }
}
