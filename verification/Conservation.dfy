/**
 Tokens are conserved: in every reachable state a user's balance is what the user bought and
 was adjusted by, less one token for each of the user's redemption pulses that has no refund.
 */
module Conservation {
  import opened Tables
  import opened Sums
  import opened Economy
  import References
  import DirectPay
  import Dispatch
  import Ledger
  import Pipeline
  import Redemption
  import Users

  function KindDelta(ledger: seq<Entry>, user: nat, kind: Kind): nat -> int {
    (i: nat) => if i < |ledger| && ledger[i].user == user && ledger[i].kind == kind then ledger[i].delta else 0
  }

  /** What a user's ledger rows of one kind sum to. */
  function Total(ledger: seq<Entry>, user: nat, kind: Kind): int {
    Sum(|ledger|, KindDelta(ledger, user, kind))
  }

  ghost predicate Refunded(ledger: seq<Entry>, pulse: nat) {
    exists i :: 0 <= i < |ledger| && ledger[i].kind == Refund && ledger[i].pulse == Some(pulse)
  }

  ghost predicate Redeemed(pulse: Pulse, user: nat) {
    pulse.source == TokenRedemption && pulse.user == Some(user)
  }

  ghost function HeldAt(pulses: seq<Pulse>, ledger: seq<Entry>, user: nat): nat -> int {
    (p: nat) => if p < |pulses| && Redeemed(pulses[p], user) && !Refunded(ledger, p) then 1 else 0
  }

  /** The user's redemption pulses without a refund. */
  ghost function Held(pulses: seq<Pulse>, ledger: seq<Entry>, user: nat): int {
    Sum(|pulses|, HeldAt(pulses, ledger, user))
  }

  ghost predicate ConservedFor(db: DB, user: nat) {
    Ledger.Balance(db.ledger, user)
    == Total(db.ledger, user, Purchase) + Total(db.ledger, user, AdminAdjust) - Held(db.pulses, db.ledger, user)
  }

  ghost predicate Conserved(db: DB) {
    forall user :: ConservedFor(db, user)
  }

  /** A fetched pulse is still as it was read, except that a merge may have taken its user away. */
  ghost predicate Fresh(s: System, f: Dispatch.Fetched) {
    && f.id < |s.db.pulses|
    && f.source == s.db.pulses[f.id].source && f.attempts == s.db.pulses[f.id].attempts
    && (f.user.Some? <==> s.db.pulses[f.id].user.Some?)
    && (f.user.Some? ==> f.user.value in s.history.heirs
                         && (f.user.value in s.db.users ==> s.db.pulses[f.id].user == f.user))
  }

  ghost predicate OwesFor(s: System, p: nat) {
    s.dispatching.Owing? && s.dispatching.pulse.id == p
  }

  /** Refunds go to failed redemption pulses, at most one to each, and are missing only when lost. */
  ghost predicate RefundsMatch(s: System) {
    && (forall i | 0 <= i < |s.db.ledger| && s.db.ledger[i].kind == Refund ::
          && s.db.ledger[i].pulse.Some? && s.db.ledger[i].pulse.value < |s.db.pulses|
          && s.db.pulses[s.db.ledger[i].pulse.value].state == Failed
          && s.db.pulses[s.db.ledger[i].pulse.value].source == TokenRedemption)
    && (forall i, j | 0 <= i < j < |s.db.ledger| && s.db.ledger[i].kind == Refund && s.db.ledger[j].kind == Refund ::
          s.db.ledger[i].pulse != s.db.ledger[j].pulse)
    && (forall p | 0 <= p < |s.db.pulses| && s.db.pulses[p].source == TokenRedemption ::
          && s.db.pulses[p].user.Some?
          && (s.db.pulses[p].state == Failed ==> Refunded(s.db.ledger, p) || p in s.history.lost || OwesFor(s, p)))
    && (forall p | p in s.history.lost ::
          && p < |s.db.pulses| && s.db.pulses[p].source == TokenRedemption && s.db.pulses[p].state == Failed
          && !Refunded(s.db.ledger, p))
  }

  /** The dispatcher's list: distinct pending pulses, and a failed one whose refund is next. */
  ghost predicate PassFresh(s: System) {
    && (forall k | 0 <= k < |s.dispatching.todo| ::
          Fresh(s, s.dispatching.todo[k]) && s.db.pulses[s.dispatching.todo[k].id].state == Pending)
    && (forall j, k | 0 <= j < k < |s.dispatching.todo| :: s.dispatching.todo[j].id != s.dispatching.todo[k].id)
    && (s.dispatching.Owing? ==>
          var f := s.dispatching.pulse;
          && f.id < |s.db.pulses| && s.db.pulses[f.id].state == Failed && s.db.pulses[f.id].source == TokenRedemption
          && !Refunded(s.db.ledger, f.id) && f.id !in s.history.lost
          && f.user.Some? && f.user.value in s.history.heirs
          && (f.user.value in s.db.users ==> s.db.pulses[f.id].user == f.user))
  }

  ghost predicate Inv(s: System) {
    Refs(s) && RefundsMatch(s) && PassFresh(s) && Conserved(s.db)
  }

  // --- balances ---

  lemma TotalAppended(ledger: seq<Entry>, e: Entry, user: nat, kind: Kind)
    ensures Total(ledger + [e], user, kind)
         == Total(ledger, user, kind) + if e.user == user && e.kind == kind then e.delta else 0
  {
    SumExtends(|ledger|, KindDelta(ledger, user, kind), KindDelta(ledger + [e], user, kind));
  }

  lemma RefundedAppended(ledger: seq<Entry>, e: Entry, p: nat)
    ensures Refunded(ledger + [e], p) <==> Refunded(ledger, p) || (e.kind == Refund && e.pulse == Some(p))
  {
    if Refunded(ledger, p) {
      var i :| 0 <= i < |ledger| && ledger[i].kind == Refund && ledger[i].pulse == Some(p);
      assert (ledger + [e])[i] == ledger[i];
    }
    if e.kind == Refund && e.pulse == Some(p) {
      assert (ledger + [e])[|ledger|] == e;
    }
  }

  /** A purchase or an adjustment. */
  lemma EarningConserves(db: DB, e: Entry)
    requires Conserved(db) && (e.kind == Purchase || e.kind == AdminAdjust)
    ensures Conserved(db.(ledger := db.ledger + [e]))
  {
    forall user
      ensures ConservedFor(db.(ledger := db.ledger + [e]), user)
    {
      assert ConservedFor(db, user);
      Ledger.BalanceAppended(db.ledger, e, user);
      TotalAppended(db.ledger, e, user, Purchase);
      TotalAppended(db.ledger, e, user, AdminAdjust);
      forall p: nat
        ensures Refunded(db.ledger + [e], p) <==> Refunded(db.ledger, p)
      {
        RefundedAppended(db.ledger, e, p);
      }
      SumCongruent(|db.pulses|, HeldAt(db.pulses, db.ledger, user), HeldAt(db.pulses, db.ledger + [e], user));
    }
  }

  /** Pulses that keep their user and source, and new ones that no token paid for. */
  lemma PulsesConserve(db: DB, pulses: seq<Pulse>)
    requires Conserved(db) && |pulses| >= |db.pulses|
    requires forall p | 0 <= p < |db.pulses| :: pulses[p].user == db.pulses[p].user && pulses[p].source == db.pulses[p].source
    requires forall p | |db.pulses| <= p < |pulses| :: pulses[p].source == Source.DirectPay
    ensures Conserved(db.(pulses := pulses))
  {
    forall user
      ensures ConservedFor(db.(pulses := pulses), user)
    {
      assert ConservedFor(db, user);
      SumPadded(|db.pulses|, |pulses|, HeldAt(db.pulses, db.ledger, user), HeldAt(pulses, db.ledger, user));
    }
  }

  lemma RedeemConserves(db: DB, user: nat, machine: nat)
    requires Conserved(db) && RowRefs(db)
    ensures Conserved(After(Redemption.Redeem(db, user, machine), db))
  {
    var after := After(Redemption.Redeem(db, user, machine), db);
    if after != db {
      var e := Entry(user, -1, Redemption, None, Some(|db.pulses|));
      var pulse := Pulse(machine, Some(user), TokenRedemption, Pending, 0, None);
      assert after.ledger == db.ledger + [e] && after.pulses == db.pulses + [pulse];
      forall u
        ensures ConservedFor(after, u)
      {
        assert ConservedFor(db, u);
        Ledger.BalanceAppended(db.ledger, e, u);
        TotalAppended(db.ledger, e, u, Purchase);
        TotalAppended(db.ledger, e, u, AdminAdjust);
        forall p: nat
          ensures Refunded(db.ledger + [e], p) <==> Refunded(db.ledger, p)
        {
          RefundedAppended(db.ledger, e, p);
        }
        assert !Refunded(db.ledger, |db.pulses|) by {
          assert forall i | 0 <= i < |db.ledger| :: EntryRefs(db, db.ledger[i]);
        }
        SumExtends(|db.pulses|, HeldAt(db.pulses, db.ledger, u), HeldAt(after.pulses, after.ledger, u));
      }
    }
  }

  lemma RefundConserves(db: DB, user: nat, p: nat)
    requires Conserved(db) && p < |db.pulses| && Redeemed(db.pulses[p], user) && !Refunded(db.ledger, p)
    ensures Conserved(db.(ledger := db.ledger + [Entry(user, 1, Refund, None, Some(p))]))
  {
    var e := Entry(user, 1, Refund, None, Some(p));
    var after := db.(ledger := db.ledger + [e]);
    forall u
      ensures ConservedFor(after, u)
    {
      assert ConservedFor(db, u);
      Ledger.BalanceAppended(db.ledger, e, u);
      TotalAppended(db.ledger, e, u, Purchase);
      TotalAppended(db.ledger, e, u, AdminAdjust);
      forall q: nat
        ensures Refunded(db.ledger + [e], q) <==> Refunded(db.ledger, q) || q == p
      {
        RefundedAppended(db.ledger, e, q);
      }
      SumChangedAt(|db.pulses|, HeldAt(db.pulses, db.ledger, u), HeldAt(db.pulses, after.ledger, u), p);
    }
  }

  // --- merges ---

  lemma MergedTotals(ledger: seq<Entry>, from: nat, to: nat, user: nat, kind: Kind)
    requires from != to
    ensures
      var merged := Users.MergedLedger(ledger, from, to);
      && Total(merged, user, kind)
         == (if user == from then 0
             else if user == to then Total(ledger, to, kind) + Total(ledger, from, kind) else Total(ledger, user, kind))
      && Ledger.Balance(merged, user)
         == (if user == from then 0
             else if user == to then Ledger.Balance(ledger, to) + Ledger.Balance(ledger, from)
             else Ledger.Balance(ledger, user))
  {
    var merged := Users.MergedLedger(ledger, from, to);
    var n := |ledger|;
    if user == from {
      SumZero(n, KindDelta(merged, user, kind));
      SumZero(n, Ledger.Delta(merged, user));
    } else if user == to {
      SumAdds(n, KindDelta(ledger, to, kind), KindDelta(ledger, from, kind), KindDelta(merged, to, kind));
      SumAdds(n, Ledger.Delta(ledger, to), Ledger.Delta(ledger, from), Ledger.Delta(merged, to));
    } else {
      SumCongruent(n, KindDelta(ledger, user, kind), KindDelta(merged, user, kind));
      SumCongruent(n, Ledger.Delta(ledger, user), Ledger.Delta(merged, user));
    }
  }

  lemma MergedRefunded(ledger: seq<Entry>, from: nat, to: nat)
    ensures forall p: nat :: Refunded(Users.MergedLedger(ledger, from, to), p) <==> Refunded(ledger, p)
  {
    var merged := Users.MergedLedger(ledger, from, to);
    forall p: nat
      ensures Refunded(merged, p) <==> Refunded(ledger, p)
    {
      if Refunded(merged, p) {
        var i :| 0 <= i < |merged| && merged[i].kind == Refund && merged[i].pulse == Some(p);
        assert ledger[i].kind == Refund && ledger[i].pulse == Some(p);
      }
      if Refunded(ledger, p) {
        var i :| 0 <= i < |ledger| && ledger[i].kind == Refund && ledger[i].pulse == Some(p);
        assert merged[i].kind == Refund && merged[i].pulse == Some(p);
      }
    }
  }

  lemma MergedHeld(pulses: seq<Pulse>, ledger: seq<Entry>, from: nat, to: nat, user: nat)
    requires from != to
    ensures Held(Users.MergedPulses(pulses, from, to), Users.MergedLedger(ledger, from, to), user)
         == if user == from then 0
            else if user == to then Held(pulses, ledger, to) + Held(pulses, ledger, from) else Held(pulses, ledger, user)
  {
    var ps, l := Users.MergedPulses(pulses, from, to), Users.MergedLedger(ledger, from, to);
    MergedRefunded(ledger, from, to);
    if user == from {
      SumZero(|ps|, HeldAt(ps, l, user));
    } else if user == to {
      SumAdds(|ps|, HeldAt(pulses, ledger, to), HeldAt(pulses, ledger, from), HeldAt(ps, l, to));
    } else {
      SumCongruent(|ps|, HeldAt(pulses, ledger, user), HeldAt(ps, l, user));
    }
  }

  /** The survivor of a merge has both balances and both sets of pulses. */
  lemma MergeConserves(db: DB, from: nat, to: nat)
    requires Conserved(db)
    ensures Conserved(After(Users.MergeUsers(db, from, to), db))
  {
    var after := After(Users.MergeUsers(db, from, to), db);
    if after != db {
      forall user
        ensures ConservedFor(after, user)
      {
        assert ConservedFor(db, user) && ConservedFor(db, from) && ConservedFor(db, to);
        MergedTotals(db.ledger, from, to, user, Purchase);
        MergedTotals(db.ledger, from, to, user, AdminAdjust);
        MergedHeld(db.pulses, db.ledger, from, to, user);
      }
    }
  }

  // --- every step keeps the invariant ---

  lemma SameBooks(db: DB, after: DB)
    requires Conserved(db) && after.ledger == db.ledger && after.pulses == db.pulses
    ensures Conserved(after)
  {
    assert forall user | ConservedFor(db, user) :: ConservedFor(after, user);
  }

  lemma HookConserves(db: DB, d: nat, plan: DirectPay.Plan)
    requires Conserved(db) && d < |db.deposits| && DirectPay.Sound(db, plan)
    ensures Conserved(After(DirectPay.CommitHook(db, d, plan), db))
  {
    References.HookFrame(db, d, plan);
    var tx := DirectPay.CommitHook(db, d, plan);
    if tx.Commit? {
      var paid := References.Payment(db, d, plan);
      var credited := db.(ledger := tx.db.ledger);
      if paid != [] {
        EarningConserves(db, paid[0]);
        assert paid == [paid[0]];
      } else {
        assert tx.db.ledger == db.ledger;
      }
      PulsesConserve(credited, tx.db.pulses);
      SameBooks(credited.(pulses := tx.db.pulses), tx.db);
    }
  }

  lemma ConservedKept(s: System, step: Step)
    requires Inv(s) && Enabled(s, step)
    ensures Conserved(Apply(s, step).db)
  {
    var t := Apply(s, step);
    if !References.BookStep(step) {
      References.BooksFrame(s, step);
      SameBooks(s.db, t.db);
    } else if step.RunHook? {
      var call := s.calls[step.call];
      HookConserves(s.db, call.deposit, call.plan);
    } else if References.DispatchStep(step) {
      DispatchConserves(s, step);
    } else if step.Merge? {
      MergeConserves(s.db, step.from, step.to);
    } else if step.Redeem? {
      RedeemConserves(s.db, step.user, step.machine);
    } else if step.Adjust? {
      EarningConserves(s.db, Entry(step.user, step.delta, AdminAdjust, None, None));
    } else {
      SameBooks(s.db, t.db);
    }
  }

  lemma DispatchConserves(s: System, step: Step)
    requires Inv(s) && Enabled(s, step) && References.DispatchStep(step)
    ensures Conserved(Apply(s, step).db)
  {
    if step.Attempt? {
      AttemptConserves(s, step.ok, step.limit, step.next, step.written);
    } else if step.WriteRefund? {
      WrittenConserves(s, step.written);
    }
  }

  lemma AttemptConserves(s: System, ok: bool, limit: int, next: int, written: bool)
    requires Inv(s) && s.dispatching.Pass? && s.dispatching.todo != []
    ensures Conserved(ApplyAttempt(s, ok, limit, next, written).db)
  {
    PulsesConserve(s.db, ApplyAttempt(s, ok, limit, next, written).db.pulses);
  }

  lemma WrittenConserves(s: System, written: bool)
    requires Inv(s) && s.dispatching.Owing?
    ensures Conserved(ApplyRefund(s, written).db)
  {
    if ApplyRefund(s, written).db != s.db {
      var f := s.dispatching.pulse;
      assert f.user.value in s.db.users;
      RefundConserves(s.db, f.user.value, f.id);
    }
  }

  lemma RefundedGrows(ledger: seq<Entry>, more: seq<Entry>, p: nat)
    requires forall i | 0 <= i < |more| :: more[i].kind != Refund
    ensures Refunded(ledger + more, p) <==> Refunded(ledger, p)
  {
    if Refunded(ledger, p) {
      var i :| 0 <= i < |ledger| && ledger[i].kind == Refund && ledger[i].pulse == Some(p);
      assert (ledger + more)[i] == ledger[i];
    }
  }

  /** Steps that write no refund and change no pulse's state. */
  lemma MatchFrame(s: System, t: System, more: seq<Entry>)
    requires RefundsMatch(s)
    requires t.db.ledger == s.db.ledger + more && t.history.lost == s.history.lost
    requires forall i | 0 <= i < |more| :: more[i].kind != Refund
    requires |t.db.pulses| >= |s.db.pulses|
    requires forall p | 0 <= p < |s.db.pulses| ::
               t.db.pulses[p].state == s.db.pulses[p].state && t.db.pulses[p].source == s.db.pulses[p].source
               && (s.db.pulses[p].user.Some? ==> t.db.pulses[p].user.Some?)
    requires forall p | |s.db.pulses| <= p < |t.db.pulses| ::
               t.db.pulses[p].state == Pending && (t.db.pulses[p].source == TokenRedemption ==> t.db.pulses[p].user.Some?)
    requires forall p: nat | OwesFor(s, p) :: OwesFor(t, p)
    ensures RefundsMatch(t)
  {
    forall p: nat
      ensures Refunded(t.db.ledger, p) <==> Refunded(s.db.ledger, p)
    {
      RefundedGrows(s.db.ledger, more, p);
    }
  }

  lemma MatchKeptByMerge(s: System, from: nat, to: nat)
    requires RefundsMatch(s)
    ensures RefundsMatch(ApplyMerge(s, from, to))
  {
    MergedRefunded(s.db.ledger, from, to);
    var t := ApplyMerge(s, from, to);
    if t != s {
      assert forall i | 0 <= i < |s.db.ledger| ::
          t.db.ledger[i].kind == s.db.ledger[i].kind && t.db.ledger[i].pulse == s.db.ledger[i].pulse;
      assert forall p | 0 <= p < |s.db.pulses| ::
          t.db.pulses[p].state == s.db.pulses[p].state && t.db.pulses[p].source == s.db.pulses[p].source;
    }
  }

  lemma MatchKeptByAttempt(s: System, ok: bool, limit: int, next: int, written: bool)
    requires Inv(s) && s.dispatching.Pass? && s.dispatching.todo != []
    ensures RefundsMatch(ApplyAttempt(s, ok, limit, next, written))
  {
    var t := ApplyAttempt(s, ok, limit, next, written);
    var f := s.dispatching.todo[0];
    assert Fresh(s, f) && s.db.pulses[f.id].state == Pending;
    assert forall p | 0 <= p < |s.db.pulses| && p != f.id :: t.db.pulses[p] == s.db.pulses[p];
  }

  lemma MatchKeptByRefund(s: System, written: bool)
    requires Inv(s) && s.dispatching.Owing?
    ensures RefundsMatch(ApplyRefund(s, written))
  {
    var t := ApplyRefund(s, written);
    var f := s.dispatching.pulse;
    if t.db != s.db {
      var e := Entry(f.user.value, 1, Refund, None, Some(f.id));
      assert t.db.ledger == s.db.ledger + [e];
      forall p: nat
        ensures Refunded(t.db.ledger, p) <==> Refunded(s.db.ledger, p) || p == f.id
      {
        RefundedAppended(s.db.ledger, e, p);
      }
    }
  }

  lemma MatchKeptByHook(s: System, c: nat, written: bool)
    requires Inv(s) && c in s.calls && s.calls[c].Planned?
    ensures RefundsMatch(ApplyHook(s, c, written))
  {
    var t := ApplyHook(s, c, written);
    var call := s.calls[c];
    References.HookFrame(s.db, call.deposit, call.plan);
    if t.db == s.db {
      MatchFrame(s, t, []);
    } else {
      MatchFrame(s, t, References.Payment(s.db, call.deposit, call.plan));
    }
  }

  lemma MatchKeptByAccounts(s: System, step: Step)
    requires Inv(s) && Enabled(s, step) && (step.Redeem? || step.Adjust? || step.CreateUser?)
    ensures RefundsMatch(Apply(s, step))
  {
    var t := Apply(s, step);
    MatchFrame(s, t, t.db.ledger[|s.db.ledger|..]);
  }

  lemma MatchKept(s: System, step: Step)
    requires Inv(s) && Enabled(s, step)
    ensures RefundsMatch(Apply(s, step))
  {
    if !References.BookStep(step) {
      References.BooksFrame(s, step);
      MatchFrame(s, Apply(s, step), []);
    } else if step.RunHook? {
      MatchKeptByHook(s, step.call, step.written);
    } else if step.Attempt? {
      MatchKeptByAttempt(s, step.ok, step.limit, step.next, step.written);
    } else if step.WriteRefund? {
      MatchKeptByRefund(s, step.written);
    } else if step.Merge? {
      MatchKeptByMerge(s, step.from, step.to);
    } else if References.DispatchStep(step) {
      MatchKeptByPass(s, step);
    } else {
      MatchKeptByAccounts(s, step);
    }
  }

  lemma MatchKeptByPass(s: System, step: Step)
    requires Inv(s) && Enabled(s, step) && (step.FetchPulses? || step.CrashDispatcher?)
    ensures RefundsMatch(Apply(s, step))
  {
  }

  /** Steps that leave fetched pulses, and the users they name, as they are. */
  lemma FreshFrame(s: System, t: System, f: Dispatch.Fetched)
    requires Fresh(s, f)
    requires s.history.heirs.Keys <= t.history.heirs.Keys
    requires forall user | user in t.db.users && user in s.history.heirs :: user in s.db.users
    requires f.id < |t.db.pulses| && t.db.pulses[f.id] == s.db.pulses[f.id]
    ensures Fresh(t, f)
  {
  }

  lemma PassFrame(s: System, t: System)
    requires PassFresh(s) && RefundsMatch(s) && t.dispatching == s.dispatching && t.history.lost == s.history.lost
    requires s.history.heirs.Keys <= t.history.heirs.Keys
    requires forall user | user in t.db.users && user in s.history.heirs :: user in s.db.users
    requires |t.db.pulses| >= |s.db.pulses|
    requires forall p | 0 <= p < |s.db.pulses| :: t.db.pulses[p] == s.db.pulses[p]
    requires forall p: nat :: Refunded(t.db.ledger, p) <==> Refunded(s.db.ledger, p)
    ensures PassFresh(t)
  {
    forall k | 0 <= k < |s.dispatching.todo|
      ensures Fresh(t, t.dispatching.todo[k]) && t.db.pulses[t.dispatching.todo[k].id].state == Pending
    {
      FreshFrame(s, t, s.dispatching.todo[k]);
    }
  }

  lemma PassKeptByMerge(s: System, from: nat, to: nat)
    requires Refs(s) && PassFresh(s)
    ensures PassFresh(ApplyMerge(s, from, to))
  {
    MergedRefunded(s.db.ledger, from, to);
    var t := ApplyMerge(s, from, to);
    if t != s {
      forall k | 0 <= k < |s.dispatching.todo|
        ensures Fresh(t, s.dispatching.todo[k]) && t.db.pulses[s.dispatching.todo[k].id].state == Pending
      {
        assert Fresh(s, s.dispatching.todo[k]);
      }
    }
  }

  lemma PassKeptByFetch(s: System)
    requires Inv(s) && s.dispatching == Pass([])
    ensures PassFresh(Apply(s, FetchPulses))
  {
    Dispatch.FetchedAreFresh(s.db.pulses, Pipeline.Stamp(s.clock));
    var t := Apply(s, FetchPulses);
    forall k | 0 <= k < |t.dispatching.todo|
      ensures Fresh(t, t.dispatching.todo[k])
    {
      var id := t.dispatching.todo[k].id;
      assert t.dispatching.todo[k] == Dispatch.Read(s.db.pulses, id);
    }
  }

  lemma PassKeptByAttempt(s: System, step: Step)
    requires Inv(s) && Enabled(s, step) && step.Attempt?
    ensures PassFresh(Apply(s, step))
  {
    var t := Apply(s, step);
    var todo := s.dispatching.todo;
    assert Fresh(s, todo[0]) && s.db.pulses[todo[0].id].state == Pending;
    forall k | 1 <= k < |todo|
      ensures Fresh(t, todo[k]) && t.db.pulses[todo[k].id].state == Pending
    {
      FreshFrame(s, t, todo[k]);
    }
    assert !Refunded(s.db.ledger, todo[0].id) && todo[0].id !in s.history.lost;
  }

  lemma PassKeptByRefund(s: System, step: Step)
    requires Inv(s) && Enabled(s, step) && step.WriteRefund?
    ensures PassFresh(Apply(s, step))
  {
    var t := Apply(s, step);
    forall k | 0 <= k < |s.dispatching.todo|
      ensures Fresh(t, s.dispatching.todo[k])
    {
      FreshFrame(s, t, s.dispatching.todo[k]);
    }
  }

  lemma PassKeptByHook(s: System, c: nat, written: bool)
    requires Inv(s) && c in s.calls && s.calls[c].Planned?
    ensures PassFresh(ApplyHook(s, c, written))
  {
    var t := ApplyHook(s, c, written);
    var call := s.calls[c];
    References.HookFrame(s.db, call.deposit, call.plan);
    if t.db != s.db {
      forall p: nat
        ensures Refunded(t.db.ledger, p) <==> Refunded(s.db.ledger, p)
      {
        RefundedGrows(s.db.ledger, References.Payment(s.db, call.deposit, call.plan), p);
      }
    }
    PassFrame(s, t);
  }

  lemma PassKeptByAccounts(s: System, step: Step)
    requires Inv(s) && Enabled(s, step) && (step.Redeem? || step.Adjust? || step.CreateUser?)
    ensures PassFresh(Apply(s, step))
  {
    var t := Apply(s, step);
    var more := t.db.ledger[|s.db.ledger|..];
    assert t.db.ledger == s.db.ledger + more;
    forall p: nat
      ensures Refunded(t.db.ledger, p) <==> Refunded(s.db.ledger, p)
    {
      RefundedGrows(s.db.ledger, more, p);
    }
    PassFrame(s, t);
  }

  lemma PassKept(s: System, step: Step)
    requires Inv(s) && Enabled(s, step)
    ensures PassFresh(Apply(s, step))
  {
    if !References.BookStep(step) {
      References.BooksFrame(s, step);
      PassFrame(s, Apply(s, step));
    } else if step.RunHook? {
      PassKeptByHook(s, step.call, step.written);
    } else if step.FetchPulses? {
      PassKeptByFetch(s);
    } else if step.Attempt? {
      PassKeptByAttempt(s, step);
    } else if step.WriteRefund? {
      PassKeptByRefund(s, step);
    } else if step.CrashDispatcher? {
    } else if step.Merge? {
      PassKeptByMerge(s, step.from, step.to);
    } else {
      PassKeptByAccounts(s, step);
    }
  }

  lemma InvKept(s: System, step: Step)
    requires Inv(s) && Enabled(s, step)
    ensures Inv(Apply(s, step))
  {
    References.RefsKept(s, step);
    ConservedKept(s, step);
    MatchKept(s, step);
    PassKept(s, step);
  }
}
