/**
 Runs that show the conditions of the theorems to be needed: a merge between the dispatcher's
 two writes loses a refund; a crediting run that outlives its lease, or is cut off between its
 commit and its mark, lets a deposit be credited twice.
 */
module Faults {
  import opened Tables
  import opened Economy
  import AddressBatch
  import Conservation
  import DirectPay
  import Dispatch
  import Lease
  import Ledger
  import Pipeline
  import Pool
  import PurchaseFlow

  ghost predicate Steps(s: System, step: Step, t: System) {
    Refs(s) && Enabled(s, step) && Apply(s, step) == t
  }

  ghost predicate Reaches(steps: seq<Step>, s: System) {
    Allowed(INITIAL, steps) && Exec(INITIAL, steps) == s
  }

  lemma {:induction false} RunThen(s: System, first: seq<Step>, step: Step)
    requires Allowed(s, first) && Refs(Exec(s, first)) && Enabled(Exec(s, first), step)
    ensures Allowed(s, first + [step]) && Exec(s, first + [step]) == Apply(Exec(s, first), step)
    decreases |first|
  {
    if first == [] {
      assert first + [step] == [step] && [step][1..] == [];
    } else {
      assert (first + [step])[1..] == first[1..] + [step];
      RunThen(Apply(s, first[0]), first[1..], step);
    }
  }

  /** Three more steps of a run, told by the states they lead through. */
  lemma Longer(run: seq<Step>, s: System, a: Step, s1: System, b: Step, s2: System, c: Step, s3: System)
    requires Reaches(run, s) && Steps(s, a, s1) && Steps(s1, b, s2) && Steps(s2, c, s3)
    ensures Reaches(run + [a, b, c], s3)
  {
    RunThen(INITIAL, run, a);
    RunThen(INITIAL, run + [a], b);
    RunThen(INITIAL, run + [a] + [b], c);
    assert run + [a] + [b] + [c] == run + [a, b, c];
  }

  // --- a refund lost to a merge ---

  const GRANT := Entry(0, 1, AdminAdjust, None, None)
  const DEBIT := Entry(0, -1, Redemption, None, Some(0))
  const QUEUED := Pulse(0, Some(0), TokenRedemption, Pending, 0, None)
  const BOARD := Machine(true, false, None)
  const READ := Dispatch.Fetched(0, 0, Some(0), TokenRedemption, 0)

  const HEIRS: map<nat, nat> := map[0 := 0, 1 := 1]

  function Accounts(users: set<nat>, pulses: seq<Pulse>, ledger: seq<Entry>): DB {
    DB(users, {}, map[0 := BOARD], [], [], pulses, ledger, [])
  }

  function At(db: DB, dispatching: Dispatching, lost: set<nat>, origins: seq<nat>, heirs: map<nat, nat>): System {
    System(db, 0, map[], dispatching, History([], lost, origins, map[], heirs))
  }

  /** Two users and a machine; user 0 is granted a token and spends it. */
  const S1 := At(EMPTY.(users := {0}), Pass([]), {}, [], map[0 := 0])
  const S2 := At(EMPTY.(users := {0, 1}), Pass([]), {}, [], HEIRS)
  const S3 := At(Accounts({0, 1}, [], []), Pass([]), {}, [], HEIRS)
  const S4 := At(Accounts({0, 1}, [], [GRANT]), Pass([]), {}, [0], HEIRS)
  const S5 := At(Accounts({0, 1}, [QUEUED], [GRANT, DEBIT]), Pass([]), {}, [0, 0], HEIRS)

  /** The pulse fails for good, and before its refund is written its user is merged away. */
  const FAILED := QUEUED.(state := Failed, attempts := 1)
  const S6 := S5.(dispatching := Pass([READ]))
  const S7 := At(Accounts({0, 1}, [FAILED], [GRANT, DEBIT]), Owing(READ, []), {}, [0, 0], HEIRS)
  const S8 := At(Accounts({1}, [FAILED.(user := Some(1))], [GRANT.(user := 1), DEBIT.(user := 1)]), Owing(READ, []), {}, [0, 0],
                 map[0 := 1, 1 := 1])
  const S9 := S8.(dispatching := Pass([]), history := S8.history.(lost := {0}))

  const GRANTING: seq<Step> := [CreateUser(0), CreateUser(1), SetMachine(0, BOARD)]
  const SPENDING: seq<Step> := GRANTING + [Adjust(0, 1, "gift"), Redeem(0, 0), FetchPulses]
  const LOSING: seq<Step> := SPENDING + [Attempt(false, 1, 0, true), Merge(0, 1), WriteRefund(true)]

  lemma Step1() ensures Steps(INITIAL, CreateUser(0), S1) {}
  lemma Step2() ensures Steps(S1, CreateUser(1), S2) {}
  lemma Step3() ensures Steps(S2, SetMachine(0, BOARD), S3) {}
  lemma Step4() ensures Steps(S3, Adjust(0, 1, "gift"), S4) {}

  lemma Step5()
    ensures Steps(S4, Redeem(0, 0), S5)
  {
    Ledger.BalanceAppended([], GRANT, 0);
  }

  lemma Step6()
    ensures Steps(S5, FetchPulses, S6)
  {
    assert Dispatch.Fetch([QUEUED], 0) == [READ];
  }

  lemma Step7()
    ensures Steps(S6, Attempt(false, 1, 0, true), S7)
  {
    assert [READ][1..] == [];
  }

  lemma Step8()
    ensures Steps(S7, Merge(0, 1), S8)
  {
    assert {0, 1} - {0} == {1};
  }

  lemma Step9() ensures Steps(S8, WriteRefund(true), S9) {}

  lemma GrantingReaches() ensures Reaches(GRANTING, S3) {
    Step1(); Step2(); Step3();
    Longer([], INITIAL, CreateUser(0), S1, CreateUser(1), S2, SetMachine(0, BOARD), S3);
    assert [] + GRANTING == GRANTING;
  }

  lemma SpendingReaches() ensures Reaches(SPENDING, S6) {
    GrantingReaches(); Step4(); Step5(); Step6();
    Longer(GRANTING, S3, Adjust(0, 1, "gift"), S4, Redeem(0, 0), S5, FetchPulses, S6);
  }

  lemma LosingReaches() ensures Reaches(LOSING, S9) {
    SpendingReaches(); Step7(); Step8(); Step9();
    Longer(SPENDING, S6, Attempt(false, 1, 0, true), S7, Merge(0, 1), S8, WriteRefund(true), S9);
  }

  /** After this run the token is gone: its pulse failed, it was not refunded, and nobody holds it. */
  lemma MergeLosesRefund()
    ensures Allowed(INITIAL, LOSING)
    ensures
      var s := Exec(INITIAL, LOSING);
      && |s.db.pulses| == 1 && s.db.pulses[0].state == Failed && !Conservation.Refunded(s.db.ledger, 0)
      && s.dispatching == Pass([]) && s.db.users == {1} && Ledger.Balance(s.db.ledger, 1) == 0
  {
    LosingReaches();
    Ledger.BalanceAppended([], GRANT.(user := 1), 1);
    Ledger.BalanceAppended([GRANT.(user := 1)], DEBIT.(user := 1), 1);
    assert [] + [GRANT.(user := 1)] == [GRANT.(user := 1)];
    assert [GRANT.(user := 1)] + [DEBIT.(user := 1)] == S9.db.ledger;
  }

  // --- a deposit credited twice ---

  const OUT := Outpoint("txid", 0)
  const EVENT := Pipeline.Event("D", OUT, 1, 1, 0)
  const POLICY := Pipeline.Policy(1, 0, 1, 0)
  const PLAN := DirectPay.PayUser(PurchaseFlow.Plan(Some(0), 1))
  const CREDIT := Entry(0, 1, Purchase, Some(0), None)
  const FREE := Address("D", AddressState.Pool, TokenDeposit, None, None, None, 0)
  const BOUND := FREE.(state := Assigned, user := Some(0), assignedAt := Some(0))
  const LATE: nat := 121 * Pipeline.SECOND

  function Row(claim: Option<int>, remainder: Option<int>): Deposit {
    Deposit(0, OUT, 1, 1, None, Confirmed, claim, remainder)
  }

  function Paying(clock: nat, calls: map<nat, Call>, row: Deposit, ledger: seq<Entry>, origins: seq<nat>, trace: Trace): System {
    System(DB({0}, {}, map[], [BOUND], [row], [], ledger, []), clock, calls, Pass([]),
           History([trace], {}, origins, map[0 := 0], map[0 := 0]))
  }

  /** A user pays, and the event's call has read what it will write. */
  const T2 := S1.(db := EMPTY.(users := {0}, addresses := [FREE]))
  const T3 := S1.(db := EMPTY.(users := {0}, addresses := [BOUND]), history := History([], {}, [], map[0 := 0], map[0 := 0]))
  const T4 := Paying(0, map[0 := Ready(0, 0)], Row(None, None), [], [], Trace([], 0, false))
  const T5 := Paying(0, map[0 := Claimed(0, 0)], Row(Some(0), None), [], [], Trace([], 0, false))
  const T6 := Paying(0, map[0 := Planned(0, 0, PLAN)], Row(Some(0), None), [], [], Trace([], 0, false))

  const OPENING: seq<Step> := [CreateUser(0), Import(["D"], TokenDeposit), StartPurchase(0)]
  const PLANNING: seq<Step> := OPENING + [Receive(0, EVENT, POLICY), TakeClaim(0), ReadPlan(0, 1, 0)]

  lemma Pay2() ensures Steps(S1, Import(["D"], TokenDeposit), T2) {
    assert AddressBatch.PoolRows(["D"], TokenDeposit) == [FREE];
  }

  lemma Pay3() ensures Steps(T2, StartPurchase(0), T3) {
    assert PurchaseFlow.ActiveFor([FREE], 0).None?;
    assert Pool.Oldest([FREE], TokenDeposit) == Some(0);
  }

  lemma Pay4() ensures Steps(T3, Receive(0, EVENT, POLICY), T4) {
    assert Pool.IdOf([BOUND], "D") == Some(0);
  }

  lemma Pay5() ensures Steps(T4, TakeClaim(0), T5) {}

  lemma Pay6() ensures Steps(T5, ReadPlan(0, 1, 0), T6) {}

  lemma PlanningReaches() ensures Reaches(PLANNING, T6) {
    Step1(); Pay2(); Pay3();
    Longer([], INITIAL, CreateUser(0), S1, Import(["D"], TokenDeposit), T2, StartPurchase(0), T3);
    assert [] + OPENING == OPENING;
    Pay4(); Pay5(); Pay6();
    Longer(OPENING, T3, Receive(0, EVENT, POLICY), T4, TakeClaim(0), T5, ReadPlan(0, 1, 0), T6);
  }

  /** The call commits and dies before its mark; two minutes later the payment is reported again. */
  const T7 := Paying(0, map[0 := Paid(0, 0)], Row(Some(0), Some(0)), [CREDIT], [0], Trace([PLAN], 0, false))
  const T8 := Paying(0, map[], Row(Some(0), Some(0)), [CREDIT], [0], Trace([PLAN], 1, false))
  const T9 := T8.(clock := LATE)
  const T10 := T9.(calls := map[1 := Ready(0, LATE)])
  const T11 := Paying(LATE, map[1 := Claimed(0, LATE)], Row(Some(121), Some(0)), [CREDIT], [0], Trace([PLAN], 1, false))
  const T12 := T11.(calls := map[1 := Planned(0, LATE, PLAN)])
  const T13 := Paying(LATE, map[1 := Paid(0, LATE)], Row(Some(121), Some(0)), [CREDIT, CREDIT], [0, 0], Trace([PLAN, PLAN], 1, false))

  const CRASHING: seq<Step> := PLANNING + [RunHook(0, true), LoseCall(0), Tick(LATE)]
  const AGAIN: seq<Step> := CRASHING + [Receive(1, EVENT, POLICY), TakeClaim(1), ReadPlan(1, 1, 0)]

  lemma HookPaysOnce(ledger: seq<Entry>)
    ensures forall row: Deposit | row.amount == 1 ::
              var db := DB({0}, {}, map[], [BOUND], [row], [], ledger, []);
              DirectPay.CommitHook(db, 0, PLAN)
              == Commit(db.(deposits := [row.(remainder := Some(0))], ledger := ledger + [CREDIT]), ())
    ensures [] + [CREDIT] == [CREDIT] && [CREDIT] + [CREDIT] == [CREDIT, CREDIT]
    ensures [] + [PLAN] == [PLAN] && [PLAN] + [PLAN] == [PLAN, PLAN] && [] + [0] == [0] && [0] + [0] == [0, 0]
  {
    assert GoDiv(1, 1) == 1 && GoMod(1, 1) == 0;
  }

  lemma Pay7() ensures Steps(T6, RunHook(0, true), T7) {
    HookPaysOnce([]);
  }

  lemma Pay8() ensures Steps(T7, LoseCall(0), T8) {}
  lemma Pay9() ensures Steps(T8, Tick(LATE), T9) {}

  lemma Pay10() ensures Steps(T9, Receive(1, EVENT, POLICY), T10) {
    assert Pool.IdOf([BOUND], "D") == Some(0);
  }

  lemma Pay11() ensures Steps(T10, TakeClaim(1), T11) {}
  lemma Pay12() ensures Steps(T11, ReadPlan(1, 1, 0), T12) {}
  lemma Pay13() ensures Steps(T12, RunHook(1, true), T13) {
    HookPaysOnce([CREDIT]);
  }

  lemma AgainReaches() ensures Reaches(AGAIN, T12) {
    PlanningReaches(); Pay7(); Pay8(); Pay9();
    Longer(PLANNING, T6, RunHook(0, true), T7, LoseCall(0), T8, Tick(LATE), T9);
    Pay10(); Pay11(); Pay12();
    Longer(CRASHING, T9, Receive(1, EVENT, POLICY), T10, TakeClaim(1), T11, ReadPlan(1, 1, 0), T12);
  }

  /** One crash between commit and mark, and a deposit worth one token is credited two. */
  lemma CrashCreditsTwice()
    ensures Allowed(INITIAL, AGAIN + [RunHook(1, true)])
    ensures
      var s := Exec(INITIAL, AGAIN + [RunHook(1, true)]);
      && s.db.ledger == [CREDIT, CREDIT] && |s.db.deposits| == 1 && |s.history.traces| == 1
      && |s.history.traces[0].runs| == 2 && s.history.traces[0].faults == 1
  {
    AgainReaches();
    Pay13();
    RunThen(INITIAL, AGAIN, RunHook(1, true));
  }

  /** The call outlives its lease: another takes the claim, and both commit. */
  const U7 := T6.(clock := LATE)
  const U8 := U7.(calls := map[0 := Planned(0, 0, PLAN), 1 := Ready(0, LATE)])
  const U9 := Paying(LATE, map[0 := Planned(0, 0, PLAN), 1 := Claimed(0, LATE)], Row(Some(121), None), [], [], Trace([], 0, false))
  const U10 := U9.(calls := map[0 := Planned(0, 0, PLAN), 1 := Planned(0, LATE, PLAN)])
  const U11 := Paying(LATE, map[0 := Paid(0, 0), 1 := Planned(0, LATE, PLAN)], Row(Some(121), Some(0)), [CREDIT], [0],
                      Trace([PLAN], 0, false))
  const U12 := Paying(LATE, map[0 := Paid(0, 0), 1 := Paid(0, LATE)], Row(Some(121), Some(0)), [CREDIT, CREDIT], [0, 0],
                      Trace([PLAN, PLAN], 0, false))

  const STEALING: seq<Step> := PLANNING + [Tick(LATE), Receive(1, EVENT, POLICY), TakeClaim(1)]
  const LINGERING: seq<Step> := STEALING + [ReadPlan(1, 1, 0), RunHook(0, true), RunHook(1, true)]

  lemma Late7() ensures Steps(T6, Tick(LATE), U7) {}

  lemma Late8() ensures Steps(U7, Receive(1, EVENT, POLICY), U8) {
    assert Pool.IdOf([BOUND], "D") == Some(0);
  }

  lemma Late9() ensures Steps(U8, TakeClaim(1), U9) {}
  lemma Late10() ensures Steps(U9, ReadPlan(1, 1, 0), U10) {}
  lemma Late11() ensures Steps(U10, RunHook(0, true), U11) {
    HookPaysOnce([]);
  }

  lemma Late12() ensures Steps(U11, RunHook(1, true), U12) {
    HookPaysOnce([CREDIT]);
  }

  /** One crediting run of more than two minutes, and no crash: two runs are live, and both credit. */
  lemma SlowRunCreditsTwice()
    ensures Allowed(INITIAL, LINGERING)
    ensures
      var s := Exec(INITIAL, LINGERING);
      && s.db.ledger == [CREDIT, CREDIT] && |s.db.deposits| == 1 && |s.history.traces| == 1
      && |s.history.traces[0].runs| == 2 && s.history.traces[0].faults == 0
      && Lease.LiveOn(s, 0, 0) && Lease.LiveOn(s, 1, 0)
  {
    PlanningReaches(); Late7(); Late8(); Late9();
    Longer(PLANNING, T6, Tick(LATE), U7, Receive(1, EVENT, POLICY), U8, TakeClaim(1), U9);
    Late10(); Late11(); Late12();
    Longer(STEALING, U9, ReadPlan(1, 1, 0), U10, RunHook(0, true), U11, RunHook(1, true), U12);
  }
}
