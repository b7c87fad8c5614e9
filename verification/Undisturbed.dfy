/**
 The methods, statement by statement, are runs of the state machine: when no other step comes
 between its statements, a call has the effect of the function that specifies the method.
 */
module Undisturbed {
  import opened Tables
  import opened Economy
  import DirectPay
  import Dispatch
  import Ledger
  import Pipeline
  import References

  ghost predicate RunsTo(s: System, steps: seq<Step>, t: System) {
    Allowed(s, steps) && Exec(s, steps) == t
  }

  lemma {:induction false} AndThen(s: System, first: seq<Step>, t: System, step: Step)
    requires RunsTo(s, first, t) && Refs(t) && Enabled(t, step)
    ensures RunsTo(s, first + [step], Apply(t, step))
    decreases |first|
  {
    if first == [] {
      assert first + [step] == [step] && [step][1..] == [];
    } else {
      assert (first + [step])[1..] == first[1..] + [step];
      AndThen(Apply(s, first[0]), first[1..], t, step);
    }
  }

  /** The steps of a call that returns, and does not die: with these tables, these calls left, and an error if it released its claim. */
  ghost predicate Returns(s: System, c: nat, steps: seq<Step>, calls: map<nat, Call>, db: DB, failed: bool) {
    && Allowed(s, steps) && Exec(s, steps).calls == calls && Exec(s, steps).db == db
    && (failed <==> Unclaim(c) in steps) && LoseCall(c) !in steps
  }

  /** The last statement: the mark of a paid deposit, or the release of its claim. */
  lemma EndOfRun(s: System, first: seq<Step>, t: System, c: nat)
      returns (steps: seq<Step>)
    requires RunsTo(s, first, t) && Refs(t) && c in t.calls && (t.calls[c].Paid? || t.calls[c].Refused?)
    requires Unclaim(c) !in first && LoseCall(c) !in first
    ensures
      var id := t.calls[c].deposit;
      var db := if t.calls[c].Paid? then Pipeline.SetState(t.db, id, Credited) else Pipeline.SetClaim(t.db, id, None);
      Returns(s, c, steps, t.calls - {c}, db, t.calls[c].Refused?)
  {
    var last := if t.calls[c].Paid? then Mark(c) else Unclaim(c);
    AndThen(s, first, t, last);
    steps := first + [last];
  }

  ghost function Settled(t: System, c: nat): DB
    requires Refs(t) && c in t.calls && t.calls[c].Planned?
  {
    var id := t.calls[c].deposit;
    var tx := DirectPay.CommitHook(t.db, id, t.calls[c].plan);
    if tx.Commit? then Pipeline.SetState(tx.db, id, Credited) else Pipeline.SetClaim(t.db, id, None)
  }

  lemma Finish(s: System, first: seq<Step>, t: System, c: nat)
      returns (steps: seq<Step>)
    requires RunsTo(s, first, t) && Refs(t) && c in t.calls && t.calls[c].Planned?
    requires Unclaim(c) !in first && LoseCall(c) !in first
    ensures Returns(s, c, steps, t.calls - {c}, Settled(t, c),
                      DirectPay.CommitHook(t.db, t.calls[c].deposit, t.calls[c].plan).Rollback?)
  {
    var hook := RunHook(c, true);
    AndThen(s, first, t, hook);
    References.RefsKeptByHook(t, c, true);
    HookMoves(t, c);
    steps := EndOfRun(s, first + [hook], ApplyHook(t, c, true), c);
  }

  lemma HookMoves(t: System, c: nat)
    requires Refs(t) && c in t.calls && t.calls[c].Planned?
    ensures
      var u := ApplyHook(t, c, true);
      var tx := DirectPay.CommitHook(t.db, t.calls[c].deposit, t.calls[c].plan);
      && u.calls - {c} == t.calls - {c} && c in u.calls && u.calls[c].deposit == t.calls[c].deposit
      && u.db == After(tx, t.db)
      && (tx.Commit? ==> u.calls[c].Paid?) && (tx.Rollback? ==> u.calls[c].Refused?)
  {
  }

  /** From a held claim to the return: the plan, then the commit and the mark, or the release. */
  lemma RestOfRun(s: System, first: seq<Step>, t: System, c: nat, policy: Pipeline.Policy)
      returns (steps: seq<Step>)
    requires RunsTo(s, first, t) && Refs(t) && c in t.calls && t.calls[c].Claimed?
    requires Unclaim(c) !in first && LoseCall(c) !in first
    ensures
      var id := t.calls[c].deposit;
      var tx := DirectPay.RunHook(t.db, id, policy.tokenPrice, policy.directPayCap);
      var db := if tx.Commit? then Pipeline.SetState(tx.db, id, Credited) else Pipeline.SetClaim(t.db, id, None);
      Returns(s, c, steps, t.calls - {c}, db, tx.Rollback?)
  {
    var plan := ReadPlan(c, policy.tokenPrice, policy.directPayCap);
    AndThen(s, first, t, plan);
    References.RefsAfterPlan(t, c, policy.tokenPrice, policy.directPayCap);
    var t1, run1 := ApplyPlan(t, c, policy.tokenPrice, policy.directPayCap), first + [plan];
    assert t1.calls - {c} == t.calls - {c};
    if t1.calls[c].Planned? {
      steps := Finish(s, run1, t1, c);
    } else {
      steps := EndOfRun(s, run1, t1, c);
    }
  }

  lemma FromReady(s: System, first: seq<Step>, t: System, c: nat, policy: Pipeline.Policy)
      returns (steps: seq<Step>)
    requires RunsTo(s, first, t) && Refs(t) && c in t.calls && t.calls[c].Ready? && t.calls[c].start == t.clock
    requires Unclaim(c) !in first && LoseCall(c) !in first
    ensures
      var done := Pipeline.CreditConfirmed(t.db, t.calls[c].deposit, policy, t.clock, t.clock);
      Returns(s, c, steps, t.calls - {c}, done.0, done.1.Err?)
  {
    var id := t.calls[c].deposit;
    AndThen(s, first, t, TakeClaim(c));
    References.RefsAfterClaim(t, c);
    var u := ApplyClaim(t, c);
    if Pipeline.Claimable(t.db.deposits[id], t.clock) {
      assert u.calls - {c} == t.calls - {c};
      steps := RestOfRun(s, first + [TakeClaim(c)], u, c, policy);
    } else {
      steps := first + [TakeClaim(c)];
    }
  }

  lemma AfterReceive(s: System, c: nat, event: Pipeline.Event, policy: Pipeline.Policy)
    requires c !in s.calls
    ensures
      var t := ApplyReceive(s, c, event, policy);
      var done := Pipeline.Handle(s.db, event, policy, s.clock, s.clock);
      && t.calls - {c} == s.calls && t.clock == s.clock
      && (c !in t.calls ==> done == (t.db, Ok(())))
      && (c in t.calls ==>
            var id := t.calls[c].deposit;
            && t.calls[c] == Ready(id, s.clock) && id < |t.db.deposits|
            && done == Pipeline.CreditConfirmed(t.db, id, policy, s.clock, s.clock))
  {
  }

  /** An undisturbed HandleEvent is a run of the machine, and fails exactly when the run releases its claim. */
  lemma HandleIsARun(s: System, c: nat, event: Pipeline.Event, policy: Pipeline.Policy)
      returns (steps: seq<Step>)
    requires Refs(s) && c !in s.calls
    ensures
      var done := Pipeline.Handle(s.db, event, policy, s.clock, s.clock);
      Returns(s, c, steps, s.calls, done.0, done.1.Err?)
  {
    var receive := Receive(c, event, policy);
    AndThen(s, [], s, receive);
    assert [] + [receive] == [receive];
    AfterReceive(s, c, event, policy);
    References.RefsKeptByReceive(s, c, event, policy);
    var t := ApplyReceive(s, c, event, policy);
    if c in t.calls {
      steps := FromReady(s, [receive], t, c, policy);
    } else {
      assert t.calls == t.calls - {c};
      steps := [receive];
    }
  }

  /** So is an undisturbed HandleReorg, which cannot fail but on a statement of its own. */
  lemma ReorgIsARun(s: System, c: nat, outpoint: Outpoint)
      returns (steps: seq<Step>)
    requires Refs(s) && c !in s.calls
    ensures Returns(s, c, steps, s.calls, Pipeline.Reorg(s.db, outpoint), false)
  {
    var read := ReadReorg(c, outpoint);
    AndThen(s, [], s, read);
    assert [] + [read] == [read];
    References.RefsAfterReadReorg(s, c, outpoint);
    var t := ApplyReadReorg(s, c, outpoint);
    if t == s {
      steps := [read];
    } else {
      assert t.calls - {c} == s.calls && t.db == s.db;
      steps := WriteIsARun(s, [read], t, c);
    }
  }

  lemma WriteIsARun(s: System, first: seq<Step>, t: System, c: nat)
      returns (steps: seq<Step>)
    requires RunsTo(s, first, t) && Refs(t) && c in t.calls && t.calls[c].Reorging? && Unclaim(c) !in first && LoseCall(c) !in first
    ensures
      var Reorging(id, txid, found) := t.calls[c];
      var db := if found != Credited then Pipeline.SetState(t.db, id, Orphaned)
                else t.db.(alerts := Pipeline.ReorgAlerted(t.db.alerts, id, txid));
      Returns(s, c, steps, t.calls - {c}, db, false)
  {
    AndThen(s, first, t, WriteReorg(c));
    References.RefsAfterWriteReorg(t, c);
    var u := ApplyWriteReorg(t, c);
    if c in u.calls {
      AndThen(s, first + [WriteReorg(c)], u, WriteAlert(c));
      assert u.calls - {c} == t.calls - {c};
      steps := first + [WriteReorg(c)] + [WriteAlert(c)];
    } else {
      steps := first + [WriteReorg(c)];
    }
  }

  /** The dispatcher has settled its next pulse: these tables, and the rest of the pass. */
  ghost predicate Settles(s: System, steps: seq<Step>, db: DB) {
    && s.dispatching.Pass? && s.dispatching.todo != []
    && Allowed(s, steps) && Exec(s, steps).db == db && Exec(s, steps).dispatching == Pass(s.dispatching.todo[1..])
  }

  /** An attempt with this reply, and then only the refund that is owed and an alert. */
  predicate Bookkeeping(steps: seq<Step>, reply: Dispatch.Reply, limit: int) {
    && steps != [] && steps[0].Attempt? && steps[0].ok == reply.ok && steps[0].limit == limit && steps[0].written
    && forall i | 1 <= i < |steps| :: steps[i] == WriteRefund(true) || steps[i].Raise?
  }

  lemma ThenAttempt(s: System, ok: bool, limit: int, next: int)
    requires Refs(s) && s.dispatching.Pass? && s.dispatching.todo != []
    ensures
      var t := ApplyAttempt(s, ok, limit, next, true);
      RunsTo(s, [Attempt(ok, limit, next, true)], t) && Refs(t)
  {
    var attempt := Attempt(ok, limit, next, true);
    AndThen(s, [], s, attempt);
    assert [] + [attempt] == [attempt];
    References.RefsKept(s, attempt);
  }

  /** And so is the bookkeeping of one attempt at the next pulse of a pass, with the board's own reply. */
  lemma PulseIsARun(s: System, reply: Dispatch.Reply, limit: int, end: nat, huge: int)
      returns (steps: seq<Step>)
    requires Refs(s) && s.dispatching.Pass? && s.dispatching.todo != []
    ensures Settles(s, steps, Dispatch.Settle(s.db, s.dispatching.todo[0], reply, limit, end, huge))
    ensures Bookkeeping(steps, reply, limit)
  {
    var f := s.dispatching.todo[0];
    var next := Dispatch.RetryAt(end, f.attempts + 1, huge);
    ThenAttempt(s, reply.ok, limit, next);
    var first := [Attempt(reply.ok, limit, next, true)];
    if reply.ok || f.attempts + 1 < limit {
      steps := first;
    } else {
      steps := FailureIsARun(s, first, ApplyAttempt(s, reply.ok, limit, next, true), f, reply.message);
      assert steps[0] == first[0];
    }
  }

  /** The steps go on with refunds and alerts only. */
  predicate Continues(first: seq<Step>, steps: seq<Step>) {
    first <= steps && forall i | |first| <= i < |steps| :: steps[i] == WriteRefund(true) || steps[i].Raise?
  }

  lemma FailureIsARun(s: System, first: seq<Step>, t: System, f: Dispatch.Fetched, message: string)
      returns (steps: seq<Step>)
    requires s.dispatching.Pass? && s.dispatching.todo != []
    requires RunsTo(s, first, t) && Refs(t)
    requires t.dispatching == if Dispatch.Refundable(f) then Owing(f, s.dispatching.todo[1..]) else Pass(s.dispatching.todo[1..])
    ensures Settles(s, steps, Refunded(t.db, f, message)) && Continues(first, steps)
  {
    if Dispatch.Refundable(f) {
      steps := RefundIsARun(s, first, t, f, message);
    } else {
      steps := AlertIsARun(s, first, t, message);
    }
  }

  /** What follows the mark of a failed pulse. */
  function Refunded(db: DB, f: Dispatch.Fetched, message: string): DB {
    if !Dispatch.Refundable(f) then Dispatch.Alerted(db, message)
    else
      match Ledger.RefundPulse(db, f.user.value, f.id)
      case Commit(refunded, _) => Dispatch.Alerted(refunded, message)
      case Rollback(_) => db
  }

  /** An owed refund, and the alert unless the refund is refused. */
  lemma RefundIsARun(s: System, first: seq<Step>, t: System, f: Dispatch.Fetched, message: string)
      returns (steps: seq<Step>)
    requires s.dispatching.Pass? && s.dispatching.todo != [] && Dispatch.Refundable(f)
    requires RunsTo(s, first, t) && Refs(t) && t.dispatching == Owing(f, s.dispatching.todo[1..])
    ensures Settles(s, steps, Refunded(t.db, f, message)) && Continues(first, steps)
  {
    var u := ApplyRefund(t, true);
    ThenRefund(s, first, t);
    RefundMoves(t, f, s.dispatching.todo[1..]);
    steps := first + [WriteRefund(true)];
    if Ledger.RefundPulse(t.db, f.user.value, f.id).Commit? {
      steps := AlertIsARun(s, steps, u, message);
    }
  }

  lemma ThenRefund(s: System, first: seq<Step>, t: System)
    requires RunsTo(s, first, t) && Refs(t) && t.dispatching.Owing?
    ensures RunsTo(s, first + [WriteRefund(true)], ApplyRefund(t, true)) && Refs(ApplyRefund(t, true))
  {
    AndThen(s, first, t, WriteRefund(true));
    References.RefsAfterRefund(t, true);
  }

  lemma RefundMoves(t: System, f: Dispatch.Fetched, rest: seq<Dispatch.Fetched>)
    requires t.dispatching == Owing(f, rest) && f.user.Some?
    ensures
      var u := ApplyRefund(t, true);
      u.dispatching == Pass(rest) && u.db == After(Ledger.RefundPulse(t.db, f.user.value, f.id), t.db)
  {
  }

  lemma AlertIsARun(s: System, first: seq<Step>, t: System, message: string) returns (steps: seq<Step>)
    requires s.dispatching.Pass? && s.dispatching.todo != []
    requires RunsTo(s, first, t) && Refs(t) && t.dispatching == Pass(s.dispatching.todo[1..])
    ensures Settles(s, steps, Dispatch.Alerted(t.db, message)) && Continues(first, steps)
  {
    AlertKindsDiffer();
    AndThen(s, first, t, Raise(Dispatch.RELAY_ALERT, message));
    steps := first + [Raise(Dispatch.RELAY_ALERT, message)];
  }

  lemma AlertKindsDiffer()
    ensures Dispatch.RELAY_ALERT != Pipeline.REORG_ALERT
  {
    assert |Dispatch.RELAY_ALERT| != |Pipeline.REORG_ALERT|;
  }
}
