/**
 The claim on a deposit is a lease: as long as every crediting run is over within two minutes
 of its time stamp, no two runs of one deposit are ever live together, whatever calls arrive,
 crash or fail. Every committed run is accounted for: it led to the mark, or was cut off from it.
 */
module Lease {
  import opened Tables
  import opened Economy
  import References
  import Pipeline
  import Pool

  /** A live run of the deposit that is over within the lease. */
  ghost predicate Timely(s: System) {
    forall c | c in s.calls && Live(s.calls[c]) :: s.clock < s.calls[c].start + Pipeline.STALE_AFTER * Pipeline.SECOND
  }

  /** One consumer: a call starts only when the one before is over or lost. */
  ghost predicate Single(s: System) {
    forall c, c' | c in s.calls && c' in s.calls :: c == c'
  }

  ghost predicate LiveOn(s: System, c: nat, d: nat) {
    c in s.calls && Live(s.calls[c]) && s.calls[c].deposit == d
  }

  ghost predicate PaidOn(s: System, d: nat) {
    exists c :: LiveOn(s, c, d) && s.calls[c].Paid?
  }

  ghost predicate Exclusive(s: System) {
    forall c, c', d | LiveOn(s, c, d) && LiveOn(s, c', d) :: c == c'
  }

  /** Committed runs = runs cut off from their mark + the mark + a run on its way to the mark. */
  ghost predicate Accounted(s: System, d: nat)
    requires d < |s.history.traces|
  {
    var t := s.history.traces[d];
    |t.runs| == t.faults + (if t.marked then 1 else 0) + (if PaidOn(s, d) then 1 else 0)
  }

  ghost predicate CallSound(s: System, c: nat)
    requires Refs(s) && c in s.calls
  {
    var call := s.calls[c];
    var row := s.db.deposits[call.deposit];
    && (call.Ready? ==> row.state != Seen && call.start <= s.clock)
    && (Live(call) ==> row.state != Seen && call.start <= s.clock && row.claimedAt == Some(Pipeline.Stamp(call.start))
                       && !s.history.traces[call.deposit].marked)
  }

  ghost predicate DepositSound(s: System, d: nat)
    requires Refs(s) && d < |s.db.deposits|
  {
    var state, t := s.db.deposits[d].state, s.history.traces[d];
    && (t.marked ==> state == Credited || state == Orphaned)
    && (state == Credited ==> t.marked)
    && (state == Seen ==> t == Trace([], 0, false))
    && Accounted(s, d)
  }

  ghost predicate Inv(s: System) {
    && Refs(s) && Exclusive(s)
    && (forall c | c in s.calls :: CallSound(s, c))
    && (forall d: nat | d < |s.db.deposits| :: DepositSound(s, d))
  }

  /** When a claim can be taken from under a live run: in whole seconds, more than two minutes after its stamp. */
  lemma StolenExactly(s: System, c: nat)
    requires Inv(s) && c in s.calls && Live(s.calls[c])
    requires s.db.deposits[s.calls[c].deposit].state == Confirmed
    ensures Pipeline.Claimable(s.db.deposits[s.calls[c].deposit], s.clock)
       <==> s.clock / 1_000_000_000 > s.calls[c].start / 1_000_000_000 + 120
    ensures Pipeline.Claimable(s.db.deposits[s.calls[c].deposit], s.clock)
        ==> s.clock > s.calls[c].start + 120_000_000_000
  {
    assert CallSound(s, c);
  }

  /** Steps that touch neither calls nor what the lease reads of deposits. */
  lemma Frame(s: System, t: System)
    requires Inv(s) && Refs(t)
    requires t.calls == s.calls && t.history.traces == s.history.traces && t.clock >= s.clock
    requires t.db.deposits == s.db.deposits
    ensures Inv(t)
  {
    assert forall c, d :: LiveOn(t, c, d) <==> LiveOn(s, c, d);
    assert forall c | c in t.calls :: CallSound(s, c);
    forall d: nat | d < |t.db.deposits|
      ensures DepositSound(t, d)
    {
      assert DepositSound(s, d);
    }
  }

  /** A call that moves on, with its deposit, and nothing else. */
  lemma Moved(s: System, t: System, c: nat)
    requires Inv(s) && Refs(t) && c in s.calls
    requires t.clock == s.clock && |t.db.deposits| == |s.db.deposits|
    requires t.calls.Keys <= s.calls.Keys
    requires forall k | k in s.calls && k != c :: k in t.calls && t.calls[k] == s.calls[k]
    requires c in t.calls ==> t.calls[c].deposit == s.calls[c].deposit && CallSound(t, c)
    requires forall d: nat | d < |s.db.deposits| && d != s.calls[c].deposit ::
               t.db.deposits[d] == s.db.deposits[d] && t.history.traces[d] == s.history.traces[d]
    requires forall k | k in s.calls && k != c && s.calls[k].deposit == s.calls[c].deposit :: CallSound(t, k)
    requires c in t.calls && Live(t.calls[c]) ==>
               forall k | k in s.calls && k != c :: !LiveOn(s, k, s.calls[c].deposit)
    requires DepositSound(t, s.calls[c].deposit)
    ensures Inv(t)
  {
    var id := s.calls[c].deposit;
    forall k | k in t.calls
      ensures CallSound(t, k)
    {
      if k != c && s.calls[k].deposit != id {
        assert CallSound(s, k);
      }
    }
    forall d: nat | d < |t.db.deposits|
      ensures DepositSound(t, d)
    {
      if d != id {
        assert DepositSound(s, d);
        assert PaidOn(t, d) <==> PaidOn(s, d) by {
          assert forall k :: LiveOn(t, k, d) <==> LiveOn(s, k, d);
        }
      }
    }
    forall k, k', d | LiveOn(t, k, d) && LiveOn(t, k', d)
      ensures k == k'
    {
      if k != c { assert LiveOn(s, k, d); }
      if k' != c { assert LiveOn(s, k', d); }
    }
  }

  lemma ClaimKeeps(s: System, c: nat)
    requires Inv(s) && c in s.calls && s.calls[c].Ready? && (Timely(s) || Single(s))
    ensures Inv(ApplyClaim(s, c))
  {
    var t := ApplyClaim(s, c);
    References.RefsAfterClaim(s, c);
    var id := s.calls[c].deposit;
    assert CallSound(s, c) && DepositSound(s, id);
    forall k | k in s.calls && k != c && s.calls[k].deposit == id
      ensures CallSound(t, k) && (t.db != s.db ==> !Live(s.calls[k]))
    {
      assert CallSound(s, k);
      if Live(s.calls[k]) {
        assert Timely(s);
      }
    }
    assert PaidOn(t, id) <==> PaidOn(s, id) by {
      assert forall k | k != c :: LiveOn(t, k, id) <==> LiveOn(s, k, id);
    }
    Moved(s, t, c);
  }

  lemma PlanKeeps(s: System, c: nat, tokenPrice: int, cap: int)
    requires Inv(s) && c in s.calls && s.calls[c].Claimed?
    ensures Inv(ApplyPlan(s, c, tokenPrice, cap))
  {
    var t := ApplyPlan(s, c, tokenPrice, cap);
    References.RefsAfterPlan(s, c, tokenPrice, cap);
    OthersStay(s, t, c);
    AloneStays(s, t, c);
    NotPaid(s, c);
    NotPaid(t, c);
    Moved(s, t, c);
  }

  /** Calls that are not c see the same row and trace. */
  lemma OthersStay(s: System, t: System, c: nat)
    requires Inv(s) && Refs(t) && c in s.calls && t.db.deposits == s.db.deposits && t.clock == s.clock
    requires forall d | 0 <= d < |s.history.traces| :: t.history.traces[d].marked == s.history.traces[d].marked
    requires forall k | k in s.calls && k != c :: k in t.calls && t.calls[k] == s.calls[k]
    ensures forall k | k in s.calls && k != c :: CallSound(t, k)
    ensures CallSound(s, c) && DepositSound(s, s.calls[c].deposit)
  {
    forall k | k in s.calls && k != c
      ensures CallSound(t, k)
    {
      assert CallSound(s, k);
    }
  }

  /** A live call that is not Paid excludes a Paid one. */
  lemma NotPaid(s: System, c: nat)
    requires c in s.calls && Live(s.calls[c]) && !s.calls[c].Paid?
    requires forall k | LiveOn(s, k, s.calls[c].deposit) :: k == c
    ensures !PaidOn(s, s.calls[c].deposit)
  {
  }

  /** A live call stays the only one on its deposit when no other call moves. */
  lemma AloneStays(s: System, t: System, c: nat)
    requires Exclusive(s) && c in s.calls && Live(s.calls[c])
    requires forall k | k != c && k in t.calls :: k in s.calls && t.calls[k] == s.calls[k]
    ensures forall k | LiveOn(s, k, s.calls[c].deposit) :: k == c
    ensures forall k | LiveOn(t, k, s.calls[c].deposit) :: k == c
  {
    var id := s.calls[c].deposit;
    assert LiveOn(s, c, id);
    forall k | LiveOn(t, k, id)
      ensures k == c
    {
      if k != c {
        assert LiveOn(s, k, id);
      }
    }
  }

  lemma HookKeeps(s: System, c: nat, written: bool)
    requires Inv(s) && c in s.calls && s.calls[c].Planned?
    ensures Inv(ApplyHook(s, c, written))
  {
    var t := ApplyHook(s, c, written);
    References.RefsKeptByHook(s, c, written);
    var Planned(id, start, plan) := s.calls[c];
    References.HookFrame(s.db, id, plan);
    forall k | k in s.calls
      ensures CallSound(s, k)
    {
    }
    assert DepositSound(s, id);
    AloneStays(s, t, c);
    NotPaid(s, c);
    if t.calls[c].Paid? {
      assert LiveOn(t, c, id) && PaidOn(t, id);
    } else {
      NotPaid(t, c);
    }
    Moved(s, t, c);
  }

  /** The end of a live call: the other calls on its deposit are not live. */
  lemma OthersIdle(s: System, t: System, c: nat)
    requires Inv(s) && Refs(t) && c in s.calls && Live(s.calls[c])
    requires t.calls == s.calls - {c} && t.clock == s.clock && |t.db.deposits| == |s.db.deposits|
    requires t.db.deposits[s.calls[c].deposit].state != Seen
    ensures forall k | k in s.calls && k != c && s.calls[k].deposit == s.calls[c].deposit :: CallSound(t, k)
    ensures CallSound(s, c) && DepositSound(s, s.calls[c].deposit)
    ensures !PaidOn(t, s.calls[c].deposit)
    ensures PaidOn(s, s.calls[c].deposit) <==> s.calls[c].Paid?
  {
    var id := s.calls[c].deposit;
    AloneStays(s, t, c);
    assert LiveOn(s, c, id);
    forall k | k in s.calls && k != c && s.calls[k].deposit == id
      ensures CallSound(t, k)
    {
      assert CallSound(s, k);
      assert !LiveOn(s, k, id);
    }
  }

  lemma MarkKeeps(s: System, c: nat)
    requires Inv(s) && c in s.calls && s.calls[c].Paid?
    ensures Inv(ApplyMark(s, c))
  {
    var t := ApplyMark(s, c);
    References.RefsAfterMark(s, c);
    OthersIdle(s, t, c);
    Moved(s, t, c);
  }

  lemma UnclaimKeeps(s: System, c: nat)
    requires Inv(s) && c in s.calls && s.calls[c].Refused?
    ensures Inv(Apply(s, Unclaim(c)))
  {
    var t := Apply(s, Unclaim(c));
    References.RefsKept(s, Unclaim(c));
    assert CallSound(s, c);
    OthersIdle(s, t, c);
    Moved(s, t, c);
  }

  lemma LoseKeeps(s: System, c: nat)
    requires Inv(s) && c in s.calls
    ensures Inv(ApplyLose(s, c))
  {
    var t := ApplyLose(s, c);
    References.RefsAfterLose(s, c);
    if Live(s.calls[c]) {
      assert CallSound(s, c);
      OthersIdle(s, t, c);
      Moved(s, t, c);
    } else {
      BystanderKeeps(s, t, c);
    }
  }

  lemma ReorgKeeps(s: System, c: nat)
    requires Inv(s) && c in s.calls && s.calls[c].Reorging?
    ensures Inv(ApplyWriteReorg(s, c))
  {
    var t := ApplyWriteReorg(s, c);
    References.RefsAfterWriteReorg(s, c);
    if s.calls[c].found == Credited {
      BystanderKeeps(s, t, c);
    } else {
      OrphanKeeps(s, t, c);
    }
  }

  lemma OrphanKeeps(s: System, t: System, c: nat)
    requires Inv(s) && Refs(t) && c in s.calls && s.calls[c].Reorging?
    requires t == Return(s.(db := Pipeline.SetState(s.db, s.calls[c].deposit, Orphaned)), c)
    ensures Inv(t)
  {
    var id := s.calls[c].deposit;
    forall k | k in s.calls && k != c && s.calls[k].deposit == id
      ensures CallSound(t, k)
    {
      assert CallSound(s, k);
    }
    assert DepositSound(s, id);
    assert PaidOn(t, id) <==> PaidOn(s, id) by {
      assert forall k :: LiveOn(t, k, id) <==> LiveOn(s, k, id);
    }
    Moved(s, t, c);
  }

  /** Calls that begin or end without being live. */
  lemma BystanderKeeps(s: System, t: System, c: nat)
    requires Inv(s) && Refs(t) && t.clock == s.clock && t.history.traces == s.history.traces
    requires t.db.deposits == s.db.deposits
    requires forall k | k != c :: (k in t.calls <==> k in s.calls) && (k in s.calls ==> t.calls[k] == s.calls[k])
    requires c in s.calls ==> !Live(s.calls[c])
    requires c in t.calls ==> !Live(t.calls[c]) && !t.calls[c].Ready?
    ensures Inv(t)
  {
    assert forall k, d :: LiveOn(t, k, d) <==> LiveOn(s, k, d);
    forall k | k in t.calls
      ensures CallSound(t, k)
    {
      if k != c { assert CallSound(s, k); }
    }
    forall d: nat | d < |t.db.deposits|
      ensures DepositSound(t, d)
    {
      assert DepositSound(s, d);
      assert PaidOn(t, d) <==> PaidOn(s, d);
    }
  }

  /** What an event does to deposits and calls, as far as the lease is concerned. */
  ghost predicate Received(s: System, t: System, c: nat)
    requires Refs(s) && Refs(t)
  {
    && t.clock == s.clock && |s.db.deposits| <= |t.db.deposits|
    && (forall k | k != c :: (k in t.calls <==> k in s.calls) && (k in s.calls ==> t.calls[k] == s.calls[k]))
    && (c in t.calls ==> t.calls[c].Ready? && t.calls[c].start == s.clock
                         && t.db.deposits[t.calls[c].deposit].state == Confirmed)
    && (forall d | 0 <= d < |s.db.deposits| ::
          && t.history.traces[d] == s.history.traces[d] && t.db.deposits[d].claimedAt == s.db.deposits[d].claimedAt
          && (t.db.deposits[d].state == s.db.deposits[d].state
              || (s.db.deposits[d].state == Seen && t.db.deposits[d].state == Confirmed)))
    && (forall d | |s.db.deposits| <= d < |t.db.deposits| ::
          t.history.traces[d] == Trace([], 0, false)
          && (t.db.deposits[d].state == Seen || t.db.deposits[d].state == Confirmed))
  }

  lemma ReceiveFacts(s: System, c: nat, event: Pipeline.Event, policy: Pipeline.Policy)
    requires Refs(s) && c !in s.calls
    ensures Refs(ApplyReceive(s, c, event, policy))
    ensures Received(s, ApplyReceive(s, c, event, policy), c)
  {
    References.RefsKeptByReceive(s, c, event, policy);
    var addressId := Pool.IdOf(s.db.addresses, event.address);
    if addressId.Some? {
      References.UpsertFrame(s.db, addressId.value, event, policy);
    }
  }

  lemma ReceiveKeeps(s: System, t: System, c: nat)
    requires Inv(s) && c !in s.calls && Refs(t) && Received(s, t, c)
    ensures Inv(t)
  {
    assert forall k, d :: LiveOn(t, k, d) <==> LiveOn(s, k, d);
    forall k | k in t.calls
      ensures CallSound(t, k)
    {
      if k != c { assert CallSound(s, k); }
    }
    forall d: nat | d < |t.db.deposits|
      ensures DepositSound(t, d)
    {
      if d < |s.db.deposits| {
        ReceivedDeposit(s, t, d);
      } else {
        assert forall k | k in s.calls :: s.calls[k].deposit < |s.db.deposits|;
        assert !PaidOn(t, d);
      }
    }
  }

  lemma ReceivedDeposit(s: System, t: System, d: nat)
    requires Inv(s) && Refs(t) && d < |s.db.deposits| <= |t.db.deposits|
    requires t.history.traces[d] == s.history.traces[d]
    requires t.db.deposits[d].state == s.db.deposits[d].state
             || (s.db.deposits[d].state == Seen && t.db.deposits[d].state == Confirmed)
    requires forall k :: LiveOn(t, k, d) && t.calls[k].Paid? <==> LiveOn(s, k, d) && s.calls[k].Paid?
    ensures DepositSound(t, d)
  {
    assert DepositSound(s, d);
    assert PaidOn(t, d) <==> PaidOn(s, d);
  }

  lemma InvKept(s: System, step: Step)
    requires Inv(s) && Enabled(s, step) && (Timely(s) || Single(s))
    ensures Inv(Apply(s, step))
  {
    if !CallStep(step) {
      RestKeeps(s, step);
    } else if References.CreditStep(step) {
      CreditKeeps(s, step);
    } else if step.Receive? {
      ReceiveFacts(s, step.call, step.event, step.policy);
      ReceiveKeeps(s, Apply(s, step), step.call);
    } else if step.WriteReorg? {
      ReorgKeeps(s, step.call);
    } else {
      References.RefsKept(s, step);
      BystanderKeeps(s, Apply(s, step), step.call);
    }
  }

  lemma CreditKeeps(s: System, step: Step)
    requires Inv(s) && Enabled(s, step) && References.CreditStep(step) && (Timely(s) || Single(s))
    ensures Inv(Apply(s, step))
  {
    match step
    case TakeClaim(c) => ClaimKeeps(s, c);
    case ReadPlan(c, tokenPrice, cap) => PlanKeeps(s, c, tokenPrice, cap);
    case RunHook(c, written) => HookKeeps(s, c, written);
    case Mark(c) => MarkKeeps(s, c);
    case Unclaim(c) => UnclaimKeeps(s, c);
    case LoseCall(c) => LoseKeeps(s, c);
  }

  predicate CallStep(step: Step) {
    References.CreditStep(step) || step.Receive? || step.ReadReorg? || step.WriteReorg? || step.WriteAlert?
  }

  lemma RestKeeps(s: System, step: Step)
    requires Inv(s) && Enabled(s, step) && !CallStep(step)
    ensures Inv(Apply(s, step))
  {
    References.RefsKept(s, step);
    if References.AddressStep(step) {
      References.AddressFrame(s, step);
    } else if References.DispatchStep(step) {
      References.DispatchFrame(s, step);
    }
    Frame(s, Apply(s, step));
  }

  /** In every state of the run, live runs are within their lease, or there is one call at most. */
  ghost predicate LeasedRun(s: System, steps: seq<Step>)
    requires Allowed(s, steps)
    decreases |steps|
  {
    (Timely(s) || Single(s)) && (steps == [] || LeasedRun(Apply(s, steps[0]), steps[1..]))
  }

  lemma InitialInv()
    ensures Inv(INITIAL)
  {
  }

  lemma {:induction false} InvAlways(s: System, steps: seq<Step>)
    requires Inv(s) && Allowed(s, steps) && LeasedRun(s, steps)
    ensures Inv(Exec(s, steps))
    decreases |steps|
  {
    if steps != [] {
      InvKept(s, steps[0]);
      InvAlways(Apply(s, steps[0]), steps[1..]);
    }
  }

  /**
   With any number of concurrent callers, crashes and reorgs, if every crediting run ends
   within two minutes of its stamp or is alone: at most one run of a deposit is live, and its
   committed runs are those that were cut off between commit and mark, the one that was
   marked, and the one on its way to the mark, of which the last two exclude each other.
   */
  lemma {:induction false} LeaseExcludes(steps: seq<Step>)
    requires Allowed(INITIAL, steps) && LeasedRun(INITIAL, steps)
    ensures
      var s := Exec(INITIAL, steps);
      && (forall c, c', d | LiveOn(s, c, d) && LiveOn(s, c', d) :: c == c')
      && |s.history.traces| == |s.db.deposits|
      && (forall d: nat | d < |s.db.deposits| ::
            && var t := s.history.traces[d];
               |t.runs| == t.faults + (if t.marked then 1 else 0) + (if PaidOn(s, d) then 1 else 0) <= t.faults + 1)
  {
    InitialInv();
    InvAlways(INITIAL, steps);
    var s := Exec(INITIAL, steps);
    forall d: nat | d < |s.db.deposits|
      ensures Accounted(s, d) && |s.history.traces[d].runs| <= s.history.traces[d].faults + 1
    {
      assert DepositSound(s, d);
      if PaidOn(s, d) {
        var c :| LiveOn(s, c, d) && s.calls[c].Paid?;
        assert CallSound(s, c);
      }
    }
  }
}
