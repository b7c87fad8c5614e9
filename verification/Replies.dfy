/** What a board's reply does to its pulse, to the ledger and to the alerts, in one attempt and in a whole pass. */
module Replies {
  import opened Tables
  import Alerts
  import Backoff
  import Dispatch

  type Fetched = Dispatch.Fetched
  type Reply = Dispatch.Reply

  /** A stamp in whole seconds that is due less than a second before this clock reading, and not after it. */
  predicate DueBy(stamp: Option<int>, clock: int) {
    stamp.Some? && clock - 1_000_000_000 < stamp.value * 1_000_000_000 <= clock
  }

  /** The pulse after an attempt, by the reply: sent for good, tried again later, or failed at the limit. */
  ghost predicate PulseAfter(before: Pulse, after: Pulse, reply: Reply, limit: int, end: nat, huge: int) {
    && after.machine == before.machine && after.user == before.user && after.source == before.source
    && (reply.ok ==> after.state == Sent && after.nextAttemptAt.None? && after.attempts == before.attempts)
    && (!reply.ok ==> after.attempts == before.attempts + 1)
    && (!reply.ok && after.attempts < limit ==>
          && after.state == Pending && DueBy(after.nextAttemptAt, end + Backoff.Duration(after.attempts, huge))
          && (after.attempts <= 35 ==>
                DueBy(after.nextAttemptAt, end + Min(500_000_000 * Backoff.Pow2(after.attempts - 1), 30_000_000_000))))
    && (!reply.ok && after.attempts >= limit ==> after.state == Failed && after.nextAttemptAt == before.nextAttemptAt)
  }

  function Min(a: int, b: int): int {
    if a < b then a else b
  }

  /** The attempt gives the pulse up. */
  predicate GivenUp(f: Fetched, reply: Reply, limit: int) {
    !reply.ok && f.attempts + 1 >= limit
  }

  /** The refund row of a redemption that is given up, if its user exists. */
  function RefundRows(f: Fetched, reply: Reply, limit: int, users: set<nat>): seq<Entry> {
    if GivenUp(f, reply, limit) && f.source == TokenRedemption && f.user.Some? && f.user.value in users
    then [Entry(f.user.value, 1, Refund, None, Some(f.id))]
    else []
  }

  lemma StampIsDue(clock: int)
    ensures clock - 1_000_000_000 < clock / 1_000_000_000 * 1_000_000_000 <= clock
  {
  }

  lemma {:induction false} RetryIsAnnounced(end: nat, attempt: nat, huge: int)
    requires attempt >= 1
    ensures DueBy(Some(Dispatch.RetryAt(end, attempt, huge)), end + Backoff.Duration(attempt, huge))
    ensures attempt <= 35 ==>
              Backoff.Duration(attempt, huge) == Min(500_000_000 * Backoff.Pow2(attempt - 1), 30_000_000_000)
  {
    StampIsDue(end + Backoff.Duration(attempt, huge));
    if attempt <= 35 {
      Backoff.PromisedUpTo35(attempt, huge);
    }
  }

  /**
   One attempt on a pulse that is as it was fetched: the pulse follows the reply, a redemption
   that is given up gets one refund for its user, a pulse given up raises an alert (unless its
   refund was refused), and nothing else changes.
   */
  lemma SettleFollowsReply(db: DB, f: Fetched, reply: Reply, limit: int, end: nat, huge: int)
    requires f.id < |db.pulses| && f == Dispatch.Read(db.pulses, f.id) && db.pulses[f.id].state == Pending
    ensures
      var after := Dispatch.Settle(db, f, reply, limit, end, huge);
      && after == db.(pulses := after.pulses, ledger := after.ledger, alerts := after.alerts)
      && |after.pulses| == |db.pulses| && PulseAfter(db.pulses[f.id], after.pulses[f.id], reply, limit, end, huge)
      && (forall p | 0 <= p < |db.pulses| && p != f.id :: after.pulses[p] == db.pulses[p])
      && after.ledger == db.ledger + RefundRows(f, reply, limit, db.users)
      && (!GivenUp(f, reply, limit) ==> after.alerts == db.alerts)
      && (GivenUp(f, reply, limit) ==>
            after.alerts == if Dispatch.Refundable(f) && f.user.value !in db.users then db.alerts
                            else Alerts.InsertedIfNone(db.alerts, "relay_dispatch_failed", reply.message))
  {
    if !reply.ok && f.attempts + 1 < limit {
      RetryIsAnnounced(end, f.attempts + 1, huge);
    }
  }

  /** The refund rows of the first n attempts of a pass. */
  function PassRefunds(fs: seq<Fetched>, board: nat -> Reply, limit: int, users: set<nat>): seq<Entry> {
    if fs == [] then []
    else
      var n := |fs| - 1;
      PassRefunds(fs[..n], board, limit, users) + RefundRows(fs[n], board(n), limit, users)
  }

  ghost predicate AllFresh(pulses: seq<Pulse>, fs: seq<Fetched>) {
    && (forall k | 0 <= k < |fs| ::
          fs[k].id < |pulses| && fs[k] == Dispatch.Read(pulses, fs[k].id) && pulses[fs[k].id].state == Pending)
    && (forall j, k | 0 <= j < k < |fs| :: fs[j].id != fs[k].id)
  }

  ghost predicate TakenBy(fs: seq<Fetched>, p: nat) {
    exists k | 0 <= k < |fs| :: fs[k].id == p
  }

  /** Each fetched pulse has followed its own reply, and no other pulse has changed. */
  ghost predicate PassPulses(
      before: seq<Pulse>, after: seq<Pulse>, fs: seq<Fetched>, board: nat -> Reply, limit: int, ends: seq<nat>, huge: int)
    requires AllFresh(before, fs) && |ends| == |fs|
  {
    && |after| == |before|
    && (forall k | 0 <= k < |fs| ::
          PulseAfter(before[fs[k].id], after[fs[k].id], board(k), limit, ends[k], huge))
    && (forall p: nat | p < |before| && !TakenBy(fs, p) :: after[p] == before[p])
  }

  lemma NextPulse(
      before: seq<Pulse>, middle: seq<Pulse>, after: seq<Pulse>, fs: seq<Fetched>, board: nat -> Reply, limit: int,
      ends: seq<nat>, huge: int)
    requires fs != [] && AllFresh(before, fs) && |ends| == |fs| && AllFresh(before, fs[..|fs| - 1])
    requires PassPulses(before, middle, fs[..|fs| - 1], board, limit, ends[..|fs| - 1], huge)
    requires
      var n := |fs| - 1;
      && |after| == |before| && (forall p | 0 <= p < |before| && p != fs[n].id :: after[p] == middle[p])
      && PulseAfter(middle[fs[n].id], after[fs[n].id], board(n), limit, ends[n], huge)
    ensures PassPulses(before, after, fs, board, limit, ends, huge)
  {
    var n := |fs| - 1;
    assert !TakenBy(fs[..n], fs[n].id);
    forall k | 0 <= k < |fs|
      ensures PulseAfter(before[fs[k].id], after[fs[k].id], board(k), limit, ends[k], huge)
    {
      if k < n {
        assert fs[..n][k] == fs[k] && ends[..n][k] == ends[k];
      }
    }
    forall p: nat | p < |before| && !TakenBy(fs, p)
      ensures after[p] == before[p]
    {
      assert fs[n].id != p;
      assert !TakenBy(fs[..n], p);
    }
  }

  /** A pass of the dispatcher: every fetched pulse follows its own reply, and the refunds are those of the pulses given up. */
  lemma {:induction false} PassFollowsReplies(
      db: DB, fs: seq<Fetched>, board: nat -> Reply, limit: int, ends: seq<nat>, huge: int)
    requires AllFresh(db.pulses, fs) && |ends| == |fs|
    ensures
      var after := Dispatch.SettleAll(db, fs, board, limit, ends, huge);
      && after.users == db.users && after.ledger == db.ledger + PassRefunds(fs, board, limit, db.users)
      && PassPulses(db.pulses, after.pulses, fs, board, limit, ends, huge)
  {
    if fs == [] {
      assert db.ledger + [] == db.ledger;
    } else {
      var n := |fs| - 1;
      PassFollowsReplies(db, fs[..n], board, limit, ends[..n], huge);
      PassStep(db, Dispatch.SettleAll(db, fs[..n], board, limit, ends[..n], huge), fs, board, limit, ends, huge);
    }
  }

  lemma {:induction false} PassStep(
      db: DB, before: DB, fs: seq<Fetched>, board: nat -> Reply, limit: int, ends: seq<nat>, huge: int)
    requires fs != [] && AllFresh(db.pulses, fs) && |ends| == |fs| && AllFresh(db.pulses, fs[..|fs| - 1])
    requires before.users == db.users && before.ledger == db.ledger + PassRefunds(fs[..|fs| - 1], board, limit, db.users)
    requires PassPulses(db.pulses, before.pulses, fs[..|fs| - 1], board, limit, ends[..|fs| - 1], huge)
    ensures
      var n := |fs| - 1;
      var after := Dispatch.Settle(before, fs[n], board(n), limit, ends[n], huge);
      && after.users == db.users && after.ledger == db.ledger + PassRefunds(fs, board, limit, db.users)
      && PassPulses(db.pulses, after.pulses, fs, board, limit, ends, huge)
  {
    var n := |fs| - 1;
    assert !TakenBy(fs[..n], fs[n].id);
    assert before.pulses[fs[n].id] == db.pulses[fs[n].id];
    SettleFollowsReply(before, fs[n], board(n), limit, ends[n], huge);
    NextPulse(db.pulses, before.pulses, Dispatch.Settle(before, fs[n], board(n), limit, ends[n], huge).pulses,
              fs, board, limit, ends, huge);
  }

  /** DispatchOnce takes exactly the pending pulses that have no retry time or whose time has come, each once, as they are. */
  lemma FetchedExactly(pulses: seq<Pulse>, now: int)
    ensures
      var fs := Dispatch.Fetch(pulses, now);
      && AllFresh(pulses, fs)
      && forall p: nat | p < |pulses| ::
           TakenBy(fs, p)
           <==> pulses[p].state == Pending && (pulses[p].nextAttemptAt.None? || pulses[p].nextAttemptAt.value <= now)
  {
    var fs := Dispatch.Fetch(pulses, now);
    Dispatch.FetchedAreFresh(pulses, now);
    forall p: nat | p < |pulses| && Dispatch.Eligible(pulses[p], now)
      ensures TakenBy(fs, p)
    {
      assert Dispatch.Read(pulses, p) in fs;
    }
  }
}
