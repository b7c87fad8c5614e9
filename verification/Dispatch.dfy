/** internal/relay/dispatcher.go: queued pulses become relay pulses, retries or refunds. */
module Dispatch {
  import opened Tables
  import opened Sums
  import Alerts
  import Backoff
  import Ledger
  import Pipeline

  /** A row of fetchPendingPulses, with the user id as it was when it was read. */
  datatype Fetched = Fetched(id: nat, machine: nat, user: Option<nat>, source: Source, attempts: nat)

  /** What the board did with one attempt, and how long that took. */
  datatype Reply = Reply(ok: bool, took: nat, timerLate: nat, message: string)

  predicate Eligible(pulse: Pulse, now: int) {
    pulse.state == Pending && (pulse.nextAttemptAt.None? || pulse.nextAttemptAt.value <= now)
  }

  function Read(pulses: seq<Pulse>, id: nat): Fetched
    requires id < |pulses|
  {
    Fetched(id, pulses[id].machine, pulses[id].user, pulses[id].source, pulses[id].attempts)
  }

  ghost predicate Before(f: Fetched, g: Fetched) {
    f.machine < g.machine || (f.machine == g.machine && f.id < g.id)
  }

  ghost predicate Ordered(fs: seq<Fetched>) {
    forall i, j | 0 <= i < j < |fs| :: Before(fs[i], fs[j])
  }

  function Insert(fs: seq<Fetched>, f: Fetched): (r: seq<Fetched>)
    ensures forall g :: g in r <==> g in fs || g == f
    ensures |r| == |fs| + 1
    ensures Ordered(fs) && (forall g | g in fs :: g.id < f.id) ==> Ordered(r)
  {
    if fs == [] || fs[0].machine > f.machine then [f] + fs
    else
      var rest := Insert(fs[1..], f);
      assert forall i | 0 <= i < |rest| :: rest[i] in rest;
      [fs[0]] + rest
  }

  /** The eligible pulses among the first n rows, by machine and then by id. */
  function FetchAmong(pulses: seq<Pulse>, now: int, n: nat): (fs: seq<Fetched>)
    requires n <= |pulses|
    ensures forall f :: f in fs <==> f.id < n && Eligible(pulses[f.id], now) && f == Read(pulses, f.id)
    ensures Ordered(fs)
  {
    if n == 0 then []
    else
      var rest := FetchAmong(pulses, now, n - 1);
      if Eligible(pulses[n - 1], now) then Insert(rest, Read(pulses, n - 1)) else rest
  }

  function Fetch(pulses: seq<Pulse>, now: int): seq<Fetched> {
    FetchAmong(pulses, now, |pulses|)
  }

  function MarkSent(db: DB, id: nat): DB
    requires id < |db.pulses|
  {
    db.(pulses := db.pulses[id := db.pulses[id].(state := Sent, nextAttemptAt := None)])
  }

  function MarkRetry(db: DB, id: nat, attempt: nat, next: int): DB
    requires id < |db.pulses|
  {
    db.(pulses := db.pulses[id := db.pulses[id].(attempts := attempt, nextAttemptAt := Some(next))])
  }

  function MarkFailed(db: DB, id: nat, attempt: nat): DB
    requires id < |db.pulses|
  {
    db.(pulses := db.pulses[id := db.pulses[id].(state := Failed, attempts := attempt)])
  }

  predicate Refundable(f: Fetched) {
    f.source == TokenRedemption && f.user.Some?
  }

  const RELAY_ALERT := "relay_dispatch_failed"

  function Alerted(db: DB, message: string): DB {
    db.(alerts := Alerts.InsertedIfNone(db.alerts, RELAY_ALERT, message))
  }

  /** markFailedAndRefund: two writes, then the alert unless the refund failed. */
  function FailAndRefund(db: DB, f: Fetched, message: string): DB
    requires f.id < |db.pulses|
  {
    var failed := MarkFailed(db, f.id, f.attempts + 1);
    if !Refundable(f) then Alerted(failed, message)
    else
      match Ledger.RefundPulse(failed, f.user.value, f.id)
      case Commit(refunded, _) => Alerted(refunded, message)
      case Rollback(_) => failed
  }

  /** The whole seconds stamped on a retry that was scheduled at `clock`. */
  function RetryAt(clock: nat, attempt: nat, huge: int): int
    requires attempt >= 1
  {
    (clock + Backoff.Duration(attempt, huge)) / Pipeline.SECOND
  }

  /** Bookkeeping after one attempt that ended at `end`. */
  function Settle(db: DB, f: Fetched, reply: Reply, limit: int, end: nat, huge: int): (r: DB)
    requires f.id < |db.pulses|
    ensures |r.pulses| == |db.pulses|
    ensures forall i | 0 <= i < |db.pulses| && i != f.id :: r.pulses[i] == db.pulses[i]
  {
    if reply.ok then MarkSent(db, f.id)
    else if f.attempts + 1 >= limit then FailAndRefund(db, f, reply.message)
    else MarkRetry(db, f.id, f.attempts + 1, RetryAt(end, f.attempts + 1, huge))
  }

  /** One attempt at one machine's relay. */
  datatype Attempt = Attempt(machine: nat, start: nat, end: nat)

  function SettleAll(db: DB, fs: seq<Fetched>, board: nat -> Reply, limit: int, ends: seq<nat>, huge: int): (r: DB)
    requires |ends| == |fs|
    requires forall i | 0 <= i < |fs| :: fs[i].id < |db.pulses|
    ensures |r.pulses| == |db.pulses|
  {
    if fs == [] then db
    else
      var n := |fs| - 1;
      Settle(SettleAll(db, fs[..n], board, limit, ends[..n], huge), fs[n], board(n), limit, ends[n], huge)
  }

  lemma {:induction false} SettleAllNext(
      db: DB, fs: seq<Fetched>, board: nat -> Reply, limit: int, ends: seq<nat>, end: nat, huge: int, i: nat)
    requires i < |fs| && |ends| == i
    requires forall k | 0 <= k < |fs| :: fs[k].id < |db.pulses|
    ensures SettleAll(db, fs[..i + 1], board, limit, ends + [end], huge)
         == Settle(SettleAll(db, fs[..i], board, limit, ends, huge), fs[i], board(i), limit, end, huge)
  {
    assert fs[..i + 1][..i] == fs[..i] && (ends + [end])[..i] == ends;
  }

  /** What a pending pulse may still cost: at least one attempt, at most those below the limit. */
  function Weight(pulses: seq<Pulse>, limit: int): nat -> int {
    (i: nat) =>
      if i < |pulses| && pulses[i].state == Pending then
        if limit - pulses[i].attempts > 1 then limit - pulses[i].attempts else 1
      else 0
  }

  function Backlog(pulses: seq<Pulse>, limit: int): int {
    Sum(|pulses|, Weight(pulses, limit))
  }

  lemma {:induction false} BacklogIsNone(pulses: seq<Pulse>, limit: int, n: nat)
    requires n <= |pulses|
    ensures Sum(n, Weight(pulses, limit)) >= 0
    ensures Sum(n, Weight(pulses, limit)) == 0 <==> forall i | 0 <= i < n :: pulses[i].state != Pending
  {
    if n > 0 {
      BacklogIsNone(pulses, limit, n - 1);
    }
  }

  /** Every attempt on a pending pulse uses up some of the backlog. */
  lemma SettleDrains(db: DB, f: Fetched, reply: Reply, limit: int, end: nat, huge: int)
    requires f.id < |db.pulses| && db.pulses[f.id].state == Pending && db.pulses[f.id].attempts == f.attempts
    ensures Backlog(Settle(db, f, reply, limit, end, huge).pulses, limit) <= Backlog(db.pulses, limit) - 1
  {
    var after := Settle(db, f, reply, limit, end, huge);
    SumChangedAt(|db.pulses|, Weight(db.pulses, limit), Weight(after.pulses, limit), f.id);
  }

  lemma {:induction false} PassDrains(
      db: DB, fs: seq<Fetched>, board: nat -> Reply, limit: int, ends: seq<nat>, huge: int)
    requires |ends| == |fs|
    requires forall i | 0 <= i < |fs| :: fs[i].id < |db.pulses| && db.pulses[fs[i].id].state == Pending
                                         && db.pulses[fs[i].id].attempts == fs[i].attempts
    requires forall i, j | 0 <= i < j < |fs| :: fs[i].id != fs[j].id
    ensures Backlog(SettleAll(db, fs, board, limit, ends, huge).pulses, limit) <= Backlog(db.pulses, limit) - |fs|
    ensures forall k: nat | k < |db.pulses| && (forall i | 0 <= i < |fs| :: fs[i].id != k) ::
              SettleAll(db, fs, board, limit, ends, huge).pulses[k] == db.pulses[k]
  {
    if fs != [] {
      var n := |fs| - 1;
      PassDrains(db, fs[..n], board, limit, ends[..n], huge);
      var before := SettleAll(db, fs[..n], board, limit, ends[..n], huge);
      assert before.pulses[fs[n].id] == db.pulses[fs[n].id];
      SettleDrains(before, fs[n], board(n), limit, ends[n], huge);
    }
  }

  /** One DispatchOnce: the time it starts at, the boards' replies and the times the attempts end. */
  datatype Pass = Pass(now: nat, board: nat -> Reply, ends: int -> nat)

  function Ends(pass: Pass, n: nat): (ends: seq<nat>)
    ensures |ends| == n
  {
    seq<nat>(n, i => pass.ends(i))
  }

  function RunPass(db: DB, pass: Pass, limit: int, huge: int): DB {
    var fs := Fetch(db.pulses, Pipeline.Stamp(pass.now));
    assert forall i | 0 <= i < |fs| :: fs[i] in fs;
    SettleAll(db, fs, pass.board, limit, Ends(pass, |fs|), huge)
  }

  function RunPasses(db: DB, passes: seq<Pass>, limit: int, huge: int): DB
    decreases |passes|
  {
    if passes == [] then db else RunPasses(RunPass(db, passes[0], limit, huge), passes[1..], limit, huge)
  }

  /** A pass late enough that some retry is due, as long as anything is pending. */
  ghost predicate Useful(db: DB, pass: Pass) {
    (exists i | 0 <= i < |db.pulses| :: db.pulses[i].state == Pending)
    ==> exists i | 0 <= i < |db.pulses| :: Eligible(db.pulses[i], Pipeline.Stamp(pass.now))
  }

  ghost predicate AllUseful(db: DB, passes: seq<Pass>, limit: int, huge: int)
    decreases |passes|
  {
    passes == [] || (Useful(db, passes[0]) && AllUseful(RunPass(db, passes[0], limit, huge), passes[1..], limit, huge))
  }

  lemma FetchedAreFresh(pulses: seq<Pulse>, now: int)
    ensures
      var fs := Fetch(pulses, now);
      && (forall i | 0 <= i < |fs| :: fs[i].id < |pulses| && Eligible(pulses[fs[i].id], now) && fs[i] == Read(pulses, fs[i].id))
      && (forall i, j | 0 <= i < j < |fs| :: fs[i].id != fs[j].id)
  {
    var fs := Fetch(pulses, now);
    assert forall i | 0 <= i < |fs| :: fs[i] in fs;
    assert forall i, j | 0 <= i < j < |fs| :: Before(fs[i], fs[j]);
  }

  /** With a fixed limit the queue empties: no more passes are needed than its backlog at the start. */
  lemma {:induction false} QueueEmpties(db: DB, passes: seq<Pass>, limit: int, huge: int)
    requires AllUseful(db, passes, limit, huge)
    requires |passes| >= Backlog(db.pulses, limit)
    ensures forall i | 0 <= i < |RunPasses(db, passes, limit, huge).pulses| ::
              RunPasses(db, passes, limit, huge).pulses[i].state != Pending
    decreases |passes|
  {
    BacklogIsNone(db.pulses, limit, |db.pulses|);
    if passes != [] {
      var now := Pipeline.Stamp(passes[0].now);
      var fs := Fetch(db.pulses, now);
      FetchedAreFresh(db.pulses, now);
      PassDrains(db, fs, passes[0].board, limit, Ends(passes[0], |fs|), huge);
      if i: nat :| i < |db.pulses| && Eligible(db.pulses[i], now) {
        assert Read(db.pulses, i) in fs;
      }
      var next := RunPass(db, passes[0], limit, huge);
      BacklogIsNone(next.pulses, limit, |next.pulses|);
      QueueEmpties(next, passes[1..], limit, huge);
    }
  }

  /** Whole-second stamps: a retry is due at most one second early, and never late. */
  lemma RetryIsDue(scheduled: nat, attempt: nat, huge: int, clock: nat, pulse: Pulse)
    requires 1 <= attempt
    requires pulse.state == Pending && pulse.nextAttemptAt == Some(RetryAt(scheduled, attempt, huge))
    ensures Eligible(pulse, Pipeline.Stamp(clock)) ==>
              clock > scheduled + Backoff.Duration(attempt, huge) - Pipeline.SECOND
    ensures clock >= scheduled + Backoff.Duration(attempt, huge) ==> Eligible(pulse, Pipeline.Stamp(clock))
  {
  }

  /** One tick of the dispatcher: the time since the pass before, the boards' replies and the limit then. */
  datatype Round = Round(pause: nat, board: nat -> Reply, limit: int)

  class Dispatcher {
    const store: Store
    const ledger: Ledger.LedgerService
    const gap: int  // nanoseconds between two pulses of one machine
    const huge: int
    var clock: nat
    var lastSentAt: map<nat, nat>
    ghost var log: seq<Attempt>

    /** What holds over the whole life of a dispatcher. */
    ghost predicate Spaced()
      reads this
    {
      && (forall i | 0 <= i < |log| :: log[i].start <= log[i].end <= clock)
      && (forall i | 0 <= i < |log| :: log[i].machine in lastSentAt && log[i].end <= lastSentAt[log[i].machine])
      && (forall m | m in lastSentAt :: lastSentAt[m] <= clock)
      && (forall i, j | 0 <= i < j < |log| && log[i].machine == log[j].machine :: log[j].start >= log[i].end + gap)
    }

    constructor (store: Store, ledger: Ledger.LedgerService, gap: int, huge: int, clock: nat)
      requires ledger.store == store
      ensures this.store == store && this.ledger == ledger && this.gap == gap && this.huge == huge
      ensures Spaced() && log == []
    {
      this.store, this.ledger, this.gap, this.huge, this.clock := store, ledger, gap, huge, clock;
      lastSentAt, log := map[], [];
    }

    /** Sleeps until the gap since the machine's last attempt has passed; timers may fire late. */
    method WaitForGap(machine: nat, timerLate: nat)
      requires Spaced()
      modifies this`clock
      ensures clock >= old(clock)
      ensures machine in lastSentAt ==> clock >= lastSentAt[machine] + gap
      ensures Spaced()
    {
      if machine !in lastSentAt {
        return;
      }
      var wait := gap - (clock - lastSentAt[machine]);
      if wait <= 0 {
        return;
      }
      clock := clock + wait + timerLate;
    }

    method MarkFailedAndRefund(f: Fetched, message: string)
      requires ledger.store == store && f.id < |store.pulses|
      modifies store
      ensures store.Snapshot() == FailAndRefund(old(store.Snapshot()), f, message)
    {
      store.pulses := store.pulses[f.id := store.pulses[f.id].(state := Failed, attempts := f.attempts + 1)];
      if f.source == TokenRedemption && f.user.Some? {
        var refund := ledger.Refund(f.user.value, f.id);
        if refund.Err? {
          return;
        }
      }
      store.alerts := Alerts.InsertedIfNone(store.alerts, RELAY_ALERT, message);
    }

    /** Waits, fires the relay and records the attempt, successful or not. */
    method Fire(machine: nat, reply: Reply)
      requires Spaced()
      modifies this
      ensures Spaced()
      ensures |log| == |old(log)| + 1 && old(log) <= log
      ensures log[|old(log)|].machine == machine && log[|old(log)|].end == clock
    {
      WaitForGap(machine, reply.timerLate);
      ghost var start := clock;
      clock := clock + reply.took;
      lastSentAt := lastSentAt[machine := clock];
      log := log + [Attempt(machine, start, clock)];
    }

    method ProcessPulse(f: Fetched, reply: Reply, limit: int)
      requires ledger.store == store && f.id < |store.pulses|
      requires Spaced()
      modifies this, store
      ensures Spaced()
      ensures |log| == |old(log)| + 1 && old(log) <= log
      ensures log[|old(log)|].machine == f.machine && log[|old(log)|].end == clock
      ensures store.Snapshot() == Settle(old(store.Snapshot()), f, reply, limit, clock, huge)
    {
      Fire(f.machine, reply);
      if reply.ok {
        store.pulses := store.pulses[f.id := store.pulses[f.id].(state := Sent, nextAttemptAt := None)];
        return;
      }
      var attempt := f.attempts + 1;
      if attempt >= limit {
        MarkFailedAndRefund(f, reply.message);
        return;
      }
      var next := RetryAt(clock, attempt, huge);
      store.pulses := store.pulses[f.id := store.pulses[f.id].(attempts := attempt, nextAttemptAt := Some(next))];
    }

    method DispatchOnce(board: nat -> Reply, limit: int) returns (ghost ends: seq<nat>)
      requires ledger.store == store
      requires Spaced()
      modifies this, store
      ensures Spaced()
      ensures
        var fs := Fetch(old(store.pulses), Pipeline.Stamp(old(clock)));
        && |ends| == |fs| && Logged(old(log), log, fs, ends)
        && (forall i | 0 <= i < |fs| :: fs[i].id < |old(store.pulses)|)
        && store.Snapshot() == SettleAll(old(store.Snapshot()), fs, board, limit, ends, huge)
    {
      ghost var before := store.Snapshot();
      var fs := Fetch(store.pulses, Pipeline.Stamp(clock));
      FetchedAreFresh(store.pulses, Pipeline.Stamp(clock));
      ends := [];
      for i := 0 to |fs|
        invariant Spaced()
        invariant |ends| == i && Logged(old(log), log, fs, ends)
        invariant store.Snapshot() == SettleAll(before, fs[..i], board, limit, ends, huge)
      {
        ghost var logged := log;
        ProcessPulse(fs[i], board(i), limit);
        LoggedNext(old(log), logged, log, fs, ends, clock);
        SettleAllNext(before, fs, board, limit, ends, clock, huge, i);
        ends := ends + [clock];
      }
      assert fs[..|fs|] == fs;
    }

    /** Waits for the next tick. */
    method Pause(elapsed: nat)
      requires Spaced()
      modifies this`clock
      ensures Spaced() && clock == old(clock) + elapsed
    {
      clock := clock + elapsed;
    }

    /** The dispatcher's life, for as many ticks as are given: one pass at once, then one after each. */
    method Run(first: Round, ticks: seq<Round>)
      requires ledger.store == store
      requires Spaced()
      modifies this, store
      ensures Spaced() && old(log) <= log
    {
      ghost var end := DispatchOnce(first.board, first.limit);
      for i := 0 to |ticks|
        invariant Spaced() && old(log) <= log
      {
        Pause(ticks[i].pause);
        end := DispatchOnce(ticks[i].board, ticks[i].limit);
      }
    }
  }

  /** The log has grown by one attempt for each of the first pulses, with these ends. */
  ghost predicate Logged(before: seq<Attempt>, log: seq<Attempt>, fs: seq<Fetched>, ends: seq<nat>) {
    && before <= log && |log| == |before| + |ends| && |ends| <= |fs|
    && (forall k | 0 <= k < |ends| :: log[|before| + k].machine == fs[k].machine && log[|before| + k].end == ends[k])
  }

  lemma LoggedNext(
      before: seq<Attempt>, log: seq<Attempt>, next: seq<Attempt>, fs: seq<Fetched>, ends: seq<nat>, end: nat)
    requires Logged(before, log, fs, ends) && |ends| < |fs|
    requires |next| == |log| + 1 && log <= next && next[|log|].machine == fs[|ends|].machine && next[|log|].end == end
    ensures Logged(before, next, fs, ends + [end])
  {
  }
}
