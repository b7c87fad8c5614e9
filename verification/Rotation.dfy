/** internal/services/rotation.go: one check of every machine's direct-pay address. */
module Rotation {
  import opened Tables
  import Bindings
  import DirectPay
  import Pipeline
  import Pool

  datatype Candidate = Candidate(machine: nat, useCount: nat, assignedAt: Option<int>)

  /** The thresholds; one that is not positive is switched off. */
  datatype Schedule = Schedule(hours: int, uses: int)

  const HOUR: int := 3600 * Pipeline.SECOND

  predicate IsCandidate(row: Address, machines: map<nat, Machine>) {
    row.purpose == MachineDirect && row.state == Assigned && row.machine.Some?
    && row.machine.value in machines && machines[row.machine.value].directPayEnabled
  }

  /** The query's join, in row order. */
  function Candidates(rows: seq<Address>, machines: map<nat, Machine>): (cs: seq<Candidate>)
    ensures forall k | 0 <= k < |cs| ::
              exists i | 0 <= i < |rows| :: DirectPay.Active(rows[i], cs[k].machine)
  {
    if rows == [] then []
    else
      var n := |rows| - 1;
      var rest := Candidates(rows[..n], machines);
      assert forall k | 0 <= k < |rest| ::
          exists i | 0 <= i < n :: rows[..n][i] == rows[i] && DirectPay.Active(rows[i], rest[k].machine);
      if IsCandidate(rows[n], machines) then
        rest + [Candidate(rows[n].machine.value, rows[n].useCount, rows[n].assignedAt)]
      else rest
  }

  predicate Due(c: Candidate, schedule: Schedule, clock: nat) {
    (schedule.uses > 0 && c.useCount >= schedule.uses)
    || (schedule.hours > 0 && c.assignedAt.Some?
        && clock - c.assignedAt.value * Pipeline.SECOND >= schedule.hours * HOUR)
  }

  /** A rotation of CheckAll's loop: the machine, and the clock when its turn came. */
  datatype Turn = Turn(machine: nat, clock: nat)

  /** The turns of the due candidates; clock(k) is the time at which the k-th one is looked at. */
  function Turns(cs: seq<Candidate>, schedule: Schedule, clock: int -> nat): (turns: seq<Turn>)
    ensures forall t | t in turns :: exists k | 0 <= k < |cs| :: cs[k].machine == t.machine
  {
    if cs == [] then []
    else
      var n := |cs| - 1;
      var rest := Turns(cs[..n], schedule, clock);
      if Due(cs[n], schedule, clock(n)) then rest + [Turn(cs[n].machine, clock(n))] else rest
  }

  function RotateAll(db: DB, turns: seq<Turn>): DB {
    if turns == [] then db
    else
      var n := |turns| - 1;
      DirectPay.RotateMachine(RotateAll(db, turns[..n]), turns[n].machine, Pipeline.Stamp(turns[n].clock)).0
  }

  function Check(db: DB, schedule: Schedule, clock: int -> nat): DB {
    if schedule.hours <= 0 && schedule.uses <= 0 then db
    else RotateAll(db, Turns(Candidates(db.addresses, db.machines), schedule, clock))
  }

  /** How many candidate rows come before row n. */
  function Position(rows: seq<Address>, machines: map<nat, Machine>, n: nat): (k: nat)
    requires n <= |rows|
  {
    if n == 0 then 0 else Position(rows, machines, n - 1) + if IsCandidate(rows[n - 1], machines) then 1 else 0
  }

  lemma {:induction false} PositionOfPrefix(rows: seq<Address>, machines: map<nat, Machine>, m: nat, n: nat)
    requires n <= m <= |rows|
    ensures Position(rows[..m], machines, n) == Position(rows, machines, n)
  {
    if n > 0 {
      PositionOfPrefix(rows, machines, m, n - 1);
    }
  }

  /** The k-th candidate is the row with k candidate rows before it. */
  ghost predicate ListedAt(rows: seq<Address>, machines: map<nat, Machine>, cs: seq<Candidate>, i: nat)
    requires i < |rows|
  {
    var k := Position(rows, machines, i);
    IsCandidate(rows[i], machines)
    ==> k < |cs| && cs[k] == Candidate(rows[i].machine.value, rows[i].useCount, rows[i].assignedAt)
  }

  ghost predicate StandsFor(rows: seq<Address>, machines: map<nat, Machine>, i: nat, k: nat) {
    i < |rows| && IsCandidate(rows[i], machines) && Position(rows, machines, i) == k
  }

  ghost predicate Sourced(rows: seq<Address>, machines: map<nat, Machine>, k: nat) {
    exists i :: StandsFor(rows, machines, i, k)
  }

  lemma {:induction false} CandidatesExactly(rows: seq<Address>, machines: map<nat, Machine>)
    ensures
      var cs := Candidates(rows, machines);
      && |cs| == Position(rows, machines, |rows|)
      && (forall i: nat | i < |rows| :: ListedAt(rows, machines, cs, i))
      && (forall k: nat | k < |cs| :: Sourced(rows, machines, k))
  {
    var cs := Candidates(rows, machines);
    if rows != [] {
      var n := |rows| - 1;
      var init := rows[..n];
      var rest := Candidates(init, machines);
      CandidatesExactly(init, machines);
      forall i: nat | i <= n
        ensures Position(init, machines, i) == Position(rows, machines, i)
      {
        PositionOfPrefix(rows, machines, n, i);
      }
      forall i: nat | i < |rows|
        ensures ListedAt(rows, machines, cs, i)
      {
        if i < n {
          assert ListedAt(init, machines, rest, i) && init[i] == rows[i];
        }
      }
      forall k: nat | k < |cs|
        ensures Sourced(rows, machines, k)
      {
        if k < |rest| {
          assert Sourced(init, machines, k);
          var i :| StandsFor(init, machines, i, k);
          assert StandsFor(rows, machines, i, k);
        } else {
          assert StandsFor(rows, machines, n, k);
        }
      }
    }
  }

  ghost predicate HasTurn(turns: seq<Turn>, machine: nat) {
    exists t | t in turns :: t.machine == machine
  }

  ghost predicate DueAt(cs: seq<Candidate>, schedule: Schedule, clock: int -> nat, machine: nat, k: nat) {
    k < |cs| && cs[k].machine == machine && Due(cs[k], schedule, clock(k))
  }

  lemma {:induction false} TurnsOfDue(cs: seq<Candidate>, schedule: Schedule, clock: int -> nat, machine: nat)
    ensures HasTurn(Turns(cs, schedule, clock), machine) <==> exists k :: DueAt(cs, schedule, clock, machine, k)
  {
    if cs != [] {
      var n := |cs| - 1;
      TurnsOfDue(cs[..n], schedule, clock, machine);
      var turns, rest := Turns(cs, schedule, clock), Turns(cs[..n], schedule, clock);
      assert forall k: nat | k < n :: DueAt(cs, schedule, clock, machine, k) <==> DueAt(cs[..n], schedule, clock, machine, k);
      assert HasTurn(turns, machine) <==> HasTurn(rest, machine) || DueAt(cs, schedule, clock, machine, n) by {
        if DueAt(cs, schedule, clock, machine, n) {
          assert turns[|rest|] in turns;
        }
        assert forall t | t in rest :: t in turns;
      }
    }
  }

  /**
   Row i shows the machine's customers an address that is used up, or that was given out too
   long ago when its turn to be looked at comes.
   */
  ghost predicate Overdue(
      rows: seq<Address>, machines: map<nat, Machine>, schedule: Schedule, clock: int -> nat, machine: nat, i: nat)
    requires i < |rows|
  {
    && DirectPay.Active(rows[i], machine) && machine in machines && machines[machine].directPayEnabled
    && ((schedule.uses > 0 && rows[i].useCount >= schedule.uses)
        || (schedule.hours > 0 && rows[i].assignedAt.Some?
            && rows[i].assignedAt.value * 1_000_000_000 + schedule.hours * 3_600_000_000_000
               <= clock(Position(rows, machines, i))))
  }

  ghost predicate IsOverdue(db: DB, schedule: Schedule, clock: int -> nat, machine: nat) {
    exists i: nat | i < |db.addresses| :: Overdue(db.addresses, db.machines, schedule, clock, machine, i)
  }

  /** A machine has a turn exactly when some row of it is overdue. */
  lemma {:induction false} TurnsExactly(db: DB, schedule: Schedule, clock: int -> nat, machine: nat)
    ensures HasTurn(Turns(Candidates(db.addresses, db.machines), schedule, clock), machine)
       <==> IsOverdue(db, schedule, clock, machine)
  {
    var rows, machines := db.addresses, db.machines;
    var cs := Candidates(rows, machines);
    CandidatesExactly(rows, machines);
    TurnsOfDue(cs, schedule, clock, machine);
    if IsOverdue(db, schedule, clock, machine) {
      var i: nat :| i < |rows| && Overdue(rows, machines, schedule, clock, machine, i);
      OverdueIsDue(rows, machines, cs, schedule, clock, machine, i);
    }
    if exists k :: DueAt(cs, schedule, clock, machine, k) {
      var k :| DueAt(cs, schedule, clock, machine, k);
      assert Sourced(rows, machines, k);
      var i :| StandsFor(rows, machines, i, k);
      OverdueIsDue(rows, machines, cs, schedule, clock, machine, i);
    }
  }

  lemma {:induction false} OverdueIsDue(
      rows: seq<Address>, machines: map<nat, Machine>, cs: seq<Candidate>, schedule: Schedule, clock: int -> nat, machine: nat,
      i: nat)
    requires i < |rows| && ListedAt(rows, machines, cs, i)
    ensures Overdue(rows, machines, schedule, clock, machine, i)
       <==> IsCandidate(rows[i], machines) && DueAt(cs, schedule, clock, machine, Position(rows, machines, i))
  {
  }

  predicate IsFree(row: Address) {
    row.state == AddressState.Pool && row.purpose == MachineDirect
  }

  /** The machine_direct pool, oldest first. */
  function Free(rows: seq<Address>): (ids: seq<nat>)
    ensures forall k | 0 <= k < |ids| :: ids[k] < |rows| && IsFree(rows[ids[k]])
    ensures forall j, k | 0 <= j < k < |ids| :: ids[j] < ids[k]
    ensures forall i: nat | i < |rows| && IsFree(rows[i]) :: i in ids
  {
    if rows == [] then []
    else
      var n := |rows| - 1;
      var rest := Free(rows[..n]);
      assert forall i: nat | i < n && IsFree(rows[i]) :: IsFree(rows[..n][i]);
      if IsFree(rows[n]) then rest + [n] else rest
  }

  ghost predicate DistinctMachines(turns: seq<Turn>) {
    forall j, k | 0 <= j < k < |turns| :: turns[j].machine != turns[k].machine
  }

  function Min(a: nat, b: nat): nat {
    if a < b then a else b
  }

  ghost predicate Retires(row: Address, turns: seq<Turn>, n: nat)
    requires n <= |turns|
  {
    exists k: nat :: k < n && DirectPay.Active(row, turns[k].machine)
  }

  /** The first n turns have each taken the next address of `free`, and changed nothing else. */
  ghost predicate Taken(rows: seq<Address>, free: seq<nat>, turns: seq<Turn>, n: nat, now: seq<Address>)
    requires n <= |turns| && n <= |free|
    requires forall k | 0 <= k < |free| :: free[k] < |rows|
  {
    && |now| == |rows|
    && (forall k | 0 <= k < n ::
          now[free[k]] == DirectPay.ForMachine(rows[free[k]], turns[k].machine, Pipeline.Stamp(turns[k].clock)))
    && (forall id: nat | id < |rows| && id !in free[..n] ::
          now[id] == if Retires(rows[id], turns, n) then rows[id].(state := Retired) else rows[id])
  }

  ghost predicate IsFreeList(rows: seq<Address>, free: seq<nat>) {
    && (forall k | 0 <= k < |free| :: free[k] < |rows| && IsFree(rows[free[k]]))
    && (forall j, k | 0 <= j < k < |free| :: free[j] < free[k])
    && (forall i: nat | i < |rows| && IsFree(rows[i]) :: i in free)
  }

  lemma PrefixHas(free: seq<nat>, n: nat, k: nat)
    requires n <= |free| && k < |free|
    requires forall i, j | 0 <= i < j < |free| :: free[i] < free[j]
    ensures free[k] in free[..n] <==> k < n
  {
    if k < n {
      assert free[..n][k] == free[k];
    }
  }

  /** The oldest free address, once the first n have been taken. */
  lemma OldestAfter(rows: seq<Address>, free: seq<nat>, turns: seq<Turn>, n: nat, now: seq<Address>)
    requires IsFreeList(rows, free) && n <= |turns| && n <= |free| && Taken(rows, free, turns, n, now)
    ensures Pool.Oldest(now, MachineDirect) == if n < |free| then Some(free[n]) else None
  {
    forall id: nat | id < |rows|
      ensures IsFree(now[id]) <==> IsFree(rows[id]) && id !in free[..n]
    {
      if id in free[..n] {
        var k :| 0 <= k < n && free[..n][k] == id;
        assert now[free[k]].state == Assigned;
      }
    }
    var head := Pool.Oldest(now, MachineDirect);
    if n < |free| {
      PrefixHas(free, n, n);
      assert IsFree(now[free[n]]);
    }
    if head.Some? {
      assert IsFree(now[head.value]);
      var k :| 0 <= k < |free| && free[k] == head.value;
      PrefixHas(free, n, k);
    }
  }

  lemma TurnTaken(
      rows: seq<Address>, free: seq<nat>, turns: seq<Turn>, n: nat, now: seq<Address>, next: seq<Address>)
    requires IsFreeList(rows, free) && DistinctMachines(turns)
    requires n < |turns| && n < |free| && Taken(rows, free, turns, n, now)
    requires
      var retired := DirectPay.RetiredFor(now, turns[n].machine);
      next == retired[free[n] := DirectPay.ForMachine(retired[free[n]], turns[n].machine, Pipeline.Stamp(turns[n].clock))]
    requires IsFree(now[free[n]])
    ensures Taken(rows, free, turns, n + 1, next)
  {
    var machine := turns[n].machine;
    assert free[..n + 1] == free[..n] + [free[n]];
    PrefixHas(free, n, n);
    assert now[free[n]] == rows[free[n]];
    forall k | 0 <= k < n + 1
      ensures next[free[k]] == DirectPay.ForMachine(rows[free[k]], turns[k].machine, Pipeline.Stamp(turns[k].clock))
    {
      if k < n {
        assert free[k] < free[n];
      }
    }
    forall id: nat | id < |rows| && id !in free[..n + 1]
      ensures next[id] == if Retires(rows[id], turns, n + 1) then rows[id].(state := Retired) else rows[id]
    {
      assert id !in free[..n] && id != free[n];
      assert Retires(rows[id], turns, n + 1) <==> Retires(rows[id], turns, n) || DirectPay.Active(rows[id], machine);
    }
  }

  /** One more turn: the next free address is taken, or with none left no row changes. */
  lemma TurnRotates(rows: seq<Address>, free: seq<nat>, turns: seq<Turn>, last: nat, before: DB)
    requires IsFreeList(rows, free) && DistinctMachines(turns) && last < |turns|
    requires Bindings.Sound(before.addresses) && Taken(rows, free, turns, Min(last, |free|), before.addresses)
    ensures
      var after := DirectPay.RotateMachine(before, turns[last].machine, Pipeline.Stamp(turns[last].clock)).0.addresses;
      Bindings.Sound(after) && Taken(rows, free, turns, Min(last + 1, |free|), after)
  {
    var after := DirectPay.RotateMachine(before, turns[last].machine, Pipeline.Stamp(turns[last].clock)).0;
    OldestAfter(rows, free, turns, Min(last, |free|), before.addresses);
    Bindings.RotateKeeps(before, turns[last].machine, Pipeline.Stamp(turns[last].clock));
    if last < |free| {
      TurnTaken(rows, free, turns, last, before.addresses, after.addresses);
    }
  }

  lemma {:induction false} RowsAfter(db: DB, turns: seq<Turn>)
    requires Bindings.Sound(db.addresses) && DistinctMachines(turns)
    ensures Bindings.Sound(RotateAll(db, turns).addresses)
    ensures Taken(db.addresses, Free(db.addresses), turns, Min(|turns|, |Free(db.addresses)|),
                  RotateAll(db, turns).addresses)
  {
    var free := Free(db.addresses);
    if turns != [] {
      var last := |turns| - 1;
      RowsAfter(db, turns[..last]);
      var before := RotateAll(db, turns[..last]);
      TakenPrefix(db.addresses, free, turns, last, Min(last, |free|), before.addresses);
      TurnRotates(db.addresses, free, turns, last, before);
    }
  }

  lemma TakenPrefix(rows: seq<Address>, free: seq<nat>, turns: seq<Turn>, last: nat, n: nat, now: seq<Address>)
    requires last <= |turns| && n <= last && n <= |free|
    requires forall k | 0 <= k < |free| :: free[k] < |rows|
    requires Taken(rows, free, turns[..last], n, now)
    ensures Taken(rows, free, turns, n, now)
  {
    forall id: nat | id < |rows|
      ensures Retires(rows[id], turns[..last], n) <==> Retires(rows[id], turns, n)
    {
      assert forall k | 0 <= k < n :: turns[..last][k] == turns[k];
    }
  }

  lemma {:induction false} CandidatesDistinct(rows: seq<Address>, machines: map<nat, Machine>)
    requires OneActivePerMachine(rows)
    ensures forall j, k | 0 <= j < k < |Candidates(rows, machines)| ::
              Candidates(rows, machines)[j].machine != Candidates(rows, machines)[k].machine
  {
    if rows != [] {
      var n := |rows| - 1;
      CandidatesDistinct(rows[..n], machines);
    }
  }

  lemma {:induction false} TurnsDistinct(cs: seq<Candidate>, schedule: Schedule, clock: int -> nat)
    requires forall j, k | 0 <= j < k < |cs| :: cs[j].machine != cs[k].machine
    ensures DistinctMachines(Turns(cs, schedule, clock))
  {
    if cs != [] {
      var n := |cs| - 1;
      TurnsDistinct(cs[..n], schedule, clock);
      var rest := Turns(cs[..n], schedule, clock);
      assert forall k | 0 <= k < |rest| :: rest[k] in rest;
    }
  }

  /** Some assigned machine_direct row shows the machine's customers where to pay. */
  ghost predicate Served(rows: seq<Address>, machine: nat) {
    exists i :: 0 <= i < |rows| && DirectPay.Active(rows[i], machine)
  }

  /**
   One CheckAll performs min(due machines, pool size) rotations: the first machines that are
   due get distinct, oldest pool addresses with use count 0, their old addresses retire, and
   every other row of the table is what it was. No machine loses its address.
   */
  lemma {:induction false} CheckAllServes(db: DB, schedule: Schedule, clock: int -> nat)
    requires Bindings.Sound(db.addresses)
    requires schedule.hours > 0 || schedule.uses > 0
    ensures
      var turns := Turns(Candidates(db.addresses, db.machines), schedule, clock);
      var free := Free(db.addresses);
      var n := Min(|turns|, |free|);
      var after := Check(db, schedule, clock).addresses;
      && DistinctMachines(turns) && Bindings.Sound(after)
      && Taken(db.addresses, free, turns, n, after)
      && (forall machine | Served(db.addresses, machine) :: Served(after, machine))
  {
    var turns := Turns(Candidates(db.addresses, db.machines), schedule, clock);
    CandidatesDistinct(db.addresses, db.machines);
    TurnsDistinct(Candidates(db.addresses, db.machines), schedule, clock);
    RowsAfter(db, turns);
    var n := Min(|turns|, |Free(db.addresses)|);
    forall machine | Served(db.addresses, machine)
      ensures Served(Check(db, schedule, clock).addresses, machine)
    {
      StillServed(db.addresses, Free(db.addresses), turns, n, Check(db, schedule, clock).addresses, machine);
    }
  }

  lemma StillServed(
      rows: seq<Address>, free: seq<nat>, turns: seq<Turn>, n: nat, now: seq<Address>, machine: nat)
    requires IsFreeList(rows, free) && n <= |turns| && n <= |free| && Taken(rows, free, turns, n, now)
    requires Served(rows, machine)
    ensures Served(now, machine)
  {
    var i: nat :| i < |rows| && DirectPay.Active(rows[i], machine);
    if Retires(rows[i], turns, n) {
      var k: nat :| k < n && DirectPay.Active(rows[i], turns[k].machine);
      assert DirectPay.Active(now[free[k]], machine);
    } else {
      assert i !in free[..n];
      assert DirectPay.Active(now[i], machine);
    }
  }

  /** A machine that is not overdue, or whose turn comes when the pool is empty, keeps all its rows. */
  lemma {:induction false} OthersKeepTheirs(db: DB, schedule: Schedule, clock: int -> nat, machine: nat)
    requires Bindings.Sound(db.addresses)
    ensures
      var turns := Turns(Candidates(db.addresses, db.machines), schedule, clock);
      var after := Check(db, schedule, clock).addresses;
      && |after| == |db.addresses|
      && (!IsOverdue(db, schedule, clock, machine) || LateTurn(turns, |Free(db.addresses)|, machine)
          ==> forall i: nat | i < |db.addresses| && db.addresses[i].machine == Some(machine) ::
                after[i] == db.addresses[i])
  {
    if schedule.hours > 0 || schedule.uses > 0 {
      var turns := Turns(Candidates(db.addresses, db.machines), schedule, clock);
      var n := Min(|turns|, |Free(db.addresses)|);
      CheckAllServes(db, schedule, clock);
      TurnsExactly(db, schedule, clock, machine);
      NoEarlyTurn(turns, n, machine);
      RowsKept(db.addresses, Free(db.addresses), turns, n, Check(db, schedule, clock).addresses, machine);
    }
  }

  /** The machine's turn comes after the first n. */
  ghost predicate LateTurn(turns: seq<Turn>, n: nat, machine: nat) {
    exists k | n <= k < |turns| :: turns[k].machine == machine
  }

  lemma NoEarlyTurn(turns: seq<Turn>, n: nat, machine: nat)
    requires DistinctMachines(turns) && n <= |turns|
    ensures !HasTurn(turns, machine) || LateTurn(turns, n, machine) ==> forall k | 0 <= k < n :: turns[k].machine != machine
  {
    assert forall k | 0 <= k < |turns| :: turns[k] in turns;
  }

  lemma RowsKept(rows: seq<Address>, free: seq<nat>, turns: seq<Turn>, n: nat, now: seq<Address>, machine: nat)
    requires Bindings.Sound(rows) && IsFreeList(rows, free) && n <= |turns| && n <= |free|
    requires Taken(rows, free, turns, n, now)
    ensures (forall k | 0 <= k < n :: turns[k].machine != machine)
        ==> forall i: nat | i < |rows| && rows[i].machine == Some(machine) :: now[i] == rows[i]
  {
    forall i: nat | i < |rows| && rows[i].machine == Some(machine)
      ensures i !in free[..n]
    {
      assert rows[i].state != AddressState.Pool;
    }
  }

  lemma {:induction false} NextTurn(db: DB, cs: seq<Candidate>, schedule: Schedule, clock: int -> nat, k: nat)
    requires k < |cs|
    ensures
      var before := RotateAll(db, Turns(cs[..k], schedule, clock));
      RotateAll(db, Turns(cs[..k + 1], schedule, clock))
      == if Due(cs[k], schedule, clock(k))
         then DirectPay.RotateMachine(before, cs[k].machine, Pipeline.Stamp(clock(k))).0 else before
  {
    var turns := Turns(cs[..k], schedule, clock);
    assert cs[..k + 1][..k] == cs[..k];
    assert (turns + [Turn(cs[k].machine, clock(k))])[..|turns|] == turns;
  }

  class RotationJob {
    const store: Store
    const direct: DirectPay.DirectPayService

    constructor (store: Store, direct: DirectPay.DirectPayService)
      requires direct.store == store
      ensures this.store == store && this.direct == direct
    {
      this.store, this.direct := store, direct;
    }

    method CheckAll(schedule: Schedule, clock: int -> nat)
      requires direct.store == store
      modifies store
      ensures store.Snapshot() == Check(old(store.Snapshot()), schedule, clock)
    {
      if schedule.hours <= 0 && schedule.uses <= 0 {
        return;
      }
      var candidates := Candidates(store.addresses, store.machines);
      for k := 0 to |candidates|
        invariant store.Snapshot() == RotateAll(old(store.Snapshot()), Turns(candidates[..k], schedule, clock))
      {
        NextTurn(old(store.Snapshot()), candidates, schedule, clock, k);
        if Due(candidates[k], schedule, clock(k)) {
          var r := direct.Rotate(candidates[k].machine, Pipeline.Stamp(clock(k)));
        }
      }
      assert candidates[..|candidates|] == candidates;
    }
  }
}
