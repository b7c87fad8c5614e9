/**
 What each address operation writes, row by row: the row it takes or frees, what that row
 then holds, and that no other row and no other table changes.
 */
module AddressWrites {
  import opened Tables
  import opened Bindings
  import AddressBatch
  import Alerts
  import DirectPay
  import Pool
  import PurchaseFlow
  import Users

  /** One row of the addresses table is replaced, and nothing else changes. */
  ghost predicate Rewrites(before: DB, after: DB, id: nat, row: Address) {
    id < |before.addresses| && after == before.(addresses := before.addresses[id := row])
  }

  lemma AssignWrites(db: DB, purpose: Purpose, now: int)
    requires Sound(db.addresses)
    ensures
      match Pool.AssignOldest(db, purpose, now)
      case Commit(after, id) =>
        && Pool.Oldest(db.addresses, purpose) == Some(id)
        && Rewrites(db, after, id, var a := db.addresses[id];
                                   Address(a.address, Assigned, purpose, None, None, Some(now), a.useCount))
      case Rollback(error) => Pool.Oldest(db.addresses, purpose) == None && error == PoolEmpty
  {
  }

  lemma ReleaseWrites(db: DB, id: nat)
    requires Sound(db.addresses)
    ensures
      match Pool.ReleaseAddress(db, id)
      case Commit(after, _) =>
        Rewrites(db, after, id, var a := db.addresses[id];
                                Address(a.address, AddressState.Pool, a.purpose, None, None, None, a.useCount))
      case Rollback(error) => id >= |db.addresses| && error == NoSuchRow
  {
  }

  lemma RetireWrites(db: DB, id: nat)
    requires Sound(db.addresses)
    ensures
      match Pool.RetireAddress(db, id)
      case Commit(after, _) =>
        Rewrites(db, after, id, var a := db.addresses[id];
                                Address(a.address, Retired, a.purpose, a.user, a.machine, a.assignedAt, a.useCount))
      case Rollback(error) => id >= |db.addresses| && error == NoSuchRow
  {
  }

  /** The user's own address if there is one, and otherwise the oldest of the pool. */
  lemma StartWrites(db: DB, user: nat, now: int)
    requires Sound(db.addresses)
    ensures
      match PurchaseFlow.Start(db, user, now)
      case Commit(after, id) =>
        if exists i | 0 <= i < |db.addresses| :: db.addresses[i].user == Some(user) && db.addresses[i].state == Assigned
        then after == db && id < |db.addresses| && db.addresses[id].user == Some(user) && db.addresses[id].state == Assigned
        else
          && Pool.Oldest(db.addresses, TokenDeposit) == Some(id)
          && Rewrites(db, after, id, var a := db.addresses[id];
                                     Address(a.address, Assigned, TokenDeposit, Some(user), None, Some(now), a.useCount))
      case Rollback(error) => Pool.Oldest(db.addresses, TokenDeposit) == None && error == PoolEmpty
  {
    StartKeeps(db, user, now);
  }

  lemma ActivateWrites(db: DB, machine: nat, now: int)
    requires Sound(db.addresses)
    ensures
      match DirectPay.ActivateMachine(db, machine, now)
      case Commit(after, id) =>
        && Pool.Oldest(db.addresses, MachineDirect) == Some(id)
        && Rewrites(db, after, id, var a := db.addresses[id];
                                   Address(a.address, Assigned, MachineDirect, None, Some(machine), Some(now), 0))
      case Rollback(error) =>
        error == if Pool.Oldest(db.addresses, MachineDirect) == None then PoolEmpty else ConstraintViolated
  {
  }

  /**
   A success retires the machine's active rows and gives it the oldest of the pool; an empty
   pool leaves every address as it was and an unacknowledged alert, at most one of them new.
   */
  lemma RotateWrites(db: DB, machine: nat, now: int)
    requires Sound(db.addresses)
    ensures
      var (after, r) := DirectPay.RotateMachine(db, machine, now);
      match r
      case Ok(id) =>
        && after == db.(addresses := after.addresses) && |after.addresses| == |db.addresses|
        && Pool.Oldest(db.addresses, MachineDirect) == Some(id)
        && after.addresses[id] == Address(db.addresses[id].address, Assigned, MachineDirect, None, Some(machine), Some(now), 0)
        && forall i | 0 <= i < |db.addresses| && i != id ::
             after.addresses[i] == if DirectPay.Active(db.addresses[i], machine)
                                   then db.addresses[i].(state := Retired) else db.addresses[i]
      case Err(error) =>
        && Pool.Oldest(db.addresses, MachineDirect) == None && error == PoolEmpty
        && after == db.(alerts := after.alerts) && db.alerts <= after.alerts && |after.alerts| <= |db.alerts| + 1
        && Alerts.Unacknowledged(after.alerts, "direct_pay_pool_empty")
        && (Alerts.Unacknowledged(db.alerts, "direct_pay_pool_empty") ==> after == db)
  {
    RotateKeeps(db, machine, now);
    Alerts.AlertStands(db.alerts, "direct_pay_pool_empty", Alerts.CouldNotRotate(machine));
  }

  /** The account's rows of all three tables go to the survivor, and only its users row is deleted. */
  lemma MergeWrites(db: DB, from: nat, to: nat)
    ensures
      match Users.MergeUsers(db, from, to)
      case Commit(after, _) =>
        && after == db.(users := db.users - {from}, addresses := after.addresses, pulses := after.pulses, ledger := after.ledger)
        && |after.addresses| == |db.addresses| && |after.pulses| == |db.pulses| && |after.ledger| == |db.ledger|
        && (forall i | 0 <= i < |db.addresses| ::
              after.addresses[i] == db.addresses[i].(user := Renamed(db.addresses[i].user, from, to)))
        && (forall i | 0 <= i < |db.pulses| ::
              after.pulses[i] == db.pulses[i].(user := Renamed(db.pulses[i].user, from, to)))
        && (forall i | 0 <= i < |db.ledger| ::
              after.ledger[i] == db.ledger[i].(user := if db.ledger[i].user == from then to else db.ledger[i].user))
      case Rollback(_) => true
  {
  }

  function Renamed(user: Option<nat>, from: nat, to: nat): Option<nat> {
    if user == Some(from) then Some(to) else user
  }

  // --- imports ---

  /** The pool's rows of a purpose, oldest first. */
  function Waiting(rows: seq<Address>, purpose: Purpose): seq<nat> {
    if rows == [] then []
    else
      var n := |rows| - 1;
      Waiting(rows[..n], purpose)
      + if rows[n].state == AddressState.Pool && rows[n].purpose == purpose then [n] else []
  }

  lemma {:induction false} OldestWaits(rows: seq<Address>, purpose: Purpose)
    ensures Pool.Oldest(rows, purpose) == if Waiting(rows, purpose) == [] then None else Some(Waiting(rows, purpose)[0])
  {
    if rows != [] {
      var n := |rows| - 1;
      OldestWaits(rows[..n], purpose);
      assert forall i | 0 <= i < n :: rows[..n][i] == rows[i];
      var before, head := Pool.Oldest(rows[..n], purpose), Pool.Oldest(rows, purpose);
      if before.Some? {
        assert head == before;
      } else if head.Some? {
        assert head.value == n;
      }
    }
  }

  lemma {:induction false} WaitingAppended(rows: seq<Address>, row: Address, purpose: Purpose)
    ensures Waiting(rows + [row], purpose)
         == Waiting(rows, purpose) + if row.state == AddressState.Pool && row.purpose == purpose then [|rows|] else []
  {
    assert (rows + [row])[..|rows|] == rows;
  }

  function Next(first: nat, count: nat): (ids: seq<nat>)
    ensures |ids| == count && forall k | 0 <= k < count :: ids[k] == first + k
  {
    seq(count, k requires 0 <= k < count => first + k)
  }

  lemma LastOfBatch(rows: seq<Address>, order: seq<string>, purpose: Purpose)
    requires order != []
    ensures
      var n := |order| - 1;
      && rows + AddressBatch.PoolRows(order, purpose)
         == rows + AddressBatch.PoolRows(order[..n], purpose) + [AddressBatch.PoolRow(order[n], purpose)]
      && Next(|rows|, |order|) == Next(|rows|, n) + [|rows| + n]
  {
  }

  lemma {:induction false} PoolGrows(rows: seq<Address>, order: seq<string>, purpose: Purpose, p: Purpose)
    ensures Waiting(rows + AddressBatch.PoolRows(order, purpose), p)
         == Waiting(rows, p) + if p == purpose then Next(|rows|, |order|) else []
  {
    if order == [] {
      assert rows + AddressBatch.PoolRows(order, purpose) == rows;
    } else {
      var n := |order| - 1;
      PoolGrows(rows, order[..n], purpose, p);
      var row := AddressBatch.PoolRow(order[n], purpose);
      LastOfBatch(rows, order, purpose);
      WaitingAppended(rows + AddressBatch.PoolRows(order[..n], purpose), row, p);
    }
  }

  /** Each address of the batch is a new, unbound and unused pool row, at the young end of its purpose's pool. */
  ghost predicate Imported(before: seq<Address>, after: seq<Address>, addresses: seq<string>, purpose: Purpose) {
    && before <= after && |after| == |before| + |addresses|
    && (forall i | |before| <= i < |after| ::
          after[i].address in addresses
          && after[i] == Address(after[i].address, AddressState.Pool, purpose, None, None, None, 0))
    && (forall a | a in addresses :: exists i :: |before| <= i < |after| && after[i].address == a)
    && Waiting(after, purpose) == Waiting(before, purpose) + Next(|before|, |addresses|)
    && (forall p | p != purpose :: Waiting(after, p) == Waiting(before, p))
  }

  /** An import that goes through writes exactly the batch, in whatever order. */
  lemma ImportWrites(db: DB, addresses: seq<string>, order: seq<string>, purpose: Purpose)
    requires AddressBatch.Ordering(order, addresses)
    ensures
      match AddressBatch.InsertRows(db, order, purpose)
      case Commit(after, _) =>
        after == db.(addresses := after.addresses) && Imported(db.addresses, after.addresses, addresses, purpose)
      case Rollback(error) => error == ConstraintViolated
  {
    var all := db.addresses + AddressBatch.PoolRows(order, purpose);
    assert |order| == |addresses| by {
      assert |multiset(order)| == |order| && |multiset(addresses)| == |addresses|;
    }
    forall p
      ensures Waiting(all, p) == Waiting(db.addresses, p) + if p == purpose then Next(|db.addresses|, |addresses|) else []
    {
      PoolGrows(db.addresses, order, purpose, p);
    }
    forall a | a in addresses
      ensures exists i :: |db.addresses| <= i < |all| && all[i].address == a
    {
      assert a in multiset(order);
      var k :| 0 <= k < |order| && order[k] == a;
      assert all[|db.addresses| + k].address == a;
    }
    forall i | |db.addresses| <= i < |all|
      ensures all[i].address in addresses
    {
      assert order[i - |db.addresses|] in multiset(addresses);
    }
  }
}
