/**
 What every address operation keeps: no address twice, pool rows bound to nobody, users on
 token_deposit rows and machines on machine_direct rows, one assigned row for each. From
 that follows which operations the partial unique indexes can refuse.
 */
module Bindings {
  import opened Tables
  import AddressBatch
  import DirectPay
  import Pool
  import PurchaseFlow
  import Users

  ghost predicate Sound(rows: seq<Address>) {
    && IndexesHold(rows)
    && (forall i | 0 <= i < |rows| :: rows[i].state == AddressState.Pool ==> rows[i].user.None? && rows[i].machine.None?)
    && (forall i | 0 <= i < |rows| :: rows[i].user.Some? ==> rows[i].purpose == TokenDeposit)
    && (forall i | 0 <= i < |rows| :: rows[i].machine.Some? ==> rows[i].purpose == MachineDirect)
  }

  lemma ImportKeeps(db: DB, order: seq<string>, purpose: Purpose)
    requires Sound(db.addresses)
    ensures Sound(After(AddressBatch.InsertRows(db, order, purpose), db).addresses)
  {
  }

  /** Assigning, releasing and retiring are never refused by an index. */
  lemma AssignKeeps(db: DB, purpose: Purpose, now: int)
    requires Sound(db.addresses)
    ensures Sound(After(Pool.AssignOldest(db, purpose, now), db).addresses)
    ensures Pool.AssignOldest(db, purpose, now).Rollback? <==> Pool.Oldest(db.addresses, purpose).None?
  {
  }

  lemma ReleaseKeeps(db: DB, id: nat)
    requires Sound(db.addresses)
    ensures Sound(After(Pool.ReleaseAddress(db, id), db).addresses)
    ensures Pool.ReleaseAddress(db, id).Rollback? <==> id >= |db.addresses|
  {
  }

  lemma RetireKeeps(db: DB, id: nat)
    requires Sound(db.addresses)
    ensures Sound(After(Pool.RetireAddress(db, id), db).addresses)
    ensures Pool.RetireAddress(db, id).Rollback? <==> id >= |db.addresses|
  {
  }

  /**
   StartPurchase gives the user an assigned token_deposit address unless the pool is empty;
   the one-per-user index never refuses it.
   */
  lemma StartKeeps(db: DB, user: nat, now: int)
    requires Sound(db.addresses)
    ensures
      var tx := PurchaseFlow.Start(db, user, now);
      && Sound(After(tx, db).addresses)
      && (tx.Rollback? <==> PurchaseFlow.ActiveFor(db.addresses, user).None?
                            && Pool.Oldest(db.addresses, TokenDeposit).None?)
      && (tx.Rollback? ==> tx.error == PoolEmpty)
      && (tx.Commit? ==> tx.result < |tx.db.addresses| && tx.db.addresses[tx.result].user == Some(user)
                         && tx.db.addresses[tx.result].purpose == TokenDeposit
                         && tx.db.addresses[tx.result].state == Assigned)
      && (tx.Commit? && PurchaseFlow.ActiveFor(db.addresses, user).Some? ==> tx.db == db)
  {
  }

  /** Activate is refused by an index exactly when the machine already has an active address. */
  lemma ActivateKeeps(db: DB, machine: nat, now: int)
    requires Sound(db.addresses)
    ensures
      var tx := DirectPay.ActivateMachine(db, machine, now);
      && Sound(After(tx, db).addresses)
      && (tx == Rollback(ConstraintViolated)
          <==> Pool.Oldest(db.addresses, MachineDirect).Some?
               && exists i | 0 <= i < |db.addresses| :: DirectPay.Active(db.addresses[i], machine))
  {
    var head := Pool.Oldest(db.addresses, MachineDirect);
    if head.Some? {
      var id := head.value;
      var rows := db.addresses[id := DirectPay.ForMachine(db.addresses[id], machine, now)];
      if i :| 0 <= i < |db.addresses| && DirectPay.Active(db.addresses[i], machine) {
        assert i != id && DirectPay.Active(rows[i], machine) && DirectPay.Active(rows[id], machine);
      }
    }
  }

  lemma RetiringKeeps(rows: seq<Address>, machine: nat)
    requires Sound(rows)
    ensures Sound(DirectPay.RetiredFor(rows, machine))
    ensures forall i | 0 <= i < |rows| :: !DirectPay.Active(DirectPay.RetiredFor(rows, machine)[i], machine)
  {
  }

  lemma GivingKeeps(rows: seq<Address>, id: nat, machine: nat, now: int)
    requires Sound(rows) && id < |rows| && rows[id].state == AddressState.Pool && rows[id].purpose == MachineDirect
    requires forall i | 0 <= i < |rows| :: !DirectPay.Active(rows[i], machine)
    ensures Sound(rows[id := DirectPay.ForMachine(rows[id], machine, now)])
  {
  }

  /**
   Rotate retires the old address first, so no index refuses the new one; then the machine's
   only active row is the oldest of the pool, with use count 0.
   */
  lemma RotateKeeps(db: DB, machine: nat, now: int)
    requires Sound(db.addresses)
    ensures
      var (after, r) := DirectPay.RotateMachine(db, machine, now);
      && Sound(after.addresses)
      && (r.Err? <==> Pool.Oldest(db.addresses, MachineDirect).None?)
      && (r.Err? ==> after.addresses == db.addresses)
      && (r.Ok? ==>
            && Pool.Oldest(db.addresses, MachineDirect) == Some(r.value) && |after.addresses| == |db.addresses|
            && after.addresses[r.value].useCount == 0
            && after.addresses[r.value].address == db.addresses[r.value].address
            && (forall i: nat | i < |after.addresses| :: DirectPay.Active(after.addresses[i], machine) <==> i == r.value))
  {
    var head := Pool.Oldest(db.addresses, MachineDirect);
    if head.Some? {
      RetiringKeeps(db.addresses, machine);
      GivingKeeps(DirectPay.RetiredFor(db.addresses, machine), head.value, machine, now);
    }
  }

  /** Some assigned row of `user`. */
  ghost predicate Holds(rows: seq<Address>, user: nat) {
    exists i :: 0 <= i < |rows| && rows[i].state == Assigned && rows[i].user == Some(user)
  }

  lemma MergeIndexes(rows: seq<Address>, from: nat, to: nat)
    requires Sound(rows) && from != to
    ensures IndexesHold(Users.MergedAddresses(rows, from, to)) <==> !(Holds(rows, from) && Holds(rows, to))
    ensures IndexesHold(Users.MergedAddresses(rows, from, to)) ==> Sound(Users.MergedAddresses(rows, from, to))
  {
    var merged := Users.MergedAddresses(rows, from, to);
    if Holds(rows, from) && Holds(rows, to) {
      var i :| 0 <= i < |rows| && rows[i].state == Assigned && rows[i].user == Some(from);
      var j :| 0 <= j < |rows| && rows[j].state == Assigned && rows[j].user == Some(to);
      assert merged[i].user == Some(to) == merged[j].user && merged[i].purpose == merged[j].purpose;
    }
  }

  /**
   A merge goes through exactly when the two accounts differ, the lost one is not referred
   to by the audit log, not both have an assigned address, and the survivor exists (or
   nothing in the ledger or the queue refers to the lost one). Otherwise it changes nothing.
   */
  lemma MergeExactly(db: DB, from: nat, to: nat)
    requires Sound(db.addresses)
    ensures
      var tx := Users.MergeUsers(db, from, to);
      && (tx.Commit? <==> from != to && from !in db.auditors && !(Holds(db.addresses, from) && Holds(db.addresses, to))
                          && (to in db.users || (!Users.HasEntries(db, from) && !Users.HasPulses(db, from))))
      && Sound(After(tx, db).addresses)
  {
    if from != to {
      MergeIndexes(db.addresses, from, to);
    }
  }

  /** Crediting changes a use count only. */
  lemma CreditKeeps(db: DB, deposit: nat, plan: DirectPay.Plan)
    requires Sound(db.addresses)
    requires deposit < |db.deposits| && DirectPay.Sound(db, plan)
    ensures Sound(After(DirectPay.CommitHook(db, deposit, plan), db).addresses)
  {
  }
}
