/** internal/services/redemption.go: one token out of the ledger, one pulse into the queue. */
module Redemption {
  import opened Tables
  import Ledger

  function Redeem(db: DB, user: nat, machine: nat): Tx<nat> {
    if machine !in db.machines then Rollback(MachineNotFound)
    else if !db.machines[machine].active then Rollback(MachineNotActive)
    else if user !in db.users then Rollback(ForeignKeyViolated)
    else
      var queued := db.(pulses := db.pulses + [Pulse(machine, Some(user), TokenRedemption, Pending, 0, None)]);
      match Ledger.DebitRedemption(queued, user, |db.pulses|)
      case Commit(debited, _) => Commit(debited, |db.pulses|)
      case Rollback(error) => Rollback(error)
  }

  /**
   Both writes happen or neither does, and they happen exactly when the machine is known and
   active, the user exists and holds a token: one pulse for that machine and user, due at
   once, and one row that takes a token for that pulse.
   */
  lemma RedeemIsAtomic(db: DB, user: nat, machine: nat)
    ensures
      var tx := Redeem(db, user, machine);
      var ok := machine in db.machines && db.machines[machine].active && user in db.users
                && Ledger.Balance(db.ledger, user) >= 1;
      && (tx.Commit? <==> ok)
      && (tx.Commit? ==>
            && tx.db == db.(pulses := tx.db.pulses, ledger := tx.db.ledger)
            && tx.db.pulses == db.pulses + [Pulse(machine, Some(user), TokenRedemption, Pending, 0, None)]
            && tx.db.ledger == db.ledger + [Entry(user, -1, Redemption, None, Some(tx.result))]
            && tx.db.pulses[tx.result].machine == machine
            && Ledger.Balance(tx.db.ledger, user) == Ledger.Balance(db.ledger, user) - 1)
  {
    Ledger.BalanceAppended(db.ledger, Entry(user, -1, Redemption, None, Some(|db.pulses|)), user);
  }

  class RedemptionService {
    const store: Store
    const ledger: Ledger.LedgerService

    constructor (store: Store, ledger: Ledger.LedgerService)
      requires ledger.store == store
      ensures this.store == store && this.ledger == ledger
    {
      this.store := store;
      this.ledger := ledger;
    }

    method RedeemToken(user: nat, machine: nat) returns (r: Result<nat>)
      requires ledger.store == store
      modifies store
      ensures Ran(Redeem(old(store.Snapshot()), user, machine), old(store.Snapshot()), store.Snapshot(), r)
    {
      var before := store.Snapshot();
      if machine !in store.machines {
        return Err(MachineNotFound);
      }
      if !store.machines[machine].active {
        return Err(MachineNotActive);
      }
      if user !in store.users {
        return Err(ForeignKeyViolated);
      }
      var pulse := |store.pulses|;
      store.pulses := store.pulses + [Pulse(machine, Some(user), TokenRedemption, Pending, 0, None)];
      var debit := ledger.DebitRedemptionTx(user, pulse);
      if debit.Err? {
        store.RollbackTo(before);
        return Err(debit.error);
      }
      r := Ok(pulse);
    }
  }
}
