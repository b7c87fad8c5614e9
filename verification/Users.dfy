/** internal/services/users.go: account merge. */
module Users {
  import opened Tables

  function MergedLedger(ledger: seq<Entry>, from: nat, to: nat): seq<Entry> {
    Update(ledger, (e: Entry) => e.user == from, (e: Entry) => e.(user := to))
  }

  function MergedAddresses(addresses: seq<Address>, from: nat, to: nat): seq<Address> {
    Update(addresses, (a: Address) => a.user == Some(from), (a: Address) => a.(user := Some(to)))
  }

  function MergedPulses(pulses: seq<Pulse>, from: nat, to: nat): seq<Pulse> {
    Update(pulses, (p: Pulse) => p.user == Some(from), (p: Pulse) => p.(user := Some(to)))
  }

  predicate HasEntries(db: DB, user: nat) {
    exists i | 0 <= i < |db.ledger| :: db.ledger[i].user == user
  }

  predicate HasPulses(db: DB, user: nat) {
    exists i | 0 <= i < |db.pulses| :: db.pulses[i].user == Some(user)
  }

  function MergeUsers(db: DB, from: nat, to: nat): Tx<()> {
    if from == to then Rollback(SameUser)
    else if to !in db.users && HasEntries(db, from) then Rollback(ForeignKeyViolated)
    else if !IndexesHold(MergedAddresses(db.addresses, from, to)) then Rollback(ConstraintViolated)
    else if to !in db.users && HasPulses(db, from) then Rollback(ForeignKeyViolated)
    else if from in db.auditors then Rollback(ForeignKeyViolated)
    else Commit(db.(users := db.users - {from},
                    addresses := MergedAddresses(db.addresses, from, to),
                    pulses := MergedPulses(db.pulses, from, to),
                    ledger := MergedLedger(db.ledger, from, to)), ())
  }

  class UsersService {
    const store: Store

    constructor (store: Store)
      ensures this.store == store
    {
      this.store := store;
    }

    method Merge(from: nat, to: nat) returns (r: Result<()>)
      modifies store
      ensures Ran(MergeUsers(old(store.Snapshot()), from, to), old(store.Snapshot()), store.Snapshot(), r)
    {
      if from == to {
        return Err(SameUser);
      }
      var before := store.Snapshot();
      if to !in store.users && HasEntries(before, from) {
        return Err(ForeignKeyViolated);
      }
      store.ledger := MergedLedger(store.ledger, from, to);
      store.addresses := MergedAddresses(store.addresses, from, to);
      if !IndexesHold(store.addresses) {
        store.RollbackTo(before);
        return Err(ConstraintViolated);
      }
      if to !in store.users && HasPulses(before, from) {
        store.RollbackTo(before);
        return Err(ForeignKeyViolated);
      }
      store.pulses := MergedPulses(store.pulses, from, to);
      if from in store.auditors {
        store.RollbackTo(before);
        return Err(ForeignKeyViolated);
      }
      store.users := store.users - {from};
      r := Ok(());
    }
  }
}
