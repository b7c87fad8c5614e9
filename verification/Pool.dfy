/** internal/services/pool.go: the address pool. */
module Pool {
  import opened Tables

  /** The pool row of the purpose with the lowest id. */
  function Oldest(addresses: seq<Address>, purpose: Purpose): (r: Option<nat>)
    ensures r.Some? ==> r.value < |addresses|
                        && addresses[r.value].state == AddressState.Pool && addresses[r.value].purpose == purpose
    ensures r.Some? ==> forall i | 0 <= i < r.value ::
                          !(addresses[i].state == AddressState.Pool && addresses[i].purpose == purpose)
    ensures r.None? ==> forall i | 0 <= i < |addresses| ::
                          !(addresses[i].state == AddressState.Pool && addresses[i].purpose == purpose)
  {
    First(addresses, (a: Address) => a.state == AddressState.Pool && a.purpose == purpose)
  }

  /** A change of one addresses row, which the unique indexes may refuse. */
  function WriteRow<T>(db: DB, id: nat, row: Address, result: T): Tx<T>
    requires id < |db.addresses|
  {
    var rows := db.addresses[id := row];
    if IndexesHold(rows) then Commit(db.(addresses := rows), result) else Rollback(ConstraintViolated)
  }

  function AssignOldest(db: DB, purpose: Purpose, now: int): Tx<nat> {
    match Oldest(db.addresses, purpose)
    case None => Rollback(PoolEmpty)
    case Some(id) => WriteRow(db, id, db.addresses[id].(state := Assigned, assignedAt := Some(now)), id)
  }

  function ReleaseAddress(db: DB, id: nat): Tx<()> {
    if id >= |db.addresses| then Rollback(NoSuchRow)
    else WriteRow(db, id, db.addresses[id].(state := AddressState.Pool, assignedAt := None, user := None, machine := None), ())
  }

  function RetireAddress(db: DB, id: nat): Tx<()> {
    if id >= |db.addresses| then Rollback(NoSuchRow)
    else WriteRow(db, id, db.addresses[id].(state := Retired), ())
  }

  /** The id of an address text. */
  function IdOf(addresses: seq<Address>, address: string): (r: Option<nat>)
    ensures r.Some? ==> r.value < |addresses| && addresses[r.value].address == address
    ensures r.None? ==> forall i | 0 <= i < |addresses| :: addresses[i].address != address
  {
    First(addresses, (a: Address) => a.address == address)
  }

  class PoolService {
    const store: Store

    constructor (store: Store)
      ensures this.store == store
    {
      this.store := store;
    }

    method UpdateRow(id: nat, row: Address) returns (r: Result<()>)
      requires id < |store.addresses|
      modifies store
      ensures Ran(WriteRow(old(store.Snapshot()), id, row, ()), old(store.Snapshot()), store.Snapshot(), r)
    {
      var before := store.Snapshot();
      store.addresses := store.addresses[id := row];
      if !IndexesHold(store.addresses) {
        store.RollbackTo(before);
        return Err(ConstraintViolated);
      }
      r := Ok(());
    }

    method Assign(purpose: Purpose, now: int) returns (r: Result<nat>)
      modifies store
      ensures Ran(AssignOldest(old(store.Snapshot()), purpose, now), old(store.Snapshot()), store.Snapshot(), r)
    {
      var id := Oldest(store.addresses, purpose);
      if id.None? {
        return Err(PoolEmpty);
      }
      var write := UpdateRow(id.value, store.addresses[id.value].(state := Assigned, assignedAt := Some(now)));
      r := if write.Ok? then Ok(id.value) else Err(write.error);
    }

    method Release(id: nat) returns (r: Result<()>)
      modifies store
      ensures Ran(ReleaseAddress(old(store.Snapshot()), id), old(store.Snapshot()), store.Snapshot(), r)
    {
      if id >= |store.addresses| {
        return Err(NoSuchRow);
      }
      r := UpdateRow(id, store.addresses[id].(state := AddressState.Pool, assignedAt := None, user := None, machine := None));
    }

    method Retire(id: nat) returns (r: Result<()>)
      modifies store
      ensures Ran(RetireAddress(old(store.Snapshot()), id), old(store.Snapshot()), store.Snapshot(), r)
    {
      if id >= |store.addresses| {
        return Err(NoSuchRow);
      }
      r := UpdateRow(id, store.addresses[id].(state := Retired));
    }
  }
}
