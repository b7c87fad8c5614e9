/** internal/services/address_batch.go: all-or-nothing import of operator-supplied addresses. */
module AddressBatch {
  import opened Tables
  import Address
  import Keyring

  function PoolRow(address: string, purpose: Purpose): Tables.Address {
    Tables.Address(address, Pool, purpose, None, None, None, 0)
  }

  function PoolRows(addresses: seq<string>, purpose: Purpose): (rows: seq<Tables.Address>)
    ensures |rows| == |addresses| && forall i | 0 <= i < |addresses| :: rows[i] == PoolRow(addresses[i], purpose)
  {
    seq(|addresses|, i requires 0 <= i < |addresses| => PoolRow(addresses[i], purpose))
  }

  /** Phase 3, for the order in which Go's map iteration yields the addresses. */
  function InsertRows(db: DB, order: seq<string>, purpose: Purpose): Tx<()> {
    var rows := db.addresses + PoolRows(order, purpose);
    if IndexesHold(rows) then Commit(db.(addresses := rows), ()) else Rollback(ConstraintViolated)
  }

  predicate Distinct(addresses: seq<string>) {
    forall i, j | 0 <= i < j < |addresses| :: addresses[i] != addresses[j]
  }

  predicate Known(rows: seq<Tables.Address>, address: string) {
    exists i | 0 <= i < |rows| :: rows[i].address == address
  }

  /** A batch is taken whole or not at all; this is when it is taken. */
  predicate Acceptable(sha: Keyring.Sha, db: DB, addresses: seq<string>) {
    && addresses != []
    && (forall i | 0 <= i < |addresses| :: Address.IsValid(sha, addresses[i]))
    && Distinct(addresses)
    && (forall i | 0 <= i < |addresses| :: !Known(db.addresses, addresses[i]))
  }

  ghost predicate Ordering(order: seq<string>, addresses: seq<string>) {
    multiset(order) == multiset(addresses)
  }

  lemma FreshRowsKeepIndexes(rows: seq<Tables.Address>, order: seq<string>, purpose: Purpose)
    requires IndexesHold(rows) && Distinct(order)
    requires forall i | 0 <= i < |order| :: !Known(rows, order[i])
    ensures IndexesHold(rows + PoolRows(order, purpose))
  {
    var all := rows + PoolRows(order, purpose);
    forall i, j | 0 <= i < j < |all|
      ensures all[i].address != all[j].address
    {
      if j >= |rows| && i < |rows| {
        assert !Known(rows, order[j - |rows|]);
      }
    }
  }

  lemma DistinctOccurOnce(order: seq<string>)
    requires Distinct(order)
    ensures forall a :: multiset(order)[a] == if a in order then 1 else 0
  {
    if order != [] {
      var init, last := order[..|order| - 1], order[|order| - 1];
      DistinctOccurOnce(init);
      assert order == init + [last];
      assert last !in init;
    }
  }

  lemma SameElements(order: seq<string>, addresses: seq<string>)
    requires Distinct(order) && Distinct(addresses)
    requires forall a :: a in order <==> a in addresses
    ensures Ordering(order, addresses)
  {
    DistinctOccurOnce(order);
    DistinctOccurOnce(addresses);
  }

  class AddressBatchService {
    const store: Store

    constructor (store: Store)
      ensures this.store == store
    {
      this.store := store;
    }

    /** Phase 1: every address is valid and none is listed twice. */
    method Validate(sha: Keyring.Sha, addresses: seq<string>) returns (valid: Option<set<string>>)
      ensures valid.Some? <==> Distinct(addresses)
                               && forall i | 0 <= i < |addresses| :: Address.IsValid(sha, addresses[i])
      ensures valid.Some? ==> valid.value == set a | a in addresses
    {
      var seen: set<string> := {};
      for i := 0 to |addresses|
        invariant seen == set a | a in addresses[..i]
        invariant Distinct(addresses[..i])
        invariant forall k | 0 <= k < i :: Address.IsValid(sha, addresses[k])
      {
        var ok := Address.ValidateAddress(sha, addresses[i]);
        if !ok {
          return None;
        }
        if addresses[i] in seen {
          assert addresses[i] in addresses[..i];
          return None;
        }
        assert addresses[..i + 1] == addresses[..i] + [addresses[i]];
        seen := seen + {addresses[i]};
      }
      assert addresses[..|addresses|] == addresses;
      valid := Some(seen);
    }

    /** Phase 3: one row for each address, in the order in which a map yields them. */
    method InsertAll(addresses: set<string>, purpose: Purpose) returns (ghost order: seq<string>)
      modifies store`addresses
      ensures Distinct(order) && forall a :: a in order <==> a in addresses
      ensures store.addresses == old(store.addresses) + PoolRows(order, purpose)
    {
      order := [];
      var remaining := addresses;
      while remaining != {}
        invariant remaining <= addresses && Distinct(order)
        invariant forall a :: a in order <==> a in addresses && a !in remaining
        invariant store.addresses == old(store.addresses) + PoolRows(order, purpose)
        decreases remaining
      {
        var address :| address in remaining;
        store.addresses := store.addresses + [PoolRow(address, purpose)];
        order := order + [address];
        remaining := remaining - {address};
      }
    }

    method ImportBatch(sha: Keyring.Sha, addresses: seq<string>, purpose: Purpose)
        returns (r: Result<()>, ghost order: seq<string>)
      requires IndexesHold(store.addresses)
      modifies store`addresses
      ensures r.Ok? <==> Acceptable(sha, old(store.Snapshot()), addresses)
      ensures r.Ok? ==> Ordering(order, addresses) && Distinct(order)
                        && InsertRows(old(store.Snapshot()), order, purpose) == Commit(store.Snapshot(), ())
      ensures r.Err? ==> store.Snapshot() == old(store.Snapshot())
    {
      order := [];
      if |addresses| == 0 {
        return Err(InvalidBatch), order;
      }
      var valid := Validate(sha, addresses);
      if valid.None? {
        return Err(InvalidBatch), order;
      }
      if exists a | a in valid.value :: Known(store.addresses, a) {
        return Err(InvalidBatch), order;
      }
      order := InsertAll(valid.value, purpose);
      SameElements(order, addresses);
      assert forall i | 0 <= i < |order| :: order[i] in valid.value;
      FreshRowsKeepIndexes(old(store.addresses), order, purpose);
      r := Ok(());
    }
  }
}
