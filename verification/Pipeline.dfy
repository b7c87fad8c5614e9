/** internal/services/deposit_pipeline.go: seen, confirmed, credited, or orphaned by a reorg. */
module Pipeline {
  import opened Tables
  import DirectPay
  import Like
  import Pool

  datatype Event = Event(
    address: string,
    outpoint: Outpoint,
    amount: int,
    confirmations: int,
    blockHeight: int)

  /** The settings that a payment event meets. */
  datatype Policy = Policy(minConfirmations: int, zeroConfMax: int, tokenPrice: int, directPayCap: int)

  const SECOND: nat := 1_000_000_000  // clock readings are nanoseconds
  const STALE_AFTER: nat := 120       // seconds

  /** An RFC 3339 time stamp: whole seconds, which compare as their strings do. */
  function Stamp(clock: nat): nat {
    clock / SECOND
  }

  function FindDeposit(deposits: seq<Deposit>, outpoint: Outpoint): (r: Option<nat>)
    ensures r.Some? ==> r.value < |deposits| && deposits[r.value].outpoint == outpoint
    ensures r.Some? ==> forall i | 0 <= i < r.value :: deposits[i].outpoint != outpoint
    ensures r.None? ==> forall i | 0 <= i < |deposits| :: deposits[i].outpoint != outpoint
  {
    First(deposits, (d: Deposit) => d.outpoint == outpoint)
  }

  /** The event's deposit may leave 'seen'. */
  predicate Meets(event: Event, policy: Policy) {
    event.confirmations >= policy.minConfirmations
    || (policy.zeroConfMax > 0 && event.amount <= policy.zeroConfMax)
  }

  function Recorded(row: Deposit, event: Event): Deposit {
    row.(confirmations := event.confirmations,
         blockHeight := if event.blockHeight > 0 then Some(event.blockHeight) else row.blockHeight)
  }

  function NewDeposit(addressId: nat, event: Event): Deposit {
    Deposit(addressId, event.outpoint, event.amount, event.confirmations,
            if event.blockHeight > 0 then Some(event.blockHeight) else None, Seen, None, None)
  }

  function Advanced(row: Deposit, event: Event, policy: Policy): Deposit {
    if row.state == Seen && Meets(event, policy) then row.(state := Confirmed) else row
  }

  /** The first transaction of upsertAndAdvance; it returns the deposit's id. */
  function Upsert(db: DB, addressId: nat, event: Event, policy: Policy): (r: (DB, nat))
    ensures r.1 < |r.0.deposits|
  {
    match FindDeposit(db.deposits, event.outpoint)
    case Some(id) =>
      (db.(deposits := db.deposits[id := Advanced(Recorded(db.deposits[id], event), event, policy)]), id)
    case None =>
      (db.(deposits := db.deposits + [Advanced(NewDeposit(addressId, event), event, policy)]), |db.deposits|)
  }

  /** A claim stamped at `claimedAt` is honoured at time `now`. */
  predicate Honoured(claimedAt: Option<int>, now: nat) {
    claimedAt.Some? && claimedAt.value >= Stamp(now) - STALE_AFTER
  }

  predicate Claimable(row: Deposit, now: nat) {
    row.state == Confirmed && !Honoured(row.claimedAt, now)
  }

  function SetClaim(db: DB, id: nat, claim: Option<int>): DB
    requires id < |db.deposits|
  {
    db.(deposits := db.deposits[id := db.deposits[id].(claimedAt := claim)])
  }

  function SetState(db: DB, id: nat, state: DepositState): DB
    requires id < |db.deposits|
  {
    db.(deposits := db.deposits[id := db.deposits[id].(state := state)])
  }

  /** Claim, hook, then mark or release, for a call that stamped its claim at `start`. */
  function CreditConfirmed(db: DB, id: nat, policy: Policy, start: nat, now: nat): (DB, Result<()>)
    requires id < |db.deposits|
  {
    if !Claimable(db.deposits[id], now) then (db, Ok(()))
    else
      var claimed := SetClaim(db, id, Some(Stamp(start)));
      match DirectPay.RunHook(claimed, id, policy.tokenPrice, policy.directPayCap)
      case Commit(paid, _) => (SetState(paid, id, Credited), Ok(()))
      case Rollback(error) => (SetClaim(claimed, id, None), Err(error))
  }

  /** HandleEvent, when nothing else runs between its statements. */
  function Handle(db: DB, event: Event, policy: Policy, start: nat, now: nat): (DB, Result<()>) {
    match Pool.IdOf(db.addresses, event.address)
    case None => (db, Ok(()))
    case Some(addressId) =>
      var (upserted, id) := Upsert(db, addressId, event, policy);
      if upserted.deposits[id].state == Confirmed then CreditConfirmed(upserted, id, policy, start, now)
      else (upserted, Ok(()))
  }

  const REORG_ALERT := "deposit_reorged_after_credit"

  predicate Reported(alerts: seq<Alert>, deposit: nat) {
    exists i | 0 <= i < |alerts| ::
      alerts[i].kind == REORG_ALERT && !alerts[i].acked
      && Like.Matches(Like.AlertPattern(deposit), alerts[i].message, None)
  }

  function ReorgAlerted(alerts: seq<Alert>, deposit: nat, txid: string): seq<Alert> {
    if Reported(alerts, deposit) then alerts
    else alerts + [Alert(REORG_ALERT, Like.AlertMessage(deposit, txid), false)]
  }

  /** HandleReorg */
  function Reorg(db: DB, outpoint: Outpoint): DB {
    match FindDeposit(db.deposits, outpoint)
    case None => db
    case Some(id) =>
      match db.deposits[id].state
      case Seen => SetState(db, id, Orphaned)
      case Confirmed => SetState(db, id, Orphaned)
      case Credited => db.(alerts := ReorgAlerted(db.alerts, id, outpoint.txid))
      case Orphaned => db
  }

  /** A reorg of a credited deposit leaves an unacknowledged alert for it, new or old. */
  lemma ReorgIsReported(db: DB, outpoint: Outpoint, id: nat)
    requires FindDeposit(db.deposits, outpoint) == Some(id) && db.deposits[id].state == Credited
    requires Like.IsHex(outpoint.txid)
    ensures Reported(Reorg(db, outpoint).alerts, id)
  {
    Like.AlertPatternIsExact(id, id, outpoint.txid);
    var alerts := Reorg(db, outpoint).alerts;
    if !Reported(db.alerts, id) {
      var last := alerts[|alerts| - 1];
      assert last == Alert(REORG_ALERT, Like.AlertMessage(id, outpoint.txid), false);
      assert Like.Matches(Like.AlertPattern(id), last.message, None);
    }
  }

  class DepositPipeline {
    const store: Store
    const hook: DirectPay.DirectPayService

    constructor (store: Store, hook: DirectPay.DirectPayService)
      requires hook.store == store && hook.purchases.store == store && hook.purchases.ledger.store == store
      ensures this.store == store && this.hook == hook
    {
      this.store := store;
      this.hook := hook;
    }

    method ClaimForCrediting(id: nat, stamp: int, now: nat) returns (claimed: bool)
      requires id < |store.deposits|
      modifies store`deposits
      ensures claimed == Claimable(old(store.deposits)[id], now)
      ensures store.Snapshot() == if claimed then SetClaim(old(store.Snapshot()), id, Some(stamp)) else old(store.Snapshot())
    {
      claimed := Claimable(store.deposits[id], now);
      if claimed {
        store.deposits := store.deposits[id := store.deposits[id].(claimedAt := Some(stamp))];
      }
    }

    method UpsertAndAdvance(addressId: nat, event: Event, policy: Policy, start: nat, now: nat) returns (r: Result<()>)
      requires hook.store == store && hook.purchases.store == store && hook.purchases.ledger.store == store
      modifies store
      ensures
        var (upserted, id) := Upsert(old(store.Snapshot()), addressId, event, policy);
        (store.Snapshot(), r) == if upserted.deposits[id].state == Confirmed
                                 then CreditConfirmed(upserted, id, policy, start, now) else (upserted, Ok(()))
    {
      var found := FindDeposit(store.deposits, event.outpoint);
      var id: nat;
      if found.None? {
        id := |store.deposits|;
        store.deposits := store.deposits + [NewDeposit(addressId, event)];
      } else {
        id := found.value;
        store.deposits := store.deposits[id := Recorded(store.deposits[id], event)];
      }
      if store.deposits[id].state == Seen && Meets(event, policy) {
        store.deposits := store.deposits[id := store.deposits[id].(state := Confirmed)];
      }
      ghost var (upserted, key) := Upsert(old(store.Snapshot()), addressId, event, policy);
      assert key == id && store.deposits == upserted.deposits;
      if store.deposits[id].state != Confirmed {
        return Ok(());
      }
      var claimed := ClaimForCrediting(id, Stamp(start), now);
      if !claimed {
        return Ok(());
      }
      r := hook.Hook(id, policy.tokenPrice, policy.directPayCap);
      if r.Err? {
        store.deposits := store.deposits[id := store.deposits[id].(claimedAt := None)];
        return;
      }
      store.deposits := store.deposits[id := store.deposits[id].(state := Credited)];
    }

    method HandleEvent(event: Event, policy: Policy, start: nat, now: nat) returns (r: Result<()>)
      requires hook.store == store && hook.purchases.store == store && hook.purchases.ledger.store == store
      modifies store
      ensures (store.Snapshot(), r) == Handle(old(store.Snapshot()), event, policy, start, now)
    {
      var addressId := Pool.IdOf(store.addresses, event.address);
      if addressId.None? {
        return Ok(());
      }
      r := UpsertAndAdvance(addressId.value, event, policy, start, now);
    }

    method InsertReorgAlert(id: nat, txid: string)
      modifies store`alerts
      ensures store.alerts == ReorgAlerted(old(store.alerts), id, txid)
    {
      if Reported(store.alerts, id) {
        return;
      }
      store.alerts := store.alerts + [Alert(REORG_ALERT, Like.AlertMessage(id, txid), false)];
    }

    method HandleReorg(outpoint: Outpoint)
      modifies store`deposits, store`alerts
      ensures store.Snapshot() == Reorg(old(store.Snapshot()), outpoint)
    {
      var id := FindDeposit(store.deposits, outpoint);
      if id.None? {
        return;
      }
      match store.deposits[id.value].state
      case Seen =>
        store.deposits := store.deposits[id.value := store.deposits[id.value].(state := Orphaned)];
      case Confirmed =>
        store.deposits := store.deposits[id.value := store.deposits[id.value].(state := Orphaned)];
      case Credited =>
        InsertReorgAlert(id.value, outpoint.txid);
      case Orphaned =>
    }
  }
}
