/** internal/services/purchase.go: an address for a user, and tokens for a payment to it. */
module PurchaseFlow {
  import opened Tables
  import Ledger
  import Pool

  function ActiveFor(addresses: seq<Address>, user: nat): (r: Option<nat>)
    ensures r.Some? ==> r.value < |addresses| && addresses[r.value].user == Some(user)
                        && addresses[r.value].purpose == TokenDeposit && addresses[r.value].state == Assigned
    ensures r.None? ==> forall i | 0 <= i < |addresses| ::
                          !(addresses[i].user == Some(user) && addresses[i].purpose == TokenDeposit
                            && addresses[i].state == Assigned)
  {
    First(addresses, (a: Address) => a.user == Some(user) && a.purpose == TokenDeposit && a.state == Assigned)
  }

  function Start(db: DB, user: nat, now: int): Tx<nat> {
    match ActiveFor(db.addresses, user)
    case Some(id) => Commit(db, id)
    case None =>
      match Pool.Oldest(db.addresses, TokenDeposit)
      case None => Rollback(PoolEmpty)
      case Some(id) =>
        Pool.WriteRow(db, id, db.addresses[id].(state := Assigned, assignedAt := Some(now), user := Some(user)), id)
  }

  /** What the purchase hook has read, outside any transaction, before it writes. */
  datatype Plan = Plan(user: Option<nat>, price: int)

  function PlanPurchase(db: DB, deposit: nat, price: int): (r: Result<Plan>)
    ensures r.Ok? ==> r.value.price > 0
  {
    if deposit >= |db.deposits| || db.deposits[deposit].addressId >= |db.addresses| then Err(NoSuchRow)
    else if price <= 0 then Err(InvalidPrice)
    else Ok(Plan(db.addresses[db.deposits[deposit].addressId].user, price))
  }

  /** The purchase hook's transaction. */
  function CommitPurchase(db: DB, deposit: nat, plan: Plan): (tx: Tx<()>)
    requires deposit < |db.deposits| && plan.price > 0
    ensures tx.Commit? ==> |tx.db.deposits| == |db.deposits|
    ensures tx.Rollback? <==> plan.user.Some? && GoDiv(db.deposits[deposit].amount, plan.price) > 0
                              && plan.user.value !in db.users
  {
    var row := db.deposits[deposit];
    var tokens := GoDiv(row.amount, plan.price);
    var noted := db.(deposits := db.deposits[deposit := row.(remainder := Some(GoMod(row.amount, plan.price)))]);
    if plan.user.Some? && tokens > 0 then Ledger.CreditPurchase(noted, plan.user.value, deposit, tokens)
    else Commit(noted, ())
  }

  /**
   A payment of `tokens` tokens and a rest notes the rest, and credits the tokens to the user,
   if there are any of both; it is refused exactly when they are due to a user who is gone.
   */
  lemma PurchaseWrites(db: DB, deposit: nat, plan: Plan, tokens: int, rest: int)
    requires deposit < |db.deposits| && plan.price > 0
    requires Splits(db.deposits[deposit].amount, plan.price, tokens, rest)
    ensures
      var due := plan.user.Some? && tokens > 0;
      CommitPurchase(db, deposit, plan)
      == if due && plan.user.value !in db.users then Rollback(ForeignKeyViolated)
         else
           Commit(db.(deposits := db.deposits[deposit := db.deposits[deposit].(remainder := Some(rest))],
                      ledger := if due
                                then db.ledger + [Entry(plan.user.value, tokens, Purchase, Some(deposit), None)]
                                else db.ledger), ())
  {
    SplitsExactly(db.deposits[deposit].amount, plan.price, tokens, rest);
  }

  class PurchaseService {
    const store: Store
    const pool: Pool.PoolService
    const ledger: Ledger.LedgerService

    constructor (store: Store, pool: Pool.PoolService, ledger: Ledger.LedgerService)
      requires pool.store == store && ledger.store == store
      ensures this.store == store && this.pool == pool && this.ledger == ledger
    {
      this.store := store;
      this.pool := pool;
      this.ledger := ledger;
    }

    method StartPurchase(user: nat, now: int) returns (r: Result<nat>)
      requires pool.store == store
      modifies store
      ensures Ran(Start(old(store.Snapshot()), user, now), old(store.Snapshot()), store.Snapshot(), r)
    {
      var active := ActiveFor(store.addresses, user);
      if active.Some? {
        return Ok(active.value);
      }
      var id := Pool.Oldest(store.addresses, TokenDeposit);
      if id.None? {
        return Err(PoolEmpty);
      }
      var row := store.addresses[id.value].(state := Assigned, assignedAt := Some(now), user := Some(user));
      var write := pool.UpdateRow(id.value, row);
      r := if write.Ok? then Ok(id.value) else Err(write.error);
    }

    method CreditHook(deposit: nat, plan: Plan) returns (r: Result<()>)
      requires ledger.store == store
      requires deposit < |store.deposits| && plan.price > 0
      modifies store
      ensures Ran(CommitPurchase(old(store.Snapshot()), deposit, plan), old(store.Snapshot()), store.Snapshot(), r)
    {
      var before := store.Snapshot();
      var row := store.deposits[deposit];
      var tokens := GoDiv(row.amount, plan.price);
      store.deposits := store.deposits[deposit := row.(remainder := Some(GoMod(row.amount, plan.price)))];
      r := Ok(());
      if plan.user.Some? && tokens > 0 {
        r := ledger.CreditPurchaseTx(plan.user.value, deposit, tokens);
        if r.Err? {
          store.RollbackTo(before);
        }
      }
    }
  }
}
