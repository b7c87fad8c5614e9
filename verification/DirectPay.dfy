/** internal/services/direct_pay.go: addresses bound to machines, and pulses for payments to them. */
module DirectPay {
  import opened Tables
  import Alerts
  import Pool
  import PurchaseFlow

  function ForMachine(row: Address, machine: nat, now: int): Address {
    row.(state := Assigned, assignedAt := Some(now), machine := Some(machine), useCount := 0)
  }

  function ActivateMachine(db: DB, machine: nat, now: int): Tx<nat> {
    match Pool.Oldest(db.addresses, MachineDirect)
    case None => Rollback(PoolEmpty)
    case Some(id) => Pool.WriteRow(db, id, ForMachine(db.addresses[id], machine, now), id)
  }

  predicate Active(row: Address, machine: nat) {
    row.machine == Some(machine) && row.purpose == MachineDirect && row.state == Assigned
  }

  function RetiredFor(addresses: seq<Address>, machine: nat): (r: seq<Address>)
    ensures |r| == |addresses|
    ensures forall i | 0 <= i < |addresses| ::
              r[i] == if Active(addresses[i], machine) then addresses[i].(state := Retired) else addresses[i]
  {
    Update(addresses, (a: Address) => Active(a, machine), (a: Address) => a.(state := Retired))
  }

  /** With an empty pool the old address stays and an alert is raised. */
  function RotateMachine(db: DB, machine: nat, now: int): (DB, Result<nat>) {
    match Pool.Oldest(db.addresses, MachineDirect)
    case None =>
      (db.(alerts := Alerts.InsertedIfNone(db.alerts, "direct_pay_pool_empty", Alerts.CouldNotRotate(machine))), Err(PoolEmpty))
    case Some(id) =>
      var retired := RetiredFor(db.addresses, machine);
      var rows := retired[id := ForMachine(retired[id], machine, now)];
      if IndexesHold(rows) then (db.(addresses := rows), Ok(id)) else (db, Err(ConstraintViolated))
  }

  /** What a credit hook has read, outside any transaction, before it writes. */
  datatype Plan =
    | PayUser(purchase: PurchaseFlow.Plan)
    | PayMachine(machine: nat, addressId: nat, price: int, cap: int)
    | PayNothing

  /** NewDirectPayAwareCreditHook: the route, chosen by the purpose of the paid address. */
  function PlanHook(db: DB, deposit: nat, tokenPrice: int, cap: int): (r: Result<Plan>)
    ensures r.Ok? ==> deposit < |db.deposits| && Sound(db, r.value)
  {
    if deposit >= |db.deposits| || db.deposits[deposit].addressId >= |db.addresses| then Err(NoSuchRow)
    else
      var addressId := db.deposits[deposit].addressId;
      var address := db.addresses[addressId];
      if address.purpose == MachineDirect && address.machine.Some? then
        if address.machine.value !in db.machines then Err(MachineNotFound)
        else
          var price := db.machines[address.machine.value].price;
          if price.None? || price.value <= 0 then Ok(PayNothing)
          else Ok(PayMachine(address.machine.value, addressId, price.value, cap))
      else
        var plan := PurchaseFlow.PlanPurchase(db, deposit, tokenPrice);
        if plan.Err? then Err(plan.error) else Ok(PayUser(plan.value))
  }

  /** Whole credits for a direct payment; a cap that is not positive is no cap. */
  function Credits(amount: int, price: int, cap: int): int
    requires price > 0
  {
    var credits := GoDiv(amount, price);
    if cap > 0 && credits > cap then cap else credits
  }

  function DirectPulse(machine: nat): Pulse {
    Pulse(machine, None, Source.DirectPay, Pending, 0, None)
  }

  function CommitDirect(db: DB, deposit: nat, plan: Plan): Tx<()>
    requires plan.PayMachine? && plan.price > 0
    requires deposit < |db.deposits| && plan.addressId < |db.addresses|
  {
    var row := db.deposits[deposit];
    var credits := Credits(row.amount, plan.price, plan.cap);
    var noted := db.(deposits := db.deposits[deposit := row.(remainder := Some(GoMod(row.amount, plan.price)))]);
    if credits <= 0 then Commit(noted, ())
    else if plan.machine !in db.machines then Rollback(ForeignKeyViolated)
    else
      var address := db.addresses[plan.addressId];
      Commit(noted.(pulses := db.pulses + seq(credits, _ => DirectPulse(plan.machine)),
                    addresses := db.addresses[plan.addressId := address.(useCount := address.useCount + 1)]), ())
  }

  /**
   A payment of `credits` credits and a rest notes the rest, queues that many pulses for the
   machine, or as many as the cap allows, and counts one use of the address; it is refused
   exactly when pulses are due at a machine that is gone.
   */
  lemma DirectWrites(db: DB, deposit: nat, plan: Plan, credits: int, rest: int)
    requires plan.PayMachine? && plan.price > 0
    requires deposit < |db.deposits| && plan.addressId < |db.addresses|
    requires Splits(db.deposits[deposit].amount, plan.price, credits, rest)
    ensures
      var due := if 0 < plan.cap < credits then plan.cap else credits;
      var row := db.addresses[plan.addressId];
      CommitDirect(db, deposit, plan)
      == if due > 0 && plan.machine !in db.machines then Rollback(ForeignKeyViolated)
         else
           var noted := db.(deposits := db.deposits[deposit := db.deposits[deposit].(remainder := Some(rest))]);
           if due <= 0 then Commit(noted, ())
           else
             Commit(noted.(pulses := db.pulses + seq(due, _ => Pulse(plan.machine, None, Source.DirectPay, Pending, 0, None)),
                           addresses := db.addresses[plan.addressId := row.(useCount := row.useCount + 1)]), ())
  {
    SplitsExactly(db.deposits[deposit].amount, plan.price, credits, rest);
    assert credits > 0 ==>
      seq(Credits(db.deposits[deposit].amount, plan.price, plan.cap), _ => DirectPulse(plan.machine))
      == seq(Credits(db.deposits[deposit].amount, plan.price, plan.cap),
             _ => Pulse(plan.machine, None, Source.DirectPay, Pending, 0, None));
  }

  ghost predicate Sound(db: DB, plan: Plan) {
    match plan
    case PayUser(purchase) => purchase.price > 0
    case PayMachine(_, addressId, price, _) => price > 0 && addressId < |db.addresses|
    case PayNothing => true
  }

  function CommitHook(db: DB, deposit: nat, plan: Plan): (tx: Tx<()>)
    requires deposit < |db.deposits| && Sound(db, plan)
    ensures tx.Commit? ==> |tx.db.deposits| == |db.deposits|
  {
    match plan
    case PayUser(purchase) => PurchaseFlow.CommitPurchase(db, deposit, purchase)
    case PayMachine(_, _, _, _) => CommitDirect(db, deposit, plan)
    case PayNothing => Commit(db, ())
  }

  /** The whole hook when no other transaction runs between its reads and its writes. */
  function RunHook(db: DB, deposit: nat, tokenPrice: int, cap: int): (tx: Tx<()>)
    ensures tx.Commit? ==> |tx.db.deposits| == |db.deposits|
  {
    match PlanHook(db, deposit, tokenPrice, cap)
    case Err(error) => Rollback(error)
    case Ok(plan) => CommitHook(db, deposit, plan)
  }

  class DirectPayService {
    const store: Store
    const pool: Pool.PoolService
    const purchases: PurchaseFlow.PurchaseService

    constructor (store: Store, pool: Pool.PoolService, purchases: PurchaseFlow.PurchaseService)
      requires pool.store == store && purchases.store == store && purchases.ledger.store == store
      ensures this.store == store && this.pool == pool && this.purchases == purchases
    {
      this.store := store;
      this.pool := pool;
      this.purchases := purchases;
    }

    method Activate(machine: nat, now: int) returns (r: Result<nat>)
      requires pool.store == store
      modifies store
      ensures Ran(ActivateMachine(old(store.Snapshot()), machine, now), old(store.Snapshot()), store.Snapshot(), r)
    {
      var id := Pool.Oldest(store.addresses, MachineDirect);
      if id.None? {
        return Err(PoolEmpty);
      }
      var write := pool.UpdateRow(id.value, ForMachine(store.addresses[id.value], machine, now));
      r := if write.Ok? then Ok(id.value) else Err(write.error);
    }

    method Rotate(machine: nat, now: int) returns (r: Result<nat>)
      modifies store
      ensures (store.Snapshot(), r) == RotateMachine(old(store.Snapshot()), machine, now)
    {
      var before := store.Snapshot();
      var id := Pool.Oldest(store.addresses, MachineDirect);
      if id.None? {
        store.alerts := Alerts.InsertedIfNone(store.alerts, "direct_pay_pool_empty", Alerts.CouldNotRotate(machine));
        return Err(PoolEmpty);
      }
      store.addresses := RetiredFor(store.addresses, machine);
      store.addresses := store.addresses[id.value := ForMachine(store.addresses[id.value], machine, now)];
      if !IndexesHold(store.addresses) {
        store.RollbackTo(before);
        return Err(ConstraintViolated);
      }
      r := Ok(id.value);
    }

    method CreditDeposit(deposit: nat, plan: Plan) returns (r: Result<()>)
      requires plan.PayMachine? && plan.price > 0
      requires deposit < |store.deposits| && plan.addressId < |store.addresses|
      modifies store
      ensures Ran(CommitDirect(old(store.Snapshot()), deposit, plan), old(store.Snapshot()), store.Snapshot(), r)
    {
      var before := store.Snapshot();
      var row := store.deposits[deposit];
      var credits := Credits(row.amount, plan.price, plan.cap);
      store.deposits := store.deposits[deposit := row.(remainder := Some(GoMod(row.amount, plan.price)))];
      if credits > 0 {
        for i := 0 to credits
          invariant store.Snapshot() == before.(deposits := store.deposits,
                                                pulses := before.pulses + seq(i, _ => DirectPulse(plan.machine)))
          invariant store.deposits == before.deposits[deposit := row.(remainder := Some(GoMod(row.amount, plan.price)))]
          invariant i > 0 ==> plan.machine in store.machines
        {
          if plan.machine !in store.machines {
            store.RollbackTo(before);
            return Err(ForeignKeyViolated);
          }
          store.pulses := store.pulses + [DirectPulse(plan.machine)];
        }
        var address := store.addresses[plan.addressId];
        store.addresses := store.addresses[plan.addressId := address.(useCount := address.useCount + 1)];
      }
      r := Ok(());
    }

    /** The hook the deposit pipeline is given, with nothing between its reads and its writes. */
    method Hook(deposit: nat, tokenPrice: int, cap: int) returns (r: Result<()>)
      requires purchases.store == store && purchases.ledger.store == store
      modifies store
      ensures Ran(RunHook(old(store.Snapshot()), deposit, tokenPrice, cap),
                  old(store.Snapshot()), store.Snapshot(), r)
    {
      var plan := PlanHook(store.Snapshot(), deposit, tokenPrice, cap);
      match plan
      case Err(error) => r := Err(error);
      case Ok(PayUser(purchase)) => r := purchases.CreditHook(deposit, purchase);
      case Ok(PayMachine(_, _, _, _)) => r := CreditDeposit(deposit, plan.value);
      case Ok(PayNothing) => r := Ok(());
    }
  }
}
