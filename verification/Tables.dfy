/**
 The database: one datatype per row, DB for the value of all tables between two
 transactions, and class Store for the open database whose tables the services update.

 A table whose rows are never deleted is a sequence, and a row's id is its position.
 Users are deleted by a merge, so they are a set of ids.
 */
module Tables {

  datatype Option<+T> = None | Some(value: T)

  /** What a service call returns: a value, or the reason for which it was refused. */
  datatype Result<+T> = Ok(value: T) | Err(error: Error)

  datatype Error =
    | PoolEmpty
    | InsufficientBalance
    | MachineNotFound
    | MachineNotActive
    | SameUser
    | NoSuchRow
    | ConstraintViolated
    | ForeignKeyViolated
    | NoteRequired
    | InvalidPrice
    | InvalidBatch

  datatype AddressState = Pool | Assigned | Retired

  datatype Purpose = TokenDeposit | MachineDirect

  datatype Address = Address(
    address: string,
    state: AddressState,
    purpose: Purpose,
    user: Option<nat>,
    machine: Option<nat>,
    assignedAt: Option<int>,
    useCount: nat)

  datatype DepositState = Seen | Confirmed | Credited | Orphaned

  datatype Outpoint = Outpoint(txid: string, vout: nat)

  datatype Deposit = Deposit(
    addressId: nat,
    outpoint: Outpoint,
    amount: int,
    confirmations: int,
    blockHeight: Option<int>,
    state: DepositState,
    claimedAt: Option<int>,
    remainder: Option<int>)

  datatype Source = TokenRedemption | DirectPay

  datatype PulseState = Pending | Sent | Failed

  datatype Pulse = Pulse(
    machine: nat,
    user: Option<nat>,
    source: Source,
    state: PulseState,
    attempts: nat,
    nextAttemptAt: Option<int>)

  datatype Kind = Purchase | Redemption | Refund | AdminAdjust

  datatype Entry = Entry(
    user: nat,
    delta: int,
    kind: Kind,
    deposit: Option<nat>,
    pulse: Option<nat>)

  datatype Machine = Machine(active: bool, directPayEnabled: bool, price: Option<int>)

  datatype Alert = Alert(kind: string, message: string, acked: bool)

  datatype DB = DB(
    users: set<nat>,
    auditors: set<nat>,  // users that admin_audit rows refer to
    machines: map<nat, Machine>,
    addresses: seq<Address>,
    deposits: seq<Deposit>,
    pulses: seq<Pulse>,
    ledger: seq<Entry>,
    alerts: seq<Alert>)

  /** The fate of one transaction: committed with its new tables, or rolled back. */
  datatype Tx<+T> = Commit(db: DB, result: T) | Rollback(error: Error)

  /** The tables after a transaction that started from `before`. */
  function After<T>(tx: Tx<T>, before: DB): DB {
    if tx.Commit? then tx.db else before
  }

  /** A service call ran exactly the transaction `tx`: a refused call changed no table. */
  ghost predicate Ran<T>(tx: Tx<T>, before: DB, after: DB, r: Result<T>) {
    match tx
    case Commit(db, result) => after == db && r == Ok(result)
    case Rollback(error) => after == before && r == Err(error)
  }

  /** Go's integer division, which truncates toward zero. */
  function GoDiv(a: int, b: int): (q: int)
    requires b > 0
    ensures a >= 0 ==> q >= 0 && q * b <= a < (q + 1) * b
    ensures a < 0 ==> (q - 1) * b < a <= q * b
  {
    if a >= 0 then a / b else -((-a) / b)
  }

  /** Go's remainder, which has the sign of the dividend. */
  function GoMod(a: int, b: int): (r: int)
    requires b > 0
    ensures a == GoDiv(a, b) * b + r
    ensures -b < r < b && (a >= 0 ==> r >= 0)
  {
    a - GoDiv(a, b) * b
  }

  /** So many whole units at the price, and this much left over, with the sign of the amount. */
  predicate Splits(amount: int, price: int, units: int, rest: int) {
    && amount == units * price + rest && -price < rest < price
    && (amount >= 0 ==> rest >= 0) && (amount <= 0 ==> rest <= 0)
  }

  /** Go's quotient and remainder split an amount, and nothing else does. */
  lemma SplitsExactly(amount: int, price: int, units: int, rest: int)
    requires price > 0
    ensures Splits(amount, price, units, rest) <==> units == GoDiv(amount, price) && rest == GoMod(amount, price)
  {
    var q, r := GoDiv(amount, price), GoMod(amount, price);
    if Splits(amount, price, units, rest) {
      var d := units - q;
      assert d * price == r - rest;
      assert d >= 1 ==> d * price >= price;
      assert d <= -1 ==> d * price <= 0 - price;
    }
  }

  /** The lowest id whose row satisfies a condition. */
  function First<T>(rows: seq<T>, where_: T -> bool): (r: Option<nat>)
    ensures r.Some? ==> r.value < |rows| && where_(rows[r.value])
    ensures r.Some? ==> forall i | 0 <= i < r.value :: !where_(rows[i])
    ensures r.None? ==> forall i | 0 <= i < |rows| :: !where_(rows[i])
  {
    if rows == [] then None
    else if where_(rows[0]) then Some(0)
    else
      var rest := First(rows[1..], where_);
      assert forall i | 1 <= i < |rows| :: rows[i] == rows[1..][i - 1];
      if rest.Some? then Some(rest.value + 1) else None
  }

  /** A change of every row that satisfies a condition. */
  function Update<T>(rows: seq<T>, where_: T -> bool, set_: T -> T): (r: seq<T>)
    ensures |r| == |rows|
    ensures forall i | 0 <= i < |rows| :: r[i] == if where_(rows[i]) then set_(rows[i]) else rows[i]
  {
    seq(|rows|, i requires 0 <= i < |rows| => if where_(rows[i]) then set_(rows[i]) else rows[i])
  }

  /** UNIQUE (address). */
  predicate AddressesUnique(rows: seq<Address>) {
    forall i, j | 0 <= i < j < |rows| :: rows[i].address != rows[j].address
  }

  /** UNIQUE (txid, vout): one row per outpoint. */
  predicate OutpointsUnique(rows: seq<Deposit>) {
    forall i, j | 0 <= i < j < |rows| :: rows[i].outpoint != rows[j].outpoint
  }

  /** idx_addresses_one_assigned_per_user */
  predicate OneAssignedPerUser(rows: seq<Address>) {
    forall i, j | 0 <= i < j < |rows| ::
      (rows[i].state == Assigned && rows[j].state == Assigned && rows[i].purpose == rows[j].purpose
       && rows[i].user.Some?) ==> rows[i].user != rows[j].user
  }

  /** idx_addresses_one_active_per_machine */
  predicate OneActivePerMachine(rows: seq<Address>) {
    forall i, j | 0 <= i < j < |rows| ::
      (rows[i].state == Assigned && rows[j].state == Assigned
       && rows[i].purpose == MachineDirect && rows[j].purpose == MachineDirect
       && rows[i].machine.Some?) ==> rows[i].machine != rows[j].machine
  }

  /** The unique indexes of the addresses table; a write that breaks one is refused. */
  predicate IndexesHold(rows: seq<Address>) {
    AddressesUnique(rows) && OneAssignedPerUser(rows) && OneActivePerMachine(rows)
  }

  /**
   The open database. store.Open keeps a single connection, so a transaction runs alone
   and is one atomic step.
   */
  class Store {
    var users: set<nat>
    var auditors: set<nat>
    var machines: map<nat, Machine>
    var addresses: seq<Address>
    var deposits: seq<Deposit>
    var pulses: seq<Pulse>
    var ledger: seq<Entry>
    var alerts: seq<Alert>

    function Snapshot(): (db: DB)
      reads this
    {
      DB(users, auditors, machines, addresses, deposits, pulses, ledger, alerts)
    }

    constructor ()
      ensures Snapshot() == DB({}, {}, map[], [], [], [], [], [])
    {
      users, auditors, machines, addresses, deposits, pulses, ledger, alerts := {}, {}, map[], [], [], [], [], [];
    }

    /** Undoes the writes of the open transaction. */
    method RollbackTo(before: DB)
      modifies this
      ensures Snapshot() == before
    {
      users, auditors, machines, addresses := before.users, before.auditors, before.machines, before.addresses;
      deposits, pulses, ledger, alerts := before.deposits, before.pulses, before.ledger, before.alerts;
    }
  }
}
