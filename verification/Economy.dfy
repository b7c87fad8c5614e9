/**
 The token economy as one state machine. A step is one transaction, or one statement outside
 a transaction, of any service; steps of concurrent calls interleave at will. The History part
 is bookkeeping for the theorems: no step depends on it, except that user ids are fresh.
 */
module Economy {
  import opened Tables
  import AddressBatch
  import Alerts
  import DirectPay
  import Dispatch
  import Ledger
  import Pipeline
  import Pool
  import PurchaseFlow
  import Redemption
  import Users

  /** Where a call of HandleEvent or HandleReorg stands between two of its statements. */
  datatype Call =
    | Ready(deposit: nat, start: nat)                             // committed as confirmed; the claim is next
    | Claimed(deposit: nat, start: nat)                           // holds the claim; the hook reads next
    | Planned(deposit: nat, start: nat, plan: DirectPay.Plan)     // the hook writes next
    | Paid(deposit: nat, start: nat)                              // the hook committed; the mark is next
    | Refused(deposit: nat, start: nat)                           // the hook failed; the release is next
    | Reorging(deposit: nat, txid: string, found: DepositState)   // HandleReorg has read the row
    | Alerting(deposit: nat, txid: string)                        // no unacknowledged alert was found

  /** Where the dispatcher stands: pulses left in this pass, and a refund it owes. */
  datatype Dispatching =
    | Pass(todo: seq<Dispatch.Fetched>)
    | Owing(pulse: Dispatch.Fetched, todo: seq<Dispatch.Fetched>)

  /** Per deposit: committed hook runs, calls lost between commit and mark, and whether it was marked. */
  datatype Trace = Trace(runs: seq<DirectPay.Plan>, faults: nat, marked: bool)

  datatype History = History(
    traces: seq<Trace>,
    lost: set<nat>,         // failed pulses whose refund was not written
    origins: seq<nat>,      // per ledger row, the user it was written for
    owners: map<nat, nat>,  // per address, the user it was last given to
    heirs: map<nat, nat>)   // per user ever created, the account it is merged into by now

  datatype System = System(
    db: DB,
    clock: nat,
    calls: map<nat, Call>,
    dispatching: Dispatching,
    history: History)

  datatype Step =
    | CreateUser(user: nat)
    | Audit(user: nat)
    | SetMachine(machine: nat, row: Machine)
    | Import(order: seq<string>, purpose: Purpose)
    | Assign(purpose: Purpose)
    | StartPurchase(user: nat)
    | Activate(machine: nat)
    | Rotate(machine: nat)
    | Release(address: nat)
    | Retire(address: nat)
    | Merge(from: nat, to: nat)
    | Redeem(user: nat, machine: nat)
    | Adjust(user: nat, delta: int, note: string)
    | Receive(call: nat, event: Pipeline.Event, policy: Pipeline.Policy)
    | TakeClaim(call: nat)
    | ReadPlan(call: nat, tokenPrice: int, cap: int)
    | RunHook(call: nat, written: bool)
    | Mark(call: nat)
    | Unclaim(call: nat)
    | LoseCall(call: nat)
    | ReadReorg(call: nat, outpoint: Outpoint)
    | WriteReorg(call: nat)
    | WriteAlert(call: nat)
    | FetchPulses
    | Attempt(ok: bool, limit: int, next: int, written: bool)
    | WriteRefund(written: bool)
    | CrashDispatcher
    | Raise(kind: string, message: string)
    | Acknowledge(alert: nat)
    | Tick(elapsed: nat)

  const EMPTY := DB({}, {}, map[], [], [], [], [], [])
  const INITIAL := System(EMPTY, 0, map[], Pass([]), History([], {}, [], map[], map[]))

  /** The call holds the claim of its deposit: its crediting run is live. */
  predicate Live(call: Call) {
    call.Claimed? || call.Planned? || call.Paid? || call.Refused?
  }

  /** Every reference between rows, and from calls to rows, has a target. */
  ghost predicate Refs(s: System) {
    && RowRefs(s.db)
    && (forall c | c in s.calls :: s.calls[c].deposit < |s.db.deposits|)
    && (forall c | c in s.calls && s.calls[c].Planned? :: DirectPay.Sound(s.db, s.calls[c].plan))
    && (forall i | 0 <= i < |s.dispatching.todo| :: s.dispatching.todo[i].id < |s.db.pulses|)
    && (s.dispatching.Owing? ==> s.dispatching.pulse.id < |s.db.pulses| && s.dispatching.pulse.user.Some?)
    && |s.history.traces| == |s.db.deposits| && |s.history.origins| == |s.db.ledger|
    && s.db.users <= s.history.heirs.Keys
  }

  ghost predicate RowRefs(db: DB) {
    && (forall d | 0 <= d < |db.deposits| :: db.deposits[d].addressId < |db.addresses|)
    && (forall i | 0 <= i < |db.ledger| :: EntryRefs(db, db.ledger[i]))
    && (forall p | 0 <= p < |db.pulses| && db.pulses[p].user.Some? :: db.pulses[p].user.value in db.users)
    && db.auditors <= db.users
  }

  ghost predicate EntryRefs(db: DB, e: Entry) {
    && e.user in db.users
    && (e.deposit.Some? <==> e.kind == Purchase) && (e.deposit.Some? ==> e.deposit.value < |db.deposits|)
    && (e.pulse.Some? <==> e.kind == Redemption || e.kind == Refund) && (e.pulse.Some? ==> e.pulse.value < |db.pulses|)
  }

  ghost predicate InCall(s: System, c: nat, pc: Call -> bool) {
    c in s.calls && pc(s.calls[c])
  }

  ghost predicate Enabled(s: System, step: Step) {
    match step
    case CreateUser(user) => user !in s.history.heirs
    case Audit(user) => user in s.db.users
    case Receive(c, _, _) => c !in s.calls
    case ReadReorg(c, _) => c !in s.calls
    case TakeClaim(c) => InCall(s, c, (call: Call) => call.Ready?)
    case ReadPlan(c, _, _) => InCall(s, c, (call: Call) => call.Claimed?)
    case RunHook(c, _) => InCall(s, c, (call: Call) => call.Planned?)
    case Mark(c) => InCall(s, c, (call: Call) => call.Paid?)
    case Unclaim(c) => InCall(s, c, (call: Call) => call.Refused?)
    case LoseCall(c) => c in s.calls
    case WriteReorg(c) => InCall(s, c, (call: Call) => call.Reorging?)
    case WriteAlert(c) => InCall(s, c, (call: Call) => call.Alerting?)
    case FetchPulses => s.dispatching == Pass([])
    case Attempt(_, _, _, _) => s.dispatching.Pass? && s.dispatching.todo != []
    case WriteRefund(_) => s.dispatching.Owing?
    case Raise(kind, _) => kind != Pipeline.REORG_ALERT
    case Acknowledge(alert) => alert < |s.db.alerts|
    case _ => true
  }

  /** New tables, with the new ledger rows' users noted. */
  function With(s: System, db: DB): System {
    var origins := s.history.origins;
    var noted := if |db.ledger| > |s.db.ledger| then origins + [db.ledger[|s.db.ledger|].user] else origins;
    s.(db := db, history := s.history.(origins := noted))
  }

  function Run<T>(s: System, tx: Tx<T>): System {
    With(s, After(tx, s.db))
  }

  function Goto(s: System, c: nat, call: Call): System {
    s.(calls := s.calls[c := call])
  }

  function Return(s: System, c: nat): System {
    s.(calls := s.calls - {c})
  }

  function WithTrace(s: System, deposit: nat, trace: Trace): System
    requires deposit < |s.history.traces|
  {
    s.(history := s.history.(traces := s.history.traces[deposit := trace]))
  }

  function ApplyStart(s: System, user: nat): System {
    var tx := PurchaseFlow.Start(s.db, user, Pipeline.Stamp(s.clock));
    if tx.Commit? && tx.db != s.db then
      s.(db := tx.db, history := s.history.(owners := s.history.owners[tx.result := user]))
    else s
  }

  function ApplyMerge(s: System, from: nat, to: nat): System {
    var tx := Users.MergeUsers(s.db, from, to);
    if tx.Rollback? then s
    else
      var heirs := s.history.heirs;
      s.(db := tx.db,
         history := s.history.(heirs := map u | u in heirs :: if heirs[u] == from then to else heirs[u]))
  }

  function ApplyReceive(s: System, c: nat, event: Pipeline.Event, policy: Pipeline.Policy): System {
    match Pool.IdOf(s.db.addresses, event.address)
    case None => s
    case Some(addressId) =>
      var (db, id) := Pipeline.Upsert(s.db, addressId, event, policy);
      var traces := s.history.traces;
      var seen := s.(db := db, history := s.history.(traces :=
        if |db.deposits| > |s.db.deposits| then traces + [Trace([], 0, false)] else traces));
      if db.deposits[id].state == Confirmed then Goto(seen, c, Ready(id, s.clock)) else seen
  }

  ghost function ApplyClaim(s: System, c: nat): System
    requires Refs(s) && c in s.calls && s.calls[c].Ready?
  {
    var Ready(id, start) := s.calls[c];
    if Pipeline.Claimable(s.db.deposits[id], s.clock) then
      Goto(s.(db := Pipeline.SetClaim(s.db, id, Some(Pipeline.Stamp(start)))), c, Claimed(id, start))
    else Return(s, c)
  }

  ghost function ApplyPlan(s: System, c: nat, tokenPrice: int, cap: int): System
    requires Refs(s) && c in s.calls && s.calls[c].Claimed?
  {
    var Claimed(id, start) := s.calls[c];
    match DirectPay.PlanHook(s.db, id, tokenPrice, cap)
    case Ok(plan) => Goto(s, c, Planned(id, start, plan))
    case Err(_) => Goto(s, c, Refused(id, start))
  }

  ghost function ApplyHook(s: System, c: nat, written: bool): System
    requires Refs(s) && c in s.calls && s.calls[c].Planned?
  {
    var Planned(id, start, plan) := s.calls[c];
    var tx := DirectPay.CommitHook(s.db, id, plan);
    if !written || tx.Rollback? then Goto(s, c, Refused(id, start))
    else
      var trace := s.history.traces[id];
      WithTrace(Goto(With(s, tx.db), c, Paid(id, start)), id, trace.(runs := trace.runs + [plan]))
  }

  ghost function ApplyMark(s: System, c: nat): System
    requires Refs(s) && c in s.calls && s.calls[c].Paid?
  {
    var id := s.calls[c].deposit;
    WithTrace(Return(s.(db := Pipeline.SetState(s.db, id, Credited)), c), id, s.history.traces[id].(marked := true))
  }

  /** A crash, or a statement that fails and ends its call, at any point of the call. */
  ghost function ApplyLose(s: System, c: nat): System
    requires Refs(s) && c in s.calls
  {
    var id := s.calls[c].deposit;
    var trace := s.history.traces[id];
    if s.calls[c].Paid? then WithTrace(Return(s, c), id, trace.(faults := trace.faults + 1)) else Return(s, c)
  }

  function ApplyReadReorg(s: System, c: nat, outpoint: Outpoint): System {
    match Pipeline.FindDeposit(s.db.deposits, outpoint)
    case None => s
    case Some(id) =>
      if s.db.deposits[id].state == Orphaned then s
      else Goto(s, c, Reorging(id, outpoint.txid, s.db.deposits[id].state))
  }

  ghost function ApplyWriteReorg(s: System, c: nat): System
    requires Refs(s) && c in s.calls && s.calls[c].Reorging?
  {
    var Reorging(id, txid, found) := s.calls[c];
    if found != Credited then Return(s.(db := Pipeline.SetState(s.db, id, Orphaned)), c)
    else if Pipeline.Reported(s.db.alerts, id) then Return(s, c)
    else Goto(s, c, Alerting(id, txid))
  }

  function ApplyWriteAlert(s: System, c: nat): System
    requires c in s.calls && s.calls[c].Alerting?
  {
    var Alerting(id, txid) := s.calls[c];
    var alert := Alert(Pipeline.REORG_ALERT, Pipeline.Like.AlertMessage(id, txid), false);
    Return(s.(db := s.db.(alerts := s.db.alerts + [alert])), c)
  }

  ghost function ApplyAttempt(s: System, ok: bool, limit: int, next: int, written: bool): System
    requires Refs(s) && s.dispatching.Pass? && s.dispatching.todo != []
  {
    var f, rest := s.dispatching.todo[0], s.dispatching.todo[1..];
    if !written then s.(dispatching := Pass(rest))
    else if ok then s.(db := Dispatch.MarkSent(s.db, f.id), dispatching := Pass(rest))
    else if f.attempts + 1 >= limit then
      s.(db := Dispatch.MarkFailed(s.db, f.id, f.attempts + 1),
         dispatching := if Dispatch.Refundable(f) then Owing(f, rest) else Pass(rest))
    else s.(db := Dispatch.MarkRetry(s.db, f.id, f.attempts + 1, next), dispatching := Pass(rest))
  }

  function Lose(s: System, dispatching: Dispatching): System
    requires s.dispatching.Owing?
  {
    s.(dispatching := dispatching, history := s.history.(lost := s.history.lost + {s.dispatching.pulse.id}))
  }

  function ApplyRefund(s: System, written: bool): System
    requires s.dispatching.Owing? && s.dispatching.pulse.user.Some?
  {
    var f, rest := s.dispatching.pulse, s.dispatching.todo;
    var tx := Ledger.RefundPulse(s.db, f.user.value, f.id);
    if written && tx.Commit? then With(s, tx.db).(dispatching := Pass(rest)) else Lose(s, Pass(rest))
  }

  function ApplyCrash(s: System): System {
    if s.dispatching.Owing? then Lose(s, Pass([])) else s.(dispatching := Pass([]))
  }

  ghost function Apply(s: System, step: Step): System
    requires Refs(s) && Enabled(s, step)
  {
    var now := Pipeline.Stamp(s.clock);
    match step
    case CreateUser(user) =>
      s.(db := s.db.(users := s.db.users + {user}), history := s.history.(heirs := s.history.heirs[user := user]))
    case Audit(user) => s.(db := s.db.(auditors := s.db.auditors + {user}))
    case SetMachine(machine, row) => s.(db := s.db.(machines := s.db.machines[machine := row]))
    case Import(order, purpose) => Run(s, AddressBatch.InsertRows(s.db, order, purpose))
    case Assign(purpose) => Run(s, Pool.AssignOldest(s.db, purpose, now))
    case StartPurchase(user) => ApplyStart(s, user)
    case Activate(machine) => Run(s, DirectPay.ActivateMachine(s.db, machine, now))
    case Rotate(machine) => With(s, DirectPay.RotateMachine(s.db, machine, now).0)
    case Release(address) => Run(s, Pool.ReleaseAddress(s.db, address))
    case Retire(address) => Run(s, Pool.RetireAddress(s.db, address))
    case Merge(from, to) => ApplyMerge(s, from, to)
    case Redeem(user, machine) => Run(s, Redemption.Redeem(s.db, user, machine))
    case Adjust(user, delta, note) => Run(s, Ledger.Adjust(s.db, user, delta, note))
    case Receive(c, event, policy) => ApplyReceive(s, c, event, policy)
    case TakeClaim(c) => ApplyClaim(s, c)
    case ReadPlan(c, tokenPrice, cap) => ApplyPlan(s, c, tokenPrice, cap)
    case RunHook(c, written) => ApplyHook(s, c, written)
    case Mark(c) => ApplyMark(s, c)
    case Unclaim(c) => Return(s.(db := Pipeline.SetClaim(s.db, s.calls[c].deposit, None)), c)
    case LoseCall(c) => ApplyLose(s, c)
    case ReadReorg(c, outpoint) => ApplyReadReorg(s, c, outpoint)
    case WriteReorg(c) => ApplyWriteReorg(s, c)
    case WriteAlert(c) => ApplyWriteAlert(s, c)
    case FetchPulses => s.(dispatching := Pass(Dispatch.Fetch(s.db.pulses, now)))
    case Attempt(ok, limit, next, written) => ApplyAttempt(s, ok, limit, next, written)
    case WriteRefund(written) => ApplyRefund(s, written)
    case CrashDispatcher => ApplyCrash(s)
    case Raise(kind, message) => s.(db := s.db.(alerts := Alerts.InsertedIfNone(s.db.alerts, kind, message)))
    case Acknowledge(alert) =>
      s.(db := s.db.(alerts := s.db.alerts[alert := s.db.alerts[alert].(acked := true)]))
    case Tick(elapsed) => s.(clock := s.clock + elapsed)
  }

  ghost predicate Allowed(s: System, steps: seq<Step>)
    decreases |steps|
  {
    steps == [] || (Refs(s) && Enabled(s, steps[0]) && Allowed(Apply(s, steps[0]), steps[1..]))
  }

  ghost function Exec(s: System, steps: seq<Step>): System
    requires Allowed(s, steps)
    decreases |steps|
  {
    if steps == [] then s else Exec(Apply(s, steps[0]), steps[1..])
  }
}
