/**
 HandleEvent without row ids and times. The tables are seen by what matters of them: deposits
 by outpoint and without confirmations and time stamps, ledger rows by the outpoint that they
 pay, new rows in any order. On such a shape HandleEvent is the step Deliver.
 */
module Shapes {
  import opened Tables
  import DirectPay
  import Pipeline
  import Pool

  type Event = Pipeline.Event
  type Policy = Pipeline.Policy

  datatype Slot = Slot(addressId: nat, amount: int, state: DepositState, remainder: Option<int>)

  datatype Keyed = Keyed(user: nat, delta: int, kind: Kind, outpoint: Option<Outpoint>, pulse: Option<nat>)

  datatype Shape = Shape(
    users: set<nat>,
    machines: map<nat, Machine>,
    addresses: seq<Address>,
    slots: map<Outpoint, Slot>,
    pulses: multiset<Pulse>,
    books: multiset<Keyed>)

  function SlotOf(row: Deposit): Slot {
    Slot(row.addressId, row.amount, row.state, row.remainder)
  }

  function Slots(deposits: seq<Deposit>): map<Outpoint, Slot> {
    if deposits == [] then map[]
    else
      var n := |deposits| - 1;
      Slots(deposits[..n])[deposits[n].outpoint := SlotOf(deposits[n])]
  }

  function KeyOf(deposits: seq<Deposit>, entry: Entry): Keyed {
    var outpoint := if entry.deposit.Some? && entry.deposit.value < |deposits|
                    then Some(deposits[entry.deposit.value].outpoint) else None;
    Keyed(entry.user, entry.delta, entry.kind, outpoint, entry.pulse)
  }

  function Keys(deposits: seq<Deposit>, ledger: seq<Entry>): (keys: seq<Keyed>)
    ensures |keys| == |ledger| && forall i | 0 <= i < |ledger| :: keys[i] == KeyOf(deposits, ledger[i])
  {
    seq(|ledger|, i requires 0 <= i < |ledger| => KeyOf(deposits, ledger[i]))
  }

  ghost function ShapeOf(db: DB): Shape {
    Shape(db.users, db.machines, db.addresses, Slots(db.deposits), multiset(db.pulses),
          multiset(Keys(db.deposits, db.ledger)))
  }

  /** No crediting run is in progress or was cut off. */
  ghost predicate Idle(db: DB) {
    && OutpointsUnique(db.deposits)
    && (forall d | 0 <= d < |db.deposits| && (db.deposits[d].state == Seen || db.deposits[d].state == Confirmed) ::
          db.deposits[d].claimedAt.None?)
    && (forall i | 0 <= i < |db.ledger| && db.ledger[i].deposit.Some? :: db.ledger[i].deposit.value < |db.deposits|)
  }

  // --- the step ---

  predicate Direct(address: Address) {
    address.purpose == MachineDirect && address.machine.Some?
  }

  /** The credit hook will not fail for this payment. */
  predicate Works(s: Shape, slot: Slot, policy: Policy) {
    && slot.addressId < |s.addresses|
    && var address := s.addresses[slot.addressId];
       if Direct(address) then address.machine.value in s.machines
       else
         && policy.tokenPrice > 0
         && (address.user.Some? && GoDiv(slot.amount, policy.tokenPrice) > 0 ==> address.user.value in s.users)
  }

  /** What one event writes: its deposit, and what is added to pulses, ledger and use counts. */
  datatype Effect = Effect(slot: Slot, pulses: multiset<Pulse>, books: multiset<Keyed>, used: Option<nat>)

  function Silent(slot: Slot): Effect {
    Effect(slot, multiset{}, multiset{}, None)
  }

  function Noted(slot: Slot, price: int): Slot
    requires price > 0
  {
    slot.(state := Credited, remainder := Some(GoMod(slot.amount, price)))
  }

  function CreditUser(s: Shape, outpoint: Outpoint, slot: Slot, policy: Policy): Effect
    requires Works(s, slot, policy) && !Direct(s.addresses[slot.addressId])
  {
    var user := s.addresses[slot.addressId].user;
    var tokens := GoDiv(slot.amount, policy.tokenPrice);
    var silent := Silent(Noted(slot, policy.tokenPrice));
    if user.Some? && tokens > 0
    then silent.(books := multiset{Keyed(user.value, tokens, Purchase, Some(outpoint), None)})
    else silent
  }

  function CreditMachine(s: Shape, slot: Slot, policy: Policy): Effect
    requires Works(s, slot, policy) && Direct(s.addresses[slot.addressId])
  {
    var machine := s.addresses[slot.addressId].machine.value;
    var price := s.machines[machine].price;
    if price.None? || price.value <= 0 then Silent(slot.(state := Credited))
    else
      var credits := DirectPay.Credits(slot.amount, price.value, policy.directPayCap);
      var silent := Silent(Noted(slot, price.value));
      if credits > 0
      then silent.(pulses := Copies(DirectPay.DirectPulse(machine), credits), used := Some(slot.addressId))
      else silent
  }

  /** One crediting run; a failing hook leaves no trace. */
  function CreditRun(s: Shape, outpoint: Outpoint, slot: Slot, policy: Policy): Effect {
    if !Works(s, slot, policy) then Silent(slot)
    else if Direct(s.addresses[slot.addressId]) then CreditMachine(s, slot, policy)
    else CreditUser(s, outpoint, slot, policy)
  }

  function Copies<T(==)>(x: T, n: nat): multiset<T> {
    multiset{}[x := n]
  }

  function Used(addresses: seq<Address>, used: Option<nat>): seq<Address> {
    if used.Some? && used.value < |addresses|
    then addresses[used.value := addresses[used.value].(useCount := addresses[used.value].useCount + 1)]
    else addresses
  }

  function Applied(s: Shape, outpoint: Outpoint, effect: Effect): Shape {
    s.(slots := s.slots[outpoint := effect.slot],
       pulses := s.pulses + effect.pulses,
       books := s.books + effect.books,
       addresses := Used(s.addresses, effect.used))
  }

  /** Too few confirmations, and too much money to do without. */
  predicate Below(event: Event, policy: Policy) {
    event.confirmations < policy.minConfirmations && (policy.zeroConfMax <= 0 || event.amount > policy.zeroConfMax)
  }

  function Advanced(slot: Slot, event: Event, policy: Policy): Slot {
    if slot.state == Seen && !Below(event, policy) then slot.(state := Confirmed) else slot
  }

  function Known(s: Shape, event: Event, addressId: nat): Slot {
    if event.outpoint in s.slots then s.slots[event.outpoint] else Slot(addressId, event.amount, Seen, None)
  }

  function EffectOf(s: Shape, event: Event, policy: Policy, addressId: nat): Effect {
    var slot := Advanced(Known(s, event, addressId), event, policy);
    if slot.state == Confirmed then CreditRun(s, event.outpoint, slot, policy) else Silent(slot)
  }

  function Deliver(s: Shape, event: Event, policy: Policy): Shape {
    match Pool.IdOf(s.addresses, event.address)
    case None => s
    case Some(addressId) => Applied(s, event.outpoint, EffectOf(s, event, policy, addressId))
  }

  // --- HandleEvent is that step ---

  lemma {:induction false} SlotsAt(deposits: seq<Deposit>, outpoint: Outpoint)
    requires OutpointsUnique(deposits)
    ensures
      match Pipeline.FindDeposit(deposits, outpoint)
      case Some(id) => outpoint in Slots(deposits) && Slots(deposits)[outpoint] == SlotOf(deposits[id])
      case None => outpoint !in Slots(deposits)
  {
    if deposits != [] {
      var n := |deposits| - 1;
      SlotsAt(deposits[..n], outpoint);
      assert forall i | 0 <= i < n :: deposits[..n][i] == deposits[i];
      var found, rest := Pipeline.FindDeposit(deposits, outpoint), Pipeline.FindDeposit(deposits[..n], outpoint);
      if rest.Some? {
        assert found == rest;
      } else if found.Some? {
        assert found.value == n;
      }
    }
  }

  lemma {:induction false} RowWritten(deposits: seq<Deposit>, id: nat, row: Deposit)
    requires OutpointsUnique(deposits) && id < |deposits| && row.outpoint == deposits[id].outpoint
    ensures Slots(deposits[id := row]) == Slots(deposits)[row.outpoint := SlotOf(row)]
  {
    var n := |deposits| - 1;
    var last := deposits[n];
    if id == n {
      assert deposits[id := row][..n] == deposits[..n];
    } else {
      RowWritten(deposits[..n], id, row);
      assert deposits[id := row][..n] == deposits[..n][id := row];
      assert last.outpoint != row.outpoint;
    }
  }

  lemma {:induction false} RowInserted(deposits: seq<Deposit>, row: Deposit)
    ensures Slots(deposits + [row]) == Slots(deposits)[row.outpoint := SlotOf(row)]
  {
    assert (deposits + [row])[..|deposits|] == deposits;
  }

  lemma KeysStay(before: seq<Deposit>, after: seq<Deposit>, ledger: seq<Entry>)
    requires |before| <= |after| && forall i | 0 <= i < |before| :: after[i].outpoint == before[i].outpoint
    requires forall i | 0 <= i < |ledger| && ledger[i].deposit.Some? :: ledger[i].deposit.value < |before|
    ensures Keys(after, ledger) == Keys(before, ledger)
  {
  }

  /** Only the deposits table is written, one row of it, and no reference to it breaks. */
  ghost predicate Recorded(db: DB, after: DB, row: Deposit) {
    && after == db.(deposits := after.deposits) && |db.deposits| <= |after.deposits|
    && (forall i | 0 <= i < |db.deposits| :: after.deposits[i].outpoint == db.deposits[i].outpoint)
    && (forall i | 0 <= i < |after.deposits| && after.deposits[i] != row ::
          i < |db.deposits| && after.deposits[i] == db.deposits[i])
    && OutpointsUnique(after.deposits)
    && Slots(after.deposits) == Slots(db.deposits)[row.outpoint := SlotOf(row)]
  }

  lemma RecordedShape(db: DB, after: DB, row: Deposit)
    requires Idle(db) && Recorded(db, after, row)
    requires row.state == Seen || row.state == Confirmed ==> row.claimedAt.None?
    ensures Idle(after) && ShapeOf(after) == ShapeOf(db).(slots := Slots(db.deposits)[row.outpoint := SlotOf(row)])
  {
    KeysStay(db.deposits, after.deposits, db.ledger);
  }

  lemma UniqueAfterUpdate(deposits: seq<Deposit>, id: nat, row: Deposit)
    requires OutpointsUnique(deposits) && id < |deposits| && row.outpoint == deposits[id].outpoint
    ensures OutpointsUnique(deposits[id := row])
  {
    assert forall i | 0 <= i < |deposits| :: deposits[id := row][i].outpoint == deposits[i].outpoint;
  }

  lemma UniqueAfterInsert(deposits: seq<Deposit>, row: Deposit)
    requires OutpointsUnique(deposits) && forall i | 0 <= i < |deposits| :: deposits[i].outpoint != row.outpoint
    ensures OutpointsUnique(deposits + [row])
  {
    assert forall i | 0 <= i < |deposits| :: (deposits + [row])[i] == deposits[i];
    assert (deposits + [row])[|deposits|] == row;
  }

  lemma UpdateRecords(db: DB, id: nat, row: Deposit)
    requires OutpointsUnique(db.deposits) && id < |db.deposits| && row.outpoint == db.deposits[id].outpoint
    ensures Recorded(db, db.(deposits := db.deposits[id := row]), row)
  {
    UniqueAfterUpdate(db.deposits, id, row);
    RowWritten(db.deposits, id, row);
  }

  lemma InsertRecords(db: DB, row: Deposit)
    requires OutpointsUnique(db.deposits) && forall i | 0 <= i < |db.deposits| :: db.deposits[i].outpoint != row.outpoint
    ensures Recorded(db, db.(deposits := db.deposits + [row]), row)
  {
    UniqueAfterInsert(db.deposits, row);
    RowInserted(db.deposits, row);
  }

  /** Which row the upsert writes, and where. */
  lemma UpsertWrites(db: DB, addressId: nat, event: Event, policy: Policy)
    ensures
      var (after, id) := Pipeline.Upsert(db, addressId, event, policy);
      var row := after.deposits[id];
      && row.outpoint == event.outpoint
      && match Pipeline.FindDeposit(db.deposits, event.outpoint)
         case Some(found) =>
           && id == found && after == db.(deposits := db.deposits[id := row])
           && row.claimedAt == db.deposits[id].claimedAt
           && (row.state == db.deposits[id].state || db.deposits[id].state == Seen)
         case None => after == db.(deposits := db.deposits + [row]) && row.claimedAt.None?
  {
  }

  lemma UpsertRecords(db: DB, addressId: nat, event: Event, policy: Policy)
    requires Idle(db)
    ensures
      var (after, id) := Pipeline.Upsert(db, addressId, event, policy);
      && Recorded(db, after, after.deposits[id]) && after.deposits[id].outpoint == event.outpoint
      && (after.deposits[id].state == Seen || after.deposits[id].state == Confirmed ==> after.deposits[id].claimedAt.None?)
  {
    var (after, id) := Pipeline.Upsert(db, addressId, event, policy);
    UpsertWrites(db, addressId, event, policy);
    if Pipeline.FindDeposit(db.deposits, event.outpoint).Some? {
      UpdateRecords(db, id, after.deposits[id]);
    } else {
      InsertRecords(db, after.deposits[id]);
    }
  }

  lemma UpsertIsAdvance(db: DB, addressId: nat, event: Event, policy: Policy)
    requires Idle(db)
    ensures
      var (after, id) := Pipeline.Upsert(db, addressId, event, policy);
      var slot := Advanced(Known(ShapeOf(db), event, addressId), event, policy);
      && Idle(after) && after.deposits[id].outpoint == event.outpoint && SlotOf(after.deposits[id]) == slot
      && ShapeOf(after) == ShapeOf(db).(slots := Slots(db.deposits)[event.outpoint := slot])
  {
    var (after, id) := Pipeline.Upsert(db, addressId, event, policy);
    UpsertRecords(db, addressId, event, policy);
    RecordedShape(db, after, after.deposits[id]);
    SlotsAt(db.deposits, event.outpoint);
  }

  lemma {:induction false} CopiesAreEqual(x: Pulse, n: nat)
    ensures multiset(seq(n, _ => x)) == Copies(x, n)
  {
    if n > 0 {
      CopiesAreEqual(x, n - 1);
      assert seq(n, _ => x) == seq(n - 1, _ => x) + [x];
    }
  }

  lemma HookFailsExactly(db: DB, id: nat, policy: Policy)
    requires id < |db.deposits|
    ensures DirectPay.RunHook(db, id, policy.tokenPrice, policy.directPayCap).Commit?
       <==> Works(ShapeOf(db), SlotOf(db.deposits[id]), policy)
  {
  }

  /** A transaction that rewrites one deposit and adds rows has the effect that its parts add up to. */
  lemma WrittenIsApplied(db: DB, id: nat, after: DB, added: seq<Entry>, effect: Effect)
    requires Idle(db) && id < |db.deposits| && |after.deposits| == |db.deposits|
    requires
      var row := after.deposits[id];
      && after == db.(deposits := db.deposits[id := row], ledger := db.ledger + added,
                      pulses := after.pulses, addresses := Used(db.addresses, effect.used))
      && row.outpoint == db.deposits[id].outpoint && row.state == Credited && SlotOf(row) == effect.slot
    requires multiset(after.pulses) == multiset(db.pulses) + effect.pulses
    requires multiset(Keys(after.deposits, added)) == effect.books
    requires forall i | 0 <= i < |added| && added[i].deposit.Some? :: added[i].deposit.value < |db.deposits|
    ensures Idle(after) && ShapeOf(after) == Applied(ShapeOf(db), db.deposits[id].outpoint, effect)
  {
    RowWritten(db.deposits, id, after.deposits[id]);
    KeysStay(db.deposits, after.deposits, db.ledger);
    assert Keys(after.deposits, after.ledger) == Keys(db.deposits, db.ledger) + Keys(after.deposits, added);
  }

  lemma UserIsCredited(db: DB, id: nat, policy: Policy, claim: Option<int>)
    requires Idle(db) && id < |db.deposits| && db.deposits[id].state == Confirmed
    requires Works(ShapeOf(db), SlotOf(db.deposits[id]), policy) && !Direct(db.addresses[db.deposits[id].addressId])
    ensures
      var tx := DirectPay.RunHook(Pipeline.SetClaim(db, id, claim), id, policy.tokenPrice, policy.directPayCap);
      tx.Commit? && var marked := Pipeline.SetState(tx.db, id, Credited);
      && Idle(marked)
      && ShapeOf(marked) == Applied(ShapeOf(db), db.deposits[id].outpoint,
                                     CreditUser(ShapeOf(db), db.deposits[id].outpoint, SlotOf(db.deposits[id]), policy))
  {
    var claimed := Pipeline.SetClaim(db, id, claim);
    var tx := DirectPay.RunHook(claimed, id, policy.tokenPrice, policy.directPayCap);
    var marked := Pipeline.SetState(tx.db, id, Credited);
    var row := db.deposits[id];
    var effect := CreditUser(ShapeOf(db), row.outpoint, SlotOf(row), policy);
    var user, tokens := db.addresses[row.addressId].user, GoDiv(row.amount, policy.tokenPrice);
    var added := if user.Some? && tokens > 0 then [Entry(user.value, tokens, Purchase, Some(id), None)] else [];
    assert marked.deposits == db.deposits[id := marked.deposits[id]];
    assert marked.ledger == db.ledger + added;
    if added != [] {
      assert Keys(marked.deposits, added) == [Keyed(user.value, tokens, Purchase, Some(row.outpoint), None)];
    }
    WrittenIsApplied(db, id, marked, added, effect);
  }

  lemma MachineIsCredited(db: DB, id: nat, policy: Policy, claim: Option<int>)
    requires Idle(db) && id < |db.deposits| && db.deposits[id].state == Confirmed
    requires Works(ShapeOf(db), SlotOf(db.deposits[id]), policy) && Direct(db.addresses[db.deposits[id].addressId])
    ensures
      var tx := DirectPay.RunHook(Pipeline.SetClaim(db, id, claim), id, policy.tokenPrice, policy.directPayCap);
      tx.Commit? && var marked := Pipeline.SetState(tx.db, id, Credited);
      && Idle(marked)
      && ShapeOf(marked) == Applied(ShapeOf(db), db.deposits[id].outpoint,
                                     CreditMachine(ShapeOf(db), SlotOf(db.deposits[id]), policy))
  {
    var claimed := Pipeline.SetClaim(db, id, claim);
    DirectWrites(claimed, id, policy);
    var tx := DirectPay.RunHook(claimed, id, policy.tokenPrice, policy.directPayCap);
    var marked := Pipeline.SetState(tx.db, id, Credited);
    var effect := CreditMachine(ShapeOf(db), SlotOf(db.deposits[id]), policy);
    assert marked.deposits == db.deposits[id := marked.deposits[id]];
    assert marked.ledger == db.ledger + [];
    assert Keys(marked.deposits, []) == [];
    WrittenIsApplied(db, id, marked, [], effect);
  }

  /** What the direct-pay hook writes besides the deposit's row. */
  lemma DirectWrites(db: DB, id: nat, policy: Policy)
    requires id < |db.deposits| && db.deposits[id].addressId < |db.addresses|
    requires
      var address := db.addresses[db.deposits[id].addressId];
      Direct(address) && address.machine.value in db.machines
    ensures
      var row := db.deposits[id];
      var address := db.addresses[row.addressId];
      var price := db.machines[address.machine.value].price;
      var tx := DirectPay.RunHook(db, id, policy.tokenPrice, policy.directPayCap);
      && tx.Commit?
      && (price.None? || price.value <= 0 ==> tx.db == db)
      && (price.Some? && price.value > 0 ==>
            var credits := DirectPay.Credits(row.amount, price.value, policy.directPayCap);
            && tx.db == db.(deposits := db.deposits[id := row.(remainder := Some(GoMod(row.amount, price.value)))],
                            pulses := tx.db.pulses, addresses := tx.db.addresses)
            && multiset(tx.db.pulses) == multiset(db.pulses)
                 + Copies(DirectPay.DirectPulse(address.machine.value), if credits > 0 then credits else 0)
            && tx.db.addresses == if credits > 0
                                  then db.addresses[row.addressId := address.(useCount := address.useCount + 1)]
                                  else db.addresses)
  {
    var row := db.deposits[id];
    var address := db.addresses[row.addressId];
    var price := db.machines[address.machine.value].price;
    if price.Some? && price.value > 0 {
      var credits := DirectPay.Credits(row.amount, price.value, policy.directPayCap);
      if credits > 0 {
        CopiesAreEqual(DirectPay.DirectPulse(address.machine.value), credits);
      }
    }
  }

  lemma RunIsCreditRun(db: DB, id: nat, policy: Policy, start: nat, now: nat)
    requires Idle(db) && id < |db.deposits| && db.deposits[id].state == Confirmed
    ensures
      var (after, r) := Pipeline.CreditConfirmed(db, id, policy, start, now);
      && Idle(after) && (r.Err? <==> !Works(ShapeOf(db), SlotOf(db.deposits[id]), policy))
      && ShapeOf(after) == Applied(ShapeOf(db), db.deposits[id].outpoint,
                                    CreditRun(ShapeOf(db), db.deposits[id].outpoint, SlotOf(db.deposits[id]), policy))
  {
    var claim := Some(Pipeline.Stamp(start));
    var claimed := Pipeline.SetClaim(db, id, claim);
    HookFailsExactly(claimed, id, policy);
    if !Works(ShapeOf(db), SlotOf(db.deposits[id]), policy) {
      assert Pipeline.SetClaim(claimed, id, None).deposits == db.deposits;
      RowWritten(db.deposits, id, db.deposits[id]);
      assert db.deposits[id := db.deposits[id]] == db.deposits;
    } else if Direct(db.addresses[db.deposits[id].addressId]) {
      MachineIsCredited(db, id, policy, claim);
    } else {
      UserIsCredited(db, id, policy, claim);
    }
  }

  lemma RunIgnoresSlots(s: Shape, outpoint: Outpoint, slot: Slot, policy: Policy)
    ensures
      var known := s.(slots := s.slots[outpoint := slot]);
      && Works(known, slot, policy) == Works(s, slot, policy)
      && CreditRun(known, outpoint, slot, policy) == CreditRun(s, outpoint, slot, policy)
      && forall e: Effect :: Applied(known, outpoint, e) == Applied(s, outpoint, e)
  {
  }

  lemma RunEndsCredited(s: Shape, outpoint: Outpoint, slot: Slot, policy: Policy)
    requires slot.state == Confirmed
    ensures CreditRun(s, outpoint, slot, policy).slot.state == if Works(s, slot, policy) then Credited else Confirmed
  {
  }

  /** Whenever it is handled, an event has the effect of Deliver; the call fails exactly when the hook does. */
  lemma HandleIsDeliver(db: DB, event: Event, policy: Policy, start: nat, now: nat)
    requires Idle(db)
    ensures
      var (after, r) := Pipeline.Handle(db, event, policy, start, now);
      && Idle(after) && ShapeOf(after) == Deliver(ShapeOf(db), event, policy)
      && (r.Err? <==> Pool.IdOf(db.addresses, event.address).Some? && event.outpoint in ShapeOf(after).slots
                      && ShapeOf(after).slots[event.outpoint].state == Confirmed)
  {
    var s := ShapeOf(db);
    var addressId := Pool.IdOf(db.addresses, event.address);
    if addressId.Some? {
      UpsertIsAdvance(db, addressId.value, event, policy);
      var (upserted, id) := Pipeline.Upsert(db, addressId.value, event, policy);
      var slot := Advanced(Known(s, event, addressId.value), event, policy);
      if slot.state == Confirmed {
        RunIsCreditRun(upserted, id, policy, start, now);
        RunIgnoresSlots(s, event.outpoint, slot, policy);
        RunEndsCredited(s, event.outpoint, slot, policy);
      } else {
        assert Applied(s, event.outpoint, Silent(slot)) == s.(slots := s.slots[event.outpoint := slot]);
      }
    }
  }
}
