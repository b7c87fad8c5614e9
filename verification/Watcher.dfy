/**
 internal/chain/corewatcher.go and the consumer loop of cmd/dogecade/main.go: a poller with a
 persisted cursor, two bounded channels, rescans from other goroutines and one consumer.

 A block hash names a block and with it all its ancestors, so a hash is modelled as the path
 of blocks up to it, and the empty cursor as the empty path. The node is its active chain,
 which may change at any time, and a contract for listsinceblock.
 */
module Watcher {
  import opened Tables
  import Money
  import Pipeline

  type Event = Pipeline.Event

  datatype TransactionInfo = TransactionInfo(
    address: string,
    category: string,
    amount: real,
    confirmations: int,
    txid: string,
    vout: nat,
    blockHeight: int,
    blockIndex: int)

  /** A wallet transaction output, as a block holds it. */
  datatype Output = Output(address: string, category: string, amount: real, txid: string, vout: nat)

  datatype Block = Block(hash: string, outputs: seq<Output>)

  type Path = seq<Block>

  datatype Listing = Listing(transactions: seq<TransactionInfo>, removed: seq<TransactionInfo>, lastBlock: Path)

  /** What identifies a payment in all the events about it. */
  datatype Payment = Payment(address: string, outpoint: Outpoint, amount: int)

  function BlockHeight(tx: TransactionInfo): int {
    if tx.blockHeight != 0 then tx.blockHeight
    else if tx.blockIndex != 0 then tx.blockIndex
    else 0
  }

  /** txToPaymentEvent */
  function ToEvent(tx: TransactionInfo): Option<Event> {
    if tx.category != "receive" then None
    else Some(Pipeline.Event(tx.address, Outpoint(tx.txid, tx.vout), Money.Round(tx.amount * Money.KOINU),
                             tx.confirmations, BlockHeight(tx)))
  }

  function AsSeq(event: Option<Event>): seq<Event> {
    if event.Some? then [event.value] else []
  }

  function EventsIn(txs: seq<TransactionInfo>): seq<Event> {
    if txs == [] then []
    else AsSeq(ToEvent(txs[0])) + EventsIn(txs[1..])
  }

  function PaymentIn(event: Event): Payment {
    Payment(event.address, event.outpoint, event.amount)
  }

  function PaymentTo(output: Output): Payment {
    Payment(output.address, Outpoint(output.txid, output.vout), Money.Round(output.amount * Money.KOINU))
  }

  function Payments(events: seq<Event>): set<Payment> {
    set e | e in events :: PaymentIn(e)
  }

  /** Every receive output of the path's blocks is among the payments. */
  ghost predicate Covered(path: Path, payments: set<Payment>) {
    forall i | 0 <= i < |path| :: BlockCovered(path[i], payments)
  }

  ghost predicate BlockCovered(block: Block, payments: set<Payment>) {
    forall j | 0 <= j < |block.outputs| && block.outputs[j].category == "receive" ::
      PaymentTo(block.outputs[j]) in payments
  }

  /** The number of blocks below the fork of two paths. */
  function Shared(a: Path, b: Path): (n: nat)
    ensures n <= |a| && n <= |b| && a[..n] == b[..n]
    ensures n < |a| && n < |b| ==> a[n] != b[n]
  {
    if a == [] || b == [] || a[0] != b[0] then 0
    else
      var n := Shared(a[1..], b[1..]);
      assert a[..n + 1] == [a[0]] + a[1..][..n] && b[..n + 1] == [b[0]] + b[1..][..n];
      n + 1
  }

  ghost predicate Lists(tx: TransactionInfo, output: Output) {
    && tx.address == output.address && tx.category == output.category && tx.amount == output.amount
    && tx.txid == output.txid && tx.vout == output.vout
  }

  ghost predicate Listed(txs: seq<TransactionInfo>, output: Output) {
    exists tx | tx in txs :: Lists(tx, output)
  }

  /** listsinceblock with target 1: it lists at least what is above the fork, and the tip. */
  ghost predicate Answers(listing: Listing, cursor: Path, chain: Path) {
    && listing.lastBlock == chain
    && forall i, j | Shared(cursor, chain) <= i < |chain| && 0 <= j < |chain[i].outputs| ::
         Listed(listing.transactions, chain[i].outputs[j])
  }

  const CAPACITY: nat := 10

  datatype Polling =
    | Resting
    | Asking(cursor: Path)
    | Sending(events: seq<Event>, removals: seq<Event>, next: Path)

  datatype System = System(
    chain: Path,                // the node
    cursor: Path,               // persisted
    db: DB,                     // persisted
    polling: Polling,
    pollNow: bool,
    queue: seq<Event>,
    removedQueue: seq<Event>,
    handling: Option<Event>,
    rescans: map<nat, Path>,    // calls of Rescan that have their block hash
    sent: set<Payment>)         // bookkeeping: all that was ever put on the channel

  datatype Step =
    | ChainMoves(chain: Path)
    | PollOnTimer
    | PollOnRequest
    | Answer(listing: Listing)
    | PollFails
    | SendEvent
    | SendRemoval
    | SaveCursor(ok: bool)
    | RescanAsks(call: nat, height: nat)
    | RescanSaves(call: nat, ok: bool)
    | Nudge
    | TakeEvent
    | FinishEvent(policy: Pipeline.Policy, start: nat, now: nat, ok: bool)
    | HandleRemoval(ok: bool)
    | Others(db: DB)
    | Restart

  /** What no other service undoes: imported addresses and deposit rows stay. */
  ghost predicate Grows(before: DB, after: DB) {
    && |before.addresses| <= |after.addresses| && |before.deposits| <= |after.deposits|
    && (forall a | 0 <= a < |before.addresses| :: after.addresses[a].address == before.addresses[a].address)
    && (forall d | 0 <= d < |before.deposits| :: after.deposits[d].outpoint == before.deposits[d].outpoint)
  }

  ghost predicate Enabled(s: System, step: Step) {
    match step
    case PollOnTimer => s.polling.Resting?
    case PollOnRequest => s.polling.Resting? && s.pollNow
    case Answer(listing) => s.polling.Asking? && Answers(listing, s.polling.cursor, s.chain)
    case PollFails => !s.polling.Resting?
    case SendEvent => s.polling.Sending? && s.polling.events != [] && |s.queue| < CAPACITY
    case SendRemoval =>
      s.polling.Sending? && s.polling.events == [] && s.polling.removals != [] && |s.removedQueue| < CAPACITY
    case SaveCursor(_) => s.polling.Sending? && s.polling.events == [] && s.polling.removals == []
    case RescanAsks(_, height) => height < |s.chain|
    case RescanSaves(call, _) => call in s.rescans
    case TakeEvent => s.handling.None? && s.queue != []
    case FinishEvent(_, _, _, _) => s.handling.Some?
    case HandleRemoval(_) => s.handling.None? && s.removedQueue != []
    case Others(db) => Grows(s.db, db)
    case _ => true
  }

  function Apply(s: System, step: Step): System
    requires Enabled(s, step)
  {
    match step
    case ChainMoves(chain) => s.(chain := chain)
    case PollOnTimer => s.(polling := Asking(s.cursor))
    case PollOnRequest => s.(polling := Asking(s.cursor), pollNow := false)
    case Answer(listing) =>
      s.(polling := Sending(EventsIn(listing.transactions), EventsIn(listing.removed), listing.lastBlock))
    case PollFails => s.(polling := Resting)
    case SendEvent =>
      var event := s.polling.events[0];
      s.(queue := s.queue + [event], sent := s.sent + {PaymentIn(event)},
         polling := s.polling.(events := s.polling.events[1..]))
    case SendRemoval =>
      s.(removedQueue := s.removedQueue + [s.polling.removals[0]],
         polling := s.polling.(removals := s.polling.removals[1..]))
    case SaveCursor(ok) =>
      s.(cursor := if ok && s.polling.next != [] then s.polling.next else s.cursor, polling := Resting)
    case RescanAsks(call, height) => s.(rescans := s.rescans[call := s.chain[..height + 1]])
    case RescanSaves(call, ok) =>
      var done := s.(rescans := s.rescans - {call});
      if ok then done.(cursor := s.rescans[call], pollNow := true) else done
    case Nudge => s.(pollNow := true)
    case TakeEvent => s.(handling := Some(s.queue[0]), queue := s.queue[1..])
    case FinishEvent(policy, start, now, ok) =>
      s.(handling := None, db := if ok then Pipeline.Handle(s.db, s.handling.value, policy, start, now).0 else s.db)
    case HandleRemoval(ok) =>
      s.(removedQueue := s.removedQueue[1..], db := if ok then Pipeline.Reorg(s.db, s.removedQueue[0].outpoint) else s.db)
    case Others(db) => s.(db := db)
    case Restart =>
      s.(polling := Resting, pollNow := false, queue := [], removedQueue := [], handling := None, rescans := map[])
  }

  ghost predicate Allowed(s: System, steps: seq<Step>)
    decreases |steps|
  {
    steps == [] || (Enabled(s, steps[0]) && Allowed(Apply(s, steps[0]), steps[1..]))
  }

  function Exec(s: System, steps: seq<Step>): System
    requires Allowed(s, steps)
    decreases |steps|
  {
    if steps == [] then s else Exec(Apply(s, steps[0]), steps[1..])
  }

  /** A watcher that has never run, beside any node and any tables. */
  predicate Initial(s: System) {
    && s.cursor == [] && s.polling.Resting? && !s.pollNow && s.queue == [] && s.removedQueue == []
    && s.handling.None? && s.rescans == map[] && s.sent == {}
  }

  // --- the cursor never outruns delivery ---

  lemma {:induction false} EventOf(txs: seq<TransactionInfo>, tx: TransactionInfo)
    requires tx in txs && ToEvent(tx).Some?
    ensures ToEvent(tx).value in EventsIn(txs)
  {
    if txs[0] != tx {
      EventOf(txs[1..], tx);
    }
  }

  /** An answer and what was sent before cover the new tip, across any reorganisation. */
  lemma AnswerCovers(listing: Listing, cursor: Path, chain: Path, sent: set<Payment>)
    requires Answers(listing, cursor, chain) && Covered(cursor, sent)
    ensures Covered(chain, sent + Payments(EventsIn(listing.transactions)))
  {
    var payments := sent + Payments(EventsIn(listing.transactions));
    var n := Shared(cursor, chain);
    forall i | 0 <= i < |chain|
      ensures BlockCovered(chain[i], payments)
    {
      if i < n {
        assert chain[i] == chain[..n][i] == cursor[..n][i] == cursor[i];
        assert BlockCovered(cursor[i], sent);
      } else {
        forall j | 0 <= j < |chain[i].outputs| && chain[i].outputs[j].category == "receive"
          ensures PaymentTo(chain[i].outputs[j]) in payments
        {
          assert Listed(listing.transactions, chain[i].outputs[j]);
          var tx :| tx in listing.transactions && Lists(tx, chain[i].outputs[j]);
          EventOf(listing.transactions, tx);
          assert PaymentIn(ToEvent(tx).value) == PaymentTo(chain[i].outputs[j]);
        }
      }
    }
  }

  ghost predicate Inv(s: System) {
    && Covered(s.cursor, s.sent)
    && (s.polling.Asking? ==> Covered(s.polling.cursor, s.sent))
    && (s.polling.Sending? ==> Covered(s.polling.next, s.sent + Payments(s.polling.events)))
    && |s.queue| <= CAPACITY && |s.removedQueue| <= CAPACITY
  }

  lemma CoveredGrows(path: Path, less: set<Payment>, more: set<Payment>)
    requires Covered(path, less) && less <= more
    ensures Covered(path, more)
  {
    forall i | 0 <= i < |path|
      ensures BlockCovered(path[i], more)
    {
      assert BlockCovered(path[i], less);
    }
  }

  lemma SendKeeps(s: System)
    requires Inv(s) && Enabled(s, SendEvent)
    ensures Inv(Apply(s, SendEvent))
  {
    var t := Apply(s, SendEvent);
    var events := s.polling.events;
    assert events == [events[0]] + events[1..];
    assert s.sent + Payments(events) <= t.sent + Payments(events[1..]);
    CoveredGrows(s.cursor, s.sent, t.sent);
    CoveredGrows(s.polling.next, s.sent + Payments(events), t.sent + Payments(events[1..]));
  }

  function Received(block: Block): set<Payment> {
    set j | 0 <= j < |block.outputs| && block.outputs[j].category == "receive" :: PaymentTo(block.outputs[j])
  }

  function ReceivedIn(path: Path): set<Payment> {
    if path == [] then {} else ReceivedIn(path[..|path| - 1]) + Received(path[|path| - 1])
  }

  lemma {:induction false} CoveredExactly(path: Path, payments: set<Payment>)
    ensures Covered(path, payments) <==> ReceivedIn(path) <= payments
  {
    if path != [] {
      var init, last := path[..|path| - 1], path[|path| - 1];
      CoveredExactly(init, payments);
      BlockCoveredExactly(last, payments);
      assert forall i | 0 <= i < |init| :: init[i] == path[i];
      assert Covered(path, payments) <==> Covered(init, payments) && BlockCovered(last, payments) by {
        if Covered(init, payments) && BlockCovered(last, payments) {
          forall i | 0 <= i < |path|
            ensures BlockCovered(path[i], payments)
          {
            assert i < |init| ==> BlockCovered(init[i], payments);
          }
        }
        if Covered(path, payments) {
          forall i | 0 <= i < |init|
            ensures BlockCovered(init[i], payments)
          {
            assert BlockCovered(path[i], payments);
          }
        }
      }
    }
  }

  lemma BlockCoveredExactly(block: Block, payments: set<Payment>)
    ensures BlockCovered(block, payments) <==> Received(block) <= payments
  {
    if Received(block) <= payments {
      forall j | 0 <= j < |block.outputs| && block.outputs[j].category == "receive"
        ensures PaymentTo(block.outputs[j]) in payments
      {
        assert PaymentTo(block.outputs[j]) in Received(block);
      }
    }
  }

  /**
   A rescan whose target, at the time of its write, receives nothing that the cursor's blocks do
   not: on the path of the cursor, any rescan.
   */
  ghost predicate Careful(s: System, step: Step) {
    step.RescanSaves? && step.ok && step.call in s.rescans ==> ReceivedIn(s.rescans[step.call]) <= ReceivedIn(s.cursor)
  }

  lemma PrefixCovered(prefix: Path, path: Path, sent: set<Payment>)
    requires prefix <= path && Covered(path, sent)
    ensures Covered(prefix, sent)
  {
    forall i | 0 <= i < |prefix|
      ensures BlockCovered(prefix[i], sent)
    {
      assert prefix[i] == path[i];
    }
  }

  lemma InvKept(s: System, step: Step)
    requires Inv(s) && Enabled(s, step) && Careful(s, step)
    ensures Inv(Apply(s, step))
  {
    match step {
      case Answer(listing) => AnswerCovers(listing, s.polling.cursor, s.chain, s.sent);
      case SendEvent => SendKeeps(s);
      case SaveCursor(ok) => assert s.sent + Payments([]) == s.sent;
      case RescanSaves(call, ok) =>
        if ok {
          CoveredExactly(s.cursor, s.sent);
          CoveredExactly(s.rescans[call], s.sent);
        }
      case _ =>
    }
  }

  ghost predicate CarefulRun(s: System, steps: seq<Step>)
    requires Allowed(s, steps)
    decreases |steps|
  {
    steps == [] || (Careful(s, steps[0]) && CarefulRun(Apply(s, steps[0]), steps[1..]))
  }

  lemma {:induction false} InvAlways(s: System, steps: seq<Step>)
    requires Inv(s) && Allowed(s, steps) && CarefulRun(s, steps)
    ensures Inv(Exec(s, steps))
    decreases |steps|
  {
    if steps != [] {
      InvKept(s, steps[0]);
      InvAlways(Apply(s, steps[0]), steps[1..]);
    }
  }

  /**
   In every run of polls, RPC errors, cancelled sends, reorganisations, restarts and rescans
   whose targets receive nothing new, every receive output in a block at or below the persisted cursor
   has been put on the channel.
   */
  lemma {:induction false} CursorNeverOutrunsDelivery(s: System, steps: seq<Step>)
    requires Initial(s) && Allowed(s, steps) && CarefulRun(s, steps)
    ensures Covered(Exec(s, steps).cursor, Exec(s, steps).sent)
    ensures |Exec(s, steps).queue| <= 10 && |Exec(s, steps).removedQueue| <= 10
  {
    InvAlways(s, steps);
  }
}
