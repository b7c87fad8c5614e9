/**
 What the watcher says of a payment is what the node listed: one event for each transaction
 that receives, in listing order, with that transaction's figures; and over whole runs nothing
 reaches the channels or the consumer that was not listed.
 */
module Notices {
  import opened Tables
  import opened Watcher
  import Pipeline
  import Reports

  /** A nearest whole number of koinu to so many DOGE; of two, the one farther from zero. */
  predicate Nearest(koinu: int, doge: real) {
    var exact := doge * 100_000_000.0;
    && -0.5 <= koinu as real - exact <= 0.5
    && (exact >= 0.0 ==> koinu as real - exact > -0.5)
    && (exact < 0.0 ==> koinu as real - exact < 0.5)
  }

  /** The event says what the transaction says. */
  predicate Tells(event: Event, tx: TransactionInfo) {
    && event.address == tx.address && event.outpoint == Outpoint(tx.txid, tx.vout)
    && Nearest(event.amount, tx.amount)
    && event.confirmations == tx.confirmations
    && event.blockHeight == if tx.blockHeight != 0 then tx.blockHeight else tx.blockIndex
  }

  predicate AllTold(events: seq<Event>, txs: seq<TransactionInfo>) {
    |events| == |txs| && forall i | 0 <= i < |events| :: Tells(events[i], txs[i])
  }

  /** The transactions that receive, in their order. */
  function Receives(txs: seq<TransactionInfo>): (received: seq<TransactionInfo>)
    ensures forall i | 0 <= i < |received| :: received[i] in txs && received[i].category == "receive"
  {
    if txs == [] then []
    else (if txs[0].category == "receive" then [txs[0]] else []) + Receives(txs[1..])
  }

  lemma ToldExactly(tx: TransactionInfo)
    ensures ToEvent(tx).Some? <==> tx.category == "receive"
    ensures ToEvent(tx).Some? ==> Tells(ToEvent(tx).value, tx)
  {
  }

  /** A listing's events are its receiving transactions, one each and in order. */
  lemma {:induction false} EventsTellReceives(txs: seq<TransactionInfo>)
    ensures AllTold(EventsIn(txs), Receives(txs))
  {
    if txs != [] {
      ToldExactly(txs[0]);
      EventsTellReceives(txs[1..]);
    }
  }

  // --- over runs ---

  predicate Pays(tx: TransactionInfo, payment: Payment) {
    && tx.category == "receive" && payment.address == tx.address && payment.outpoint == Outpoint(tx.txid, tx.vout)
    && Nearest(payment.amount, tx.amount)
  }

  ghost predicate PaidIn(txs: seq<TransactionInfo>, payment: Payment) {
    exists i | 0 <= i < |txs| :: Pays(txs[i], payment)
  }

  ghost predicate ToldIn(txs: seq<TransactionInfo>, event: Event) {
    exists i | 0 <= i < |txs| :: txs[i].category == "receive" && Tells(event, txs[i])
  }

  lemma {:induction false} EventIsToldIn(txs: seq<TransactionInfo>, event: Event)
    requires event in EventsIn(txs)
    ensures ToldIn(txs, event) && PaidIn(txs, PaymentIn(event))
  {
    EventsTellReceives(txs);
    var i :| 0 <= i < |EventsIn(txs)| && EventsIn(txs)[i] == event;
    var tx := Receives(txs)[i];
    var j :| 0 <= j < |txs| && txs[j] == tx;
    assert Tells(event, txs[j]) && Pays(txs[j], PaymentIn(event));
  }

  /** Sent, or about to be. */
  ghost predicate Promised(s: System, payment: Payment) {
    payment in s.sent || (s.polling.Sending? && payment in Payments(s.polling.events))
  }

  /** In a poll's hands, on the channel, or with the consumer. */
  ghost predicate Underway(s: System, event: Event) {
    (s.polling.Sending? && event in s.polling.events) || event in s.queue || s.handling == Some(event)
  }

  ghost predicate RemovalUnderway(s: System, event: Event) {
    (s.polling.Sending? && event in s.polling.removals) || event in s.removedQueue
  }

  /** Only an answer brings payments, events and removals, and those are what it lists. */
  lemma StepTells(s: System, step: Step, payment: Payment, event: Event)
    requires Enabled(s, step)
    ensures Promised(Apply(s, step), payment) && !Promised(s, payment) ==>
              step.Answer? && PaidIn(step.listing.transactions, payment)
    ensures Underway(Apply(s, step), event) && !Underway(s, event) ==>
              step.Answer? && ToldIn(step.listing.transactions, event)
    ensures RemovalUnderway(Apply(s, step), event) && !RemovalUnderway(s, event) ==>
              step.Answer? && ToldIn(step.listing.removed, event)
  {
    if step.Answer? {
      var events, removals := EventsIn(step.listing.transactions), EventsIn(step.listing.removed);
      if payment in Payments(events) {
        var e :| e in events && PaymentIn(e) == payment;
        EventIsToldIn(step.listing.transactions, e);
      }
      if event in events {
        EventIsToldIn(step.listing.transactions, event);
      }
      if event in removals {
        EventIsToldIn(step.listing.removed, event);
      }
    }
  }

  /** Whatever the run, every payment ever sent was listed as received by some answer of the run. */
  lemma {:induction false} SentWasListed(s: System, steps: seq<Step>, payment: Payment) returns (k: nat)
    requires Allowed(s, steps) && payment in Exec(s, steps).sent && !Promised(s, payment)
    ensures k < |steps| && steps[k].Answer? && PaidIn(steps[k].listing.transactions, payment)
    decreases |steps|
  {
    var t := Apply(s, steps[0]);
    if Promised(t, payment) {
      StepTells(s, steps[0], payment, Pipeline.Event("", payment.outpoint, 0, 0, 0));
      k := 0;
    } else {
      k := SentWasListed(t, steps[1..], payment);
      k := k + 1;
    }
  }

  /** Whatever the run, every event handed to the consumer tells what some answer of the run listed. */
  lemma {:induction false} HandledWasListed(s: System, steps: seq<Step>, event: Event) returns (k: nat)
    requires Allowed(s, steps) && Exec(s, steps).handling == Some(event) && !Underway(s, event)
    ensures k < |steps| && steps[k].Answer? && ToldIn(steps[k].listing.transactions, event)
    decreases |steps|
  {
    var t := Apply(s, steps[0]);
    if Underway(t, event) {
      StepTells(s, steps[0], PaymentIn(event), event);
      k := 0;
    } else {
      k := HandledWasListed(t, steps[1..], event);
      k := k + 1;
    }
  }

  /** The same of removals. */
  lemma {:induction false} RemovalWasListed(s: System, steps: seq<Step>, event: Event) returns (k: nat)
    requires Allowed(s, steps) && event in Exec(s, steps).removedQueue && !RemovalUnderway(s, event)
    ensures k < |steps| && steps[k].Answer? && ToldIn(steps[k].listing.removed, event)
    decreases |steps|
  {
    var t := Apply(s, steps[0]);
    if RemovalUnderway(t, event) {
      StepTells(s, steps[0], PaymentIn(event), event);
      k := 0;
    } else {
      k := RemovalWasListed(t, steps[1..], event);
      k := k + 1;
    }
  }

  /** A removal that the consumer handles takes its deposit out of the way, unless it is credited. */
  lemma RemovalOrphans(s: System, id: nat)
    requires Enabled(s, HandleRemoval(true))
    requires Pipeline.FindDeposit(s.db.deposits, s.removedQueue[0].outpoint) == Some(id)
    ensures
      var t := Apply(s, HandleRemoval(true));
      && t.removedQueue == s.removedQueue[1..] && |t.db.deposits| == |s.db.deposits|
      && t.db.deposits[id].state == if s.db.deposits[id].state == Credited then Credited else Orphaned
  {
    Reports.ReorgOrphans(s.db, s.removedQueue[0].outpoint);
  }
}
