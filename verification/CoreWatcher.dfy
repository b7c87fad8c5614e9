/**
 The watcher's methods. A send on a channel blocks until the consumer has room or the context
 is cancelled; here a call is told after how many sends the cancellation comes, if it comes.
 */
module CoreWatcher {
  import opened Tables
  import opened Watcher
  import opened Notices

  /** How many of `total` sends go through. */
  function Through(total: nat, patience: Option<nat>): (n: nat)
    ensures n <= total && (n < total <==> patience.Some? && patience.value < total)
  {
    if patience.Some? && patience.value < total then patience.value else total
  }

  lemma {:induction false} EventsAppended(txs: seq<TransactionInfo>, tx: TransactionInfo)
    ensures EventsIn(txs + [tx]) == EventsIn(txs) + AsSeq(ToEvent(tx))
  {
    if txs == [] {
      assert txs + [tx] == [tx];
    } else {
      assert (txs + [tx])[1..] == txs[1..] + [tx];
      EventsAppended(txs[1..], tx);
    }
  }

  lemma {:induction false} EventsPrefix(txs: seq<TransactionInfo>, k: nat)
    requires k <= |txs|
    ensures EventsIn(txs[..k]) <= EventsIn(txs)
    decreases |txs|
  {
    if k < |txs| {
      var n := |txs| - 1;
      EventsAppended(txs[..n], txs[n]);
      assert txs == txs[..n] + [txs[n]] && txs[..k] == txs[..n][..k];
      EventsPrefix(txs[..n], k);
    } else {
      assert txs[..k] == txs;
    }
  }

  lemma PaymentsAdd(a: seq<Event>, b: seq<Event>)
    ensures Payments(a + b) == Payments(a) + Payments(b)
  {
    forall e | e in a || e in b
      ensures PaymentIn(e) in Payments(a + b)
    {
      assert e in a + b;
    }
  }

  /** However far the sends come, the old cursor stays delivered; when all are out, so is the new one. */
  lemma SendingDelivers(listing: Listing, cursor: Path, chain: Path, before: seq<Event>, sent: nat)
    requires Covered(cursor, Payments(before)) && Answers(listing, cursor, chain)
    requires sent <= |EventsIn(listing.transactions)|
    ensures
      var events := EventsIn(listing.transactions);
      && Covered(cursor, Payments(before + events[..sent]))
      && Covered(cursor, Payments(before + events)) && Covered(listing.lastBlock, Payments(before + events))
  {
    var events := EventsIn(listing.transactions);
    AnswerCovers(listing, cursor, chain, Payments(before));
    PaymentsAdd(before, events);
    PaymentsAdd(before, events[..sent]);
    CoveredGrows(cursor, Payments(before), Payments(before + events));
    CoveredGrows(cursor, Payments(before), Payments(before + events[..sent]));
  }

  /** The channel got an event for each of the first `sent` transactions that receive, and no others. */
  ghost predicate Announced(before: seq<Event>, after: seq<Event>, txs: seq<TransactionInfo>, sent: nat) {
    before <= after && sent <= |Receives(txs)| && AllTold(after[|before|..], Receives(txs)[..sent])
  }

  class CoreWatcher {
    const configured: bool    // a node client was given
    var cursor: Path          // in the settings table
    var notified: seq<Event>  // all that was put on notifyCh, in order
    var removed: seq<Event>   // all that was put on removedCh, in order
    var pollNow: bool         // the one slot of the channel of poll requests

    /** Everything at or below the cursor has been put on the channel. */
    ghost predicate Delivered()
      reads this
    {
      Covered(cursor, Payments(notified))
    }

    constructor (configured: bool, cursor: Path)
      ensures this.configured == configured && this.cursor == cursor
      ensures notified == [] && removed == [] && !pollNow
    {
      this.configured := configured;
      this.cursor := cursor;
      notified, removed, pollNow := [], [], false;
    }

    method TriggerPoll()
      modifies this`pollNow
      ensures pollNow
    {
      if !pollNow {
        pollNow := true;
      }
    }

    /** The block hash is None when getblockhash fails. */
    method Rescan(blockHash: Option<Path>, writable: bool) returns (ok: bool)
      modifies this`cursor, this`pollNow
      ensures ok <==> !configured || (blockHash.Some? && writable)
      ensures cursor == if configured && ok then blockHash.value else old(cursor)
      ensures pollNow == (old(pollNow) || (configured && ok))
      ensures old(Delivered()) && blockHash.Some? && ReceivedIn(blockHash.value) <= ReceivedIn(old(cursor)) ==> Delivered()
    {
      if !configured {
        return true;
      }
      if blockHash.None? || !writable {
        return false;
      }
      CoveredExactly(cursor, Payments(notified));
      CoveredExactly(blockHash.value, Payments(notified));
      cursor := blockHash.value;
      TriggerPoll();
      ok := true;
    }

    /** Sends the events of the transactions in order, until all are sent or the context is cancelled. */
    method Notify(txs: seq<TransactionInfo>, patience: Option<nat>) returns (sent: nat, cancelled: bool)
      modifies this`notified
      ensures sent == Through(|EventsIn(txs)|, patience)
      ensures cancelled <==> sent < |EventsIn(txs)|
      ensures notified == old(notified) + EventsIn(txs)[..sent]
      ensures Announced(old(notified), notified, txs, sent)
    {
      EventsTellReceives(txs);
      sent := 0;
      for i := 0 to |txs|
        invariant sent == |EventsIn(txs[..i])| && notified == old(notified) + EventsIn(txs[..i])
        invariant patience.Some? ==> sent <= patience.value
      {
        EventsAppended(txs[..i], txs[i]);
        assert txs[..i + 1] == txs[..i] + [txs[i]];
        EventsPrefix(txs, i);
        EventsPrefix(txs, i + 1);
        var event := ToEvent(txs[i]);
        if event.None? {
          continue;
        }
        if patience == Some(sent) {
          return sent, true;
        }
        notified := notified + [event.value];
        sent := sent + 1;
      }
      assert txs[..|txs|] == txs;
      cancelled := false;
    }

    method NotifyRemoved(txs: seq<TransactionInfo>, patience: Option<nat>) returns (sent: nat, cancelled: bool)
      modifies this`removed
      ensures sent == Through(|EventsIn(txs)|, patience)
      ensures cancelled <==> sent < |EventsIn(txs)|
      ensures removed == old(removed) + EventsIn(txs)[..sent]
      ensures Announced(old(removed), removed, txs, sent)
    {
      EventsTellReceives(txs);
      sent := 0;
      for i := 0 to |txs|
        invariant sent == |EventsIn(txs[..i])| && removed == old(removed) + EventsIn(txs[..i])
        invariant patience.Some? ==> sent <= patience.value
      {
        EventsAppended(txs[..i], txs[i]);
        assert txs[..i + 1] == txs[..i] + [txs[i]];
        EventsPrefix(txs, i);
        EventsPrefix(txs, i + 1);
        var event := ToEvent(txs[i]);
        if event.None? {
          continue;
        }
        if patience == Some(sent) {
          return sent, true;
        }
        removed := removed + [event.value];
        sent := sent + 1;
      }
      assert txs[..|txs|] == txs;
      cancelled := false;
    }

    /**
     One poll; the listing is None when the cursor cannot be read or the RPC call fails. The
     cursor moves only when every event went out, and then everything below it has.
     */
    method Poll(listing: Option<Listing>, patience: Option<nat>, writable: bool, ghost chain: Path) returns (ok: bool)
      modifies this`cursor, this`notified, this`removed
      ensures listing.None? ==> !ok && cursor == old(cursor) && notified == old(notified) && removed == old(removed)
      ensures listing.Some? ==>
                var events, removals := EventsIn(listing.value.transactions), EventsIn(listing.value.removed);
                var sent := Through(|events| + |removals|, patience);
                var complete := sent == |events| + |removals|;
                && notified == old(notified) + events[..if sent < |events| then sent else |events|]
                && removed == old(removed) + removals[..if sent < |events| then 0 else sent - |events|]
                && (ok <==> complete && (listing.value.lastBlock == [] || writable))
                && cursor == if ok && listing.value.lastBlock != [] then listing.value.lastBlock else old(cursor)
      ensures listing.Some? ==>
                var txs, gone := listing.value.transactions, listing.value.removed;
                var sent := Through(|Receives(txs)| + |Receives(gone)|, patience);
                && Announced(old(notified), notified, txs, if sent < |Receives(txs)| then sent else |Receives(txs)|)
                && Announced(old(removed), removed, gone, if sent < |Receives(txs)| then 0 else sent - |Receives(txs)|)
      ensures old(Delivered()) && (listing.Some? ==> Answers(listing.value, old(cursor), chain)) ==> Delivered()
    {
      if listing.None? {
        return false;
      }
      EventsTellReceives(listing.value.transactions);
      EventsTellReceives(listing.value.removed);
      if Delivered() && Answers(listing.value, cursor, chain) {
        SendingDelivers(listing.value, cursor, chain, notified, Through(|EventsIn(listing.value.transactions)|, patience));
      }
      var sent, cancelled := Notify(listing.value.transactions, patience);
      ghost var events := EventsIn(listing.value.transactions);
      assert events[..|events|] == events;
      if cancelled {
        return false;
      }
      var left := if patience.Some? then Some(patience.value - sent) else None;
      sent, cancelled := NotifyRemoved(listing.value.removed, left);
      ghost var removals := EventsIn(listing.value.removed);
      assert removals[..|removals|] == removals;
      if cancelled {
        return false;
      }
      if listing.value.lastBlock != [] {
        if !writable {
          return false;
        }
        cursor := listing.value.lastBlock;
      }
      ok := true;
    }
  }
}
