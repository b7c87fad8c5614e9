/** internal/services/ledger.go: the append-only token ledger. */
module Ledger {
  import opened Tables
  import opened Sums

  function Delta(ledger: seq<Entry>, user: nat): nat -> int {
    (i: nat) => if i < |ledger| && ledger[i].user == user then ledger[i].delta else 0
  }

  /** The sum of the user's ledger rows; 0 without any. */
  function Balance(ledger: seq<Entry>, user: nat): int {
    Sum(|ledger|, Delta(ledger, user))
  }

  function Insert(db: DB, entry: Entry): Tx<()> {
    if entry.user in db.users then Commit(db.(ledger := db.ledger + [entry]), ()) else Rollback(ForeignKeyViolated)
  }

  function CreditPurchase(db: DB, user: nat, deposit: nat, tokens: int): Tx<()> {
    Insert(db, Entry(user, tokens, Purchase, Some(deposit), None))
  }

  function DebitRedemption(db: DB, user: nat, pulse: nat): Tx<()> {
    if Balance(db.ledger, user) < 1 then Rollback(InsufficientBalance)
    else Insert(db, Entry(user, -1, Redemption, None, Some(pulse)))
  }

  function RefundPulse(db: DB, user: nat, pulse: nat): Tx<()> {
    Insert(db, Entry(user, 1, Refund, None, Some(pulse)))
  }

  function Adjust(db: DB, user: nat, delta: int, note: string): Tx<()> {
    if note == "" then Rollback(NoteRequired) else Insert(db, Entry(user, delta, AdminAdjust, None, None))
  }

  /** With a note, the user's balance and no other changes by the amount asked for. */
  lemma AdjustWrites(db: DB, user: nat, delta: int, note: string)
    ensures
      match Adjust(db, user, delta, note)
      case Commit(after, _) =>
        && note != "" && user in db.users
        && after == db.(ledger := db.ledger + [Entry(user, delta, AdminAdjust, None, None)])
        && Balance(after.ledger, user) == Balance(db.ledger, user) + delta
        && forall u: nat | u != user :: Balance(after.ledger, u) == Balance(db.ledger, u)
      case Rollback(error) =>
        (note == "" && error == NoteRequired) || (note != "" && user !in db.users && error == ForeignKeyViolated)
  {
    forall u: nat
      ensures Balance(db.ledger + [Entry(user, delta, AdminAdjust, None, None)], u)
           == Balance(db.ledger, u) + if u == user then delta else 0
    {
      BalanceAppended(db.ledger, Entry(user, delta, AdminAdjust, None, None), u);
    }
  }

  lemma BalanceAppended(ledger: seq<Entry>, entry: Entry, user: nat)
    ensures Balance(ledger + [entry], user) == Balance(ledger, user) + if entry.user == user then entry.delta else 0
  {
    SumExtends(|ledger|, Delta(ledger, user), Delta(ledger + [entry], user));
  }

  class LedgerService {
    const store: Store

    constructor (store: Store)
      ensures this.store == store
    {
      this.store := store;
    }

    method BalanceOf(user: nat) returns (balance: int)
      ensures balance == Balance(store.ledger, user)
    {
      balance := Balance(store.ledger, user);
    }

    method InsertEntry(entry: Entry) returns (r: Result<()>)
      modifies store
      ensures Ran(Insert(old(store.Snapshot()), entry), old(store.Snapshot()), store.Snapshot(), r)
    {
      if entry.user !in store.users {
        return Err(ForeignKeyViolated);
      }
      store.ledger := store.ledger + [entry];
      r := Ok(());
    }

    method CreditPurchaseTx(user: nat, deposit: nat, tokens: int) returns (r: Result<()>)
      modifies store
      ensures Ran(CreditPurchase(old(store.Snapshot()), user, deposit, tokens),
                  old(store.Snapshot()), store.Snapshot(), r)
    {
      r := InsertEntry(Entry(user, tokens, Purchase, Some(deposit), None));
    }

    method DebitRedemptionTx(user: nat, pulse: nat) returns (r: Result<()>)
      modifies store
      ensures Ran(DebitRedemption(old(store.Snapshot()), user, pulse), old(store.Snapshot()), store.Snapshot(), r)
    {
      var balance := BalanceOf(user);
      if balance < 1 {
        return Err(InsufficientBalance);
      }
      r := InsertEntry(Entry(user, -1, Redemption, None, Some(pulse)));
    }

    method Refund(user: nat, pulse: nat) returns (r: Result<()>)
      modifies store
      ensures Ran(RefundPulse(old(store.Snapshot()), user, pulse), old(store.Snapshot()), store.Snapshot(), r)
    {
      r := InsertEntry(Entry(user, 1, Kind.Refund, None, Some(pulse)));
    }

    method AdminAdjust(user: nat, delta: int, note: string) returns (r: Result<()>)
      modifies store
      ensures Ran(Adjust(old(store.Snapshot()), user, delta, note), old(store.Snapshot()), store.Snapshot(), r)
    {
      if note == "" {
        return Err(NoteRequired);
      }
      r := InsertEntry(Entry(user, delta, Kind.AdminAdjust, None, None));
    }
  }
}
