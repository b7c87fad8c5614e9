# Dogecade: a verified model of its token economy

Dogecade sells arcade plays for Dogecoin. Payments are seen on the chain, confirmed and
credited as tokens to a user, or as plays to a machine; tokens are redeemed for relay pulses;
a dispatcher sends the pulses to the machines' boards and gives a token back when a board
never answers. This project models that economy, the chain watcher in front of it, and the
address codec and the small arithmetic and string cores that they rest on, and proves what
they promise over every input and every run.

`dafny verify dfyconfig.toml` checks everything.

## How it is built

- **Tables.** `Tables.dfy` holds one datatype per row, `DB` for the value of all tables and
  `class Store` for the open database. The store keeps one connection
  (internal/store/store.go:41), so an SQL transaction is one atomic step; statements outside a
  transaction are steps of their own. Rows that are never deleted live in sequences and their
  index is their id. Time stamps are whole seconds, clocks are nanoseconds.
- **Services.** Each source file is a module: a function per transaction that gives its outcome
  (`Commit` or `Rollback`), and a class whose methods update the store and are proved to do
  exactly that, roll back included. Settings, clock readings, board replies and node answers are
  parameters.
- **Runs.** `Economy.dfy` is one state machine of all services: thirty kinds of steps, any
  interleaving of any number of calls, crashes and failed writes. A `HandleEvent` call is up to
  five steps, a dispatcher attempt one or two. Its `History` records committed hook runs, faults,
  lost refunds, first owners and heirs; no step depends on it, except that a new user gets an id
  that was not used before. `Undisturbed.dfy` ties the machine back to the methods.
- **Theorems over runs.** `Conservation`/`Tokens` (tokens), `Lease` (claims), `Settlement`/
  `Quotes`/`SingleConsumer`/`Payees` (deposits against ledger, pulses and addresses), `Ownership` (merges), `Bindings`/
  `TableInvariants` (addresses, outpoints, alerts), `Plays` (whose token plays where), `Rotation`,
  `Dispatch`; `Faults` holds the runs that show which conditions are needed.
- **Outcomes.** What a caller sees of one call or stream, told without the functions that compute
  it: `Replies` (a board's reply to its pulse), `Reports` (confirmations and removals to their
  deposit), `Notices` (a listing to its events), `AddressWrites` (an operation to its rows).
- **Delivery.** `Shapes` looks at the tables without row ids and times, where `HandleEvent` is one
  function; `Insensitivity` proves that function commutative and idempotent. `Watcher`,
  `Consumption`, `Rescans` and `CoreWatcher` model the poller, its cursor, its channels and the
  consumer; a block hash is the path of blocks up to it, and the node is an active chain that may
  change at any time plus a contract for `listsinceblock`.
- **Codec and arithmetic.** `Digits`, `Keyring`, `Address`, `AddressBatch`; `Like`, `Money`,
  `Backoff`. SHA-256 (section 6.2 of FIPS 180-4) is any function to 32 bytes.

## What turned out not to hold

The model follows the code. Where the code does not keep what it or its comments announce, there
is a run or input that shows it and an exact condition beside it.

- A refund is lost when the dispatcher dies between marking a pulse failed and refunding it, when
  that write fails, or when the pulse's user is merged away in between, because the user id was
  read at the start of the pass (`Tokens.LostExactly`, `Faults.MergeLosesRefund`).
- A deposit can be credited again after a crash between the hook's commit and the credited mark,
  and when a crediting run outlives its two-minute claim (`Lease.StolenExactly`,
  `Faults.CrashCreditsTwice`, `Faults.SlowRunCreditsTwice`).
- A rescan is safe exactly when the blocks up to its target receive nothing that the cursor's blocks
  do not. On the cursor's path that always holds; after a reorganisation a height at or below the
  cursor's may lie off it, and a payment can then be skipped for good
  (`Rescans.RescanIsSafeExactly`, `Rescans.OnPathIsSafe`, `Rescans.RescanCanSkip`).
- A poll under way may save its own cursor over a rescan's. The rescan is sure to take effect exactly
  when, at its write, no poll is under way, or one that has its answer and will save nothing, or the
  same block (`Rescans.RescanTakesEffectExactly`, `Rescans.RescanCanBeLost`).
- The backoff is the announced one up to attempt 35. Beyond, the 64-bit product overflows and the
  delay is mostly not positive (`Backoff.PromisedExactly`).
- The comment that testnet P2PKH addresses start with 'n' or 'm' is right of the two version bytes
  together, but 0x71 alone always gives 'n' (`Address.AcceptedShapes`).

## Model

| member | source | states |
|---|---|---|
| Tokens.TokensAreConserved | internal/services/ledger.go:45-147 | In every run with any crashes, failed writes and merges, a balance is purchases plus adjustments less the redemptions without a refund; a pulse is never refunded twice; only failed redemptions are refunded |
| Tokens.BalanceIsEarnedLessOpen | internal/relay/dispatcher.go:315-337 | In runs where no refund is lost: a redemption is refunded exactly when it is failed, and a balance is purchases plus adjustments minus the redemptions that are pending or sent |
| Tokens.LostExactly | internal/relay/dispatcher.go:324-329 | A step strands a failed redemption, without a refund and not to be refunded, exactly when the dispatcher owes that refund and dies, fails to write it, or remembers a user that is gone; and it stays stranded |
| Tokens.StrandedAreLost | internal/relay/dispatcher.go:315-337 | In every run, the lost refunds are exactly the failed redemptions that are neither refunded nor owed |
| Tokens.BalancesStayNonNegative | internal/services/ledger.go:114-132 | No balance is ever negative unless an admin adjustment makes it so |
| Conservation.MergeConserves | internal/services/users.go:123-147 | A merge keeps the conservation equation of every account, the surviving one taking over both sides |
| Conservation.RedeemConserves | internal/services/redemption.go:39-82 | Debit and queued pulse together keep the equation |
| Conservation.InvKept | internal/relay/dispatcher.go:179-216 | Every step of any service keeps the conservation equation, the match of refunds with failed redemptions, and a dispatch pass that no other step makes stale |
| Conservation.RefundConserves | internal/services/ledger.go:137-147 | A refund moves one redemption from held to returned, for its user alone |
| Redemption.RedeemIsAtomic | internal/services/redemption.go:39-82 | On success exactly one pulse is queued, for the machine asked for and the user, pending, with no attempts and due at once, and one row takes one token for that pulse; everything else stays. It succeeds exactly for a known active machine and an existing user with a token |
| Redemption.RedemptionService.RedeemToken | internal/services/redemption.go:39-82 | The method, roll back included, runs exactly that transaction |
| Plays.RedemptionsPlayWhereAsked | internal/services/redemption.go:62-65 | In every run, with merges, crashes and failed writes: the redemption pulses, in order, are the redemptions that went through, each at the machine it was made for and for the account that the redeemer is merged into by now |
| Plays.InvKept | internal/services/redemption.go:39-82 | Every step keeps that; only a redemption that goes through adds to it |
| Ledger.LedgerService.DebitRedemptionTx | internal/services/ledger.go:114-132 | Refuses below one token, else appends the debit |
| Ledger.LedgerService.CreditPurchaseTx | internal/services/ledger.go:84-94 | Appends the purchase row, or is refused for an unknown user |
| Ledger.LedgerService.Refund | internal/services/ledger.go:137-147 | Appends the refund row, or is refused for an unknown user |
| Ledger.LedgerService.AdminAdjust | internal/services/ledger.go:183-196 | Needs a note; has no lower bound |
| Ledger.AdjustWrites | internal/services/ledger.go:183-196 | An adjustment changes the balance of its user by its amount and no other balance; it is refused exactly without a note or for an unknown user |
| Users.UsersService.Merge | internal/services/users.go:123-147 | Rewrites the owner in ledger, addresses and pulses and deletes the account, or changes nothing |
| AddressWrites.MergeWrites | internal/services/users.go:133-142 | A merge moves every row of the account in ledger, addresses and pulses to the survivor, changes nothing else in them, and deletes one account |
| Lease.LeaseExcludes | internal/services/deposit_pipeline.go:216-291 | With any concurrency, crashes and reorgs, if crediting runs end within two minutes of their stamp or are alone: at most one run of a deposit is live, and its committed runs are exactly those cut off between commit and mark, the marked one and the one on its way to the mark, of which the last two are never both |
| Lease.StolenExactly | internal/services/deposit_pipeline.go:263-291 | A claim can be taken from a live run exactly when its stamp is more than 120 whole seconds old |
| Lease.InvKept | internal/services/deposit_pipeline.go:216-291 | Every step keeps: live runs exclude each other, hold the claim they stamped, and each committed run is accounted for by the mark, a fault, or a run on its way to the mark |
| Pipeline.DepositPipeline.ClaimForCrediting | internal/services/deposit_pipeline.go:274-291 | Takes the claim exactly when the deposit is confirmed and no claim is honoured |
| Pipeline.DepositPipeline.UpsertAndAdvance | internal/services/deposit_pipeline.go:109-261 | Upsert and advance, then claim, hook and mark or release |
| Pipeline.DepositPipeline.HandleEvent | internal/services/deposit_pipeline.go:54-67 | Ignores unknown addresses, else runs the upsert and the crediting, to the exact new tables |
| Pipeline.DepositPipeline.InsertReorgAlert | internal/services/deposit_pipeline.go:295-327 | Adds the alert unless an unacknowledged one for this deposit matches |
| Pipeline.DepositPipeline.HandleReorg | internal/services/deposit_pipeline.go:73-106 | Orphans seen and confirmed deposits, reports credited ones, leaves the others |
| Reports.ReorgOrphans | internal/services/deposit_pipeline.go:73-106 | After a reorganisation the deposit is orphaned exactly when it was seen, confirmed or orphaned; all its other columns, all other rows and tables are the same, and only a credited one may raise an alert, at most one |
| Reports.OrphanedForGood | internal/services/deposit_pipeline.go:73-198 | What a reorganisation orphans, no later stream of reports credits: it stays orphaned, and the other deposits, the ledger and the pulses come out as if it were never reported again |
| Reports.FinalForGood | internal/services/deposit_pipeline.go:182-198 | The same of every orphaned or credited deposit: its state and remainder stay, and it adds no ledger row, pulse or use |
| Pipeline.FindDeposit | internal/services/deposit_pipeline.go:133-137 | The row of the outpoint, if there is one |
| Undisturbed.HandleIsARun | internal/services/deposit_pipeline.go:54-261 | The method's effect and result are those of a run of the machine's steps when nothing comes between them, in which the call returns and does not die; it fails exactly when the run releases its claim |
| Undisturbed.ReorgIsARun | internal/services/deposit_pipeline.go:73-106 | So is the effect of HandleReorg, by a run in which the call returns and does not die |
| Undisturbed.PulseIsARun | internal/relay/dispatcher.go:179-216 | So is the bookkeeping of one dispatch attempt, refund and alert included; the run starts with the attempt that the board's reply makes and adds at most a written refund and an alert |
| Shapes.HandleIsDeliver | internal/services/deposit_pipeline.go:54-261 | Whenever it is handled, an event does to the tables, seen without ids and times, what Deliver says; the call fails exactly when its deposit is left confirmed |
| Shapes.HookFailsExactly | internal/services/direct_pay.go:264-287 | The credit hook fails exactly for a vanished machine, a price that is not positive, or tokens for a vanished user |
| Reports.AboveIsCredited | internal/services/deposit_pipeline.go:182-258 | A new or seen deposit one of whose reports has the confirmations asked for, or whose amount is at most a positive zero-confirmation limit, ends credited if the hook works for it and confirmed if not, whatever else is reported and in whatever order, as long as reports of one payment agree on its address and amount |
| Reports.BelowIsOnlySeen | internal/services/deposit_pipeline.go:182-198 | A new deposit all of whose reports have too few confirmations, and too much money for the zero-confirmation rule, ends seen: no ledger row, remainder or pulse exists for it, and everything else is as if it were never reported |
| Reports.ConfirmedIsRetried | internal/services/deposit_pipeline.go:200-291 | A confirmed deposit, its hook failed or its run cut off, is credited by its next report exactly when no claim of the last two minutes holds it and the hook works; a failed hook leaves no claim |
| Reports.HandleRecords | internal/services/deposit_pipeline.go:121-180 | After an event its row holds the confirmations of the event, and its block height if positive, else the old one; address and amount stay those of the first report; no other deposit changes |
| Insensitivity.Commutes | internal/services/deposit_pipeline.go:109-261 | Any two events, of one payment or of two, commute |
| Insensitivity.OthersCommute | internal/services/deposit_pipeline.go:109-261 | Events of different outpoints commute on deposits, ledger multiset, pulses and use counts |
| Insensitivity.Repeats | internal/services/deposit_pipeline.go:109-261 | A repeated event does nothing more |
| Insensitivity.DeliveryInsensitive | internal/services/deposit_pipeline.go:109-261 | Streams of the same events in any order and with any repetitions leave the same deposits, ledger multiset, pulses and use counts, even where hooks fail |
| Insensitivity.CreditedExactly | internal/services/deposit_pipeline.go:182-258 | A reported deposit ends credited exactly when some report meets the policy and the hook works; confirmed if only the former; seen otherwise |
| SingleConsumer.DepositIsSettled | internal/services/deposit_pipeline.go:216-261 | With one consumer, in any reached state: a fault-free deposit that is credited, or about to be marked, was paid by exactly one hook run that was read off its address, with amount = tokens * price + remainder and one purchase row (none for zero tokens), or exactly the capped plays; any other has no row, no remainder and no pulse |
| Payees.UserIsPaid | internal/services/purchase.go:104-156 | In every orderly run with leased crediting: a credited, fault-free deposit that came in after its address was given to a user, retired since or not, has exactly one purchase row, for that user's heir, of the whole tokens at the price read; no row for less than a token |
| Payees.EveryRunPaysOwner | internal/services/purchase.go:104-156 | In every orderly run, leased or not: every committed hook run of such a deposit was read as a purchase for its user, and its purchase rows are exactly those of these runs, all the heir's |
| Payees.MachineIsPaid | internal/services/direct_pay.go:198-287 | In every run without releases with leased crediting: a credited, fault-free deposit that came in after its address was bound to a machine queued exactly min(amount / price, cap) pulses there (no cap unless positive) and kept the rest, or left no trace when no price was set; it credited no user |
| Quotes.PlanFits | internal/services/direct_pay.go:264-287 | The hook plans exactly what the paid address, the machine's price and the settings ask for, and fails when that is nothing |
| Quotes.RunsWereRead | internal/services/direct_pay.go:264-287 | Every committed hook run, in any run of the system, was read so by a step that held its deposit's claim |
| SingleConsumer.SerialIsLeased | cmd/dogecade/main.go:194-208 | Runs with one consumer need no timing assumption: their crediting is alone |
| SingleConsumer.RunsOfFaultFree | internal/services/deposit_pipeline.go:241-257 | A fault-free deposit has one committed run from its commit on, and none before |
| SingleConsumer.FinalStaysFinal | internal/services/deposit_pipeline.go:182-198 | With one consumer, credited and orphaned are absorbing |
| SingleConsumer.InvKept | cmd/dogecade/main.go:194-208 | With one consumer every step keeps: calls find their rows as they left them, and marked means credited, with no timing assumption |
| Settlement.InvKept | internal/services/direct_pay.go:198-257 | Every step keeps: a deposit's ledger rows and remainder, and each machine's direct pulses, are those of the committed hook runs |
| DirectPay.DirectPayService.CreditDeposit | internal/services/direct_pay.go:198-257 | Notes the remainder, queues the pulses and counts the use, or changes nothing |
| DirectPay.DirectPayService.Hook | internal/services/direct_pay.go:264-287 | Routes by the purpose of the paid address, to the exact new tables |
| DirectPay.DirectWrites | internal/services/direct_pay.go:216-256 | For the only credits and rest that split the amount: notes the rest, queues that many pulses for the machine, anonymous, pending and due at once, or as many as a positive cap allows, and counts one use; or is refused for a vanished machine |
| PurchaseFlow.PurchaseService.CreditHook | internal/services/purchase.go:104-156 | Remainder and purchase row in one transaction |
| PurchaseFlow.PurchaseService.StartPurchase | internal/services/purchase.go:33-88 | Reuses the user's assigned address or binds the oldest pool address |
| PurchaseFlow.ActiveFor | internal/services/purchase.go:40-45 | An assigned token_deposit address of the user, if there is one |
| PurchaseFlow.PurchaseWrites | internal/services/purchase.go:132-154 | For the only tokens and rest that split the amount: notes the rest and appends the purchase row for whole tokens due, or is refused |
| Tables.SplitsExactly | internal/services/purchase.go:132-133 | Quotient and remainder split an amount at a price, and nothing else does |
| Tables.GoDiv | internal/services/purchase.go:132-132 | Go's quotient, by the multiples of the divisor around the dividend |
| Tables.GoMod | internal/services/purchase.go:133-133 | Go's remainder: what the quotient leaves, smaller than the divisor, with the dividend's sign |
| Ownership.OwnershipSurvivesMerges | internal/services/users.go:123-147 | In every run without Release, an address belongs to the account that its first user is merged into by now, a purchase row to the owner of the address that was paid, and a balance is the total of the merge class |
| Ownership.ClassAdds | internal/services/users.go:123-147 | The total of a merge class is the sum over its members |
| Ownership.InvKept | internal/services/users.go:123-147 | Every step but Release keeps: addresses and ledger rows belong to heirs, and a hook that has read its user will not pay a wrong one |
| Bindings.StartKeeps | internal/services/purchase.go:33-88 | The one-per-user index never refuses StartPurchase; only an empty pool does |
| Bindings.ActivateKeeps | internal/services/direct_pay.go:65-115 | An index refuses Activate exactly when the machine already has an active address |
| Bindings.RotateKeeps | internal/services/direct_pay.go:122-183 | No index ever refuses Rotate; only an empty pool does, and then no address changes; after a success the machine's only active row is the pool's oldest, with use count 0 |
| Bindings.MergeExactly | internal/services/users.go:123-147 | The exact condition under which a merge commits; it keeps the address invariants |
| Bindings.ReleaseKeeps | internal/services/pool.go:88-106 | Releasing keeps the address invariants and is refused for unknown ids only |
| Bindings.RetireKeeps | internal/services/pool.go:109-128 | Retiring keeps them and is refused for unknown ids only |
| Bindings.AssignKeeps | internal/services/pool.go:35-83 | Assigning keeps them and is refused for an empty pool only |
| Bindings.ImportKeeps | internal/services/address_batch.go:92-129 | Importing keeps the address invariants |
| Bindings.CreditKeeps | internal/services/direct_pay.go:249-253 | Crediting keeps them |
| AddressWrites.AssignWrites | internal/services/pool.go:35-83 | Assigning takes the oldest pool row of the purpose, stamps it and leaves it unbound; no other row or table changes |
| AddressWrites.ReleaseWrites | internal/services/pool.go:88-106 | A released row is an unbound pool row without a stamp that keeps its use count; nothing else changes |
| AddressWrites.RetireWrites | internal/services/pool.go:109-128 | A retired row keeps everything but its state; nothing else changes |
| AddressWrites.StartWrites | internal/services/purchase.go:33-88 | The user's assigned address, with nothing written, exactly when there is one; else the oldest token_deposit pool row, bound to the user and stamped, and nothing else |
| AddressWrites.ActivateWrites | internal/services/direct_pay.go:65-115 | The oldest machine_direct pool row is bound to the machine, stamped, with use count 0; nothing else changes |
| AddressWrites.RotateWrites | internal/services/direct_pay.go:122-183 | Retires exactly the machine's active rows and binds the oldest pool row, stamped, with use count 0; an empty pool changes no address and leaves an unacknowledged alert, at most one of them new |
| AddressWrites.ImportWrites | internal/services/address_batch.go:92-129 | An import makes each address of the batch an unbound, unused pool row of the purpose asked for; the oldest-first pool of that purpose grows by exactly the batch at its young end, those of other purposes do not change |
| AddressWrites.OldestWaits | internal/services/pool.go:43-51 | The row that an assignment takes is the head of that pool |
| Pool.Oldest | internal/services/pool.go:35-83 | The pool row of the purpose with the lowest id, if there is one |
| Pool.IdOf | internal/services/pool.go:159-172 | A row with this address, if there is one |
| Pool.PoolService.Assign | internal/services/pool.go:35-83 | Takes the oldest pool address of the purpose |
| Pool.PoolService.Release | internal/services/pool.go:88-106 | Unbinds the row, refused for unknown ids |
| Pool.PoolService.Retire | internal/services/pool.go:109-128 | Retires the row and keeps its user |
| TableInvariants.TablesStaySound | internal/store/migrations/0006_token_core.sql:79-81 | Over every interleaving: addresses and outpoints unique, pool rows unbound, purposes match owners, one assigned address per user and machine |
| TableInvariants.InvKept | internal/store/migrations/0005_deposits.sql:34-34 | Every step keeps the invariants of addresses and outpoints |
| TableInvariants.OneAlertPerDeposit | internal/services/deposit_pipeline.go:295-327 | Serial reorgs leave at most one unacknowledged alert per deposit |
| Pipeline.ReorgIsReported | internal/services/deposit_pipeline.go:99-101 | A reorg of a credited deposit leaves an unacknowledged alert that names it, for hexadecimal txids |
| DirectPay.DirectPayService.Activate | internal/services/direct_pay.go:65-115 | Binds the oldest machine_direct pool address, or changes nothing |
| DirectPay.DirectPayService.Rotate | internal/services/direct_pay.go:122-183 | Retires and replaces in one transaction; an empty pool leaves the address and raises an alert |
| Rotation.CheckAllServes | internal/services/rotation.go:77-129 | One CheckAll does min(turns, pool size) rotations, of distinct machines to distinct oldest addresses of use count 0; all other rows stay; no served machine loses its address |
| Rotation.TurnsExactly | internal/services/rotation.go:90-123 | A machine has a turn exactly when it is enabled for direct pay and its active address has reached the use limit, or its age limit when it is looked at |
| Rotation.OthersKeepTheirs | internal/services/rotation.go:114-127 | A machine that is not due, or whose turn comes when the pool is empty, keeps all its rows |
| Rotation.CandidatesExactly | internal/services/rotation.go:90-111 | The candidates are the active rows of enabled machines, each once, in row order |
| Rotation.RotationJob.CheckAll | internal/services/rotation.go:77-129 | The loop over the candidates has exactly that effect |
| Dispatch.SettleDrains | internal/relay/dispatcher.go:179-216 | Each attempt on a pending pulse lowers the sum of attempts left |
| Replies.SettleFollowsReply | internal/relay/dispatcher.go:192-216 | A reply decides the outcome: an answered pulse is sent for good, with ledger and alerts as they were; an unanswered one below the limit stays pending with one more attempt, due less than a second before the announced delay has passed and not after it; at the limit it fails, with exactly one refund row for a redemption of an existing user and no ledger row otherwise |
| Replies.PassFollowsReplies | internal/relay/dispatcher.go:134-216 | Over a pass: each fetched pulse follows its own reply, no other pulse changes, and the new ledger rows are the refunds of the redemptions given up, in order |
| Replies.FetchedExactly | internal/relay/dispatcher.go:147-171 | A fetch takes exactly the pending pulses without a retry time or whose time has come, each once, as they are |
| Dispatch.QueueEmpties | internal/relay/dispatcher.go:134-216 | With a fixed limit, after as many useful passes as that sum nothing is pending |
| Dispatch.PassDrains | internal/relay/dispatcher.go:134-145 | One pass lowers that sum by at least the number of pulses it takes, and leaves the others alone |
| Dispatch.FetchedAreFresh | internal/relay/dispatcher.go:147-171 | A fetch reads eligible pulses as they are, each once |
| Dispatch.RetryIsDue | internal/relay/dispatcher.go:147-153 | Whole-second stamps make a retry due less than a second early and never late |
| Dispatch.Dispatcher.WaitForGap | internal/relay/dispatcher.go:223-246 | On return the gap since the machine's last attempt has passed |
| Dispatch.Dispatcher.Fire | internal/relay/dispatcher.go:179-190 | One attempt, successful or not, is recorded at its end and keeps all attempts of a machine a gap apart |
| Dispatch.Dispatcher.ProcessPulse | internal/relay/dispatcher.go:179-216 | One attempt, logged with its times, and its exact effect on the tables |
| Dispatch.Dispatcher.DispatchOnce | internal/relay/dispatcher.go:134-145 | A pass settles every eligible pulse in order and keeps any two attempts on a machine a gap apart |
| Dispatch.Dispatcher.Run | internal/relay/dispatcher.go:100-118 | Over any number of passes with any time between them, any two attempts on a machine are a gap apart |
| Dispatch.Dispatcher.MarkFailedAndRefund | internal/relay/dispatcher.go:315-337 | Marks, refunds redemptions, alerts; stops at a refused refund |
| Backoff.PromisedExactly | internal/relay/dispatcher.go:339-347 | The 64-bit delay is min(500 ms * 2^(a-1), 30 s) exactly up to attempt 35, for eight attempts up to 63, and from 64 on only if the platform's integer for the power wraps that high; otherwise, up to 63 and on platforms that give the smallest or largest int64, it is not positive |
| Backoff.PromisedUpTo35 | internal/relay/dispatcher.go:341-347 | Up to attempt 35 the delay is the announced one, between base and cap |
| Backoff.TotalBackoff | internal/relay/dispatcher.go:341-347 | The total delay for a limit up to 36, in closed form |
| Backoff.NeverDecreasing | internal/relay/dispatcher.go:341-347 | Delays never decrease up to attempt 35 |
| Faults.MergeLosesRefund | internal/relay/dispatcher.go:324-329 | A nine-step run after which a token is gone |
| Faults.CrashCreditsTwice | internal/services/deposit_pipeline.go:241-257 | One crash, and a deposit is credited twice: the bound of LeaseExcludes is reached |
| Faults.SlowRunCreditsTwice | internal/services/deposit_pipeline.go:263-291 | One slow run, no crash, two live runs, two credits |
| Watcher.CursorNeverOutrunsDelivery | internal/chain/corewatcher.go:165-228 | Over every run with RPC errors, cancelled sends, reorganisations, restarts and rescans to blocks that receive nothing new, which rescans along the cursor's path never do, every receive output at or below the persisted cursor was put on the channel |
| Watcher.AnswerCovers | internal/chain/corewatcher.go:176-218 | An answer and what was sent before cover the new tip, wherever the fork is |
| Watcher.InvKept | internal/chain/corewatcher.go:165-228 | Every step keeps it, also for the cursor a poll under way has read and the one it will save |
| Watcher.Shared | internal/chain/corewatcher.go:176-180 | The fork of two paths: all blocks below it are equal, and those at it differ |
| Consumption.DrainedMeansRecorded | cmd/dogecade/main.go:194-208 | From any point of a careful run on after which there is no restart or handler error: once drained, each receive output at or below the cursor to an address known at that point has its deposits row, unless its payment had been sent before and was gone by then |
| Consumption.HandlingLeavesRow | internal/services/deposit_pipeline.go:54-261 | Handling an event for a known address leaves its deposits row, even when the credit hook fails |
| Consumption.EconomyGrows | internal/services/deposit_pipeline.go:121-214 | No step of the economy removes an address or a deposit row |
| CoreWatcher.CoreWatcher.Poll | internal/chain/corewatcher.go:165-228 | Exactly what one poll puts on the channels under cancellation, an event for each listed transaction that receives and nothing else, with the figures listed, and when the cursor moves; it keeps the delivery invariant |
| CoreWatcher.CoreWatcher.Notify | internal/chain/corewatcher.go:182-202 | The transactions that receive are told one by one, in order and with their figures, up to the cancellation |
| CoreWatcher.CoreWatcher.NotifyRemoved | internal/chain/corewatcher.go:204-218 | Likewise for removed transactions |
| CoreWatcher.CoreWatcher.Rescan | internal/chain/corewatcher.go:74-101 | Sets the cursor and requests a poll, or fails; keeps delivery when the target receives nothing new |
| CoreWatcher.CoreWatcher.TriggerPoll | internal/chain/corewatcher.go:108-114 | A request is pending afterwards, without blocking |
| Notices.EventsTellReceives | internal/chain/corewatcher.go:230-271 | The events of a listing are its transactions of category receive, one each and in order: with that transaction's address, outpoint and confirmations, the nearest whole number of koinu to its amount, and its block height, or the block index if that is 0 |
| Notices.SentWasListed | internal/chain/corewatcher.go:182-202 | In every run, every payment ever sent was listed as received by some answer of the node |
| Notices.HandledWasListed | internal/chain/corewatcher.go:182-202 | In every run, every event handed to the consumer has the figures of a receiving transaction that some answer listed |
| Notices.RemovalWasListed | internal/chain/corewatcher.go:204-218 | In every run, every removal on its channel has the figures of a receiving transaction that some answer listed as removed |
| Notices.RemovalOrphans | cmd/dogecade/main.go:194-208 | A removal that the consumer handles orphans its deposit unless it is credited |
| Rescans.RescanIsSafeExactly | internal/chain/corewatcher.go:86-95 | Writing a target over the cursor is safe, whatever was sent, exactly when the target's blocks receive no payment that the cursor's blocks do not |
| Rescans.OnPathIsSafe | internal/chain/corewatcher.go:86-95 | That is so on the cursor's path; off it, exactly when each block there receives nothing new |
| Rescans.RescanCanSkip | internal/chain/corewatcher.go:86-95 | A run that skips a payment after a reorganisation |
| Rescans.RescanTakesEffectExactly | internal/chain/corewatcher.go:86-97 | Whatever happens short of a new poll or another rescan, the rescan's block is the cursor once the poller rests, exactly when no poll is under way at its write, or one with its answer that will save nothing or the same block |
| Rescans.RescanCanBeLost | internal/chain/corewatcher.go:220-225 | A run whose rescan is overwritten by a poll under way |
| Keyring.DecodeEncode | internal/keyring/keyring.go:122-217 | decode(encode(b)) = b for every byte string |
| Keyring.EncodeDecode | internal/keyring/keyring.go:122-217 | Decoding fails exactly on a character outside the alphabet, and encode(decode(s)) = s |
| Keyring.EncodingIsTheNumber | internal/keyring/keyring.go:166-217 | The encoding is the number that the bytes are, written in base 58, with one leading 1 for each leading zero byte |
| Keyring.Base58Decode | internal/keyring/keyring.go:122-163 | The loops compute that decoding |
| Keyring.BuildAlphabetMap | internal/keyring/keyring.go:118-127 | The table maps exactly the letters of the alphabet to their digits |
| Keyring.ReadNumber | internal/keyring/keyring.go:141-153 | Fails exactly on a foreign character, else the positional value |
| Keyring.Base58Encode | internal/keyring/keyring.go:166-217 | The loops compute that encoding, all-zero input included |
| Keyring.ReadBytes | internal/keyring/keyring.go:181-186 | The positional value of the bytes |
| Keyring.WriteNumber | internal/keyring/keyring.go:198-208 | The digits of the number, most significant first |
| Keyring.PrependOnes | internal/keyring/keyring.go:210-213 | One '1' in front for each leading zero byte |
| Keyring.Reverse | internal/keyring/keyring.go:205-208 | The in-place reversal |
| Digits.ConvertBack | internal/keyring/keyring.go:122-217 | Changing base and back is the identity on digit strings, leading zeros included |
| Address.BytesEqual | internal/keyring/keyring.go:220-230 | True exactly for equal byte strings |
| Address.Base58CheckDecode | internal/keyring/keyring.go:77-103 | The decoded bytes when the last four are the checksum of the others |
| Address.Base58CheckEncode | internal/keyring/keyring.go:107-116 | The encoding of payload and checksum |
| Address.ValidateAddress | internal/keyring/keyring.go:37-71 | Computes validity: checksum, 25 bytes, one of five version bytes |
| Address.ValidExactly | internal/keyring/keyring.go:37-116 | The accepted strings are exactly those that decode to one of the five version bytes, 20 bytes, and the first four bytes of sha(sha(..)) of these 21 |
| Address.SpelledBy | internal/keyring/keyring.go:77-116 | Exactly one string stands for a version byte and a hash: their encoding |
| Address.SpelledOnce | internal/keyring/keyring.go:77-116 | Version and hash are unique |
| Address.AcceptedShapes | internal/keyring/keyring.go:30-34 | Length and first letter of every accepted address, for every hash and checksum |
| AddressBatch.AddressBatchService.ImportBatch | internal/services/address_batch.go:45-129 | All or nothing: accepted exactly for a nonempty list of distinct, valid, unknown addresses, one pool row each |
| AddressBatch.AddressBatchService.Validate | internal/services/address_batch.go:59-75 | Succeeds exactly for valid addresses without duplicates |
| AddressBatch.AddressBatchService.InsertAll | internal/services/address_batch.go:114-124 | One pool row for each address, in some order |
| Like.SearchIsContains | internal/services/users.go:87-113 | The escaped pattern matches exactly the names that contain the query, in either ASCII case |
| Like.EscapedIsLiteral | internal/services/users.go:108-113 | An escaped text matches itself and nothing else, up to the case of ASCII letters |
| Like.AlertPatternIsExact | internal/services/deposit_pipeline.go:298-317 | The pattern for one deposit matches the message of that deposit and of no other, for hexadecimal txids, although '_' is a wildcard |
| Money.MoneyIsExact | internal/chain/corewatcher.go:253-258 | Every amount below 2^51 koinu survives both double roundings, and 2^51 is the limit of that |
| Money.Round | internal/chain/corewatcher.go:256-258 | The nearest integer, halves away from zero |

## Left out

- HTTP handlers, templates, server-sent events, QR codes, command line, configuration, sign-in and sessions: interface and plumbing.
- The RPC and board clients, the ZMQ nudger and health checks: network calls. The node is a contract for listsinceblock (at least what is above the fork, and the tip as last block); a board is an arbitrary success or failure.
- Which board a machine is bound to: a missing binding counts as a failed attempt, as it does for processPulse (internal/relay/dispatcher.go:182-197).
- SQL parsing and the driver; columns that only display something (notes, names, sent_at, last_error); pool counts, batch rows, list and history queries; settings getters and setters.
- Overflow of the 64-bit sum of a ledger: balances are unbounded integers.
- Phase 4 of ImportBatch, the node registration, which fails without effect on the batch.
- Failing reads: a read that fails ends its call before any write, like a call that is lost there. The hook's reads are one step (ReadPlan); of what they read, only the address's user, the machine's price and the settings can change.
- User ids are never reused: SQLite may reuse the highest id after a merge deleted its account, and the theorems on heirs assume that it does not. An account is created by a step, and purchases and merges are taken by existing accounts in the ownership theorem.
- Ownership.OwnershipSurvivesMerges: runs with Release are excluded, since releasing unbinds an address from its user.
- Eventual crediting: the watcher asks for one confirmation and moves on, and handler errors are only logged, so for larger thresholds the code does not promise it.
- Delivery through a restart: events in the channels are gone when the process dies after the cursor was saved, so Consumption.DrainedMeansRecorded excludes restarts.
- Exactly-once physical pulses, which the dispatcher's own comment disclaims, and TestFire, which bypasses queue and spacing.
- Dispatch.Dispatcher.WaitForGap: a cancelled context ends the wait early; the spacing theorem is about a dispatcher that is not cancelled.
- Backoff.PromisedExactly: from attempt 64 on a float beyond the range of int64 is converted, which Go leaves to the platform; the result is a parameter.
- Money.MoneyIsExact: a double operation is known by its relative error of at most 2^-53 (section 4.3.1 of IEEE 754-2019); Watcher.ToEvent multiplies exactly.
- The order of the rotation query's rows, which it leaves open: the model takes row order. It decides only which machines are served when the pool is too small.
- Concurrency inside a method: the classes' methods run undisturbed, interleaving is the state machine's subject. CoreWatcher.CoreWatcher.Poll is told after how many sends the context is cancelled.
