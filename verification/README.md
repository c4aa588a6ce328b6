# Bodkin: a verified model

Bodkin is a trading bot for bonding-curve launches. Behind its network code sit several state machines that decide what is
bought, what is recorded, and what survives a crash, and some exact integer arithmetic. This project models those parts in
Dafny and proves what they are meant to guarantee.

## What is modelled

**Journal, positions and recovery.** `Journal` holds the operation records, events and recovery predicates; `Positions` the
position book. `Protocol` is the machine they form together with the sequencer: nine steps, any of which may be followed by a
crash that takes the book back to its last flush. Its invariant is proved for every run, and `Safety` draws the consequences:
at most one position per entry, one leg per exit and one charge per failed exit, nothing sent before it is staged, nothing
abandoned while it may still land, nothing committed ever lost, and the books of every position balanced. `JournalStore`,
`Engine`, `Submit`, `Sales`, `Entries`, `Exits`, `Recovery` and `Startup` are the engine's own code as methods over mutable
stores. Every method extends a trace and has to show each step legal, so the theorems about runs are theorems about the
code, stopped anywhere. `Refinement` compares recovery with the uninterrupted path: from any point of a burst or a sale, and
on any later view of the chain that still has its receipts, it records the same tokens, ETH, gas and hash. What a sale or a
burst adds to the book is told by the receipts' own fields (`Exits`, `Fills`, `Entries`, `Recovery`). `RecoveryOrder`
says when the order of recovery matters, and `ExitGas` when an exit pays its gas twice.

**Flow tracker.** `Stream` is the reversible index over curve logs, `Snapshot` its counters, `FlowSync` the sync loop against
a chain that may reorganise between calls: after every successful sync the tracker equals a rebuild from the canonical chain.
`Listing` says what such a table holds and adds up to in the terms of the logs alone.

**Bonding curve.** `Curve` has the quotes over exact integers, `CurveWords` the same formulas in wrapping 256-bit words, `Tax`
the opening-tax staircase, `Replay` the ordered reserve transitions, and `Trades` whole sequences of trades.

**Research.** `Portfolio` is the risk state machine with its admissions as a function on the book's value, `PortfolioBook` the
object changed in place, and `Capture` the append-only log with its manifest and scanner.

**Small concurrent protocols.** `Scheduler` is the execution lane, `Budget` the session budget, the slot counter and
the open positions in every interleaving of their atomic steps, and `Wallet` the nonce allocator.

`Common`, `Arith` and `Flow` hold shared vocabulary and arithmetic.

## Assumptions

- A commit is atomic, and a commit that fails is the process dying before it; the code halts the engine when one fails.
  Between steps the journal in memory and on disk therefore agree.
- Handlers that send run one at a time, since each holds the execution permit (`Scheduler.OnePermitAtATime`). They may stop
  after any step.
- Signed hashes are new: no transaction of one operation is ever signed for another, and the attempts of a burst differ.
- One recovery, one confirmation and one sync each read a single consistent view of the chain. A block hash determines its
  prefix, and a log query answers with logs of the requested range.
- Clocks, receipts, logs, answers of the sequencer, encodings and the hash function are inputs.
- Recovery starts from freshly loaded stores, as both callers do; `Recovery.FoundEntryMustBeCommitted` shows why it must.

## What the proofs turned up

- A record dropped by recovery keeps the gas of its earlier life, because `set_tx_state` clears the block number only
  (crates/bodkin/src/trade/journal.rs:762-788). The gas charged to the operation is then too high: exactly when the refresh
  takes its dropping branch on a record with gas (`Journal.GasIsMinedGas`), and in no run that never does
  (`Safety.GasIsMinedUntilOneIsDropped`). `Journal.DroppedTransactionKeepsItsGas` is an instance, and
  `Recovery.DroppedGasIsCharged` shows the position paying for it.
- docs/ARCHITECTURE.md:53 says that any changed receipt of an applied operation halts execution. Recovery does report it, but
  the same refresh overwrites the record, so a second start finds nothing to report (`Journal.ReorgIsReportedOnce`).
- When one attempt of a burst is refunded in full, the live path opens a position with the others and recovery blocks. The two
  record the same position exactly when there is no such attempt (`Refinement.RecoveredEntryIsTheLiveEntry`,
  `Refinement.FreeFillDivides`). They need not agree on the operation: after two fills the live path halts and leaves it
  pending (crates/bodkin/src/run.rs:2627), and recovery marks it applied and goes on. `Refinement.RecoveredStateIsTheLiveState`
  says exactly when they agree.
- Recovery reapplies a sale with all the gas of its operation, without asking whether that gas was charged before
  (crates/bodkin/src/trade/journal.rs:632). After a charged revert and a reorganisation the position pays twice
  (`ExitGas.ExitPaysTwice`); `ExitGas.RecoveryCountsTwice` and `Safety.CountsTwiceExactly` give the exact conditions.
- The order in which the journal lists the operations can decide whether startup goes on: an exit listed before the entry whose
  position it sells is blocked (`RecoveryOrder.OrderCanMatter`, `RecoveryOrder.OrderMattersExactly`).
- `try_reserve` counts the open positions before it takes its slot, so another reservation can open a position and give its
  slot back in between, and the cap is overrun (`Budget.CapCanBeOverrun`). It holds in every run whose slots are taken on
  counts that are still fresh (`Budget.FreshCountsKeepTheCap`), and `Budget.SafeExactlyWhenCovered` says for one slot exactly
  when the count can be relied on. The money budget is passed only by what a commit books beyond its reserved cost
  (`Budget.BudgetHolds`).
- The clamped branch of a buy quote does not charge the least spend that buys the tokens for sale, but at most 400 wei more
  (`Curve.ClampedSpendIsNotLeast`, `Curve.ClampedSpendIsNearlyLeast`).
- A replay of two records under one key depends on the order in which they arrived (`Replay.SharedKeyDependsOnArrival`).

## Model

| member | source | states |
|---|---|---|
| Safety.OnePositionPerEntry | crates/bodkin/src/trade/journal.rs:435-535 | in every run with crashes anywhere, an entry operation has at most one position, in the book and on disk |
| Safety.OneLegPerExit | crates/bodkin/src/trade/journal.rs:537-691 | in every run, an exit operation has at most one recorded leg, and it is on the position the operation names |
| Safety.OneChargePerExit | crates/bodkin/src/trade/positions.rs:133-151 | in every run, the gas of a failed exit is charged to one position at most and listed there once |
| Safety.NothingIsSentUnstaged | crates/bodkin/src/trade/exec.rs:281-292 | every hash the sequencer was given was already staged under an operation that was pending at that moment |
| Safety.FailureIsFinal | crates/bodkin/src/run.rs:591-611 | a failed operation has no transaction that may still land, an exit or command none that took effect; it left no position and no leg, and an exit's gas is on disk |
| Safety.OnePendingPerSubject | crates/bodkin/src/trade/journal.rs:189-215 | no two pending operations of one wallet share a subject |
| Safety.CommittedIsNeverLost | crates/bodkin/src/trade/journal.rs:790-811 | through every later step and crash the committed book only grows, transactions stay listed, and settled operations stay settled |
| Safety.CountsTwiceExactly | crates/bodkin/src/trade/journal.rs:632-668 | a step makes an exit both charged and sold, and so pay its gas twice, if and only if it sells for an exit that is already charged |
| Safety.GasCountsOnce | crates/bodkin/src/trade/positions.rs:133-151 | in every run that never sells for a charged exit the gas of an exit counts once, in its leg or as overhead |
| Safety.EveryPositionIsItsLife | crates/bodkin/src/trade/positions.rs:501-600 | in every run each position, in the book and on disk, is what its own recorded sales and failed exits made of it since it was opened |
| Safety.EveryRunBalances | crates/bodkin/src/trade/positions.rs:133-295 | so in every run each position conserves tokens, basis and entry gas, counts each failed exit once, and nets the sum of its legs minus that overhead |
| Safety.GasIsMinedUntilOneIsDropped | crates/bodkin/src/trade/journal.rs:973-981 | in every run that drops no transaction with gas, the gas of an operation is the gas of its mined transactions |
| Safety.CrashAnywhere | crates/bodkin/src/trade/journal.rs:303-364 | a run may stop after any step: the restarted engine satisfies the whole invariant and its book shows every applied operation |
| Protocol.EveryRunIsSafe | crates/bodkin/src/trade/journal.rs:189-231 | the invariant over operations, book, disk and sent hashes holds after every legal run |
| Protocol.StepKeepsInv | crates/bodkin/src/trade/journal.rs:814-903 | each of the nine steps keeps the invariant from any state that satisfies it |
| Protocol.RecordKeepsInv | crates/bodkin/src/trade/journal.rs:217-231 | recording any allowed event keeps the invariant, staging included |
| Protocol.OpenKeepsInv | crates/bodkin/src/trade/positions.rs:501-543 | opening the position of an entry that has none keeps every operation at one position |
| Protocol.SellKeepsInv | crates/bodkin/src/trade/positions.rs:550-562 | applying the sale of an exit that has no leg keeps every operation at one leg |
| Protocol.ChargeKeepsInv | crates/bodkin/src/trade/positions.rs:133-151 | charging failed-exit gas keeps each charge unique |
| Protocol.CommitKeepsInv | crates/bodkin/src/trade/positions.rs:582-600 | flushing the book, or losing what was not flushed, keeps the invariant |
| Protocol.LessKeepsBook | crates/bodkin/src/trade/positions.rs:582-600 | whatever holds of the book in memory holds of every earlier committed copy of it |
| Protocol.ExtendsShowsNothingNew | crates/bodkin/src/trade/journal.rs:816-853 | staging transactions nobody else has makes no old position or leg look like this operation's |
| Journal.EventHashes | crates/bodkin/src/trade/journal.rs:814-903 | events never lose a transaction or list one twice, and touch nothing but transactions and state |
| Journal.EventSays | crates/bodkin/src/trade/journal.rs:814-903 | an event changes the records it speaks of to exactly the state, block and gas it says, leaves every other, and adds blank prepared ones only when staging |
| Journal.RefreshSettles | crates/bodkin/src/trade/journal.rs:366-433 | after a refresh nothing is merely prepared or submitted, and mined records agree with a canonical receipt |
| Journal.RefreshIsOneEvent | crates/bodkin/src/trade/journal.rs:373-430 | what a refresh does to one record is exactly the one event the code records for it |
| Journal.RefreshIsIdempotent | crates/bodkin/src/trade/journal.rs:366-433 | refreshing again against the same chain changes nothing |
| Journal.HarmlessUntilReorg | crates/bodkin/src/trade/journal.rs:983-994 | an attempt that left nothing to recover can only come to need recovery when a mined transaction of it loses its place on the chain |
| Journal.ReorgIsReportedExactly | crates/bodkin/src/trade/journal.rs:949-971 | recovery reports an applied operation if and only if some mined transaction is no longer where the journal has it |
| Journal.ReorgIsReportedOnce | crates/bodkin/src/trade/journal.rs:336-348 | a second recovery against the same chain reports nothing, since the first wrote over what it noticed |
| Journal.WatchAgreesWithRecovery | crates/bodkin/src/trade/journal.rs:245-301 | the periodic watch raises an issue only where recovery would report one, and exactly there while all receipts are recent |
| Journal.GasIsMinedGas | crates/bodkin/src/trade/journal.rs:423-428 | after a refresh the gas of an operation is that of its mined transactions if and only if no record with gas was given up: none rejected or dropped before, and none sent into the dropping branch (no receipt, a minute old, nonce unused) now |
| Journal.EventsLeaveNoStaleGas | crates/bodkin/src/trade/journal.rs:814-903 | no journal event leaves gas on a record that is not mined |
| Journal.DropLeavesStaleGas | crates/bodkin/src/trade/journal.rs:762-788 | a drop leaves gas on an unmined record exactly when the record it drops has gas |
| Journal.DroppedTransactionKeepsItsGas | crates/bodkin/src/trade/journal.rs:762-788 | a concrete reverted transaction whose receipt vanishes is dropped with its gas still counted |
| JournalStore.TxJournal.Begin | crates/bodkin/src/trade/journal.rs:189-215 | refuses exactly when the wallet already has a pending operation on the subject; otherwise adds one blank operation under a new id |
| JournalStore.TxJournal.Record | crates/bodkin/src/trade/journal.rs:217-231 | succeeds exactly for a known operation and a staged transaction, and then applies the event to that operation alone |
| JournalStore.TxJournal.SetDropped | crates/bodkin/src/trade/journal.rs:762-788 | drops the named record and clears its block number only |
| JournalStore.TxJournal.NeedsRecovery | crates/bodkin/src/trade/journal.rs:233-239 | true exactly for a pending operation with an open transaction or a confirmed one that has an effect |
| JournalStore.TxJournal.RecordedGas | crates/bodkin/src/trade/journal.rs:241-243 | the sum of the recorded gas, or nothing for an unknown operation |
| JournalStore.StageTx | crates/bodkin/src/trade/journal.rs:816-833 | adds a prepared record unless the hash is already listed |
| JournalStore.StageBurst | crates/bodkin/src/trade/journal.rs:834-853 | stages a whole list in order |
| JournalStore.RewriteTx | crates/bodkin/src/trade/journal.rs:905-924 | rewrites the one record with the hash and fails when there is none |
| JournalStore.SweepOpen | crates/bodkin/src/trade/journal.rs:889-898 | rejects every prepared, submitted or unresolved record and no other |
| Engine.Engine.Begin | crates/bodkin/src/trade/journal.rs:189-215 | starts an operation unless a pending rival exists, as one step of the run |
| Engine.Engine.Forget | crates/bodkin/src/trade/journal.rs:424-428 | drops a transaction that never landed, as one step of the run |
| Engine.Engine.OpenFrom | crates/bodkin/src/trade/positions.rs:501-543 | opens the position of a pending entry that has none |
| Engine.Engine.SellFrom | crates/bodkin/src/trade/positions.rs:550-562 | applies the sale of a pending exit that has no leg, and reports what was sold |
| Engine.Engine.Charge | crates/bodkin/src/run.rs:597-605 | charges exactly the gas the journal has for a pending exit |
| Engine.Engine.Flush | crates/bodkin/src/trade/positions.rs:582-600 | commits the book, as one step of the run |
| Engine.Engine.Record | crates/bodkin/src/trade/exec.rs:208-213 | a durable journal step that the protocol allows |
| Engine.Engine.Send | crates/bodkin/src/trade/exec.rs:292-292 | handing over a hash, allowed only once it is staged under a pending operation |
| Engine.Engine.Restart | crates/bodkin/src/trade/journal.rs:158-187 | a crash: what was not flushed is gone and everything journalled is still there |
| Submit.SubmitSigned | crates/bodkin/src/trade/exec.rs:274-356 | stage, send, record, in that order; the final record is what the answer and the chain say; a refused send is rejected only if its nonce went back |
| Submit.Conclude | crates/bodkin/src/trade/exec.rs:292-355 | records the outcome of one answer, following accepted and known transactions to a receipt |
| Submit.GiveBack | crates/bodkin/src/trade/exec.rs:325-350 | a refused nonce goes back exactly when it is the topmost one held |
| Submit.Follow | crates/bodkin/src/trade/exec.rs:297-324 | submitted first, then exactly what the canonical receipt says |
| Sales.SendPlanned | crates/bodkin/src/trade/exec.rs:228-254 | takes the next nonce, sends one planned transaction under it and adds its final record to this operation; a refused one gives the nonce back |
| Sales.NewRecord | crates/bodkin/src/trade/exec.rs:281-350 | a new transaction adds exactly its final record to the operation |
| Sales.SendApprovals | crates/bodkin/src/trade/curve.rs:215-253 | each approval is sent only after the one before it confirmed: the operation holds the final records up to the first that does not, the nonce counter follows, and the gas is returned exactly when all confirm |
| Sales.AttemptCostsItsReceipts | crates/bodkin/src/trade/journal.rs:973-981 | whatever becomes of an attempt, the gas journalled for it is the gas its receipts show, and all of it was mined |
| Sales.PlanStopsAtTheFirstMiss | crates/bodkin/src/trade/exec.rs:281-355 | an attempt journals its plan under consecutive nonces, each record as its answer and its own canonical receipt say, up to and including the first that did not confirm; the nonce of that one goes back exactly if it was refused |
| Sales.SellAnywhere | crates/bodkin/src/trade/pool.rs:85-217 | a sale is returned exactly when every transaction of the plan confirms and fills, with the amounts of its receipt (`Exits.FillIsShown`) and the gas of the plan; either way the operation holds the final records of the plan up to the first that does not confirm |
| Exits.FinishFailedExit | crates/bodkin/src/run.rs:591-611 | charges the recorded gas once, flushes, then marks failed; refuses, changing nothing, when there is gas and no position |
| Exits.AbandonExit | crates/bodkin/src/run.rs:808-824 | a failed sale is closed unless a transaction of it may still have an effect |
| Exits.SettleExit | crates/bodkin/src/run.rs:716-780 | applies, flushes and only then marks applied, exactly when the position still holds something |
| Exits.CloseExit | crates/bodkin/src/run.rs:1394-1515 | what an attempt to sell leaves behind, by how it ended |
| Exits.HandleExit | crates/bodkin/src/run.rs:1318-1515 | the whole live exit: the records, gas and nonces of the plan as far as it went, and what each outcome leaves. It is applied exactly when all the plan landed and tokens, ETH and the position's holding are nonzero, and then the position has one more leg with the receipt's own tokens (at most what is held) and ETH, in the pool's or the curve's terms, and holds that much less; nothing else changed |
| Exits.FillIsShown | crates/bodkin/src/trade/pool.rs:191-206 | the sale read from a pool or curve receipt has the tokens and ETH that receipt shows, and there is none when either is zero |
| Exits.SaleIsBooked | crates/bodkin/src/run.rs:716-780 | a sale finds something to sell exactly when its receipt shows both amounts and the first position of that id holds tokens, and the leg it adds has just those amounts |
| Exits.FailIfResolved | crates/bodkin/src/trade/exec.rs:175-182 | fails a command exactly when nothing about it needs recovery |
| Exits.UnstagedShowNothing | crates/bodkin/src/trade/journal.rs:453-460 | a book shows no result for transactions nobody has staged |
| Entries.HandleEntry | crates/bodkin/src/run.rs:2454-2700 | the whole live entry: what an unsigned, unsent, empty, filled or unsettled burst leaves in journal, book, disk and nonce counter. In terms of the receipts: a position opens exactly if some attempt bought tokens and was not refunded in full; it then holds the tokens of those attempts, costs their number times the value less their refunds, and is named by the first; each attempt has the record its answer and receipt give it |
| Entries.BurstEntry | crates/bodkin/src/run.rs:2473-2700 | takes a nonce range, stages the whole burst, and ends in the state its outcome says, nothing else changed; the range goes back when nothing is sent |
| Entries.RunBurst | crates/bodkin/src/run.rs:2500-2665 | a staged burst is fired and followed, or closed unsent with its nonces returned |
| Entries.GiveBackBurst | crates/bodkin/src/run.rs:2518-2522 | an unsent burst always gets its nonces back, being the topmost range |
| Entries.CloseUnsent | crates/bodkin/src/run.rs:2517-2533 | an expired or aborted burst ends with every record rejected and the operation failed; nothing was sent and nothing else changed |
| Entries.ReconcileBurst | crates/bodkin/src/run.rs:2711-2804 | every attempt ends in the record its answer and the chain give it, and the finals are those worth following, in order |
| Entries.CleanReconciliationSettles | crates/bodkin/src/run.rs:2720-2798 | with no mismatch and nothing unresolved, no attempt of the burst is left open |
| Entries.TallyFills | crates/bodkin/src/run.rs:2544-2584 | counts the confirmed attempts that bought something for something, adds up their tokens and their value less refunds, and picks the first hash |
| Fills.FillsAddUp | crates/bodkin/src/run.rs:2562-2570 | over the attempts that bought tokens and were not refunded in full: the count is their number, the hash the first of them, the tokens their sum, and ETH plus their refunds is the value times their number |
| Fills.RefundsAreTakenOff | crates/bodkin/src/run.rs:2562-2564 | if no refund exceeds the value, ETH plus all refunds is the value times the number of attempts that bought tokens |
| Entries.EntryIsAsShown | crates/bodkin/src/run.rs:2544-2665 | what a fired entry leaves, told by answers and receipts alone |
| Entries.AnsweredAsGiven | crates/bodkin/src/run.rs:2720-2760 | the records between the answers and the receipts: submitted, unresolved or rejected |
| Entries.FollowEntry | crates/bodkin/src/run.rs:2534-2665 | fires, reconciles, tallies, and opens, fails or leaves this operation accordingly, and no other |
| Entries.OpenEntry | crates/bodkin/src/run.rs:2634-2665 | opens the position, flushes, and marks the operation applied only if nothing is in doubt; no other operation changes |
| Fills.FillsHaveAHash | crates/bodkin/src/run.rs:2626-2626 | a nonzero number of fills has a hash of one of them, tokens and ETH |
| Startup.Recover | crates/bodkin/src/trade/journal.rs:303-364 | the stores end where recovering each selected operation in turn leads, amounts included, and the report is exactly the operations their turn left blocked; each record ends as `Recovery.RecordAfterRecovery` says |
| Startup.SettledInTurn | crates/bodkin/src/trade/journal.rs:336-362 | each operation is settled from the state the ones before it left, unless the chain and the book it finds then give one of the reasons the code blocks on, and it is reported exactly then |
| Startup.ReportIsComplete | crates/bodkin/src/trade/journal.rs:303-364 | the report holds whatever of the wallet is still pending and the applied operations that lost their receipts, nothing else; what was not selected is untouched |
| RecoveryOrder.EachAsIfAlone | crates/bodkin/src/trade/journal.rs:311-336 | unless an exit awaits an entry, recovery in any order does to each operation and position what recovering that operation alone would do |
| RecoveryOrder.OrderMattersExactly | crates/bodkin/src/trade/journal.rs:311-336 | the order changes the report if and only if some entry would open the position some exit needs and does not find; otherwise it changes only the order of the opened positions |
| RecoveryOrder.OrderCanMatter | crates/bodkin/src/trade/journal.rs:311-336 | a concrete pair of operations that is settled in one order and refused in the other |
| Recovery.PendingForAReason | crates/bodkin/src/trade/journal.rs:435-750 | an entry, exit or command stays pending if and only if: open attempts or a free fill; several sales, an unusable one, another effect, or gas without a position; an open attempt or an effect not shown |
| Startup.StartLive | crates/bodkin/src/run.rs:352-366 | from what was committed, startup recovers each operation in turn and goes on if and only if the report is empty: none of this wallet left pending, no applied one that it checks without its receipts; in particular never past an entry or command one of whose transactions may still land |
| Startup.DoubtKeepsOpen | crates/bodkin/src/trade/journal.rs:422-430 | an operation with a transaction that has no receipt and may still land (younger than 60000 ms, or a latest or pending nonce beyond it) is never failed: it stays pending and is reported, except an exit whose leg is in the book or whose one confirmed sale is booked now |
| Startup.NothingLandedFails | crates/bodkin/src/trade/journal.rs:422-430 | conversely, once nothing of an operation landed or may still land, all its records are dropped and it fails and is not reported, unless it is an exit with gas to charge and no position |
| Startup.UnsoundExactly | crates/bodkin/src/trade/journal.rs:311-334 | an applied operation is reported exactly if it is this wallet's, one of its transactions was mined at most 64 blocks below the head, and one is no longer mined where the journal has it |
| Recovery.RecoverOne | crates/bodkin/src/trade/journal.rs:336-362 | refreshes and settles one operation as specified for its kind, and reports it exactly when it is left pending or changed |
| Recovery.RefreshReceipts | crates/bodkin/src/trade/journal.rs:366-433 | leaves the operation exactly as one view of the chain says |
| Recovery.RecordAfterRecovery | crates/bodkin/src/trade/journal.rs:373-430 | each record after recovery, from the view's own fields: without a receipt it is unresolved if it is younger than 60000 ms or a latest or pending nonce lies beyond it, and dropped otherwise; with one it is what a receipt in place says; given-up records stay |
| Recovery.RecoverEntry | crates/bodkin/src/trade/journal.rs:435-535 | applies a found entry, reopens a filled one, fails an empty one, and blocks the doubtful ones |
| Recovery.ReadFills | crates/bodkin/src/trade/journal.rs:471-492 | adds up the confirmed fills, or stops at a buy that cost nothing |
| Recovery.RecoveredEntryIsBought | crates/bodkin/src/trade/journal.rs:471-533 | an entry the book does not have: a free buy leaves everything as it was; otherwise the position is opened with what the successful receipts bought at value less refunds, or the operation fails, for good unless something is still open |
| Recovery.RecoverExit | crates/bodkin/src/trade/journal.rs:537-691 | applies a recorded leg, reapplies one confirmed sale, charges and fails a dead exit, and blocks the rest |
| Recovery.ReapplySale | crates/bodkin/src/trade/journal.rs:583-667 | applies a confirmed sale exactly when it filled and its position still holds something, with the amounts of its receipt |
| Recovery.RecoveredSaleIsBooked | crates/bodkin/src/trade/journal.rs:568-667 | an exit the book has no leg of is applied exactly when one confirmed sale stands alone and leaves something to book, and then the leg has the tokens and ETH of that receipt; two sales, or one with a zero amount, change nothing |
| Recovery.RecoverCommand | crates/bodkin/src/trade/journal.rs:693-750 | applies a command whose effect the chain shows, fails one without effect, blocks the rest |
| Recovery.RecoveredCommandIsShown | crates/bodkin/src/trade/journal.rs:693-750 | a command stays pending while a transaction of it is open, fails when none acted, and is otherwise applied exactly when the first that acted has the promised log in its receipt or the address the promised code |
| Recovery.FoundEntryMustBeCommitted | crates/bodkin/src/trade/journal.rs:453-470 | closing an entry found in the book is sound if and only if that position is already on disk |
| Recovery.DroppedGasIsCharged | crates/bodkin/src/trade/journal.rs:668-691 | from a sound state with a reverted sale whose receipt vanished, recovery charges the position 21000 wei although none of the operation is mined |
| ExitGas.RecoveryCountsTwice | crates/bodkin/src/trade/journal.rs:632-668 | recovery makes an exit pay its gas twice if and only if it was charged before and its sale stands on the view: confirmed, filled, with a position that still holds something |
| ExitGas.ExitPaysTwice | crates/bodkin/src/trade/journal.rs:632-668 | from a sound state, a charged revert that a reorganisation turns into a sale costs its position 51000 wei of which 30000 were mined |
| Recovery.LegIsOnItsPosition | crates/bodkin/src/trade/journal.rs:554-567 | looking only at the named position finds a leg exactly when any position has one |
| Refinement.RecoveredEntryIsTheLiveEntry | crates/bodkin/src/trade/journal.rs:471-524 | wherever the process died in the burst, and on any later view with the same receipts for its transactions, recovery opens the live position (tokens, ETH, gas, hash) if and only if no attempt bought for nothing |
| Refinement.RecoveredEmptyEntryIsTheLiveOne | crates/bodkin/src/trade/journal.rs:525-533 | likewise an empty burst is closed as the live path closes it, or waits for open attempts |
| Refinement.RecoveredStateIsTheLiveState | crates/bodkin/src/run.rs:2626-2665 | the live path marks a filled entry applied exactly with one fill and the nonce read, recovery exactly with no attempt left open; when the two agree is stated exactly |
| Refinement.OpenExactlyWhenLeft | crates/bodkin/src/trade/journal.rs:423-430 | recovery finds an attempt of the burst open exactly when a refusal was lost with the process and is too young to be dropped |
| Refinement.StartupOpensTheLiveEntry | crates/bodkin/src/trade/journal.rs:303-535 | the same in the course of a startup, whatever was recovered before: the entry opens the live position in its turn and is blocked exactly for a free fill or an open attempt |
| Refinement.StartupAppliesTheLiveExit | crates/bodkin/src/trade/journal.rs:303-667 | in the course of a startup the exit applies the live sale in its turn and is not reported |
| Refinement.FreeFillDivides | crates/bodkin/src/run.rs:2562-2570 | a concrete burst with one free attempt on which the live path opens a position and recovery, a minute later, blocks |
| Refinement.BurstAgrees | crates/bodkin/src/run.rs:2544-2584 | on any later view with the same receipts for the burst, recovery reads the receipts the live path followed, in the same order, and the same gas |
| Refinement.RecoveredExitIsTheLiveExit | crates/bodkin/src/trade/journal.rs:568-667 | wherever the process died after handing in a sale, and on any later view with the same receipt for it, recovery applies the live tokens, ETH and hash; the gas is the live one if and only if the approvals still cost what the journal had |
| Refinement.UnmovedCostTheSame | crates/bodkin/src/trade/journal.rs:366-433 | approvals that are still mined where they were cost the same after a refresh |
| Positions.BooksBalance | crates/bodkin/src/trade/positions.rs:133-295 | over any sales and failed exits of a new position, tokens, basis and entry gas are conserved and the net result is the sum of the legs minus distinct overhead |
| Positions.SalesConserve | crates/bodkin/src/trade/positions.rs:221-295 | each part sold is reported, and held plus reported is what was bought |
| Positions.OverheadCountsOnce | crates/bodkin/src/trade/positions.rs:133-151 | overhead is the first charge of each distinct failed operation, each listed once |
| Positions.BasisStaysProRata | crates/bodkin/src/trade/positions.rs:221-307 | after k sales the basis left is the held share of the entry, rounded up by at most k wei |
| Positions.MarksScaleWithInventory | crates/bodkin/src/trade/positions.rs:221-295 | a sale scales peak and last value to what is left, rounded down |
| Positions.ReportIsTheDifference | crates/bodkin/src/trade/positions.rs:221-295 | the report of a sale is the difference it makes to tokens, basis, entry gas and realized result of the position |
| Positions.PositionStore.SellFrom | crates/bodkin/src/trade/positions.rs:221-295 | sells from the first position with the id and reports exactly what was released |
| Positions.PositionStore.ChargeOverhead | crates/bodkin/src/trade/positions.rs:545-547 | charges the first position with the id unless the operation was charged before |
| Positions.PositionStore.OpenPosition | crates/bodkin/src/trade/positions.rs:501-543 | appends one new position and leaves the committed copy alone |
| Positions.PositionStore.Locate | crates/bodkin/src/trade/positions.rs:550-562 | finds the first position with the id |
| Positions.PositionStore.Flush | crates/bodkin/src/trade/positions.rs:582-600 | the committed copy becomes the list |
| Positions.FindIsFirst | crates/bodkin/src/trade/positions.rs:550-562 | the position touched by an update is the first with its id |
| Stream.LastOperationWins | crates/bodkin/src/pons/stream.rs:177-252 | after any deliveries each identity shows exactly what its last operation says |
| Stream.OnlyLastOperationsMatter | crates/bodkin/src/pons/stream.rs:177-252 | deliveries that agree on every last operation leave the same tracker |
| Stream.DuplicatesAndOrderDoNotMatter | crates/bodkin/src/pons/stream.rs:177-252 | repeating or reordering consistent logs changes nothing |
| Stream.EventsAreTheLogs | crates/bodkin/src/pons/stream.rs:177-252 | the event table is exactly the set of delivered events |
| Stream.AbsorbStaysLinked | crates/bodkin/src/pons/stream.rs:247-250 | identities and events stay in bijection through insert, replace and remove |
| Stream.FlowTracker.Ingest | crates/bodkin/src/pons/stream.rs:177-252 | takes one log to its curve and no other, or refuses it exactly when it cannot be placed or read: a removed log erases the entry of its hash and index and nothing else; a buy, sell, tax or completion becomes the one entry under its block, transaction index, log index and hash, with the log's own fields and delivered time |
| Stream.IngestedAsTold | crates/bodkin/src/pons/stream.rs:177-252 | the same of the specification: what is stored of a log is what its body tells, field by field, and other logs keep what they have |
| Stream.FlowTracker.Rewind | crates/bodkin/src/pons/stream.rs:135-144 | drops exactly what lies at or after the block and resets the cursor |
| Stream.FlowTracker.ApplyRange | crates/bodkin/src/pons/stream.rs:146-175 | refuses gaps, takes each log into its own watched curve in order up to the first it cannot take, and on success moves cursor and anchor of the named curve to the end of the range |
| Stream.TakenExactly | crates/bodkin/src/pons/stream.rs:146-175 | a range is taken exactly if it leaves no gap, its end has a hash, and every log is of a watched curve and readable |
| Stream.AbsorbAllAt | crates/bodkin/src/pons/stream.rs:146-175 | a range brings each watched curve exactly its own logs |
| Stream.FlowTracker.Watch | crates/bodkin/src/pons/stream.rs:106-124 | starts an empty flow or keeps the one already watched |
| Snapshot.TakeSnapshot | crates/bodkin/src/pons/stream.rs:274-339 | the snapshot is the counts, sums, maxima and existence facts over the set of events |
| Snapshot.OneSnapshot | crates/bodkin/src/pons/stream.rs:274-339 | a tracker state has only one such snapshot |
| Snapshot.SnapshotIgnoresDeliveryOrder | crates/bodkin/src/pons/stream.rs:274-339 | consistent logs give the same snapshot in any order, tax logs first or last |
| Snapshot.TallyBuy | crates/bodkin/src/pons/stream.rs:294-320 | a buy's contribution to every counter |
| Stream.FlowTracker.Unwatch | crates/bodkin/src/pons/stream.rs:254-256 | forgets one curve and no other |
| Snapshot.FoldEvents | crates/bodkin/src/pons/stream.rs:289-335 | the loop over the events ends in the set-based counts whatever order it takes them in |
| FlowSync.ExtendTo | crates/bodkin/src/run.rs:872-886 | fetches from the cursor to the head and applies it as one range, or refuses a head behind the origin |
| FlowSync.SyncFlow | crates/bodkin/src/run.rs:853-888 | after a successful sync against any reorganising chain the tables are those of a fresh tracker fed every canonical log from origin to head, and where no log is listed twice they hold, under each log's own key, what its fields tell and nothing else, and the snapshot counts those buys and sells and adds up their quotes, saturating; the sync succeeds exactly when the chain reaches origin and anchor |
| Listing.ListingIsTold | crates/bodkin/src/pons/stream.rs:177-252 | fed distinct logs, a tracker holds exactly what they tell, each once, and the counts and quote sums of its buys and sells are those of the log bodies |
| FlowSync.CatchUp | crates/bodkin/src/run.rs:872-886 | brings a tracker that fits the chain to its head |
| FlowSync.SyncRun | crates/bodkin/src/run.rs:1232-1232 | the same after any number of syncs over any sequence of chains, all of which succeed while the chains never get shorter |
| FlowSync.RebuildIsTheCanonicalEvents | crates/bodkin/src/pons/stream.rs:146-175 | a rebuild holds exactly the canonical events of the range, without a gap |
| FlowSync.MatchingAnchorCarriesOver | crates/bodkin/src/run.rs:863-871 | an anchor that still matches makes the old tables those of the new chain |
| FlowSync.ContinueEqualsRebuild | crates/bodkin/src/run.rs:878-886 | going on from the cursor and starting over end in the same tables |
| FlowSync.RewindClears | crates/bodkin/src/pons/stream.rs:135-144 | rewinding to the origin empties the tables |
| FlowSync.CheckAnchor | crates/bodkin/src/run.rs:859-871 | a changed anchor sends the tracker back to its origin, an unchanged one leaves it |
| Curve.BuyQuoteSettles | crates/bodkin/src/pons/curve.rs:97-128 | spent plus refund is the input, never more than sellable is handed out, the spend really buys it, and a clamped spend is the least whose share before rounding covers the inverse price |
| Curve.ClampedSpendIsNearlyLeast | crates/bodkin/src/pons/curve.rs:109-119 | any spend that buys as much as a clamped quote hands out is smaller by no more than four grossed-up wei, at most 400 |
| Curve.ClampedSpendIsNotLeast | crates/bodkin/src/pons/curve.rs:109-119 | a concrete clamped quote charges 102 where 101 buys more than it hands out |
| Curve.InverseInRange | crates/bodkin/src/pons/curve.rs:109-112 | when a quote clamps, the inverse price exists and is at most the after-fee input |
| Curve.InversePriceIsTight | crates/bodkin/src/pons/curve.rs:59-61 | the inverse price buys the amount and two wei less does not |
| Curve.BuyerKeepsOnePercent | crates/bodkin/src/pons/curve.rs:68-78 | at least one hundredth of any spend reaches the reserve |
| Curve.ChargesFit | crates/bodkin/src/pons/curve.rs:98-107 | three separately floored charges leave the exact share, up to three wei |
| Curve.GrossUpCovers | crates/bodkin/src/pons/curve.rs:112-119 | the grossed-up spend pays the net price |
| Curve.GrossUpIsLeast | crates/bodkin/src/pons/curve.rs:112-119 | no smaller spend has a share that reaches the net price |
| Curve.HigherTaxNeverQuotesMore | crates/bodkin/src/pons/curve.rs:97-128 | tokens out are antitone in the opening tax |
| Curve.SiblingNeverRaisesBound | crates/bodkin/src/pons/curve.rs:143-162 | a preceding sibling buy never raises the minimum that would be asked alone |
| Curve.MinimumIsTheRate | crates/bodkin/src/pons/curve.rs:137-140 | the minimum is the quote less the slippage, rounded down |
| Curve.AmountOutIsTheMost | crates/bodkin/src/pons/curve.rs:55-57 | a pool pays out the most that leaves the product of its reserves no smaller |
| Curve.SaleIsCharged | crates/bodkin/src/pons/curve.rs:130-136 | a sale pays the pool price less fee and creator tax, each rounded down, and no opening tax |
| Curve.OneMoreWeiNetsLess | crates/bodkin/src/pons/curve.rs:98-107 | one wei more nets less if and only if two or three charges step up on it together |
| Curve.NettingCanDrop | crates/bodkin/src/pons/curve.rs:98-107 | it does happen, on a concrete schedule |
| CurveWords.NothingWraps | crates/bodkin/src/pons/curve.rs:97-128 | with 128-bit amounts a buy quote in wrapping words is the exact one: no underflow, no wrap, no division by zero |
| CurveWords.ClampDoesNotWrap | crates/bodkin/src/pons/curve.rs:109-119 | the clamped branch stays within a word too |
| CurveWords.SaleDoesNotWrap | crates/bodkin/src/pons/curve.rs:130-135 | a sell quote stays within a word and its charges fit |
| CurveWords.BoundDoesNotWrap | crates/bodkin/src/pons/curve.rs:143-162 | sizing behind a sibling stays exact |
| Tax.TaxNeverRises | crates/bodkin/src/pons/tax.rs:7-14 | the tax starts at the full rate, never rises and is zero once the window is over |
| Tax.FewerThanFourteenSteps | crates/bodkin/src/pons/tax.rs:11-13 | inside the window the shift stays below fourteen, so its guard never fires |
| Tax.LiveStaircase | crates/bodkin/src/pons/tax.rs:20-23 | on the live window the tax is 9900, 618, 19 and then 0 |
| Tax.TaxHalvesEveryFourteenth | crates/bodkin/src/pons/tax.rs:7-14 | inside any window the rate is halved, rounding down, once for every fourteenth of it that has passed |
| Tax.CeilingBand | crates/bodkin/src/pons/tax.rs:5-7 | second two is the first legal entry second exactly for ceilings from 19 to 617 |
| Tax.WaitingNeverQuotesLess | crates/bodkin/src/pons/tax.rs:7-14 | at fixed reserves a later second never quotes fewer tokens |
| Replay.StateBefore | crates/bodkin/src/replay.rs:162-221 | the replayed state is the ordered reserve steps over the earlier records, or nothing exactly when one of them fails |
| Replay.StateIsReachedInOrder | crates/bodkin/src/replay.rs:162-221 | a replay has a result exactly if provenance is complete, the entry second fits a word and lies after the snapshot, and each record of the listing moves the curve by its own amounts, first to last; and that is where it ends |
| Replay.ListingIsTheRecordsBetween | crates/bodkin/src/replay.rs:171-185 | the listing has each record after the snapshot's block and before the entry second as often as the launch does, and no other, in order of block, transaction and log |
| Replay.ReplayIgnoresRecordOrder | crates/bodkin/src/replay.rs:171-185 | with no two different records under one key any permutation of the records replays alike, failures included |
| Replay.ReplayHasNoLookahead | crates/bodkin/src/replay.rs:171-177 | records at or after the entry second, or already in the snapshot, change nothing |
| Replay.ReplayKeepsPhantomReserves | crates/bodkin/src/replay.rs:186-219 | quote minus real quote, and tokens minus sellable tokens, never change |
| Replay.SharedKeyDependsOnArrival | crates/bodkin/src/replay.rs:178-185 | two records under one key replay in arrival order, and it matters |
| Replay.ApplyRecord | crates/bodkin/src/replay.rs:187-218 | one record's checked updates |
| Replay.SortedListingIsUnique | crates/bodkin/src/replay.rs:178-185 | one record to a key leaves one sorted order, repeated listings included |
| Trades.ProductNeverFalls | crates/bodkin/src/replay.rs:186-215 | over any quoted trades the product of the reserves never falls |
| Trades.NoRoundTripProfits | crates/bodkin/src/pons/curve.rs:97-135 | a trader who sells no more than they bought never takes out more than they put in |
| Trades.TradeKeepsProduct | crates/bodkin/src/pons/curve.rs:55-57 | one quoted trade keeps both reserves positive and their product from falling |
| Trades.BuyMovesNetQuote | crates/bodkin/src/replay.rs:188-202 | replaying a quoted buy moves exactly its after-fee input |
| Trades.BoundIsBehindTheSiblingsTrade | crates/bodkin/src/pons/curve.rs:143-162 | the bound behind a sibling prices the curve as replaying the sibling's own trade leaves it: the same tokens, and a quote reserve at most two wei short |
| Trades.QuietCurveRewardsWaiting | crates/bodkin/src/replay.rs:223-232 | if no record the replay reads falls between two entry seconds, the later one never quotes fewer tokens |
| Portfolio.RiskIsDetermined | crates/bodkin/src/research.rs:878-905 | after any operations the risk state follows from latch, emptiness and pricing; the latch never clears; a halted book never changes; an active one is within its drawdown |
| Portfolio.PeakIsTheMaximum | crates/bodkin/src/research.rs:886-886 | the peak is the largest equity ever known |
| Portfolio.StepKeepsInv | crates/bodkin/src/research.rs:679-827 | every accepted operation keeps the invariant, advances the revision and never clears the latch |
| Portfolio.AcceptedExactly | crates/bodkin/src/research.rs:679-827 | with room to spare an operation is accepted exactly when it asks for what the book can give |
| Portfolio.BreachIsTheLoss | crates/bodkin/src/research.rs:878-905 | the latch closes exactly when a known equity has lost its limit from the peak, and the recorded drawdown is that loss in basis points, rounded down |
| Portfolio.LiquidationOnlyShrinks | crates/bodkin/src/research.rs:774-827 | while liquidating nothing is admitted and each exit lowers the tokens held by exactly what it sold |
| Portfolio.HaltedIsFinal | crates/bodkin/src/research.rs:852-863 | a halted book refuses every operation |
| Portfolio.DrawdownLimit | crates/bodkin/src/research.rs:1065-1075 | the floored basis points are below the limit exactly when the loss is below that share of the peak |
| Portfolio.RemainderIsProRata | crates/bodkin/src/research.rs:818-824 | what is left of a priced position keeps its share of the value, rounded down |
| Portfolio.ExitSellsById | crates/bodkin/src/research.rs:774-827 | an accepted exit takes its tokens from the position with its id, or the whole position and its exit gas; all positions with other ids stay, in order; cash, proceeds and gas move by exactly the operation's amounts |
| Portfolio.MarkPricesById | crates/bodkin/src/research.rs:759-772 | a mark changes the value of the position with its id and nothing else of the money or the positions |
| Portfolio.EntryIsAsSettled | crates/bodkin/src/research.rs:679-731 | an accepted entry adds one position with the settled amounts and spends exactly its value and gas |
| Portfolio.FailureCostsItsGas | crates/bodkin/src/research.rs:733-757 | a failed entry costs exactly its gas |
| Portfolio.AdmittedExactly | crates/bodkin/src/research.rs:629-677 | an admission is granted exactly while active, with room, with equity known, and the commitment within its share and covered beyond what is reserved |
| Portfolio.MoneyIsConserved | crates/bodkin/src/research.rs:679-827 | cash, gas and entry values equal starting equity and proceeds after any operations |
| Portfolio.BookStaysOrderly | crates/bodkin/src/research.rs:679-698 | after any operations no two positions share an id, none is nameless, and there are no more than allowed |
| Portfolio.AdmissionIsUsedOnce | crates/bodkin/src/research.rs:852-863 | an admission that was used is refused as stale ever after |
| Portfolio.AdmissionBelongsToItsBook | crates/bodkin/src/research.rs:852-863 | an admission is only used in the very book it was checked in |
| Portfolio.AdmissionIsFunded | crates/bodkin/src/research.rs:629-677 | a checked admission never ends in insufficient cash, whatever is settled under it and whenever |
| Portfolio.EntryRisksTheCommitmentOnly | crates/bodkin/src/research.rs:650-669 | an admitted entry lowers the equity by at most the commitment share and leaves cash for all reserved exit gas |
| Portfolio.RoomMeansNoOverflow | crates/bodkin/src/research.rs:679-827 | with room to spare no operation is refused for overflow |
| PortfolioBook.ResearchPortfolio.Admission | crates/bodkin/src/research.rs:629-677 | admits only while active, with room, priced, within the commitment share and funded beyond the reserved gas, for the current revision |
| PortfolioBook.ResearchPortfolio.SettleEntry | crates/bodkin/src/research.rs:679-731 | ends in the specified book or refuses, unchanged unless the numbers overflowed |
| PortfolioBook.ResearchPortfolio.FailEntry | crates/bodkin/src/research.rs:733-757 | charges a failed entry's gas, exactly that and nothing else, under a valid admission |
| PortfolioBook.ResearchPortfolio.Mark | crates/bodkin/src/research.rs:759-772 | prices the position with this id and rechecks the risk |
| PortfolioBook.ResearchPortfolio.SettleExit | crates/bodkin/src/research.rs:774-827 | ends in the specified book or refuses: the position with this id holds what was sold less, rescaled, or is gone with its exit gas, and every other one is unchanged, in order |
| PortfolioBook.ResearchPortfolio.RefreshRisk | crates/bodkin/src/research.rs:878-905 | peak, drawdown, latch and risk state after a change |
| PortfolioBook.ResearchPortfolio.KnownEquity | crates/bodkin/src/research.rs:865-876 | cash plus liquidation values, unknown at the first unpriced position |
| Capture.ScanInvertsWriting | crates/bodkin/src/research.rs:466-515 | scanning a written file gives back exactly its records, bytes and rolling hash |
| Capture.TornFileIsRefused | crates/bodkin/src/research.rs:487-489 | a file that does not end in a newline is never accepted |
| Capture.AcceptedFileIsWhole | crates/bodkin/src/research.rs:479-515 | what is accepted was read to the last byte and is numbered without a gap |
| Capture.SettleTotal | crates/bodkin/src/research.rs:372-385 | the loop that makes the manifest count its own digits ends, in a total that counts both files |
| Capture.ResearchRecorder.Record | crates/bodkin/src/research.rs:285-340 | appends one whole numbered record, or stops at a limit; nothing written is ever changed |
| Capture.ResearchRecorder.Finish | crates/bodkin/src/research.rs:342-403 | the manifest states the size of both files within the limit and verification accepts them |
| Capture.ScanFile | crates/bodkin/src/research.rs:466-515 | the line-by-line reader computes the scan |
| Capture.VerifyCapture | crates/bodkin/src/research.rs:414-443 | accepts only when manifest, records, hash and sizes all agree |
| Capture.AcceptedIsAsStated | crates/bodkin/src/research.rs:414-443 | an accepted capture is, to the byte, as its manifest states: both sizes, the number of its lines, and the hash rolled over them from zero |
| Capture.WrittenIsAcceptedExactly | crates/bodkin/src/research.rs:414-443 | a written capture is accepted exactly with a manifest that agrees with it in every number, the rolling hash included |
| Scheduler.OvertakingIsBounded | crates/bodkin/src/trade/scheduler.rs:164-183 | while an aged routine exit waits, ordinary grants are at most as many as the routine exits that joined before it |
| Scheduler.AgedIsOvertakenByFew | crates/bodkin/src/trade/scheduler.rs:169-181 | an aged routine exit is passed over only for an emergency or an earlier routine exit |
| Scheduler.OnePermitAtATime | crates/bodkin/src/trade/scheduler.rs:106-123 | at most one permit is alive and the lane is owned exactly while one is |
| Scheduler.OrderDoesNotMatter | crates/bodkin/src/trade/scheduler.rs:185-189 | whatever order swap-removal left the list in, the same waiter is granted |
| Scheduler.GrantGoesToTheFirst | crates/bodkin/src/trade/scheduler.rs:106-123 | the permit goes to a live waiter that precedes every other live one, and only that waiter leaves |
| Scheduler.GrantedExactly | crates/bodkin/src/trade/scheduler.rs:106-123 | a turn is granted exactly when the lane is free, the deadline is ahead, and every other live waiter comes later |
| Scheduler.FreeLaneServesSomeone | crates/bodkin/src/trade/scheduler.rs:164-183 | a free lane with a live waiter has one whose next turn is granted |
| Scheduler.PrecedenceOfClasses | crates/bodkin/src/trade/scheduler.rs:164-183 | emergencies come first, an entry precedes a routine exit exactly until that exit has waited 100 ms, a routine exit that has precedes one that has not, and otherwise the earlier comes first |
| Scheduler.ChoiceIsUnique | crates/bodkin/src/trade/scheduler.rs:164-183 | at most one waiter is next |
| Scheduler.ExecutionScheduler.NextWaiter | crates/bodkin/src/trade/scheduler.rs:164-183 | finds the least live waiter, or none exactly when all have expired |
| Scheduler.ExecutionScheduler.TryAcquire | crates/bodkin/src/trade/scheduler.rs:103-130 | one turn: expiry exactly when the deadline has passed, the permit exactly when the lane is free, the deadline is ahead and every other live waiter comes later; only a waiter that got either leaves |
| Scheduler.ExecutionScheduler.Enqueue | crates/bodkin/src/trade/scheduler.rs:75-96 | joins at the end with a new id unless the deadline has passed |
| Scheduler.ExecutionScheduler.Remove | crates/bodkin/src/trade/scheduler.rs:185-189 | takes the waiter out by moving the last one into its place |
| Scheduler.ExecutionScheduler.DropPermit | crates/bodkin/src/trade/scheduler.rs:218-223 | dropping the permit frees the lane and nothing else |
| Scheduler.SwapRemoveTakesOne | crates/bodkin/src/trade/scheduler.rs:185-189 | swap-removal takes out one waiter and keeps all others |
| Scheduler.ExecutionScheduler.Cancel | crates/bodkin/src/trade/scheduler.rs:198-205 | a dropped waiter leaves the list |
| Budget.BudgetHolds | crates/bodkin/src/run.rs:514-589 | under every interleaving the amount spent passes the budget by no more than was booked beyond the reserved costs, and is what is reserved, booked or retained while that fits a word; the slot counter is exact always |
| Budget.StepIsExact | crates/bodkin/src/run.rs:527-589 | each atomic step keeps both counters exact, and nothing given back was not there |
| Budget.AtRestNothingLeaks | crates/bodkin/src/run.rs:546-556 | once every attempt is at rest only booked and retained amounts, and retained slots, remain |
| Budget.CapCanBeOverrun | crates/bodkin/src/run.rs:568-573 | a concrete interleaving that ends with two open positions where one is allowed, since positions are counted before the slot is taken |
| Budget.FreshCountsKeepTheCap | crates/bodkin/src/run.rs:561-589 | in every run in which each slot is taken on a count no smaller than the positions then open, the cap holds |
| Budget.SafeExactlyWhenCovered | crates/bodkin/src/run.rs:568-573 | whatever the limit, taking one slot is safe if and only if its count and the slots held cover the open and the promised positions; with no slot in passing that means the count is fresh |
| Budget.Session.CountOpen | crates/bodkin/src/run.rs:568-568 | records the positions open at that moment |
| Budget.Session.OpenPosition | crates/bodkin/src/run.rs:2634-2647 | a live reservation opens its position before it is committed |
| Budget.Session.ClaimSlot | crates/bodkin/src/run.rs:568-573 | takes a slot first and keeps it exactly when the count allows |
| Budget.Session.ReleaseSlot | crates/bodkin/src/run.rs:551-551 | gives back one slot, which was there |
| Budget.Session.ClaimBudget | crates/bodkin/src/run.rs:574-581 | reserves exactly when the cost fits the budget |
| Budget.Session.BookSpend | crates/bodkin/src/run.rs:527-537 | a commit moves the amount spent from cost to booked, above or below, exactly unless the sum leaves the word |
| Budget.Session.ReleaseSpend | crates/bodkin/src/run.rs:552-555 | a drop gives back the whole cost |
| Wallet.OnlyTheTopmostGoesBack | crates/bodkin/src/trade/wallet.rs:62-71 | a range can go back exactly when every other held nonce lies below it |
| Wallet.TakeKeepsPartition | crates/bodkin/src/trade/wallet.rs:51-60 | a new range overlaps nobody's, and every nonce below the counter has one holder |
| Wallet.RewindKeepsPartition | crates/bodkin/src/trade/wallet.rs:62-71 | handing back the topmost range removes exactly that range |
| Wallet.Allocator.TakeNonces | crates/bodkin/src/trade/wallet.rs:51-56 | hands out consecutive nonces nobody holds |
| Wallet.Allocator.NextNonce | crates/bodkin/src/trade/wallet.rs:58-60 | hands out one nonce nobody holds |
| Wallet.Allocator.SetNonce | crates/bodkin/src/trade/wallet.rs:43-45 | a reseed starts a new partition at the given nonce |
| Wallet.Allocator.RewindNonces | crates/bodkin/src/trade/wallet.rs:62-71 | succeeds exactly for the topmost range and otherwise changes nothing |

## Left out

- Network, signing, ABI and JSON decoding, terminal and board output; the scoring rules, gates and view code, which are flat rule lists.
- Legacy records: optional fields of old positions, the one-time JSON import, and the readable JSON exports.
- Dry-run positions and dry-run exits: the book holds live positions only.
- Positions.BooksBalance: sums are unbounded, so the saturation of 256-bit wei sums is not modelled.
- Journal.GasIsMinedGas: the saturation of the gas sum at 2^256 is not modelled.
- Startup.Recover: the order is any order, which covers the order in which a reload lists the operations; a second receipt query that fails after the first succeeded is not modelled (the code returns the error and nothing is lost).
- Recovery.RecoverExit: the factory record and the fee query behind a pool fill are part of the receipt's decoded amounts.
- Refinement.RecoveredEntryIsTheLiveEntry: the position id is excepted, since recovery dates it by the operation and the live path by the clock.
- Entries.HandleEntry: what precedes the journal (preparation, quoting, waiting for the lane) and what follows it (telemetry, burst adaptation) is left out; a failed journal write is a crash.
- Exits.HandleExit: choosing what to sell and the exit ladder are left out; a halted engine is an outcome, not a state.
- Engine.Engine.Flush: the periodic flush may fall between two steps of a handler; `Protocol.EveryRunIsSafe` covers that, the handlers' own contracts do not interleave it.
- Positions.PositionStore.SellFrom: marking a position to market, which only moves its peak and last value, is left out.
- Wallet.Allocator.SetNonce: a reseed forgets the ranges taken before it, so rewinding one of those afterwards is not covered.
- Wallet.Allocator.TakeNonces: the counter is assumed to stay below 2^64.
- FlowSync.SyncFlow: a range that fails half-way followed by a reorganisation, and watching a curve again with another origin, are outside what the sync relies on.
- Snapshot.TakeSnapshot: the list of records for the board is left out; it is the event table read in order.
- Curve.BuyQuoteSettles: the floating-point progress and price helpers are left out.
- Portfolio.RoomMeansNoOverflow: on overflow the code may leave some fields changed; nothing is claimed about the book then.
- Portfolio.AdmissionIsUsedOnce: the revision is unbounded, so its wrap at 2^64 is not modelled.
- PortfolioBook.ResearchPortfolio.SettleEntry: persisting the portfolio after each operation is left out.
- Capture.ResearchRecorder.Record: file errors and the directory set-up are left out.
- Scheduler.FreeLaneServesSomeone: a turn is enabled, but the delivery of wake-ups is not modelled; routine waiters age without a notification.
- Scheduler.ExecutionScheduler.Enqueue: the wrap of waiter ids at 2^64 is not modelled.
- Budget.BudgetHolds: the limits are those of one session; changing the rules while reservations are under way, and research mode, which reserves nothing, are left out.
- Launch polling, the watchdog cursors, the deployer index, farm fingerprints and the RPC gate.
