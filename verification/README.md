# Verified model of the execution core

This project models the parts of the trading platform that must not go wrong: claiming a signal
for execution, the canonical order ledger, the per-account writer serializer, profit-and-loss
carry-forward, the circuit breaker, the fills blotter, futures sizing and the position ledger.
Each is modelled in Dafny and its promises are proved for all inputs and all runs.

`dafny verify dfyconfig.toml` checks every file.

## How the model is organised

| files | what they hold |
|---|---|
| `ClaimProtocol`, `ClaimSafety`, `ClaimCache`, `ClaimResults` | the claim protocol as a state machine over many processes, its safety over whole runs, the memory cache against the table, broker results carried to the claim row |
| `Deduplicator` | the deduplicator and its decision log as objects, tied to the protocol |
| `Common` | options, absolute value, minimum and averages |
| `Broker`, `Results` | broker results and fills, aggregation and retry rules |
| `Numeric`, `Ledger`, `LedgerSafety`, `LedgerIdentity`, `LedgerFills`, `LedgerRecovery`, `LedgerTotals`, `LedgerReplay`, `LedgerLimits`, `LedgerStore` | rounding, the ledger's transactions as functions, invariants over all operation sequences, what two answers with one order id share, exactly which results are accepted and what they leave, crash recovery, its figures and its fixed point over runs, runs that reach the excluded inputs, and the store as an object |
| `Serializer`, `SerializerSafety`, `SerializerObject` | leases, locks and generations as a state machine, its safety, and the object proved against it |
| `Pnl`, `MetricsStore` | position arithmetic, the cash law, the rows it is stored in |
| `Breaker` | the circuit breaker object against its call log |
| `FillPages`, `IsoTime` | keyset pages against the full sorted list, the cursor as text |
| `Calendar`, `Futures` | third Fridays, front month, order sizing |
| `Positions`, `PositionFills` | snapshot sync against a last-wins book, reading back, the post-fill snapshot |

Protocols are total step functions; a run is any sequence of steps, so a theorem about `Run` is
about every interleaving. Where the source changes state in place, a class or a method with loops
is proved against those functions.

## Where the code and its promise differ

- Two grants can be recorded within the TTL when a clean-up that reads the clock late removes a row under a claimant that read it early (`EarlyReadingBreaksRecordedGap`). By commit time the gap always holds.
- The memory cache refuses a claimable row in the window between writing a retryable outcome and evicting the key (`EvictionWindowIsReached`).
- With stale reclaim on, a second holder's retryable outcome can reopen a recorded success (`SecondHolderReopens`); `TerminalReopenableIff` says exactly when a terminal row can be reopened.
- A marked unknown submission is never replayable: the marker stays in the compared identity (`UnknownMarkerBlocksReplay`).
- A white-space broker reference is replaced by the first fills (`RefChangesOnlyIfBlank`), and a result with a blank order id and fills is not idempotent (`ApplyTwiceIsOnce`). Both inputs are accepted (`BlankRefReplaced`, `BlankIdAcceptedOnce`).
- A fill status without quantity, fills or stored executions is accepted and breaks the recovery read (`EmptyFillReportBreaksRead`, `EmptyFillReportAccepted`).
- Recovery from an untrimmed reference, or in submission_unknown, is not a fixed point (`RunReadThenApplyChangesNothing`, `UntrimmedRefAccepted`).
- A lost advisory-lock connection lets two holders overlap (`LossLetsHoldersOverlap`). The row belongs to whoever claimed last, and the claim does not check the lock again: a task that loses its connection between lock and claim overwrites the lock owner's row (`LateClaimOverwritesOwner`), and nothing else can (`LockOwnerOvertakenOnlyByLoss`).
- A metric stamped earlier than a stored one is not carried forward by the next (`LastIsLatestIffLater`); a supplied realized figure without an authoritative position unbalances the totals (`StepBalanced`).
- With a limit of zero the blotter shows nothing and offers no next page (`PagesAreFullList`).
- A zero entry for the traded symbol hides a fill (`ZeroEntryHidesFill`); a settlement currency longer than ten characters is inferred and then refused (`FillEntryProcesses`).

## Model

| member | source | states |
|---|---|---|
| `ClaimSafety.InvAlways` | apps/execution_engine/execution_engine/deduplication.py:188-575 | Over every interleaving of any number of workers and processes (insert races, row-locked reclaim, lost acknowledgements, crashes, swallowed writes, clean-up, outside resets) clock readings lie in the past, every grant is guarded by its row, and every later grant of the key is explained. |
| `ClaimSafety.GrantsSeparated` | apps/execution_engine/execution_engine/deduplication.py:296-414 | In every run two grants of one key have a recorded retryable outcome or an outside reset between them, or the second commits more than the TTL after the first one's recorded timestamp. Stale reclaim on or off, clean-up included. |
| `ClaimSafety.RecordedGrantsSeparated` | apps/execution_engine/execution_engine/deduplication.py:659-686 | The same gap holds between the two recorded timestamps, unless a clean-up that read the clock later than the second claimant removed the row in between. |
| `ClaimSafety.EarlyReadingBreaksRecordedGap` | apps/execution_engine/execution_engine/deduplication.py:659-686 | That exception is exact: for every TTL and every later clean-up reading there is a run whose two grants are recorded within the TTL with nothing reopening the key. |
| `ClaimSafety.OneGrantPerOpening` | apps/execution_engine/execution_engine/deduplication.py:338-369 | With stale reclaim off and no clean-up, a second grant of a key always has a retryable outcome or an outside reset before it: the TTL case cannot occur. |
| `ClaimCache.CacheInvAlways` | apps/execution_engine/execution_engine/deduplication.py:238-250 | Over every run without stale reclaim, clean-up or reset, at most one worker holds a key, held rows read executing, and every cached key is justified by a terminal row, an orphaned row, its holder or a pending eviction. |
| `ClaimCache.CacheAgreesWithTable` | apps/execution_engine/execution_engine/deduplication.py:214-250 | In those runs a key the memory cache refuses has a row, and the row is claimable only while a worker of the same process stands between writing a retryable outcome and evicting the key. |
| `ClaimCache.EvictionWindowIsReached` | apps/execution_engine/execution_engine/deduplication.py:463-473 | That window is real: from every start with an unseen key a run reaches a state in which memory refuses a row the table would grant. |
| `ClaimCache.RecordedRetryIsReclaimable` | apps/execution_engine/execution_engine/deduplication.py:463-478 | After a retryable outcome is written and evicted, any free worker of the same process is granted the key at once, at the current clock, with no other row changed. |
| `ClaimCache.SealedForever` | apps/execution_engine/execution_engine/deduplication.py:338-369 | A terminal row whose key nobody holds never changes and is never claimable, for every continuation without clean-up or reset of that key and every configuration. |
| `ClaimCache.TerminalReopenableIff` | apps/execution_engine/execution_engine/deduplication.py:338-369 | In every configuration and every state, a terminal row can be made pending by some continuation without clean-up or outside reset exactly when some holder may still write a retryable outcome; otherwise every such continuation leaves it terminal and never claimable. |
| `ClaimCache.RecordedTerminalReopenableIff` | apps/execution_engine/execution_engine/deduplication.py:511-541 | After a terminal outcome is recorded, that is exactly when another worker holds the key and is not already recording a terminal outcome of its own. |
| `ClaimCache.RecordedTerminalSeals` | apps/execution_engine/execution_engine/deduplication.py:416-473 | With stale reclaim off no other worker ever holds the key, so every recorded terminal outcome seals it. |
| `ClaimCache.SecondHolderReopens` | apps/execution_engine/execution_engine/deduplication.py:338-369 | With stale reclaim on the condition fails: from every start with an unseen key a run records a success that the second holder's retryable outcome then sets back to pending. |
| `Deduplicator.DecisionLog.Claim` | apps/execution_engine/execution_engine/deduplication.py:296-414 | The claim transaction as a method on the decision log: granted exactly when the key has no row or a claimable one, then the row reads executing at the clock reading; otherwise nothing changes. |
| `Deduplicator.DecisionLog.Store` | apps/execution_engine/execution_engine/deduplication.py:492-575 | The result write: the row becomes the outcome's status, or nothing changes when the database refuses the write. |
| `Deduplicator.DecisionLog.ClearExpired` | apps/execution_engine/execution_engine/deduplication.py:659-686 | Clean-up removes exactly the rows past the TTL and returns how many. |
| `Deduplicator.ExecutionDeduplicator.CheckMemory` | apps/execution_engine/execution_engine/deduplication.py:238-250 | A hit exactly when an unexpired record is cached; an expired one is dropped. |
| `Deduplicator.ExecutionDeduplicator.CleanupMemory` | apps/execution_engine/execution_engine/deduplication.py:484-490 | The removal loop leaves exactly the unexpired records. |
| `Deduplicator.ExecutionDeduplicator.ClaimExecution` | apps/execution_engine/execution_engine/deduplication.py:188-236 | Memory check, table claim and memory store in that order, against the sequential claim. |
| `Deduplicator.ExecutionDeduplicator.MarkExecuted` | apps/execution_engine/execution_engine/deduplication.py:416-473 | Row first, then memory: evicted on a retryable outcome, remembered otherwise, whatever the write did. |
| `Deduplicator.ClaimAloneIsRun` | apps/execution_engine/execution_engine/deduplication.py:188-236 | The claim executed as one method is the interleaved protocol's claim with only clock ticks in between, so the safety results apply to it. |
| `Deduplicator.MarkAloneIsRun` | apps/execution_engine/execution_engine/deduplication.py:416-473 | Recording executed as one method is the holder's finish, row write and memory update of the protocol with only a clock tick in between, whether the write succeeds or is swallowed. |
| `ClaimProtocol.RememberedRefuses` | apps/execution_engine/execution_engine/deduplication.py:238-250 | From a store on, memory refuses the stored key exactly up to its expiry and every other key as before; beyond a thousand records no expired one is kept. |
| `ClaimProtocol.LookedRefuses` | apps/execution_engine/execution_engine/deduplication.py:238-250 | A memory lookup never changes what is refused from then on and drops an expired record of its key. |
| `ClaimProtocol.CleanUpRemoves` | apps/execution_engine/execution_engine/deduplication.py:659-686 | Clean-up removes exactly the rows older than the TTL at its reading, whatever their status, and touches nothing else. |
| `Results.AggregateStatus` | apps/execution_engine/execution_engine/execution_result.py:172-225 | For every list of broker results: the recorded row is rejected exactly when some submission is unknown, executed exactly when there is none and the list is empty or has a fill, pending exactly when the list is non-empty without fill or unknown submission; memory evicts exactly in the last case. |
| `Results.AveragePriceBounds` | apps/execution_engine/execution_engine/execution_result.py:183-225 | The aggregate average price lies between the lowest and highest fill price, and the quantity is positive, whenever some order filled. |
| `Results.RecordedStatus` | apps/execution_engine/execution_engine/execution_result.py:66-119 | For every result: the recorded row is executed exactly on success; pending exactly on a failure whose mode is neither blocked nor dedup or whose block reason is one of the twelve transient ones; rejected on every other block; failed on a duplicate. Memory forgets the key exactly in the pending case. |
| `Results.AggregateTotals` | apps/execution_engine/execution_engine/execution_result.py:172-225 | Orders submitted is the length of the list; orders filled, quantity and commission are sums over the filled orders, and average price times quantity is their value. |
| `Results.AggregateMode` | apps/execution_engine/execution_engine/execution_result.py:172-225 | A list with an unknown submission is reported as blocked with that reason, every other list under its own mode without a reason. |
| `ClaimResults.UnknownSubmissionNeverReclaimed` | apps/execution_engine/execution_engine/engine.py:521-532 | In every configuration and state, recording an aggregate with an unknown submission leaves a rejected row; it is never claimable again without clean-up or reset exactly when no other worker holds the key with an outcome that may still be retryable. |
| `ClaimResults.UnknownSubmissionSealed` | apps/execution_engine/execution_engine/engine.py:521-532 | With stale reclaim off that covers every undisturbed run: the row stays rejected and is never claimable, whatever follows. |
| `ClaimResults.NoFillLeavesKeyOpen` | apps/execution_engine/execution_engine/execution_result.py:100-119 | A non-empty list with no fill and no unknown submission leaves the recorded row pending and claimable at every reading. |
| `ClaimResults.RecordedResultReclaimable` | apps/execution_engine/execution_engine/execution_result.py:100-119 | Once any result is recorded, its row is claimable at every reading exactly when the failure was in a real execution mode or a transient block. |
| `ClaimResults.TransientBlockGrantedAgain` | apps/execution_engine/execution_engine/execution_result.py:78-119 | A run from any state: a key blocked on a transient condition is recorded, evicted and granted again to a free worker of the same process at the current clock. |
| `Numeric.RoundIsIdempotent` | apps/execution_engine/execution_engine/canonical_execution_store.py:93-128 | Rounding a stored amount again gives the same amount. |
| `Numeric.RoundIsClose` | apps/execution_engine/execution_engine/canonical_execution_store.py:93-128 | Rounding at 1e-8, ties away from zero, moves an amount by at most half a quantum. |
| `Numeric.TiesAwayFromZero` | apps/execution_engine/execution_engine/canonical_execution_store.py:114-118 | Half a quantum rounds away from zero on both sides. |
| `Numeric.CanonicalIff` | apps/execution_engine/execution_engine/canonical_execution_store.py:119-128 | An amount is accepted exactly when its rounded value is at most 999999999999.99999999 in size and, where that is asked, at least one quantum. |
| `LedgerSafety.RunKeeps` | apps/execution_engine/execution_engine/canonical_execution_store.py:333-1125 | From any well-formed tables, every sequence of create halves, aborts, unknown marks and applied results keeps them well formed and extends them. |
| `LedgerSafety.OneOrderPerKey` | apps/execution_engine/execution_engine/canonical_execution_store.py:567-656 | In every run, lost insert races included, each account and idempotency key has at most one intent, and each intent exactly one order. |
| `LedgerSafety.ReplayReturnsStoredIds` | apps/execution_engine/execution_engine/canonical_execution_store.py:333-448 | A create whose key is stored, found by the lookup or after a lost race, adds no row; it returns the stored ids exactly when account, strategy, signal, side, mode, environment, kind, settlement, broker and economics are the stored ones, no unknown marker is set and there is a recovery identity; else it raises without a change. |
| `LedgerSafety.FreshCreateAddsOne` | apps/execution_engine/execution_engine/canonical_execution_store.py:450-656 | A create that wins its insert adds exactly one intent and order, found again under its key, with every stored column spelled out from the request. |
| `LedgerIdentity.SameOrderSameAttempt` | apps/execution_engine/execution_engine/canonical_execution_store.py:333-448 | In every run, two creates answered with the same order id agree in key, account, strategy, signal, side, mode, environment, kind, settlement, broker and economics. |
| `LedgerIdentity.RunOwned` | apps/execution_engine/execution_engine/canonical_execution_store.py:471-553 | In every run against one catalogue, each stored intent belongs to the owner of its account, is routed to that account's broker in its environment, and is for a signal of its strategy that settles as the order does. |
| `LedgerIdentity.CreateRefusedIff` | apps/execution_engine/execution_engine/canonical_execution_store.py:606-656 | A create of an unknown key is refused, changing nothing, exactly when the account already uses its client order id. |
| `LedgerIdentity.RunClientIds` | apps/execution_engine/execution_engine/canonical_execution_store.py:606-656 | In every run no account has two orders under one client order id. |
| `LedgerIdentity.AbortIs` | apps/execution_engine/execution_engine/canonical_execution_store.py:774-821 | An abort is accepted exactly on a new order without reference or executions and with a reason and code; it marks intent refused and order rejected, records the trimmed reason, and changes nothing else. |
| `LedgerIdentity.MarkUnknownIs` | apps/execution_engine/execution_engine/canonical_execution_store.py:823-857 | An unknown submission is recorded exactly on a new or already unknown order with a reason; it sets state and marker and changes nothing else. |
| `LedgerIdentity.ReplayRevivesIff` | apps/execution_engine/execution_engine/canonical_execution_store.py:409-448 | A matching replay rewrites and reopens exactly an attempt aborted before submission; any other is answered with the stored reference, state and identity and nothing is written. |
| `LedgerIdentity.AbortThenReplayIsFresh` | apps/execution_engine/execution_engine/canonical_execution_store.py:409-448 | Creating, aborting and creating again leaves the ledger, and answers, as the first create did. |
| `LedgerSafety.UnknownMarkerBlocksReplay` | apps/execution_engine/execution_engine/canonical_execution_store.py:823-857 | Once a submission is marked unknown, every replay of its key raises, after every further run: the marker is part of the compared identity. |
| `LedgerSafety.ActiveNeverAbortedOrRevived` | apps/execution_engine/execution_engine/canonical_execution_store.py:774-821 | An order with a broker reference or an execution is never aborted or revived, after any run, and its intent keeps its status. |
| `LedgerSafety.LedgerOnlyGrows` | apps/execution_engine/execution_engine/canonical_execution_store.py:859-1125 | The state after any prefix of a run is extended by the state after all of it: executions append-only with distinct trade ids per order, filled absorbing, identity and route unchanged, a non-blank reference unchanged. |
| `LedgerSafety.RefChangesOnlyIfBlank` | apps/execution_engine/execution_engine/canonical_execution_store.py:881-916 | An accepted result changes a reference already set exactly when that reference is white space and the result carries fills. |
| `LedgerSafety.FoldKeeps` | apps/execution_engine/execution_engine/canonical_execution_store.py:1030-1125 | The fill loop, when it accepts, only appends, keeps trade ids distinct, stores every fill under one reference and never changes an existing execution. |
| `LedgerFills.StateAfter` | apps/execution_engine/execution_engine/canonical_execution_store.py:65-76 | The state after every accepted result, status by status; filled is never left, and no other order or intent changes. |
| `LedgerFills.StatusRead` | apps/execution_engine/execution_engine/canonical_execution_store.py:78-86 | The status each stored state is read back with, the trimmed reference and no error. |
| `LedgerFills.FillsAcceptedIff` | apps/execution_engine/execution_engine/canonical_execution_store.py:994-1125 | The fill loop accepts exactly the fill sets in which every fill fits the order and its instrument, no trade id occurs twice, a trade already stored agrees with its row in every column and every fill carries the order's reference (or, where that is blank, the first fill's); it then appends exactly the rows of the new trades in order. |
| `LedgerFills.AppliedIff` | apps/execution_engine/execution_engine/canonical_execution_store.py:859-1125 | A result is accepted exactly when the order exists, the result is consistent with it and its fills are acceptable for the signal's instrument; it leaves exactly the new rows and the reference, and returns their ids. |
| `LedgerFills.SeparatorsIgnored` | apps/execution_engine/execution_engine/canonical_execution_store.py:994-1029 | Symbols are compared without their separators, wherever those stand. |
| `LedgerFills.PlainIsNormal` | apps/execution_engine/execution_engine/canonical_execution_store.py:994-1029 | A plain upper-case symbol is compared as it is. |
| `LedgerRecovery.ReadNeverRaises` | apps/execution_engine/execution_engine/canonical_execution_store.py:658-772 | The recovery read succeeds on every order of every run whose requests name a symbol and whose fill statuses come with something filled. |
| `LedgerRecovery.EmptyFillReportBreaksRead` | apps/execution_engine/execution_engine/canonical_execution_store.py:658-772 | The second hypothesis is exact: an accepted fill status that reports, carries and finds no fill leaves an order the read raises on. |
| `LedgerRecovery.ApplyTwiceIsOnce` | apps/execution_engine/execution_engine/canonical_execution_store.py:859-1125 | Applying an accepted result a second time inserts nothing and changes nothing exactly unless it carries fills with a blank, non-empty order id. |
| `LedgerRecovery.ReadThenApplyChangesNothing` | apps/execution_engine/execution_engine/canonical_execution_store.py:696-772 | For any well-formed tables and a fitting instrument, feeding the recovery read back into apply inserts and changes nothing exactly when the order is not submission_unknown and its stored reference is trimmed or blank. |
| `LedgerReplay.RunReadThenApplyChangesNothing` | apps/execution_engine/execution_engine/canonical_execution_store.py:658-1125 | In every run that looks instruments up in one catalogue, for every order and every instrument, feeding the recovery read back inserts and changes nothing exactly when the order is not submission_unknown, its reference is trimmed or blank, and the instrument is the signal's wherever there are executions. |
| `LedgerReplay.RunChecked` | apps/execution_engine/execution_engine/canonical_execution_store.py:952-992 | In such a run every execution carries the instrument of its order's signal, which settles as the order does. |
| `LedgerRecovery.SortRowsMembers` | apps/execution_engine/execution_engine/canonical_execution_store.py:682-687 | The rows the read returns are a permutation of the order's rows. |
| `LedgerRecovery.SortRowsOrdered` | apps/execution_engine/execution_engine/canonical_execution_store.py:682-687 | Sorting is by fill time and, among equal times, in storing order. |
| `LedgerRecovery.ReadInQueryOrder` | apps/execution_engine/execution_engine/canonical_execution_store.py:682-687 | The rows the read goes through are ordered by fill time and then execution id over the whole table. |
| `LedgerTotals.ReadTotals` | apps/execution_engine/execution_engine/canonical_execution_store.py:739-772 | For every successful read, from the stored rows alone: quantity is their sum, average times quantity the sum of quantity times price, commission the sum of fees exactly when they share one currency and zero otherwise. |
| `LedgerTotals.ReadAverageBetween` | apps/execution_engine/execution_engine/canonical_execution_store.py:739-772 | The average lies between the lowest and highest stored price. |
| `LedgerTotals.ReadFills` | apps/execution_engine/execution_engine/canonical_execution_store.py:696-738 | Each fill read back is a stored row column by column, with the order's trimmed reference, routed symbol and side. |
| `LedgerLimits.RequestsExist` | apps/execution_engine/execution_engine/canonical_execution_store.py:450-566 | A request and reference data that pass every check of the create exist, so the runs below do. |
| `LedgerLimits.EmptyFillReportAccepted` | apps/execution_engine/execution_engine/canonical_execution_store.py:881-923 | For every valid request, a run accepts a filled status without quantity or fills and leaves an order whose recovery read raises. |
| `LedgerLimits.UntrimmedRefAccepted` | apps/execution_engine/execution_engine/canonical_execution_store.py:907-916 | For every valid request with a symbol, a run stores an untrimmed reference; reading that order back and applying the result raises. |
| `LedgerLimits.BlankIdAcceptedOnce` | apps/execution_engine/execution_engine/canonical_execution_store.py:907-916 | For every valid request with a symbol, a result with a blank order id and a fill is accepted on the created order and refused when it is applied again. |
| `LedgerLimits.BlankRefReplaced` | apps/execution_engine/execution_engine/canonical_execution_store.py:907-916 | For every valid request with a symbol, a run stores a blank reference that the next fill replaces. |
| `LedgerRecovery.LedgerQuantityIsReported` | apps/execution_engine/execution_engine/canonical_execution_store.py:924-948 | After a fill set that covers every stored trade is accepted, the ledger quantity differs from the reported one by at most max(1e-8, 1e-8 times reported) plus n times 0.5e-8 for n fills. |
| `LedgerStore.CanonicalExecutionStore.ExistingOrderRef` | apps/execution_engine/execution_engine/canonical_execution_store.py:333-448 | The lookup branch on the stored rows: the same reference, revival or refusal as the transaction function. |
| `LedgerStore.CanonicalExecutionStore.CreateOrder` | apps/execution_engine/execution_engine/canonical_execution_store.py:450-656 | The create on the stored rows: validation, lookup, insert and lost race as the transaction function, raising without a change. |
| `LedgerStore.CanonicalExecutionStore.AbortPreSubmission` | apps/execution_engine/execution_engine/canonical_execution_store.py:774-821 | The abort on the stored rows. |
| `LedgerStore.CanonicalExecutionStore.MarkSubmissionUnknown` | apps/execution_engine/execution_engine/canonical_execution_store.py:823-857 | The unknown marker on the stored rows. |
| `LedgerStore.CanonicalExecutionStore.CollectFills` | apps/execution_engine/execution_engine/canonical_execution_store.py:1030-1125 | The fill loop with its seen set and inserted ids, against the recursive fold. |
| `LedgerStore.CanonicalExecutionStore.ApplyBrokerResult` | apps/execution_engine/execution_engine/canonical_execution_store.py:859-1125 | The whole result application: either every change of the transaction function or none. |
| `LedgerStore.CanonicalExecutionStore.ReadDurableResult` | apps/execution_engine/execution_engine/canonical_execution_store.py:658-772 | The read loop, raising exactly where the read function does and otherwise returning its result and fills. |
| `SerializerSafety.InvAlways` | apps/execution_engine/execution_engine/account_execution_serializer.py:82-201 | Over every run of tasks in many processes, with crashes, lost connections, failing calls and inherited contexts: local locks, advisory locks, generation rows and contexts stay consistent. |
| `SerializerSafety.OneLiveLease` | apps/execution_engine/execution_engine/account_execution_serializer.py:82-201 | In every run at most one task of all processes holds a lease of an account while owning its advisory lock. |
| `SerializerSafety.GenerationsIncrease` | apps/execution_engine/execution_engine/account_execution_serializer.py:228-272 | Successive leases of one account carry strictly increasing generations and distinct owners, over every run. |
| `SerializerSafety.NestedReturnsOuter` | apps/execution_engine/execution_engine/account_execution_serializer.py:108-114 | A nested hold returns the outer lease for the same account and refuses any other; the lease is held right then by a task of the same process. |
| `SerializerSafety.OvertakenReleaseRaises` | apps/execution_engine/execution_engine/account_execution_serializer.py:274-300 | In every run a holder's row is its own exactly when no claim of the account committed after its own; otherwise its exit raises and changes no row. Either way leaving frees the local lock. |
| `SerializerSafety.LockOwnerOvertakenOnlyByLoss` | apps/execution_engine/execution_engine/account_execution_serializer.py:131-155 | A holder that owns the advisory lock is overtaken exactly when another claim of the account committed afterwards whose task had lost its connection while using it, between its lock and that claim. |
| `SerializerSafety.LateClaimOverwritesOwner` | apps/execution_engine/execution_engine/account_execution_serializer.py:131-155 | That happens: a task that loses its connection between lock and claim overwrites the row of the new lock owner, whose healthy release then raises. |
| `SerializerSafety.LocalLocksMatchTasks` | apps/execution_engine/execution_engine/account_execution_serializer.py:82-201 | In every run a local lock is taken exactly while a task of that process is inside, so none leaks. |
| `SerializerSafety.LeavingFreesLocal` | apps/execution_engine/execution_engine/account_execution_serializer.py:167-201 | Every step by which a task leaves frees its local lock. |
| `SerializerSafety.OneHolderWithoutLoss` | apps/execution_engine/execution_engine/account_execution_serializer.py:82-201 | Without a lost connection at most one task holds a lease of an account at all, and that lease is current, so a healthy release never raises. |
| `SerializerSafety.LossLetsHoldersOverlap` | apps/execution_engine/execution_engine/account_execution_serializer.py:167-201 | The hypothesis is needed: after a lost connection two processes hold leases of one account. |
| `SerializerSafety.WholeHold` | apps/execution_engine/execution_engine/account_execution_serializer.py:82-201 | A whole undisturbed hold from any reachable state: taken under the next generation, the lease inherited by a child task, and afterwards locks and contexts as before and the row at that generation without an owner. |
| `SerializerObject.AccountExecutionSerializer.ClaimGeneration` | apps/execution_engine/execution_engine/account_execution_serializer.py:228-272 | The next generation, of the shared row or of process memory, with the new lease current. |
| `SerializerObject.AccountExecutionSerializer.ReleaseGeneration` | apps/execution_engine/execution_engine/account_execution_serializer.py:274-300 | Released exactly when the lease is current; otherwise refused with the row unchanged. |
| `SerializerObject.AccountExecutionSerializer.Enter` | apps/execution_engine/execution_engine/account_execution_serializer.py:108-166 | Entering a hold on the object follows the machine: an inherited lease exactly as a nested hold, a granted one with the machine's lease and connection, and on any failure the state after local lock, advisory lock, claim and the clean-up that frees them. |
| `SerializerObject.AccountExecutionSerializer.Exit` | apps/execution_engine/execution_engine/account_execution_serializer.py:167-201 | Leaving through the nested clean-up, with a release that may raise or refuse and an unlock that may find the lock gone, ends in the machine's state after exit and unlock, the local lock always free; nothing is raised exactly when the release call works, the lease is current and the lock owned. |
| `SerializerObject.AccountExecutionSerializer.GiveBack` | apps/execution_engine/execution_engine/account_execution_serializer.py:274-300 | Resetting the context and releasing the generation is the machine's exit step. |
| `SerializerObject.AccountExecutionSerializer.Disconnect` | apps/execution_engine/execution_engine/account_execution_serializer.py:174-201 | Unlocking and freeing the local lock is the machine's unlock step, reporting exactly whether the lock was still owned. |
| `Pnl.FilledMoves` | apps/execution_engine/execution_engine/execution_metrics_store.py:229-288 | One fill, through whichever branch, moves quantity by the signed (clamped) fill and equity by minus that times price. |
| `Pnl.CashLaw` | apps/execution_engine/execution_engine/execution_metrics_store.py:167-288 | For every sequence of fills on the derived path, realized total minus quantity times average price is the net signed cash of the fills with closes clamped, and realized total is gross profit minus gross loss. |
| `Pnl.FlatMeansRealizedIsCash` | apps/execution_engine/execution_engine/execution_metrics_store.py:167-288 | Whenever the position is flat the realized total is the cash that changed hands. |
| `Pnl.FillDirection` | apps/execution_engine/execution_engine/execution_metrics_store.py:202-288 | Long and buy raise the quantity by the fill, every other action that does not close lowers it, and a close moves toward zero without crossing. |
| `Pnl.RoundTrip` | apps/execution_engine/execution_engine/execution_metrics_store.py:229-288 | Buying q at a from flat and closing it at b realizes (b - a) q, selling the opposite, with turnover and fees of both fills. |
| `Pnl.FillScored` | apps/execution_engine/execution_engine/execution_metrics_store.py:202-288 | One win for a profit, one loss for a loss, one breakeven for a close at cost, none for a fill that only opens or adds; gross profit and loss by the amount. |
| `Pnl.AuthorityAdopted` | apps/execution_engine/execution_engine/execution_metrics_store.py:167-200 | With an authoritative position quantity and average are the broker's, the realized total is the supplied one if any and its change is scored. |
| `Pnl.SuppliedFigureFirst` | apps/execution_engine/execution_engine/execution_metrics_store.py:167-200 | A realized figure without authority replaces the total before the fill is booked. |
| `Pnl.NoFillNoChange` | apps/execution_engine/execution_engine/execution_metrics_store.py:167-228 | A record without an effective fill, authority or figure changes nothing. |
| `Pnl.StepBalanced` | apps/execution_engine/execution_engine/execution_metrics_store.py:167-200 | Over all inputs a record keeps realized total equal to gross profit minus gross loss exactly unless it supplies a different realized figure without an authoritative position. |
| `MetricsStore.ExecutionMetricsStore.Previous` | apps/execution_engine/execution_engine/execution_metrics_store.py:118-129 | One pass finds a row of the partition that none was created after, or there is none. |
| `MetricsStore.ExecutionMetricsStore.Record` | apps/execution_engine/execution_engine/execution_metrics_store.py:89-129 | A new metric appends one row carrying its partition's latest state forward; a replayed id appends nothing and is refused exactly when its economic identity differs. The table stays one in which every row carries its partition forward. |
| `MetricsStore.ComputeState` | apps/execution_engine/execution_engine/execution_metrics_store.py:167-288 | The branch-by-branch update of local variables computes the step the cash law is about. |
| `MetricsStore.LastIsLatestIffLater` | apps/execution_engine/execution_engine/execution_metrics_store.py:118-129 | In a table of any partitions, the last row of a partition is the one its next record builds on exactly when it is stamped after all others of the partition; an earlier stamp loses it. |
| `MetricsStore.InOrderCarries` | apps/execution_engine/execution_engine/execution_metrics_store.py:118-129 | Among rows of any other partitions, the last row of a partition stamped in order is the fold of all its inputs. |
| `MetricsStore.StoredCashLaw` | apps/execution_engine/execution_engine/execution_metrics_store.py:118-288 | For every store, the last row of a partition recorded in order on the derived path obeys the cash law of exactly that partition's fills. |
| `Breaker.PrunedIsSince` | apps/execution_engine/execution_engine/circuit_breaker.py:63-80 | On a sorted deque, popping old entries from the left is filtering by the window. |
| `Breaker.DequeIsWindow` | apps/execution_engine/execution_engine/circuit_breaker.py:63-80 | Over every call log with a clock that never runs backwards, the deque holds exactly the failures since the last reset in the window of the latest failure. Resets, expiries included, are read off the log alone. |
| `Breaker.TripsIffWindowFull` | apps/execution_engine/execution_engine/circuit_breaker.py:63-80 | A failure trips the breaker exactly when the failures since the last reset inside its window reach the threshold. |
| `Breaker.OpenUntilIsLastOpening` | apps/execution_engine/execution_engine/circuit_breaker.py:29-61 | The stored deadline is that of the last opening of the log, manual, restored or tripped, with nothing closing after it, a noticed expiry included. |
| `Breaker.BlocksIffBeforeDeadline` | apps/execution_engine/execution_engine/circuit_breaker.py:29-61 | The breaker blocks at t exactly when t is before the deadline of an opening that nothing superseded or closed. |
| `Breaker.AnnouncedIff` | apps/execution_engine/execution_engine/circuit_breaker.py:29-34 | A key is recently closed exactly when an is_open noticed an opening that had run out and nothing since consumed the notice, closed, restored or opened the breaker. |
| `Breaker.ReasonIsLatest` | apps/execution_engine/execution_engine/circuit_breaker.py:36-80 | The reason kept is the latest one given by an opening, restore or failure since the last close, and empty when there is none. |
| `Breaker.CircuitBreaker.IsOpenKey` | apps/execution_engine/execution_engine/circuit_breaker.py:29-34 | Answers from the key's own state, closes it when expired, and leaves other keys alone. |
| `Breaker.CircuitBreaker.OpenKey` | apps/execution_engine/execution_engine/circuit_breaker.py:36-41 | Opening follows the log semantics and leaves other keys alone. |
| `Breaker.CircuitBreaker.RestoreKey` | apps/execution_engine/execution_engine/circuit_breaker.py:43-61 | Restoring follows the log semantics and leaves other keys alone. |
| `Breaker.CircuitBreaker.RecordFailure` | apps/execution_engine/execution_engine/circuit_breaker.py:63-80 | The popping loop, the append and the trip follow the log semantics. |
| `Breaker.CircuitBreaker.CloseKey` | apps/execution_engine/execution_engine/circuit_breaker.py:85-93 | Closing empties the deque and the deadline, and remembers the transition on request. |
| `Breaker.CircuitBreaker.ConsumeRecentlyClosed` | apps/execution_engine/execution_engine/circuit_breaker.py:95-99 | A remembered close is reported exactly once. |
| `FillPages.DescendingUnique` | apps/backend/backend/ui_queries.py:313-373 | A list sorted strictly by fill time and id is determined by its members. |
| `FillPages.PageSplits` | apps/backend/backend/ui_queries.py:1059-1077 | One page is a descending run of selected fills; with a cursor everything left is older than it, without one (and a positive limit) nothing is left. |
| `FillPages.PageSize` | apps/backend/backend/ui_queries.py:1059-1077 | A page holds the limit or all that is left, and names a next page exactly while more is left than a positive limit. |
| `FillPages.NextShrinks` | apps/backend/backend/ui_queries.py:1059-1077 | Following the cursor strictly shrinks what is left, so it ends. |
| `FillPages.PagesAreFullList` | apps/backend/backend/ui_queries.py:1059-1077 | The concatenated pages are the full list if and only if the limit is positive or there is nothing to list; the full list holds exactly the accounts' fills, later fill time first and higher execution id first at one instant. |
| `FillPages.WalkSeesEachOnce` | apps/backend/backend/ui_queries.py:313-373 | While fills are inserted between pages no fill is seen twice, and each fill present at the start is seen by a walk that ends. |
| `FillPages.WalkEnds` | apps/backend/backend/ui_queries.py:1059-1077 | A walk over a growing table ends before it asks for more pages than the table finally has fills. |
| `FillPages.WholeWalkSeesAll` | apps/backend/backend/ui_queries.py:1059-1077 | So a walk with that many requests sees every fill present at the start exactly once. |
| `IsoTime.IsoRoundTrip` | apps/backend/backend/ui_queries.py:297-362 | Reading the ISO text of a fill time, stored in UTC and printed without an offset, gives the time back, with and without fractions of a second. |
| `IsoTime.FillCursorRoundTrip` | apps/backend/backend/ui_queries.py:297-362 | The cursor parser inverts the cursor printer for every fill time and execution id. |
| `IsoTime.PrintedCursorIsPosition` | apps/backend/backend/ui_queries.py:313-362 | The cursor printed after a fill parses back to that fill's position in the blotter, and no other fill time or id prints the same cursor or has the same position. |
| `IsoTime.ReadTimeIsPrinted` | apps/backend/backend/ui_queries.py:297-310 | Conversely every text read as a time is a valid one and is the text printed for it, except that a zero fraction may be spelled out. |
| `IsoTime.PrintedShape` | apps/backend/backend/ui_queries.py:357-362 | The printed time is year, month and day with dashes, then hour, minute and second with colons, with six digits of a second only when there are any. |
| `FillPages.CursorReadIff` | apps/backend/backend/ui_queries.py:297-310 | A text is read as a cursor exactly when the part before its last underscore is a time and the part after it is a non-empty run of digits, giving that time and number. |
| `Futures.SizeContracts` | apps/execution_engine/execution_engine/futures_builder.py:225-262 | Over exact arithmetic the quantity is the largest valid increment within notional and margin; sizing fails exactly when not one increment fits, with the budget error exactly when one increment is worth more than the notional; the second margin check never fires. |
| `Futures.RoundIs` | apps/execution_engine/execution_engine/futures_builder.py:291-297 | Rounding gives whole increments, and none exactly when one is worth more than the capacity. |
| `Futures.Leverage` | apps/execution_engine/execution_engine/futures_builder.py:218-223 | The leverage is positive, within target, user limit and contract margin limit, and equal to one of them. |
| `Futures.BuildOrder` | apps/execution_engine/execution_engine/futures_builder.py:160-289 | Each refusal has its exact condition; otherwise the order passes its own construction checks, carries the largest size at the allowed leverage, and its expiry. |
| `Futures.TermsAre` | apps/execution_engine/execution_engine/futures_builder.py:199-217 | The contract's own terms, or those of the configuration with the inverse of the leverage limit as margin; accepted exactly for a perpetual or dated contract of positive size and a margin above 0 and at most 1. |
| `Futures.DeliveredIs` | apps/execution_engine/execution_engine/futures_builder.py:225-289 | An order in plain arithmetic: ten-thousandths of a perpetual or whole dated contracts, the most that cost no more than the notional asked for and the margin times the leverage; notional is quantity times price times multiplier and margin times leverage is the notional. |
| `Futures.ConstructionChecks` | apps/execution_engine/execution_engine/futures_builder.py:90-138 | The order's own checks demand a symbol, positive figures, a perpetual or dated type and an expiry exactly when dated, and nothing more of an order whose notional and margin agree exactly. |
| `Futures.CloseIs` | apps/execution_engine/execution_engine/futures_builder.py:118-138 | The tolerance of those checks is symmetric: 1e-9, absolute or of the larger figure. |
| `Calendar.MonthFollows` | apps/execution_engine/execution_engine/futures_builder.py:299-316 | A month ends where the next starts, across the turn of the year, in the calendar arithmetic used. |
| `Calendar.ThirdFridayIsThird` | apps/execution_engine/execution_engine/futures_builder.py:318-330 | The day computed is a Friday between the 15th and the 21st with exactly two Fridays of the month before it. |
| `Calendar.JanuaryOf2026` | apps/execution_engine/execution_engine/futures_builder.py:318-330 | The weekdays are anchored: 2 January 2026 is a Friday, and 16 January the third one. |
| `Calendar.MonthStarts` | apps/execution_engine/execution_engine/futures_builder.py:299-330 | Every month of every year starts where the Gregorian calendar puts it. |
| `Calendar.YearFollows` | apps/execution_engine/execution_engine/futures_builder.py:299-330 | A year has 365 days, and one more every fourth year, of the centuries only every fourth. |
| `Calendar.FrontMonthExpiry` | apps/execution_engine/execution_engine/futures_builder.py:299-316 | For every instant the expiry is the earliest third Friday of any month at least five days ahead; it fails exactly when the calendar (to year 9999) has none. |
| `Positions.ExecutionPositionStore.SyncPositions` | apps/execution_engine/execution_engine/execution_position_store.py:129-256 | Fails, changing nothing, exactly when the route or an entry is invalid. Otherwise, with a non-zero entry or the prune flag, the account's rows are the last-wins book of the snapshot; else the old rows without the instruments reported zero. Other accounts keep their rows. |
| `Positions.DescribedBookUnique` | apps/execution_engine/execution_engine/execution_position_store.py:156-256 | The last-wins description determines the book. |
| `Positions.EntryMeans` | apps/execution_engine/execution_engine/execution_position_store.py:156-236 | Exactly which entries delete a row, which write one and which fail the sync, and every column of the row: short positions negative whatever sign is reported, prices, unit, multiplier, currency and notional. |
| `PositionFills.ListPositions` | apps/execution_engine/execution_engine/execution_position_store.py:258-312 | Raises exactly when a non-zero row cannot be reported, otherwise lists the non-zero rows. |
| `PositionFills.SyncKeepsValid` | apps/execution_engine/execution_engine/execution_position_store.py:156-256 | Syncing keeps every stored row reportable. |
| `PositionFills.SyncThenListReadsBack` | apps/execution_engine/execution_engine/execution_position_store.py:258-312 | After a sync of a valid book the listing succeeds in any order, holds exactly the instruments whose last entry is non-zero or the untouched rows kept, each once, with side, size, prices, unit and currency of that entry or row. |
| `PositionFills.ListThenSyncKeeps` | apps/execution_engine/execution_engine/execution_position_store.py:275-312 | Syncing back the listed positions changes nothing, in any listing order, with pruning on or off. |
| `PositionFills.SyncTwiceIsOnce` | apps/execution_engine/execution_engine/execution_position_store.py:129-256 | Syncing the same snapshot twice is syncing it once. |
| `PositionFills.PresentAfterSync` | apps/execution_engine/execution_engine/execution_position_store.py:156-256 | Exactly which instruments hold a position after a sync. |
| `PositionFills.FillEntryProcesses` | apps/execution_engine/execution_engine/execution_persistence.py:147-169 | The position inferred from a fill is accepted exactly when its currency has at most ten characters, as a row with the fill's signed quantity and price. |
| `PositionFills.FilledPositionRecorded` | apps/execution_engine/execution_engine/execution_persistence.py:116-170 | After a filled paper or spot LONG or SHORT nothing is pruned on an empty snapshot, and the traded instrument is present exactly when the snapshot left its symbol out or its last entry about the instrument is non-zero. |
| `PositionFills.FilledPositionAlwaysPresent` | apps/execution_engine/execution_engine/execution_persistence.py:116-170 | Against a snapshot of non-zero entries the traded instrument is always present. |
| `PositionFills.ZeroEntryHidesFill` | apps/execution_engine/execution_engine/execution_persistence.py:133-139 | A zero entry for the traded symbol suppresses the inferred position and deletes the row. |
| `PositionFills.EmptySnapshotKeepsBook` | apps/execution_engine/execution_engine/execution_position_store.py:238-256 | An empty snapshot without the prune flag leaves the book as it was, whoever syncs it. |
| `PositionFills.UnshownDerivativeKeepsBook` | apps/execution_engine/execution_engine/execution_persistence.py:133-146 | So a derivative fill the broker does not show yet leaves the book as it was. |
| `PositionFills.PersistRefusedIff` | apps/execution_engine/execution_engine/execution_persistence.py:116-170 | Persisting raises exactly on an opened paper or spot position the broker does not show and whose fill has no price or no usable currency. |
| `PositionFills.OtherwiseMirrors` | apps/execution_engine/execution_engine/execution_persistence.py:116-146 | After anything but an opening fill the ledger becomes exactly what the snapshot describes. |

## Left out

- Each database transaction is one atomic step that commits or changes nothing; SQL text, the object-relational mapper, isolation levels and retries are not modelled.
- One clock that never runs backwards is shared by all processes of the claim protocol, and the breaker's calls are in clock order.
- The memory-only fallback of the deduplicator after database errors, `has_executed`, the recent-execution queries and the key hash: memory-only mode weakens the protocol by design, the rest is outside the claim path; equal keys stand for equal hashes.
- A granted claim is finalised at most once by its holder; `get_recent_executions` is not modelled.
- Lease owners are fresh numbers in place of random UUIDs; a context is not handed to tasks that outlive the hold; `assert_current` and `current_lease` are single comparisons and left out.
- The single-process memory generations of the serializer appear only in the object, not in the state machine.
- Request text fields of the ledger (currencies, codes, broker names) are taken after their own normalisation; JSON payloads are reduced to the compared identity, the routed symbol, the recovery identity and the markers.
- White space that is trimmed is space, tab, newline and carriage return; case changes are ASCII.
- The sign of zero and the rounding of position columns are not modelled; floats of metrics, futures and positions are exact reals.
- SerializerObject.AccountExecutionSerializer.Enter: one caller at a time; interleaving, crashes and lost connections are steps of the state machine, and user, account and writer-kind validation is left out.
- SerializerObject.AccountExecutionSerializer.Exit: the machine does not let a holder leave while another task still carries its lease, which stands for contexts not outliving the hold.
- Positions.ExecutionPositionStore.SyncPositions: account route validation is one flag, symbol resolution is a function parameter, and the generated row ids and update times are left out.
- PositionFills.ListPositions: rows without a price cannot be represented, because the store never writes one.
- IsoTime.FillCursorRoundTrip: the reader accepts only the two time forms that are printed, with and without microseconds, and ASCII digits; the source's reader accepts further ISO forms and other Unicode digits.
- FillPages.WalkSeesEachOnce: rows are only ever inserted between pages, never updated or deleted; the presentation fields of a fill are dropped.
- Futures.BuildOrder: the note text and the field-by-field messages are reduced to one refusal per check; currencies and letters in `Positions` are ASCII.
- Options builders, intent translation, routing and gate checks, reconciliation, broker adapters, alerts, the API layer and the remaining read models: wiring or easy members.
