# Invariant Core: a verified model

Invariant Core moves money between accounts of a double-entry ledger over an external payment rail.
This project models its transfer saga, its ledger, its reconciliation matcher and its idempotency keys in Dafny,
and proves what they promise.

**The transfer saga.** The switch keeps a lifecycle row and outbox events per transfer (one database
transaction per status change), and posts ledger legs in another service. `Saga` is the whole protocol as a
labelled machine: a label is one atomic effect (a commit, a ledger post, a rail answer, a crash), handlers in
flight are activations with their own stale load, verdict and program counter, and any sequence of labels is a
run. So duplicate deliveries, callbacks racing the poller, lost replies after a commit, crashes, lost outbox
rows, recovery sweeps and corrective requeues interleave freely. `SagaLocal`, `SagaLegs`, `SagaInvariant` and
`SagaSteps` prove the invariant that every label keeps; `SagaMoney`, `SagaTheorems`, `TransferEffect`,
`RunLaws` and `CallbackContract` draw the results. `SwitchStore`, `SwitchDriver`, `OutboxPoller`, `Recovery` and `Intake` are the same system in its
imperative form: classes over rows and events whose every statement is one label of the machine (the ghost field
`trail`), so whatever holds of runs holds of them, and on top of that they terminate and make progress
(`LedgerHealth`, `DrainProgress`, `DeliveryEffect`).

**The ledger.** `Ledger` is one serializable post as a function on books, with the constraints in the order the
database applies them and int64 wrap-around written out; `LedgerProofs` proves what any history of posts keeps;
`LedgerService` is the service's loops and in-place writes, proved equal to the function.

**The reconciliation matcher.** `Reconcile` says what each reference deserves; `Matcher` is the one-pass indexed
algorithm with its unordered map iteration; `ReportOrder` is the stable sort; `ReportFields` says what a report holds
by fields and positions; `MatchTheorems` says on what the
report depends; `Fixture` and `Recall` generate paired inputs and prove the matcher recovers what was injected.

**Idempotency keys.** `Idempotency` is reserve, inspect, takeover, inner create and complete under concurrent
callers, crashes and lease expiry, again as a labelled machine; `IdempotentService` is its imperative form.

`Prelude` holds optional values, wrapping int64 and finite sums. `dafny verify dfyconfig.toml` checks everything.

## What is assumed of the outside

The results about every run hold for the states `Saga.Reachable` in one of three worlds.

- `Arbitrary`: nothing is assumed. The reversal-path results and outbox coverage hold here.
- `Honest(rail)`: (R1) every definitive answer to a send, a status query or in a callback agrees with one true
  outcome per reference; (R2) references are not reused, and a callback comes only for a reference that was sent;
  (R3) source and destination differ from `SETTLEMENT`, and the chart of accounts is fixed.
- `Constant(rail)`: besides, the rail repeats its answers, as `internal/mockrail/server.go:63-101` does, every
  status query is answered (unknown at worst, never a transport error), and the rail calls back only to confirm a
  successful send.

(R4) A customer's key never looks like `<transfer id>:<leg>`: the type `Ledger.Key` keeps the two apart. (R5) Only
the switch posts to the ledger: in the machine, only posting steps touch the book. (R1) and (R2) are needed:
`CallbackContract.SuccessCallbackNeedsTheRail` says of every reachable state exactly when a success callback outside
that contract can break the legs, then or later: unless the transfer is terminal, or debited or in doubt with a rail
that did settle it, or the ledger refuses the settle leg. `CreditBeforeDebit` breaks them from an empty
database.

Progress results (`Drain`, `Round`, `TwoRounds`, `CloseTheLoop`) say which part needs `Faultless` (calls succeed),
`AlwaysDue` (live events are due) and `Healthy` (twice the sum of all amounts fits a BIGINT, two legs a transfer, so
that the ledger's sums cannot overflow). Termination of `Drain` needs none of them. Accounts need not exist: a
transfer whose debit was taken and whose rail settled, but whose destination is not on the chart, can never be
settled or reversed (`Blocked` while it waits), and the results say so of exactly these.

## Where the code and its documentation differ

- `docs/ARCHITECTURE.md:87` sends a timeout to reversal. The code holds it in doubt and asks the rail; the model does that.
- `internal/switch/idempotent.go:26` says a failed key lets a retry proceed. It does not: the failed row is
  replayed and its missing response fails to decode. `HopelessExactly` says which keys can never succeed again;
  `FailedKeyHidesItsTransfer` is a run that ends in one whose transfer exists, `AbandonedKeyIsLost` in one without.
- `internal/reconcile/matcher.go:137` says the report does not depend on row order. It does when a reference is
  reused; `OrderFreeExactly` gives the exact condition, `EarlierRecordIsHidden` a record that goes unreported.
- `internal/reconcile/matcher.go:123` promises a symmetric tolerance. Negating the smallest duration keeps it negative,
  so some instants more than 292 years apart pass; `WindowIsExact` gives the exact condition.
- `internal/switch/recovery.go:10` speaks of transfers with no live event. A live event of another kind hides a
  transfer whose own event was lost: `OneRoundIsNotEnough` reaches such a state, `OneRoundFallsShort` runs a round in
  it, and `Round` says exactly whom one round finishes.

## Model

| member | source | states |
|---|---|---|
| SagaTheorems.ZeroStrandedDebits | internal/switch/driver.go:128-301 | In every state an honest run reaches, each transfer's legs fit its status: settled has exactly debit and settle, reversed exactly debit and reversal, failed none, and no other combination exists |
| SagaTheorems.JournalHoldsLegs | internal/switch/ledgerclient.go:36-98 | Whatever the rail does, every posting is a settled two-entry leg of a transfer, with its reference, amount and currency: source to SETTLEMENT, SETTLEMENT to destination, or, as a reversal with a parent, SETTLEMENT to source |
| SagaTheorems.EachLegOnce | internal/switch/ledgerclient.go:58-61 | No leg is ever posted twice |
| SagaTheorems.ReversalPathIsSafe | internal/switch/driver.go:241-261 | Whatever the rail does, a reversal leg exists only under reversal_pending or reversed (so never under manual review), beside the debit leg, and has exactly it as its parent |
| SagaTheorems.DebitLegIsNeverMissing | internal/switch/driver.go:249-251 | Whatever the rail does, no handler ever stands at the missing-debit-leg error |
| SagaTheorems.OneReversalPerParent | db/schema.sql:46-48 | Whatever keys are used, no transaction is reversed twice |
| SagaTheorems.OutboxCoverage | internal/switch/store.go:184-250 | While no row is deleted, a non-terminal transfer always has an unpublished event of exactly the kind that drives its status |
| SagaTheorems.SuspenseConservation | internal/switch/ledgerclient.go:38-56 | After every step SETTLEMENT holds exactly the amounts of transfers with a debit leg and neither a settle nor a reversal leg |
| SagaTheorems.SuspenseIsManualReview | internal/mockrail/server.go:63-101 | With a rail that repeats itself, once all transfers are terminal SETTLEMENT holds exactly the total under manual review |
| SagaSteps.ApplyKeepsInv | internal/switch/driver.go:109-301 | Every label, in every world, keeps the invariant that ties statuses, recorded debit ids, journal legs, events and all in-flight handlers |
| SagaSteps.StepActKeepsInv | internal/switch/driver.go:128-301 | The same for one atomic effect of any handler, however stale its load |
| SagaSteps.CallbackKeepsInv | internal/switch/driver.go:269-301 | A callback joining at any moment keeps it too |
| SagaSteps.CreateKeepsInv | internal/switch/store.go:95-135 | So does a new transfer, whose leg keys are unused |
| SagaSteps.FinishKeepsInv | internal/switch/outbox/poller.go:122-156 | Publishing, rescheduling or parking an event keeps it: a published event's status has been left behind |
| SagaLocal.PostKeepsView | internal/switch/driver.go:161-180 | One leg more keeps a transfer consistent: a settle leg only beside a debit leg and a true success, a reversal only with the debit leg as parent |
| SagaLocal.MarkKeepsView | internal/switch/store.go:206-281 | A mark by any handler, however late, keeps it consistent and only adds to what is recorded |
| SagaLocal.ActOkIsStable | internal/switch/driver.go:153-180 | What one handler knows stays true while others work on the same transfer |
| SagaMoney.ApplyKeepsMoney | internal/switch/ledgerclient.go:63-98 | Every label keeps suspense and journal volume equal to their sums over transfers |
| SagaMoney.ApplyKeepsJournaled | internal/switch/ledgerclient.go:63-98 | Every label leaves the journal made of legs of transfers only, with the leg's accounts, amount and parent |
| TransferEffect.TerminalEffect | internal/switch/ledgerclient.go:36-56 | On every account, a settled transfer's postings net to its amount from source to destination, a reversed or failed one's to zero |
| TransferEffect.StatusesOnlyAdvance | internal/switch/statemachine.go:30-51 | In every run statuses only move along the edges and terminal ones never change |
| CallbackContract.SuccessCallbackNeedsTheRail | internal/switch/driver.go:269-286 | For a success callback in any state an honest run reaches, whether true and sent for or not: every honest continuation keeps the transfer's legs fitting its status if and only if it is terminal, or debited or in doubt with a rail that settled it, or the ledger refuses the settle leg |
| CallbackContract.BrokenLegsAreReachable | internal/switch/driver.go:275-290 | Whenever that condition fails, a run without the rail's contract reaches a state with broken legs |
| CallbackContract.CreditBeforeDebit | internal/switch/driver.go:277-281 | From an empty database: a callback before the debit leaves a pending transfer whose destination is credited and whose source is not debited |
| StateMachine.ReachesIsClosure | internal/switch/statemachine.go:30-36 | Reachability is the least preorder over the edges, every edge lowers the rank, no status is re-entered |
| SwitchStore.Switch.Advance | internal/switch/store.go:184-204 | The row changes and its event is appended together, by fields, if and only if the edge exists; reports which |
| SwitchStore.Switch.Mark | internal/switch/store.go:206-281 | One mark transition is exactly one step of the machine, and touches no posting; acknowledged, it leaves the target status, the debit id and the new status's live event where the edge exists, and nothing changed where it does not |
| SwitchStore.Switch.CreatePending | internal/switch/store.go:95-135 | A request is accepted if and only if its texts are there, its currency is NGN and its amount positive; it then adds exactly the pending row with its debit_requested event, otherwise nothing |
| SwitchStore.Switch.LoadRow | internal/switch/store.go:137-147 | The handler sees the row as it is and goes on only if the status is the one its event drives |
| SwitchStore.Switch.CallLedger | internal/switch/ledgerclient.go:63-98 | A leg is posted as the ledger's post function says; a lost reply may leave it posted |
| SwitchStore.Switch.CallSend | internal/switch/driver.go:161-179 | What the call meets decides between settling, reversing, holding in doubt and a transport error |
| SwitchStore.Switch.QueryStatusWithRetry | internal/switch/driver.go:218-233 | A definitive verdict is the answer of one of the at most configured number of calls, all earlier ones faulted or unknown; unknown means a cancelled wait or that all of them were; rows untouched |
| SwitchStore.Switch.Fail | internal/switch/outbox/poller.go:135-156 | The event has one more attempt and is dead exactly if it was or the claimed attempts plus one reach the cap; nothing else of it, no other event and no transfer changes |
| RunLaws.ManualOnlyAfterSilence | internal/switch/driver.go:218-233 | In any world and interleaving, a handler that stands at manual review has met as many inconclusive query outcomes as attempts were allowed, or a cancelled wait |
| RunLaws.DeadLettersAreSpent | internal/switch/outbox/poller.go:135-156 | In every state any run reaches, a dead-lettered event has used up its attempts |
| SwitchStore.Switch.ValidIsGood | internal/switch/driver.go:109-301 | Whatever the imperative switch did, its state has the invariants of honest runs |
| SwitchStore.Switch.Resume | internal/switch/recovery.go:10-13 | A process takes up the tables a crash left, in any state with those invariants, without any handler |
| SwitchDriver.Driver.Handle | internal/switch/driver.go:109-122 | An event's handler performs steps of its own activation only and stands finished at the end; without faults and with room in the sums it succeeds, or its transfer is blocked for want of an account |
| SwitchDriver.Driver.HandleDebitRequested | internal/switch/driver.go:128-147 | As above; success leaves a pending transfer debited if its source and SETTLEMENT are accounts, failed if not, and any other as it was |
| SwitchDriver.Driver.HandleDebited | internal/switch/driver.go:153-180 | As above; success leaves a debited transfer settled, awaiting reversal or in doubt as the rail's answer to that very call says, and any other as it was |
| SwitchDriver.Driver.HandleInDoubt | internal/switch/driver.go:187-213 | As above; success settles or reverses an in-doubt transfer exactly if a status query learnt so within the allowed calls, and holds it for review otherwise |
| SwitchDriver.Driver.HandleReversal | internal/switch/driver.go:241-261 | As above; success leaves a transfer awaiting reversal reversed and any other as it was; the recorded debit leg is always there |
| SwitchDriver.Driver.DebitLegIsRecorded | internal/switch/driver.go:249-251 | No handler ever stands at the missing-debit-leg error |
| LedgerHealth.LegIsTaken | internal/switch/driver.go:136-147 | With room in the sums the ledger takes every leg the saga ever posts, except a debit it refuses for good, and a settle leg to an account that does not exist |
| LedgerHealth.BlockedForGood | internal/switch/driver.go:166-172 | A transfer the rail settled with no account to credit is never settled or reversed; while it waits, its debit leg is its only leg |
| LedgerHealth.StepKeepsHealth | internal/switch/driver.go:128-301 | No handler step spoils those conditions |
| DrainProgress.AdvanceLowersMeasure | internal/switch/store.go:208-250 | A status change gives up at least as much rank as its follow-up event adds work |
| DeliveryEffect.DeliveryKeepsTracks | internal/switch/outbox/poller.go:113-129 | A delivery that succeeds, or fails on a blocked transfer, keeps every driven transfer driven, finished or blocked, and leaves all others exactly as they were |
| OutboxPoller.Poller.Claim | internal/switch/outbox/poller.go:105-121 | At most a batch of distinct due live events, oldest first; a due live event is left out only if the batch is full and all of it is older |
| OutboxPoller.Poller.DeliverOne | internal/switch/outbox/poller.go:113-129 | The event ends published, or with one more attempt and dead exactly at the cap, and every other event of before is unchanged; without faults only a blocked transfer fails; every delivery strictly lowers the work left |
| OutboxPoller.Poller.Tick | internal/switch/outbox/poller.go:104-131 | Every event of the batch, and no other, has its delivery recorded; the work left drops by at least their number; a failed claim changes nothing |
| OutboxPoller.Poller.Drain | internal/switch/outbox/poller.go:88-102 | Terminates for every environment and fails only with a claim; without faults no live event remains, exactly the transfers a live event was driving are finished or blocked for want of an account, all others keep their status |
| Recovery.Recoverer.Recover | internal/switch/recovery.go:27-47 | Re-enqueues exactly the stuck rows; exactly the transfers without any live event become driven |
| Recovery.Recoverer.ListStuck | internal/switch/postgres/queries/transactions.sql:45-57 | Returns exactly the transfers at one of the four resumable statuses none of whose events is unpublished and not dead |
| Recovery.Round | internal/switch/recovery.go:10-47 | After one round of recover and drain a transfer is terminal, or blocked for want of an account, if and only if it was so before, or was driven, or had no live event at all; all others keep their status |
| Recovery.TwoRounds | internal/switch/recovery.go:10-47 | After two rounds, from any state with the invariants of honest runs, whatever rows were lost or parked: a transfer is terminal if and only if it is held for review or it is not the case that its debit was acceptable, its rail settled and its destination does not exist; one that is not terminal has its amount in suspense |
| Recovery.Restart | internal/switch/recovery.go:10-47 | The same for a process that starts on the tables of any state an honest run can reach |
| Recovery.OneRoundIsNotEnough | internal/switch/postgres/queries/transactions.sql:45-57 | From an empty database an honest run reaches a debited transfer with every account present that is neither driven nor silent: the event of its status is lost, that of the old one still live |
| Recovery.OneRoundFallsShort | internal/switch/recovery.go:27-47 | A fault-free round from that state leaves the transfer debited |
| Intake.CreateAndDebit | internal/switch/orchestrator.go:49-67 | A request is accepted if and only if its texts are there, its currency is NGN and its amount positive; only the new transfer is touched, by its creation and the steps of one inline handler; without faults it is debited if its source and SETTLEMENT are accounts, failed if not |
| Intake.HandleRailCallback | internal/switch/driver.go:269-301 | Success settles a transfer unless it is held for review and leaves a settle leg; a decline moves a debited or in-doubt transfer, and no other, to reversal_pending with a live reversal event; unknown changes nothing; a terminal transfer is untouched; without faults it is processed unless there is no account to credit |
| Intake.RequeueReversal | internal/switch/store.go:289-304 | Appends one reversal event exactly when the transfer awaits reversal; no status, no ledger line changes |
| Intake.CloseTheLoop | internal/switch/store.go:283-304 | One requeue and a drain reverse a stranded transfer and return every account's contribution from it to zero |
| LedgerProofs.CommitGateIsExact | internal/ledger/service.go:145-163 | The wrapped check and the exact trigger accept exactly the balanced sets, and the wrapped check rejects no balanced one |
| LedgerProofs.WrappedCheckAloneIsNotEnough | internal/ledger/transaction.go:32-42 | One-sided entries summing to 2^64 pass the wrapped check and fail the trigger |
| LedgerProofs.DerivedBalanceIsExact | internal/ledger/account.go:33-38 | The balance of two in-range sums of positive amounts never overflows |
| LedgerProofs.BalanceByType | internal/ledger/account.go:21-38 | By account type, the journal's balance is debits less credits or credits less debits, exactly |
| LedgerProofs.CachedBalances | internal/ledger/account.go:21-38 | After any history of posts, every account in use has that balance in the cache |
| LedgerProofs.LedgerConservation | internal/ledger/service.go:65-141 | After any history of posts, debit-normal and credit-normal accounts hold the same total, each currency balances, the cache agrees with the journal, and no parent is reversed twice |
| LedgerProofs.PostKeepsSound | internal/ledger/service.go:65-141 | One post, accepted, refused, aborted or replayed, keeps all of the book's invariants |
| LedgerProofs.CommitKeepsCache | internal/ledger/service.go:187-203 | Refreshing only the touched accounts keeps every account's cached balance equal to the journal's |
| LedgerProofs.PostEffect | internal/ledger/service.go:86-140 | A post changes nothing or appends one transaction under a fresh key, and success names the key's transaction |
| LedgerProofs.RetriesDoNotShow | internal/ledger/retry.go:38-65 | Up to four serialization aborts leave the answer and the book as with none; from five on a valid request is refused as exhausted |
| LedgerProofs.CommitsExactly | internal/ledger/service.go:86-125 | When an attempt commits, meets an unknown account or meets a unique violation, each by fields of the request and the book |
| LedgerProofs.RecordedAsAsked | internal/ledger/service.go:75-105 | A changed book is the old one with one transaction that has every field of the request, an empty status recorded as pending |
| LedgerProofs.TerminalIsForGood | internal/switch/driver.go:136-144 | A terminal refusal is the answer to every later try of the same request, whatever was posted in between |
| LedgerProofs.RepeatsLeaveNoTrace | internal/ledger/service.go:127-140 | A history and the same history without later repeats of committed keys build the same book |
| LedgerProofs.OneKeyOneTransaction | db/schema.sql:32 | All successes under one key, anywhere in a history, return the same transaction |
| LedgerProofs.CommittedKeyIsStable | db/schema.sql:32 | A committed key keeps its transaction for ever |
| LedgerService.Totals | internal/ledger/transaction.go:32-42 | The loop's wrapping sums are the exact sums wrapped once |
| LedgerService.ValidateEntries | internal/ledger/service.go:145-163 | The error of the first faulty entry, currency before amount; no error if and only if there are two entries or more, one currency, positive amounts and equal wrapped sums |
| LedgerService.ResolveAccounts | internal/ledger/service.go:167-183 | Exactly the referenced accounts, or the code of the first entry whose account is unknown |
| LedgerService.Service.UpdateCachedBalances | internal/ledger/service.go:187-203 | The same cache in whatever order the accounts are visited; fails exactly if some sum does not fit |
| LedgerService.Service.TryPost | internal/ledger/service.go:88-125 | Commits all or nothing, as the attempt function says |
| LedgerService.Service.PostTransaction | internal/ledger/service.go:65-141 | The retried, deduplicated post equals the function on books and keeps the book sound |
| LedgerService.Service.GetBalance | internal/ledger/balance.go:17-31 | Debits less credits of the journal for an asset or expense account, credits less debits for a liability, equity or revenue one, without overflow; also the cached balance of every account in use |
| Reconcile.WindowIsExact | internal/reconcile/matcher.go:126-135 | The saturating, wrapping check equals the intended tolerance if and only if the instants are not too far apart in the one direction, nor in the other under the largest window |
| Reconcile.FarFutureIsWithin | internal/reconcile/matcher.go:126-135 | Instants 2^63 nanoseconds and more apart that pass every window one way and fail the other |
| Reconcile.KeyLessIsTotal | internal/reconcile/matcher.go:137-149 | The report order is a strict total order on category name, reference and difference |
| ReportOrder.SortExceptions | internal/reconcile/matcher.go:139-149 | The result is sorted, and exceptions with equal keys keep their order |
| ReportOrder.SortedIsUnique | internal/reconcile/matcher.go:137-149 | Two sorted reports with the same exceptions per category and reference are equal |
| Matcher.Match | internal/reconcile/matcher.go:39-121 | Fails exactly if a read fails; otherwise, by fields and positions of both inputs: exactly the exceptions that are due, in order, and as many matches as references whose last internal and first external record agree in amount, currency and time; both sides' records are accounted for without remainder |
| ReportFields.ReportedIsDue | internal/reconcile/matcher.go:39-135 | A report holds an exception if and only if it is due: the last internal and first external record differ in amount, currency or time, an external reference has no internal record, an external record is a repeat, or an internal one is unanswered, then pending a reversal exactly if a failed or timed-out transfer's has not settled or reversed |
| ReportFields.MatchedArePaired | internal/reconcile/matcher.go:84-99 | The matched references are those whose last internal and first external record tell the same |
| ReportFields.SortedInOrder | internal/reconcile/matcher.go:137-149 | Mismatches, duplicates, pending reversals, unmatched external, unmatched internal; then references by their first difference; then differences, upward |
| Matcher.BuildIndex | internal/reconcile/matcher.go:39-51 | The index holds the last non-reversal record of each reference, the set every reference with a settled reversal |
| Matcher.StreamExternal | internal/reconcile/matcher.go:53-103 | Each external record adds what the specification adds, class by class, and the running counts add up |
| Matcher.SweepIndex | internal/reconcile/matcher.go:105-117 | The left-over entries add their exceptions, whatever the iteration order |
| MatchTheorems.ReportIsUnique | internal/reconcile/matcher.go:106-121 | The inputs determine the whole report |
| MatchTheorems.OrderFreeExactly | internal/reconcile/matcher.go:137-149 | Every permutation of both inputs gives the same exceptions if and only if repeated references repeat equal records (or all agree with the external one) |
| MatchTheorems.MatchIgnoresOrder | internal/reconcile/matcher.go:137-149 | Under that condition the report, matched count included, is the same |
| MatchTheorems.DistinctIsOrderFree | internal/reconcile/matcher.go:51 | Distinct internal references and copied external ones satisfy it |
| MatchTheorems.EarlierRecordIsHidden | internal/reconcile/matcher.go:51 | A reused internal reference loses a pending reversal in one order and reports it in the other |
| MatchTheorems.SettledReversalCloses | internal/reconcile/exceptions.go:43-50 | A settled reversal added anywhere turns its reference's pending reversal into an unmatched internal record and changes nothing else |
| Fixture.RefsAreDistinct | internal/reconcile/fixture/fixture.go:72-136 | Generated references never collide, within or across families |
| Fixture.SurchargeShows | internal/reconcile/fixture/fixture.go:83-94 | A mismatched pair comes out equal if and only if its index plus one is a multiple of 2^62 |
| Fixture.FixtureIsOrderFree | internal/reconcile/fixture/fixture.go:138-142 | Generated inputs may be shuffled freely |
| Fixture.Deserved | internal/reconcile/fixture/fixture.go:72-136 | Each generated pair deserves exactly its own category, or a match |
| Recall.Generator.AddRecords | internal/reconcile/fixture/fixture.go:72-136 | Each family's pair appears on the sides it should, amounts and times included |
| Recall.Generate | internal/reconcile/fixture/fixture.go:53-143 | The shuffled sides and the expectations, for any draws and shuffles |
| Recall.FullRecall | internal/reconcile/fixture/fixture.go:53-143 | For any counts, draws, shuffles and tolerant window the matcher recalls exactly the injected references, categories and matches, if and only if there are fewer than 2^62 per category |
| Recall.GenerateAndMatch | internal/reconcile/recall_test.go:29-75 | Generator and matcher agree on matches, on every category's count and on every reference |
| Idempotency.AtMostOneTransferPerKey | internal/switch/idempotent.go:41-92 | Over all interleavings, crashes and lease expiries: the inner create runs at most once per key, and all successful replies for a key name one transfer and one fingerprint |
| Idempotency.OtherFingerprintNeverRuns | internal/switch/idempotency.go:101-103 | A different fingerprint never reaches the inner service, now or later, nor gets a successful reply |
| Idempotency.HopelessExactly | internal/switch/idempotency.go:104-143 | An idle reserved key can never succeed again if and only if it was marked failed, or is in progress without a transfer |
| Idempotency.FailedKeyHidesItsTransfer | internal/switch/idempotent.go:71-78 | A run from an empty database after which the key's transfer exists, the key is failed, and whatever follows no caller ever gets a successful reply for it |
| Idempotency.AbandonedKeyIsLost | internal/switch/idempotency.go:141-142 | A run after which the key is in progress without a transfer, and nothing that follows makes one or succeeds |
| Idempotency.ApplyKeepsInv | internal/switch/idempotency.go:82-156 | Every statement of every call keeps the ownership of keys and the binding of transfers |
| Idempotency.ReserveKeepsInv | internal/switch/postgres/queries/idempotency.sql:1-9 | The insert decides ownership once |
| Idempotency.RunKeepsInv | internal/switch/store.go:95-135 | The owner's create is the key's first, and binds the key's only transfer even when it then reports an error |
| IdempotentService.Service.ReserveKey | internal/switch/idempotency.go:82-143 | The outcome is where the machine has the call, and exactly what the key row, the transfers table, the lease and the faults of its one to three statements decide; only a free key is written |
| IdempotentService.Service.Examine | internal/switch/idempotency.go:96-143 | Conflict, replay, in progress or takeover, as the row and the lease say |
| IdempotentService.Service.InnerCreate | internal/switch/orchestrator.go:49-67 | Runs once more on record, binding the key if it was free and the statement applied; an error may follow the commit |
| IdempotentService.Service.CompleteKey | internal/switch/idempotency.go:145-156 | Writes the outcome on the owned row and nothing else, unless the statement was not applied |
| IdempotentService.Service.Create | internal/switch/idempotent.go:41-92 | One whole call under any faults: its exact reply, key row and binding. Without any, a new key gets its transfer, a changed fingerprint a conflict, a succeeded key its transfer, a failed key an error, a key in progress its transfer once the lease is over and it exists; the inner service runs for a new key only |

## Left out

- OutboxPoller.Poller.DeliverOne: bookkeeping writes succeed in the class; failed ones are labels of the machine (`Finish` unrecorded), where the safety results cover them.
- OutboxPoller.Poller.Claim: a failing claim query is `Tick`'s; several pollers and the wall clock are abstracted to which live events are due.
- OutboxPoller.Poller.Tick: bookkeeping writes succeed, as in `DeliverOne`.
- SwitchDriver.Driver.Handle: metrics, logging and the error for an unknown event type are not modelled; a handler runs without others in between in the class, while the machine interleaves them.
- LedgerService.Service.PostTransaction: serializable isolation is assumed, so an aborted attempt leaves no trace; metadata and account currency are not modelled.
- Intake.HandleRailCallback: one callback at a time, looked up by reference and decided in one step; the machine interleaves everything after that.
- Recovery.TwoRounds: needs that twice the sum of all amounts fits a BIGINT; overflowing sums make the ledger refuse legs.
- Matcher.Match: instants are exact integers of nanoseconds, strings are compared by code point, which is their UTF-8 byte order.
- Recall.Generate: the seeded generator is any sequence of draws and any shuffle; negative counts, which generate nothing, are not distinguished from zero.
- IdempotentService.Service.Create: fingerprints are opaque texts, so what is proved is per fingerprint; the stored response is known by its transfer.
- Lease and backoff durations, and the exponential backoff arithmetic: nothing here depends on how long a wait is.
- The hash behind the mock rail's choices: an arbitrary outcome per reference.
- Rich machine states and their mapping to statuses, HTTP and gRPC surfaces, CSV, JSON and timestamp adapters, report rendering and storage of reconciliation runs: they pass values through.
- Account creation, multi-currency transfers and PostgreSQL's own implementation of isolation, locks and constraints.
