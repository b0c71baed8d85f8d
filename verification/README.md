# Wallet ledger: a verified model

This project models the money pipeline of the wallet service in Dafny and proves what it is relied on for.

* **Ledger** (`Sums`, `Ids`, `Ledger`, `WalletRepository`, `WalletService`). The `accounts` and `transactions`
  tables, the repository calls that change them inside begin / commit / rollback, and the three event handlers.
  The stored balance of an account is a cache of the signed sum of its completed rows. `Ledger` says what each
  call does as one atomic step; the class `WalletRepository` does it in place, statement by statement, with a
  database failure possible at each statement, and is proved against those steps.
* **Interleaving** (`Interleaving`, `LedgerSafety`, `LedgerRuns`, `Overlap`, `Undisturbed`). Unboundedly many
  handlers interleaved statement by statement under READ COMMITTED, with row locks held to commit, a fresh committed
  snapshot per statement, buffered writes, refused statements and crashes anywhere. Proved: exact balances,
  equivalence to the serial execution of the atomic steps, at-most-once settlement, no deadlock, bounded work, what a
  handler's outcome means, and that an undisturbed handler does what the sequential one does.
* **Outbox** (`Outbox`, `Relay`, `RelayGoroutines`, `Pollers`, `InFlight`). Claim, publish, retry with backoff,
  terminal failure, the drain loop, the 32-way parallel batch, several pollers with SKIP LOCKED, and the
  idempotency lock per (user, account).
* **Consumer, retry, paging, cache** (`Consumer`, `Retry`, `Pages`, `BalanceCache`).

Where the outside world decides, it is a parameter: the failing statement (`failAt`), the answers of Redis, the
publish outcome, write time and answers each goroutine of a pass meets, the turns of a consumer session, the
outcomes of a retried operation. A run is a sequence of actions, each enabled where it happens; the theorems are about
every such sequence.

Two properties one might expect are false of the code, and the model says exactly when they hold.

* *Redelivery keeps balances exact.* `UpdateTransactionStatus` has no guard on the old status. Three kinds of
  redelivery leave a wrong balance although no other delivery is under way: onto a failed row, which is completed
  without reconciliation; onto a completed row while the funds call is not answered, which then is marked failed; and
  of a completed withdrawal onto an account with a high balance. A fourth needs two deliveries that overlap: a handler
  whose funds call was refused marks the row failed after another handler has settled it.
  `Ledger.SetStatusExactness` gives the exact condition for the write. For one handler run that nothing overlaps, the
  handlers' contracts give it in terms of the old row and of which statements fail. For any number of overlapping
  handlers, `LedgerRuns.RunsExactIff` says that balances are exact at every point of a run if and only if every
  status write of the run is neutral, and `LedgerRuns.FreshRunsAreExact` that they are when a request is delivered
  again only after its earlier handlers ended and left its row absent or pending. Three lemmas in `Service` and
  `Overlap.OverlappingDeliveriesBreak` show concrete inputs.
* *A message is never lost.* A message whose handler fails is not retried: the next success commits past it.
  `Consumer.NothingLostIff` says that a session loses nothing if and only if no commit follows an unacknowledged
  message, and the contracts of `Consume` and `ConsumeSessions` say exactly which messages are lost over any number
  of sessions.

The lock theorems of `Relay` are about the passes of one relay process and the locks it gives back itself; what the
handler of a published row gives back is part of `InFlight`, and several processes sharing the table are part of
`Pollers`, where a row may be marked by a poller that did not claim it last. `Relay.ReleasesWhenFailed` and
`Relay.NeverFreedEarly` cover a defensive branch: an unencodable row would give its lock away even when marking it
failed was not answered, and nothing else does so. No row the service writes gets there, since payloads are decoded
from a JSON column and always encode again.

The comment on `ConsumeMessage` speaks of retrying; only fetching is retried, and the model follows the code.
Comments on `OutboxInsert` and the README of the repository describe a second, database-backed check when Redis
fails; it gives no exclusion and is not modelled.

## Model

| member | source | states |
|---|---|---|
| Ledger.SettleExactness | wallet-service/internal/repository/wallet_repository.go:139-172 | A successful funds call on a pending row keeps every stored balance equal to its ledger sum if and only if the accounts it reconciles include both ends of the row |
| Ledger.SettleDecides | wallet-service/internal/repository/wallet_repository.go:162-164 | On exact tables a row settles if and only if the debited account's stored balance covers it and the credited one stays within BIGINT |
| Ledger.SettleMeans | wallet-service/internal/repository/wallet_repository.go:198-246 | A funds call errs without a row, only reports a row that is not pending, and completes a pending one if and only if every visited account exists and its new sum is a balance it may have, refreshing exactly those balances |
| Ledger.SettleMovesMoney | wallet-service/internal/repository/wallet_repository.go:206-222 | A settled row moves exactly its two ends by its amount and leaves every other account record alone; a refused one changes nothing |
| Ledger.WriteRow | wallet-service/internal/repository/wallet_repository.go:145-157 | Writing one row shifts an account's sum by the difference of the row's contributions |
| Ledger.LegNonZero | wallet-service/internal/repository/wallet_repository.go:147-156 | A row counts for an account exactly when it is completed and the account is one of its ends |
| Ledger.Conservation | wallet-service/internal/repository/wallet_repository.go:144-157 | The balances of all accounts together equal completed deposits minus completed withdrawals |
| Ledger.SettleChangesTotalByNet | wallet-service/internal/repository/wallet_repository.go:179-246 | A committed transfer leaves the total of all balances unchanged; a deposit adds and a withdrawal removes its amount |
| Ledger.CreatePendingKeepsSums | wallet-service/internal/repository/wallet_repository.go:249-286 | Creating a pending row, or finding the id taken, moves no sum and leaves the accounts alone |
| Ledger.RedeliveryIsIdempotent | wallet-service/internal/repository/wallet_repository.go:272-308 | After an id has been created and settled, creating and settling it again changes neither ledger nor balances and reports the same row |
| Ledger.SetStatusExactness | wallet-service/internal/repository/wallet_repository.go:383-396 | The unguarded status write keeps the balances exact if and only if it neither completes an uncompleted row nor undoes a completed one |
| Ids.OrderedIsSymmetric | wallet-service/internal/repository/wallet_repository.go:184-188 | Both directions of a transfer visit the same two accounts in the same, strictly increasing order |
| Ids.LessIsLexicographic | wallet-service/internal/repository/wallet_repository.go:184-187 | The order of account ids is the lexicographic one of Go strings |
| Repository.WalletRepository.ReconcileBalance | wallet-service/internal/repository/wallet_repository.go:139-172 | One row written, with the account's ledger sum, exactly when all three statements answer, the sum is a non-negative BIGINT and the account exists; otherwise nothing is written and the reason is the right one |
| Repository.WalletRepository.SelectSum | wallet-service/internal/repository/wallet_repository.go:144-157 | The query returns the signed sum of the account's completed rows as the running transaction sees them |
| Repository.WalletRepository.CreatePendingTransaction | wallet-service/internal/repository/wallet_repository.go:249-286 | A valid request, known or with both accounts open, is accepted if and only if every statement it reaches answers, and a new id then has its pending row and nothing else changes; the database fault and the CHECK and foreign-key errors leave the ledger alone |
| Repository.WalletRepository.DepositFunds | wallet-service/internal/repository/wallet_repository.go:291-340 | All or nothing: the atomic settlement, or, if and only if a statement it reaches fails, the old tables and a database fault |
| Repository.WalletRepository.WithdrawFunds | wallet-service/internal/repository/wallet_repository.go:410-457 | All or nothing: the atomic settlement, or, if and only if a statement it reaches fails, the old tables and a database fault |
| Repository.WalletRepository.TransferFunds | wallet-service/internal/repository/wallet_repository.go:179-246 | All or nothing over both accounts: the atomic settlement in increasing id order, or the old tables if and only if a statement it reaches fails or the reconciliation refuses, also at the second account |
| Repository.WalletRepository.UpdateTransactionStatus | wallet-service/internal/repository/wallet_repository.go:383-408 | An answered write on an existing row succeeds and leaves exactly that row with the new status, whatever the old one was; otherwise nothing is written; the idempotency key goes back only after success |
| Repository.ReconcileTwo | wallet-service/internal/repository/wallet_repository.go:206-222 | Reconciling two accounts in turn refuses and writes what reconciling both together does |
| Service.SettleThenMark | wallet-service/internal/services/wallet-serice.go:155-161 | Settling a row and recording the outcome is all or nothing on a pending row whatever the database answers; on any row and with any answers, balances stay exact if and only if the status was not recorded, or the row was pending, or what is recorded is what the row already said |
| Service.AnsweredRun | wallet-service/internal/services/wallet-serice.go:151-161 | With every statement answered, creating, settling and marking a fresh id leaves the tables and the result that the stored balances decide |
| Service.HandledDecides | wallet-service/internal/services/wallet-serice.go:146-264 | That result is success if and only if amount, owner, accounts, stored balances and the 600000 limit allow it, kind by kind |
| Service.HandledMoves | wallet-service/internal/services/wallet-serice.go:146-264 | On success the amount moves between the request's accounts and nowhere else; otherwise no balance changes |
| Service.HandledRecords | wallet-service/internal/services/wallet-serice.go:146-264 | The request's row exists exactly if it passed the checks before its creation, completed on success and failed otherwise, with the request's own fields; every other row is as it was |
| Service.WalletService.Deposit | wallet-service/internal/services/wallet-serice.go:146-177 | On a fresh id: applied once and completed, or no sum changed; with every statement answered it ends as `Handled` says, in success if and only if the account exists and stays within BIGINT; whenever the row is created and the mark answered, the row says what is reported and the lock is given back; on any id and with any failing statements: exact balances if and only if it is not a redelivery that completes a failed row or, its funds call unanswered, fails a completed one |
| Service.WalletService.Withdraw | wallet-service/internal/services/wallet-serice.go:179-231 | As for deposits, in success if and only if the owner asks and the balance covers the amount and is at most 600000; a withdrawal that fails its checks touches nothing, and above the limit redelivery breaks exactness if and only if the row was completed and its status write is answered |
| Service.WalletService.Transfer | wallet-service/internal/services/wallet-serice.go:233-264 | As for deposits, over both accounts, in success if and only if both exist, differ, the debited one covers the amount and the credited one stays within BIGINT; a transfer to the same account touches nothing |
| Service.RedeliveryAfterFailureBreaks | wallet-service/internal/services/wallet-serice.go:151-161 | A concrete failed deposit whose redelivery leaves a wrong balance |
| Service.RedeliveryDuringFaultBreaks | wallet-service/internal/services/wallet-serice.go:155-159 | A concrete completed deposit whose redelivery, its funds call failing, leaves a wrong balance |
| Service.RedeliveredWithdrawalBreaks | wallet-service/internal/services/wallet-serice.go:203-206 | A concrete completed withdrawal whose redelivery leaves a wrong balance |
| Interleaving.GeneralInvKept | wallet-service/internal/repository/wallet_repository.go:179-286 | Every statement, refusal and crash of any handler keeps the lock discipline, the program points and at-most-once settlement, duplicates included |
| Interleaving.AppliedOnceKept | wallet-service/internal/repository/wallet_repository.go:198-206 | Only a commit that found its row pending adds a settlement, and no step makes a row pending again |
| LedgerSafety.CommitRefinesSettle | wallet-service/internal/repository/wallet_repository.go:206-243 | At commit an interleaved funds transaction does to the tables exactly what the atomic operation would do at that moment |
| LedgerSafety.RefusalRefinesSettle | wallet-service/internal/repository/wallet_repository.go:162-164 | When an interleaved reconciliation refuses, the atomic operation would refuse at that moment, too |
| LedgerSafety.OthersViewKept | wallet-service/internal/repository/wallet_repository.go:140-157 | No step of another handler moves a sum whose account this handler has locked |
| LedgerSafety.MoneyInvKept | wallet-service/internal/repository/wallet_repository.go:139-172 | Every step with a neutral status write keeps all balances exact and every buffered sum right |
| LedgerSafety.MoneyBreaksExactly | wallet-service/internal/repository/wallet_repository.go:385-387 | A step breaks exactness if and only if it is a status write that is not neutral |
| LedgerRuns.AppliedAtMostOnce | wallet-service/internal/repository/wallet_repository.go:198-206 | In every run, whatever is redelivered, retried, refused or re-marked, each id is settled at most once |
| LedgerRuns.StepRefinesAtomic | wallet-service/internal/repository/wallet_repository.go:179-457 | Each step leaves the committed tables alone or performs the one atomic operation it logs |
| LedgerRuns.NeutralRunsAreExact | wallet-service/internal/repository/wallet_repository.go:139-172 | In every run with neutral status writes all balances are exact and non-negative, money is conserved, and the tables are those of the serial execution in commit order |
| LedgerRuns.RunsExactIff | wallet-service/internal/repository/wallet_repository.go:383-396 | In any run, with redeliveries, overlaps, failures and crashes, the balances are exact at every point if and only if every status write is neutral |
| LedgerRuns.FreshRunsAreExact | wallet-service/internal/services/wallet-serice.go:146-264 | For handlers failing and crashing anywhere, each new handler of an id arriving only after all earlier ones of it crashed or returned and its row is absent or pending: the same, every sum is the initial one plus the settled requests, an id is settled at most once and then by one of its handlers, a handler that ended in error settled nothing, and one that ended well settled its request once |
| LedgerRuns.SettledBySomeone | wallet-service/internal/repository/wallet_repository.go:198-206 | In every run, an id that is settled was settled by one of its own handlers |
| LedgerRuns.HoldsSmaller | wallet-service/internal/repository/wallet_repository.go:259-270 | A handler that waits for a lock holds only locks smaller in the common order: transaction row, then accounts by increasing id |
| LedgerRuns.LocksTaken | wallet-service/internal/repository/wallet_repository.go:140-143 | A locking statement leaves the handler with the row it names locked beside those it had |
| LedgerRuns.ChainEnds | wallet-service/internal/repository/wallet_repository.go:184-222 | The wait-for chain of any blocked handler ends in a handler that can run |
| LedgerRuns.SomeoneCanRun | wallet-service/internal/repository/wallet_repository.go:184-222 | In every reachable state with an unfinished handler some handler can take its next statement |
| LedgerRuns.WorkIsBounded | wallet-service/internal/services/wallet-serice.go:146-264 | From any reachable state the handlers present take a bounded number of steps, however they interleave |
| LedgerRuns.LostAcknowledgementBreaks | wallet-service/internal/services/wallet-serice.go:155-159 | If a commit takes effect but is reported as an error, the error path always leaves a wrong balance |
| Overlap.OverlappingDeliveriesBreak | wallet-service/internal/services/wallet-serice.go:155-159 | A concrete run of two overlapping deliveries of one request, one statement refused, that ends with a wrong balance |
| Undisturbed.LimitHolds | wallet-service/internal/services/wallet-serice.go:203-209 | In every run, a withdrawal in its funds call, about to be marked completed, or ended well saw a balance of at most 600000 |
| Undisturbed.ExpectedKept | wallet-service/internal/services/wallet-serice.go:146-264 | No statement of an undisturbed handler changes the tables and the result it will come to |
| Undisturbed.RunsAlone | wallet-service/internal/services/wallet-serice.go:146-264 | A handler at any point of its program that nobody disturbs ends, within the statements left, in exactly those tables and that result |
| Undisturbed.UndisturbedHandler | wallet-service/internal/services/wallet-serice.go:146-264 | After any run with fresh ids, a newly arrived handler that nobody disturbs and no lock holds up ends, in at most 15 statements, exactly as the sequential handler |
| Undisturbed.RefusedHandler | wallet-service/internal/services/wallet-serice.go:151-161 | A statement refused before the row is inserted ends the handler without effect, one refused in the funds call makes it record a failed row, a refused status write records nothing; its locks and writes are gone |
| Outbox.DelayPositive | wallet-service/internal/repository/wallet_repository.go:593 | The backoff delay is between one second and the cap if and only if the 32-bit shift stays clear of the sign bit |
| Outbox.DelayNonDecreasing | wallet-service/internal/repository/wallet_repository.go:593 | Within 30 failures the delays never shrink |
| Outbox.TotalDelayBounded | wallet-service/internal/repository/wallet_repository.go:593 | The first k delays add up to at least k and at most 2^(k+1)-2 and k times the cap |
| Outbox.OutboxTable.MarkPublishFailure | wallet-service/internal/repository/wallet_repository.go:582-603 | Counts one more failure, schedules the next attempt after min(2^(retries + 1), cap) seconds, fails the row exactly at the last allowed failure, changes nothing else, and returns the status the row then has |
| Outbox.OutboxTable.Update | wallet-service/internal/repository/wallet_repository.go:567-580 | Overwrites one row's status, whatever it was |
| Outbox.OutboxTable.PendingGetBatch | wallet-service/internal/repository/wallet_repository.go:649-710 | Claims the oldest rows that are due and either pending or claimed more than 30 seconds ago, as many as there are up to the limit, each once; puts the other claims older than 30 seconds back to pending; leaves every other row, live claims included, as it was |
| Relay.ReleasesWhenFailed | wallet-service/internal/services/outbox_relay_service.go:138-143 | Processing goes on to free the lock exactly when the row has failed for good, if and only if it is not an unencodable row whose status write is unanswered |
| Relay.LockFreedTooEarly | wallet-service/internal/services/outbox_relay_service.go:158-163 | In one pass, an unencodable row whose failed mark is not answered gives its lock away while it is still claimed |
| Relay.GuardedKept | wallet-service/internal/services/outbox_relay_service.go:83-155 | One pass of one relay over any table keeps a row with a lock of its own holding it exactly until it has failed, if and only if, should it give up on the row, status write and release are both answered or both not |
| Relay.AlwaysGuarded | wallet-service/internal/services/outbox_relay_service.go:165-173 | Over any sequence of passes of one relay, whatever becomes of the other rows: a lock of its own is at every point held until the row has failed for good, and not longer, if and only if every pass that gives up on the row gets status write and release both answered or both not |
| Relay.NeverFreedEarly | wallet-service/internal/services/outbox_relay_service.go:165-173 | Over any sequence of passes of one relay, a lock of its own is never given away before its row has failed for good if and only if no pass finds the row unencodable, its failed mark unanswered and Redis answering |
| Relay.OnlyFailedFreed | wallet-service/internal/services/outbox_relay_service.go:134-149 | Over such passes without that case, every lock freed, own or shared, is that of a failed row |
| Relay.RefusedRowFailsLast | wallet-service/internal/repository/wallet_repository.go:588-597 | Over any sequence of passes, with reclaims and unanswered status writes, a new row whose publishes always fail counts exactly its recorded failures and has failed if and only if they reached the maximum |
| Relay.LockHeldUntilLastFailure | wallet-service/internal/services/outbox_relay_service.go:134-149 | In any sequence of passes, a new row with a lock of its own whose publishes always fail holds it, and is unfailed, if and only if fewer than the maximum of failures have been recorded |
| Relay.BatchUsesAttempts | wallet-service/internal/services/outbox_relay_service.go:99-154 | Every processed row whose status write is answered uses up at least one remaining attempt, whatever the outcome |
| Relay.DrainedTable | wallet-service/internal/services/outbox_relay_service.go:64-71 | After a short batch no row is pending and due as of the claim |
| Relay.OneMoreRow | wallet-service/internal/services/outbox_relay_service.go:101-151 | Processing one more row of a batch depends only on which rows are done, not on their order |
| Relay.OutboxRelay.RelayRow | wallet-service/internal/services/outbox_relay_service.go:104-149 | A sent row is published, an unencodable one failed, a refused one has one more failure recorded, if the write is answered; the lock goes exactly when the goroutine gives up and Redis answers |
| Relay.OutboxRelay.ReadAndRelay | wallet-service/internal/services/outbox_relay_service.go:83-155 | Claims one batch and leaves each of its rows, and the locks, as what its goroutine met demands: sent rows are published, rows whose write was unanswered stay claimed; an unanswered claim changes nothing |
| Relay.OutboxRelay.Drain | wallet-service/internal/services/outbox_relay_service.go:57-80 | Draining goes on through full batches and stops at the first short one or the first cancellation; it ends whatever the clock does once status writes are answered again, within remaining attempts / batch size + 1 further passes; it is a run of passes to which the lock theorems apply; rows are never lost, unfinished ones keep attempts, and after a short batch nothing due is left |
| RelayGoroutines.AnyInterleaving | wallet-service/internal/services/outbox_relay_service.go:99-154 | Every interleaving of the per-row goroutines ends in the table and the locks of the left-to-right method, with at most 32 of them inside at once |
| RelayGoroutines.SomeMove | wallet-service/internal/services/outbox_relay_service.go:99-106 | The semaphore never wedges: until all goroutines are through one can move, and a waiting one can enter if and only if fewer than 32 are inside |
| RelayGoroutines.MovesBounded | wallet-service/internal/services/outbox_relay_service.go:99-154 | A batch takes at most four moves a row in any interleaving |
| Pollers.NoDoubleClaim | wallet-service/internal/repository/wallet_repository.go:649-710 | Under any number of pollers a row is returned twice only if a recorded publish failure or a stale-claim reclaim put it back in between |
| Pollers.ReclaimIsOfStale | wallet-service/internal/repository/wallet_repository.go:658-665 | A reclaim puts back exactly the rows claimed more than 30 seconds ago |
| Pollers.WritesShow | wallet-service/internal/repository/wallet_repository.go:567-603 | A finished row has its final status and a failed publish is counted and recorded, in that row alone |
| Pollers.BatchWasDue | wallet-service/internal/repository/wallet_repository.go:666-680 | A returned batch respects its limit; each of its rows was due and pending, or reclaimed, and is now claimed; every other row is as it was or, if reclaimed, pending |
| Pollers.CommitReturnsUntaken | wallet-service/internal/repository/wallet_repository.go:672-676 | No row of a batch is still another poller's when the claim commits |
| InFlight.LockExclusion | wallet-service/internal/repository/wallet_repository.go:480-537 | In every run no two requests in flight share a key, and a key is in Redis exactly when a request in flight holds it |
| InFlight.LockLifetime | wallet-service/internal/repository/wallet_repository.go:402-405 | A request in flight gives its lock back by a failed insert, by recording its outcome, or by the relay after its row failed for good, and by no other step |
| InFlight.NextIsAdmitted | wallet-service/internal/repository/wallet_repository.go:484-500 | While a request is in flight its pair is refused, and once its outcome is recorded or its failed row given up the next is admitted |
| InFlight.AdmissionIsPerPair | wallet-service/internal/repository/wallet_repository.go:484-500 | With user ids free of underscores a request is admitted exactly when its own (user, account) pair has nothing in flight |
| InFlight.StaleReleaseExactness | wallet-service/internal/repository/wallet_repository.go:402-405 | A release by a handler that no longer owns the key is harmless exactly when nobody holds it |
| Ids.TrimRecoversUser | wallet-service/internal/services/outbox_relay_service.go:169 | Trimming the partition suffix from a stored key recovers the user id, for all strings |
| Ids.ReleaseIsExact | wallet-service/internal/services/outbox_relay_service.go:168-173 | The relay releases the stored key if and only if that key ends in the row's partition |
| Ids.KeyCollisions | wallet-service/internal/repository/wallet_repository.go:459-461 | Two (user, account) pairs share a key exactly when they are equal or one shifts an underscore of the other |
| Ids.KeyInjective | wallet-service/internal/repository/wallet_repository.go:459-461 | On user ids without an underscore distinct pairs have distinct keys |
| Consumer.PartitionConsumer.Consume | shared/events/kafka.go:173-228 | Position, committed offset and waits of a session follow from its turns; directly committed messages were handled or dead-lettered, dead letters were invalid, everything below the committed offset was dispatched, the offset never moves back, if every commit is answered everything acknowledged lies below it, and a message is newly lost if and only if the session commits past it unacknowledged and no delivery before acknowledged it |
| Consumer.PartitionConsumer.Deliver | shared/events/kafka.go:199-227 | One fetched message is dispatched once, dead-lettered if invalid and the DLQ answers, and, if the commit is answered, committed if and only if it was handled or dead-lettered |
| Consumer.PartitionConsumer.ConsumeSessions | shared/events/kafka.go:147-155 | Over any number of crashes and restarts the same holds: the committed offset is the one of the sessions in turn and never moves back, and a message is lost if and only if some session commits past it and neither it nor an earlier session acknowledged it |
| Consumer.CommittedPast | shared/events/kafka.go:199-227 | A message lies below the committed offset if and only if its own turn or a later one commits |
| Consumer.NothingLostIff | shared/events/kafka.go:199-227 | No unacknowledged message lies below the committed offset if and only if no commit follows an unacknowledged message |
| Consumer.AckedAreCommitted | shared/events/kafka.go:205-227 | If every commit is answered, every handled or dead-lettered message lies below the committed offset |
| Consumer.WaitOfStreak | shared/events/kafka.go:169-197 | The wait after k + 1 fetch failures in a row is one second doubled k times, at most thirty; a fetched message starts anew |
| Consumer.SessionEnds | shared/events/kafka.go:175-191 | A session goes on until the reader is closed or a wait is cancelled |
| Consumer.LostAreSkipped | shared/events/kafka.go:219-227 | The offsets below the committed one that nothing acknowledged are exactly those of failed messages a later commit passed over |
| Consumer.FailedMessageIsSkipped | shared/events/kafka.go:219-227 | Concretely: a failed message is committed past by the next success, and lost |
| Retry.DoublingClosedForm | shared/retry/retry.go:47-50 | Doubling and capping step by step is one power of two capped once, while no duration wraps around |
| Retry.WithBackoff | shared/retry/retry.go:31-61 | At most MaxRetries + 1 calls, all but the last failed; success stops, exhaustion returns the last error, a cancelled wait the context error; wait k is min(initial * 2^k, max); a negative MaxRetries calls nothing and reports success |
| Pages.Walk | wallet-service/internal/services/wallet-serice.go:266-314 | Following tokens from page 0 yields every row of the account exactly once and in order, in total / size + 1 requests, for every page size on the wire |
| Pages.AccountRowsAreItsRows | wallet-service/internal/repository/wallet_repository.go:342-349 | The walked rows are exactly those that leave or enter the account, incoming transfers included, each as often as it occurs |
| Pages.AccountRowsInOrder | wallet-service/internal/repository/wallet_repository.go:342-349 | ... in the order of the ledger |
| Pages.MalformedToken | wallet-service/internal/mapping/mapper.go:93-99 | A token that begins with neither a digit nor a sign names page 0 |
| Pages.ListTransactions | wallet-service/internal/services/wallet-serice.go:266-314 | The page has the rows from page times size on, at most size of them and as many as there are, and a token for the next page exactly when it is full |
| Pages.TokenRoundTrip | wallet-service/internal/mapping/mapper.go:93-99 | The token of a page reads back as that page, clamped to 64 bits as the parser does |
| Pages.SliceExtends | wallet-service/internal/repository/wallet_repository.go:342-349 | Consecutive pages are adjacent, and a page that is not full is the last |
| BalanceCache.CacheClient.TransactionIdempotencyCheck | shared/cache/client.go:117-132 | True exactly when the key was absent or expired, after which it is present; a Redis error yields no answer and changes nothing |
| BalanceCache.CacheClient.GetOrStoreAccountBalance | shared/cache/client.go:145-162 | A live entry wins over the amount read; otherwise the amount is stored with the TTL; a Redis error of either command yields no balance and stores nothing |
| BalanceCache.KeysApart | shared/cache/client.go:47-59 | Locks and cached balances never collide, and distinct ids have distinct keys |
| BalanceCache.BoundedStaleness | wallet-service/internal/services/wallet-serice.go:125-131 | Every balance returned was committed at some moment no more than the TTL plus the call's own read-to-cache delay earlier, in any run of reads, expiries, evictions and Redis failures |
| BalanceCache.CachedUntilExpiry | shared/cache/client.go:145-162 | While Redis answers and the key is not evicted, a cached balance is what every call gets until it expires |
| BalanceCache.MissStores | shared/cache/client.go:157-161 | A call without a live entry answers with what it read and stores it for the TTL |

## Left out

- Foreign-key share locks and waits on conflicting inserts: the insert of a pending row and its commit are one step.
- Writes and commits whose outcome the client cannot know: one that is not answered did not happen (LedgerRuns.LostAcknowledgementBreaks says what happens otherwise).
- Timestamps and detail messages of ledger rows, `published_at` and `error_message` of outbox rows.
- OutboxInsert's database-backed fallback when Redis errors: it gives no exclusion.
- Liveness of the idempotency lock: handlers that return early keep it until it expires; expiry is not modelled.
- Shift counts of 32 and more in the backoff: taken modulo 32, as common hardware does.
- Pages.Walk: assumes fewer than 2^31 pages, since page numbers travel as 32-bit integers, and one order for all its requests: a ledger that does not change under the walk, and, as the query orders by creation time alone, no two rows of the account created at the same time (such rows can repeat or be missed).
- Partition rebalancing between several consumers, and Kafka's own delivery: one consumer per partition, sessions in sequence.
- Several relay processes with their locks: `Pollers` has several but no locks, `Relay` the locks of one.
- InvalidateAccountBalance is never called by the service; evictions of any key cover it.
- JSON and protobuf encoding, UUIDs, logging, connection handling.
- OpenAccount's three-per-currency limit, authentication, the API gateway.
