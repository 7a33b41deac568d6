# The wallet's money engine, and what surrounds it

A Dafny model of a Nigerian wallet application's API: wallets, transaction rows, the double-entry
journal, deposits and withdrawals through Paystack, reversals, staff adjustments, the Redis wallet
locks, limits, the transaction PIN, statements, stats, pages and spending insights. The guarantees are
proved for all inputs, all runs or all interleavings. Where the code falls short of one there are two
things: the exact condition under which it holds, again for all inputs, and one concrete run or state the
code can reach in which it does not. `dafny verify dfyconfig.toml` checks it all.

## The engine

`Tables` holds one database state as a value (`Db`); money is a whole number of kobo and amounts are
positive. `Steps` has one function per atomic step: a step is one database transaction, or one
single-row write outside a transaction. `Runs` puts the steps together into a state machine with 24
kinds of action in three groups (wallet, payment, staff) and proves that the invariant in `Invariants`
holds in every state of every run. The proof is split by concern: rows (`RowProofs`), payments and
adjustments against rows (`LinkProofs`), the journal (`JournalProofs`), balances and chains
(`BalanceProofs`), ledger accounts against tables (`AccountProofs`, `ReversalAccounts`). `LedgerStart` shows that a new
database, and an older one after the ledger migration, satisfy it.

`Readings`, `Guarantees`, `Reversals`, `PayoutWorld` and `LimitProofs` say what it means for users and staff.
`Requests` says of each step when it takes effect and what it writes, in the fields of the request or of
Paystack's answer and of the tables alone.

That a payment may be asked about many times is three groups of results. `Confirmations` and `Outcomes` put
any number of asks at one moment in any order. `Repeats` puts them anywhere in a run, with time, other
actions and changing answers between them, and drops all but the decisive ones. `Webhooks` adds the inbox:
deliveries, worker retries, rechecks and reconcile passes, again among everything else the engine does;
`EventKeys` says which deliveries are one event.

The same requests are then written the way the code runs them, as methods that update a store whose
fields are the tables (`Database.Store`, `WalletService`, `TransferService`, `ReversalService`,
`PaymentServices`, `AdjustmentService`, `ReconcileService`). Each method's contract gives its whole new
state as the steps of the engine and its result or failure. So the theorems about runs are about the requests
too, but for three kinds of request whose steps no lock makes one: a transfer's reversal from the CREDIT leg
(`Reversals`), a refund that read its status before somebody marked the withdrawal as paid (`RefundRaces`), and a
deposit decided while its checkout was being started (`DepositStarts`). A lock that stays busy is an outcome of
every request that takes one; `BusyLocks` shows that for a confirmation it is as good as no answer from Paystack.

Two fields are history variables that no branch reads: a row's `origin` (which request wrote it) and
the store's `commits` (the order in which rows were settled). A row's id is its position in its table;
a payment's reference is its position too, so a foreign reference is a position that does not exist.

## The rest

- `LockProtocol` interleaves any number of clients whose reads and writes of balances are separate
  steps, over a Redis with tokens, TTLs and sorted acquisition; `LockSteps` says what each step does;
  `LockService` is the retrying code of one
  client, with the others acting at every wait.
- `Pin`: the attempt counter and the 30-minute lock; `PinRaces`: requests whose read, increment and lock
  are interleaved.
- `Statements`, `Stats`, `Csv`, `Pages`: the statement walk, the day series, the CSV printer against a
  reader written from section 2 of RFC 4180, and cursor pages.
- `Facts`, `Money`, `Figures`, `Insights`: category totals, median, unusual spends, the naira printer, the
  check that a text quotes only calculated figures, and the template sentences.
- `Examples`: the concrete runs from an empty database, and a database after its migration.
- `Basics`, `Lists`: sums, filters and a stable sort over sequences.

## Assumptions

- Each database transaction is atomic, and one that throws writes nothing. For transactions that hold the locks
  of the wallets they touch, `LockProtocol` proves that the locks give it, under the assumption that a client that
  is acquiring or working finishes before any of its locks expires, and shows by an example that the assumption is
  needed. Transactions without a lock write where their own condition still holds (a claim of a PENDING or
  PROCESSING row), which the database does at one moment. Only a refund also depends on a read before its claim
  that such a transaction can make stale; there the read and the claim are steps of their own (`RefundRaces`).
- What runs after a commit (cache invalidation, queueing, notifications) does not throw.
- The clock does not go back.
- Paystack's failure answers are final, a transfer request that has not arrived nine minutes after the
  withdrawal was created never arrives, and an answer that there is no transfer is acted on within a minute
  (`PayoutWorld`). With the ten minutes of grace in the code that is enough for a refund to be safe.
- Databases older than the ledger had nothing pending or processing when it started.

## Where the code does less than its comments or its callers expect

- Reversing a transfer from its CREDIT leg: the lookup of the receiving leg returns the same row, both
  wallet writes fall on one wallet and one of them is lost. `Reversals.TransferReversalNeedsDebitLeg` shows
  that the books stay right exactly when the reversal starts from the DEBIT leg. Runs start it there.
  `Examples.CreditLegBreaksTheBooks` is a run that ends in a transfer whose receiver may ask for it.
- A refund reads the withdrawal's status before it claims it, and marking a withdrawal as paid takes no lock. When
  that happens in between, the refund takes the money from the wrong account: payouts in transit ends at plus the
  amount with nothing under way. `RefundRaces.RefundIsRightIff` gives the exact condition for one refund and
  `RefundRaces.AccountsStayRightIff` for a run with any number of them; wallets and everything else stay right
  whatever was read (`RefundRaces.LateClaimsShiftTwoAccounts`). `Examples.SlowRefundMisposts` is such a run.
- When the checkout of a deposit cannot be started, FAILED is written whatever the status is by then.
  `DepositStarts.FailedStartIsSafeIff` says that this is right exactly when the deposit has not been credited, and
  `Examples.FailedStartLosesADeposit` is a run in which it has.
- The daily limit is checked when a transfer settles but counted by when it was asked for, and taking back a
  received transfer counts as spending without being checked. `LimitProofs.TransferWithinDay` and
  `LimitProofs.ReversalWithinDay` give the exact condition under which each keeps the limit;
  `Examples.LateTransferPassesTheLimit` and `Examples.TakenBackPassesTheLimit` are runs that pass it.
- The comment on `verifyPin` says that parallel guesses cannot exceed the limit because the counter moves
  atomically. Requests that read before the lock is set are all compared. `PinRaces.OverlapIsSafeIff` says
  that n requests stay within the allowance in every interleaving exactly when n is at most five less the
  failures so far, `PinRaces.OneInFlightIsSafeIff` that more of them do exactly when only one is in flight at
  a time, and `PinRaces.SevenAreCompared` is an interleaving of seven. The half-hour bound is about attempts
  that follow one another.
- A statement's opening balance is the sum of the rows before it and ignores the ledger's opening entry; the
  stats' balance at period start does not. `Stats.StartIsOpeningIff` says exactly when they agree, and
  `Examples.OpeningEntrySplitsTheTwo` is a migrated database in which they do not.

## Model

| member | source | states |
|---|---|---|
| Runs.RunKeepsInv | apps/api/src/services/ledger/ledger.service.ts:4-11 | every state of every run mixing all 24 kinds of action keeps the invariant, and no run moves any ledger account away from what the tables say it should hold |
| Runs.StepKeepsInv | apps/api/src/services/payments/withdrawal.service.ts:104-148 | each single step keeps the invariant, lets rows only move forward, and keeps every account's distance to the tables; a refund's read and claim are one step here and two in RefundRaces |
| Requests.TransferBeginsIff | apps/api/src/services/transfer.service.ts:60-92 | a transfer writes its two pending rows, under a fresh id, exactly when the receiver has a wallet and is not the sender |
| Requests.TransferSettlesIff | apps/api/src/services/transfer.service.ts:93-176 | it settles exactly when both wallets exist, the sender's holds the amount and per-payment and daily limit allow it; then the amount goes from one wallet to the other with both rows and one entry, and otherwise both rows fail and nothing else changes |
| Requests.DirectSettlesIff | apps/api/src/services/wallet.service.ts:31-155 | a direct movement settles exactly when there is a wallet, which holds the amount if it is a debit; what is written in either case |
| Requests.SingleReversalBeginsIff | apps/api/src/services/reversal.service.ts:8-58 | a row without a transfer can be reversed exactly by its owner, SUCCESSFUL, no reversal itself, of no deposit and no withdrawal, and reversed by nothing that has not failed; the pending row written |
| Requests.TransferReversalBeginsIff | apps/api/src/services/reversal.service.ts:8-158 | the same for a transfer's DEBIT leg, whose CREDIT leg must be SUCCESSFUL too; the pending pair written |
| Requests.SingleReversalSettlesIff | apps/api/src/services/reversal.service.ts:60-121 | a pending reversal settles exactly when its wallet exists and can bear it; then the wallet, both rows, and the mirror of the first entry about the row taken back, or an entry against opening balances where there is none; otherwise only the reversal fails |
| Requests.TransferReversalSettlesIff | apps/api/src/services/reversal.service.ts:160-240 | the same for a transfer's pair: both wallets must exist and the receiver's hold the amount; the mirror is of the transfer's first entry that is no reversal |
| Readings.RecordsAgree | apps/api/src/services/wallet.service.ts:171-204 | in every reachable state a wallet's stored balance, its computed balance (from the opening entry if it has one) and its ledger balance are equal and not negative, and both mismatch reports are empty |
| Readings.ReportsListMismatches | apps/api/src/services/admin/admin.service.ts:483-520 | in any database the two reports list exactly the wallets whose stored balance differs from their computed or their ledger balance |
| Readings.MoneyIsConserved | apps/api/src/services/ledger/ledger.service.ts:115-140 | the trial balance is zero in every reachable state, and what all wallets hold is what the five system accounts say came in and has not gone out |
| Readings.SystemAccountsMirrorTables | apps/api/src/services/payments/withdrawal.service.ts:132-143 | for a ledger started empty and any run whose refunds read and claim at one moment, payouts in transit is minus the PROCESSING withdrawals, Paystack clearing is SUCCESSFUL deposits less SUCCESSFUL withdrawals, and the other accounts are the movements nobody undid |
| RefundRaces.AccountsMirrorTablesIff | apps/api/src/services/payments/withdrawal.service.ts:102-143 | with reads and claims of any number of refunds as separate steps of a run, payouts in transit and Paystack clearing mirror the tables if and only if no withdrawal was marked as paid between a refund's read and its claim |
| RefundRaces.AccountsStayRightIff | apps/api/src/services/payments/withdrawal.service.ts:102-143 | the same for every account and any start that satisfies the invariant, as the distance to the tables |
| RefundRaces.LateClaimsShiftTwoAccounts | apps/api/src/services/payments/withdrawal.service.ts:102-143 | however reads, claims and everything else mix, the invariant holds, payouts in transit is off by exactly what all late claims refunded, Paystack clearing by minus that, and no other account is off |
| RefundRaces.RefundIsRightIff | apps/api/src/services/payments/withdrawal.service.ts:104-105 | one refund keeps every account in step with the tables if and only if the status it read and the status it claims agree on whether the bank had been paid |
| RefundRaces.TimelyRefundsAreARun | apps/api/src/services/payments/withdrawal.service.ts:102-148 | without late claims the run with separate reads and claims leaves the database that a run of the engine leaves |
| Examples.SlowRefundMisposts | apps/api/src/services/payments/withdrawal.service.ts:102-143 | a run from an empty database in which a returned payout is marked as paid between its refund's read and claim: payouts in transit ends at plus the amount with nothing PROCESSING |
| Readings.AccountsPartition | apps/api/src/services/ledger/ledger.service.ts:116-129 | every line belongs to exactly one of the wallets together or the five system accounts, so their totals add up to the trial balance |
| Ledger.MirrorUndoes | apps/api/src/services/ledger/ledger.service.ts:85-100 | the mirror of any entry takes back its effect on every account and balances if the entry did |
| Ledger.TwoLines | apps/api/src/services/ledger/ledger.service.ts:60-79 | a posted movement balances, adds the amount to the debited account, takes it from the credited one and touches no other |
| ReversalAccounts.LookupFindsOriginal | apps/api/src/services/ledger/ledger.service.ts:85-90 | whichever entry the unordered lookup of a single reversal looks at, it finds the one entry the original was posted with, and nothing exactly when the original predates the ledger |
| ReversalAccounts.LookupFindsTransfer | apps/api/src/services/ledger/ledger.service.ts:86-90 | the lookup by transfer id finds the transfer's one entry, with its sender's and receiver's lines, or nothing exactly when the transfer predates the ledger |
| LedgerStart.MigrationEstablishesInv | apps/api/prisma/migrations/20261015000000_ledger_admin_v2/migration.sql:146-158 | the opening entries put any healthy database with nothing in flight into the invariant |
| LedgerStart.NewDatabaseIsSound | apps/api/prisma/migrations/20261015000000_ledger_admin_v2/migration.sql:134-139 | an empty database satisfies the invariant |
| Guarantees.SettledRowsChain | apps/api/src/services/transfer.service.ts:104-128 | in commit order each wallet's settled rows form an unbroken chain: each starts at the previous balance or the opening one, moves by plus or minus its amount, and the last one leaves the stored balance |
| Guarantees.RowsMoveForward | apps/api/src/services/reversal.service.ts:18-20 | over any run no row is dropped or rewritten and its status only moves forward; FAILED and REVERSED are final |
| Guarantees.RefundedExactlyOnce | apps/api/src/services/payments/withdrawal.service.ts:86-134 | in every reachable state a withdrawal has a refund row exactly when it is FAILED or REVERSED; there is never more than one, and it is for the withdrawal's user and amount |
| Guarantees.RunMovesForward | apps/api/src/services/payments/withdrawal.service.ts:218-242 | over any run deposits, withdrawals and adjustments change status only by climbing a rank |
| Guarantees.AdjustmentMovesMoneyOnce | apps/api/src/services/admin/adjustments.service.ts:103-160 | in every reachable state an APPROVED adjustment has exactly one row, for its user, direction and amount, and exactly one entry for that row, with the wallet's and the adjustments account's line; any other has none |
| Guarantees.SmallAdjustmentIsDecided | apps/api/src/services/admin/adjustments.service.ts:87-98 | one attempt leaves a small request APPROVED with the wallet moved and its row and entry written, or REJECTED with wallets, rows and journal untouched, exactly as it could be applied or not |
| Guarantees.TwoPersonRule | apps/api/src/services/admin/adjustments.service.ts:191-215 | over any run an APPROVED adjustment above the threshold was decided by someone other than its requester, or at that moment nobody else could |
| Requests.NobodyAdjustsTheirOwn | apps/api/src/services/admin/adjustments.service.ts:56-65 | over any run no adjustment is for its own requester, debits are corrections, and amounts are above zero and at most 10,000,000 naira |
| Requests.AdjustmentIsRecordedIff | apps/api/src/services/admin/adjustments.service.ts:56-85 | a request is recorded exactly under those conditions for a user with an account, with its own fields, PENDING |
| Requests.ApprovalTakesEffectIff | apps/api/src/services/admin/adjustments.service.ts:108-215 | an approval takes effect exactly on a PENDING adjustment whose wallet exists and can bear it, by another admin or the only approver; the wallet, row, entry and decision written |
| Requests.SmallRequestIsDecided | apps/api/src/services/admin/adjustments.service.ts:87-98 | a request of up to 10,000 naira is applied by its requester if the wallet can bear it and rejected otherwise; a larger one is left alone |
| Reversals.SingleReversalIsExact | apps/api/src/services/reversal.service.ts:60-115 | a settled single reversal takes back exactly its original's effect on every wallet and every ledger account, also for an original older than the ledger |
| Reversals.TransferReversalIsExact | apps/api/src/services/reversal.service.ts:160-212 | a settled transfer reversal moves exactly the amount back from receiver to sender, in the wallets and in the ledger, and nothing else |
| Reversals.DirectRoundTrip | apps/api/src/services/reversal.service.ts:43-115 | settling a direct movement and then reversing it leaves every wallet and every account as before |
| Reversals.TransferReversalNeedsDebitLeg | apps/api/src/services/reversal.service.ts:125-196 | with both wallet writes as the code sends them, a transfer's reversal keeps wallets in step with their history if and only if it starts from the DEBIT leg |
| Reversals.CreditLegFindsItself | apps/api/src/services/reversal.service.ts:126-128 | from the CREDIT leg the lookup of the receiving leg returns that very leg |
| Examples.CreditLegBreaksTheBooks | apps/api/src/services/reversal.service.ts:125-196 | a run from an empty database whose transfer the receiver may reverse, and whichever of the two wallet writes comes last, the wallet no longer matches its history |
| Examples.CreditLegRequestBreaksTheBooks | apps/api/src/services/reversal.service.ts:8-39 | the same by the code's own outcome of the receiver's request |
| Outcomes.SameAnswersSameOutcome | apps/api/src/services/payments/deposit.service.ts:191-225 | asked at one moment, the same questions in any order and with any repeats end in the same wallets, statuses, account balances and, for every reference, the same entries |
| Outcomes.FireAllEntries | apps/api/src/services/payments/deposit.service.ts:110-130 | which entries there are for each reference afterwards is a closed form of the old entries and the status each payment ends in |
| Repeats.RepeatsCanBeDropped | apps/api/src/services/payments/reconcile.service.ts:16-20 | in every run of all 24 kinds of action, with time passing and answers changing, leaving out the asks whose payment was already decided gives the same database, table for table |
| Repeats.AskingAgainChangesNothing | apps/api/src/services/payments/withdrawal.service.ts:350-372 | a decisive ask changes nothing in any state that a run reaches after it was made |
| Repeats.ConfirmedManyTimesIsOnce | apps/api/src/services/payments/deposit.service.ts:110-130 | in any run, making a decisive ask many times equals making it only the first time |
| Repeats.DecidedDepositStays | apps/api/src/services/payments/deposit.service.ts:200-225 | a deposit that is no longer PENDING keeps its status through any run, and no answer and no sweep changes anything then |
| Repeats.DecidedWithdrawalStays | apps/api/src/services/payments/withdrawal.service.ts:354-372 | a withdrawal that is no longer PROCESSING keeps its status through any run unless the bank returns a SUCCESSFUL one, and no other answer changes anything then |
| Repeats.WhatIsLeft | apps/api/src/services/payments/reconcile.service.ts:32-40 | what is left of a run is a part of it in order: every action that asks nothing is still there, of the asks exactly those once made with a final answer, and none of them twice |
| Repeats.OneConfirmationIsLeft | apps/api/src/services/payments/deposit.service.ts:191-225 | when Paystack's final answer about a deposit is always the same, at most one confirmation of it is left of any run, with that answer |
| Repeats.TwoChecksAreLeft | apps/api/src/services/payments/withdrawal.service.ts:218-242 | when Paystack's final answer about a withdrawal is always the same, apart from a later return, at most one check with each of the two is left |
| Confirmations.FireAllEnds | apps/api/src/services/payments/reconcile.service.ts:32-40 | asked at one moment, the final status of every deposit and withdrawal is a closed form of its old status, Paystack's answer and whether it was checked or swept |
| Outcomes.EveryCreditWasVerified | apps/api/src/services/payments/deposit.service.ts:207-216 | in every run each SUCCESSFUL deposit was settled by a confirmation whose payment was successful, carried the deposit's own reference, was for exactly its amount and in naira |
| Outcomes.OnlyVerifiedPaymentsSettle | apps/api/src/services/payments/deposit.service.ts:115-134 | only a successful payment with that reference, that amount and that currency makes a deposit SUCCESSFUL, and the wallet then grows by exactly the amount Paystack verified |
| Requests.AnswerDecidesDeposit | apps/api/src/services/payments/deposit.service.ts:205-222 | a PENDING deposit is credited if and only if the payment is successful with its reference, amount and currency and there is a wallet; a successful payment that differs in one of them fails it, as a failed or reversed one does, and any other answer changes nothing |
| Requests.DepositIsRecorded | apps/api/src/services/payments/deposit.service.ts:71-86 | a deposit is recorded exactly when it keeps a first-tier wallet within 500,000 naira, as PENDING |
| Requests.WithdrawalIsMadeIff | apps/api/src/services/payments/withdrawal.service.ts:288-330 | a withdrawal is made if and only if the wallet exists and holds the amount and both limits allow it, a whole balance included; then the wallet is debited and it is PROCESSING, otherwise nothing is written |
| Requests.AnswerDecidesWithdrawal | apps/api/src/services/payments/withdrawal.service.ts:354-372 | the status each answer leads to from each status, with ten minutes of grace for a missing transfer, and what is written with it |
| Requests.SendingDecidesWithdrawal | apps/api/src/services/payments/withdrawal.service.ts:218-268 | the same for the answer to sending the transfer |
| Webhooks.InboxRunIsARun | apps/api/src/services/payments/paystack-webhook.service.ts:35-94 | any history of deliveries, worker retries, rechecks, passes and everything else the engine does, each with the answers of its own moment, leaves the database that a run of the engine leaves; keys stay unique and an event is marked processed only once its confirmation was made |
| Webhooks.ProcessedEventsAreSettled | apps/api/src/services/payments/paystack-webhook.service.ts:59-94 | behind every processed event is the moment it was worked on, at which its payment got the status Paystack's answer of then gives it |
| Webhooks.HistoriesAgree | apps/api/src/services/payments/reconcile.service.ts:16-20 | two histories of the inbox that differ only in asks about payments already decided leave the same database |
| Webhooks.RedeliveryIsADuplicate | apps/api/src/services/payments/paystack-webhook.service.ts:31-56 | a redelivery, however much later, stores nothing, is reported as a duplicate of the first, and says whether that one was processed |
| EventKeys.SameKeyIff | apps/api/src/services/payments/paystack-webhook.service.ts:25-29 | two bodies share a key if and only if they are of one kind and have the same id, or no id and the same reference, or neither and the same digest |
| EventKeys.DuplicateIff | apps/api/src/services/payments/paystack-webhook.service.ts:35-56 | from an empty inbox on, a delivery is a duplicate if and only if one about the same event came before; otherwise it is stored as a new unprocessed event with its own kind and reference, which asks about the deposit or withdrawal it names |
| Webhooks.ThrowingChangesNothing | apps/api/src/services/payments/paystack-webhook.service.ts:58-58 | a confirmation that throws for a retry has changed nothing |
| Webhooks.ThrowsIff | apps/api/src/services/payments/withdrawal.service.ts:86-134 | for each answer, whether confirming a deposit or a withdrawal throws |
| Webhooks.PassSettlesItsBatch | apps/api/src/services/payments/reconcile.service.ts:25-45 | a pass leaves every deposit of its batch where Paystack's answer puts it and abandons those open for a day |
| Webhooks.BatchCoversAll | apps/api/src/services/payments/reconcile.service.ts:25-29 | every overdue deposit is selected, and all of them are in the batch when there are at most fifty |
| Webhooks.PassTakesUp | apps/api/src/services/payments/reconcile.service.ts:25-66 | with no more than fifty of a kind overdue, a pass takes up exactly the deposits PENDING for more than two minutes, the withdrawals PROCESSING for more than one, and the events unprocessed for more than five |
| Webhooks.PassTakesTheFirst | apps/api/src/services/payments/reconcile.service.ts:25-54 | with more it takes the first fifty |
| Webhooks.SweepGivesUpIff | apps/api/src/services/payments/reconcile.service.ts:32-40 | a sweep abandons a deposit if and only if it is PENDING, the payment is still open, and it is more than a day old |
| PayoutWorld.NeverPaidAndRefunded | apps/api/src/services/payments/withdrawal.service.ts:69-72 | with final failure answers, acted on arbitrarily late, no run refunds a withdrawal whose money is or may still come to the bank; a refund exists exactly when it is FAILED or REVERSED, once; SUCCESSFUL means the bank was paid |
| PayoutWorld.ReportedAnswersSettle | apps/api/src/services/payments/withdrawal.service.ts:218-242 | acting on a reported status settles a PROCESSING withdrawal exactly as the bank did |
| LimitProofs.DaysTileTime | apps/api/src/services/limits.service.ts:30-34 | each instant lies in exactly one day window, and the next window starts where it resets |
| LimitProofs.DayStartsAtMidnight | apps/api/src/services/limits.service.ts:7-34 | a window is a whole day from midnight one hour ahead of UTC |
| LimitProofs.CheckCountsTheDay | apps/api/src/services/limits.service.ts:41-64 | what the check counts equals what the user spent on the clock's day, older payments left out, when nothing is dated in the future |
| LimitProofs.NothingIsEverAhead | apps/api/src/services/limits.service.ts:41-64 | and nothing ever is, in any run |
| LimitProofs.SendAcceptedIff | apps/api/src/services/limits.service.ts:76-98 | a payment passes if and only if the user has a tier, it is within 50,000 or 500,000 naira, and with the day's spending within 200,000 or 2,000,000 |
| LimitProofs.ReceiveAcceptedIff | apps/api/src/services/limits.service.ts:104-119 | money may be added if and only if a first-tier wallet stays within 500,000 naira, and always in the second tier |
| LimitProofs.RefundGivesBackTheDay | apps/api/src/services/limits.service.ts:36-40 | a refunded withdrawal gives its day back exactly its amount |
| LimitProofs.TransferReversalGivesBack | apps/api/src/services/limits.service.ts:36-40 | a transfer taken back gives its sender's day back exactly its amount |
| LimitProofs.AcceptedTransferWithinLimit | apps/api/src/services/limits.service.ts:76-98 | every accepted transfer is within the per-payment limit and leaves the sender's total of today within the daily one |
| LimitProofs.AcceptedWithdrawalWithinLimit | apps/api/src/services/limits.service.ts:76-98 | every accepted withdrawal raises today's total by its amount and leaves it within the daily limit |
| LimitProofs.DailyLimitHolds | apps/api/src/services/limits.service.ts:36-98 | over any run that lowers no tier, settles transfers on the day they were asked for and takes back no received transfer, nobody's payments of any one day pass the daily limit |
| LimitProofs.TransferWithinDay | apps/api/src/services/limits.service.ts:41-64 | a settled transfer keeps everyone's days within the limit if and only if it settles on its own day or that day still had room |
| LimitProofs.ReversalWithinDay | apps/api/src/services/limits.service.ts:45-54 | taking back a transfer keeps the receiver's day within the limit if and only if that day had room for it |
| Examples.LateTransferPassesTheLimit | apps/api/src/services/limits.service.ts:72-75 | a run from an empty database in which a transfer asked for before midnight and settled after it takes the day before past its limit |
| Examples.TakenBackPassesTheLimit | apps/api/src/services/limits.service.ts:45-54 | a run from an empty database in which taking back a received transfer takes the receiver's day past its limit |
| Limits.RefusalNamesTheMost | apps/api/src/services/limits.service.ts:13-28 | the amount left that a refusal names is the most that would have been accepted under that limit |
| LockProtocol.LocksSerialize | apps/api/src/utils/lock.utils.ts:28-81 | every on-time interleaving of any number of clients equals the serial order of its commits, each accepted, with no negative balance, exclusive keys and true readings |
| LockProtocol.NoUpdateIsLost | apps/api/src/services/transfer.service.ts:95-115 | each balance is its first value plus everything committed on it, and what a lock holder read is always the stored balance |
| LockProtocol.NoDeadlock | apps/api/src/utils/lock.utils.ts:52-66 | in every run, on time or not, clients never wait for each other in a circle |
| LockProtocol.SomeHolderCanProceed | apps/api/src/utils/lock.utils.ts:52-66 | whenever a client waits for another, some client holding a key is not itself waiting |
| LockProtocol.LeavingReleasesExactlyOwnKeys | apps/api/src/utils/lock.utils.ts:60-80 | in every run, even when acquiring failed part way, a client that has left carries no key, and until then only keys it took |
| LockProtocol.OnlyExpiredLocksAreLost | apps/api/src/utils/lock.utils.ts:8-26 | a lock disappears or changes hands only by its owner's release or after it expired; a release never removes another's |
| LockProtocol.LateHolderLosesAnUpdate | apps/api/src/utils/lock.utils.ts:4-4 | an execution in which a holder outlives its lock and one of two credits is lost |
| LockProtocol.SortedKeys | apps/api/src/utils/lock.utils.ts:57-58 | the keys are the distinct ids, strictly ascending |
| LockSteps.TryLockTells | apps/api/src/utils/lock.utils.ts:18-22 | a key is taken exactly when nobody holds it or its lock has expired, for ten seconds and under a token never used |
| LockSteps.FinishTells | apps/api/src/services/transfer.service.ts:95-123 | a client that has read its balances commits exactly when no debit goes below zero, writing what it read plus the change and nothing else |
| LockSteps.ReleaseTells | apps/api/src/utils/lock.utils.ts:8-26 | a release deletes the key exactly while it carries the token it was taken with |
| LockSteps.WaitingMeans | apps/api/src/utils/lock.utils.ts:62-70 | a client waits for another exactly when trying its next key does nothing and the key carries that one's token |
| LockSteps.SerialAccepts | apps/api/src/services/transfer.service.ts:95-123 | a serial order accepts each operation on the balances the ones before left, and moves them by its changes |
| LockService.Redis.WithMultiLock | apps/api/src/utils/lock.utils.ts:53-81 | however it ends no key carries the caller's token; work started within one TTL starts with every key held; giving up means having waited five seconds |
| LockService.Redis.WithLock | apps/api/src/utils/lock.utils.ts:28-50 | the same for one key, which is always held when the work starts |
| LockService.Redis.DeleteIfOwn | apps/api/src/utils/lock.utils.ts:8-26 | deletes the key exactly when it carries the given token; no token matches nothing |
| LockService.Redis.AcquireLock | apps/api/src/utils/lock.utils.ts:18-22 | succeeds exactly when the key is free or expired, with a token never drawn before |
| Pin.GuessesAreBounded | apps/api/src/services/security/pin.service.ts:58-105 | without a right guess, any timed sequence of attempts lets at most 5 * (minutes / 30 + 1) wrong ones be compared |
| Pin.BoundIsReached | apps/api/src/services/security/pin.service.ts:93-101 | for every number of half hours a sequence of attempts reaches that bound |
| Pin.CheckTells | apps/api/src/services/security/pin.service.ts:62-105 | each case of a check: nothing compared without a PIN or under a lock, the right PIN clears counter and lock, a wrong one counts, the fifth locks for half an hour, a demo account only refuses |
| PinRaces.ComparisonsAreBounded | apps/api/src/services/security/pin.service.ts:62-105 | in every interleaving of n requests within one lock's time, at most four less the failures so far plus the number in flight are compared |
| PinRaces.OverlapIsSafeIff | apps/api/src/services/security/pin.service.ts:58-61 | n requests stay within what is left of the five in every interleaving if and only if n is at most what is left |
| PinRaces.OneInFlightIsSafeIff | apps/api/src/services/security/pin.service.ts:58-61 | more requests than that stay within it in every interleaving with at most so many in flight if and only if that is one |
| PinRaces.SevenAreCompared | apps/api/src/services/security/pin.service.ts:86-94 | an interleaving from no failures in which seven are compared and the counter reads seven with no lock set |
| PinRaces.UninterruptedIsCheck | apps/api/src/services/security/pin.service.ts:62-105 | a request that nobody interrupts does what the check does, and is compared exactly when the check compares it |
| Pin.User.VerifyPin | apps/api/src/services/security/pin.service.ts:62-105 | the new counter and lock and the answer are those of the check, which the bound is about |
| Pin.User.ChangePin | apps/api/src/services/security/pin.service.ts:108-122 | changes the PIN and clears counter and lock exactly when the proof is accepted; a wrong current PIN counts as a failed attempt |
| Statements.GetStatement | apps/api/src/services/statement.service.ts:123-197 | up to 5000 rows: each row carries the opening balance plus the net of the rows so far, opening plus in minus out is closing; above that the error |
| Statements.BalancesRun | apps/api/src/services/statement.service.ts:159-181 | each line shows its row, and its balance is that of the line above plus or minus its amount; the last one is the closing balance |
| Statements.TotalsAreTheLines | apps/api/src/services/statement.service.ts:158-167 | money in and out are the sums of the credit and debit lines shown |
| Statements.LinesAreThePeriod | apps/api/src/services/statement.service.ts:129-148 | the lines are exactly the user's SUCCESSFUL and REVERSED rows of those days, each once, in order of time |
| Stats.OpeningCounts | apps/api/src/services/statement.service.ts:132-136 | the opening balance is what the user's SUCCESSFUL and REVERSED rows of earlier days add up to |
| Statements.StatementsCompose | apps/api/src/services/statement.service.ts:134-180 | statements of neighbouring periods join into the combined one: balances meet, totals add up, and the joined rows with their balances are the combined rows if and only if no row of the second period is listed before one of the first |
| Statements.SteadyCalendarsJoin | apps/api/src/services/statement.service.ts:131-150 | in a timezone whose days never go back they always join |
| Stats.TotalsAreTheRows | apps/api/src/services/stats.service.ts:72-125 | each total of both periods is what the rows of exactly those days add up to; the coarse bound by instant drops none |
| Stats.TotalsCount | apps/api/src/services/stats.service.ts:70-117 | each of the four totals of both periods as a sum over the rows' own fields: credits, debits, and transfers sent or received that are no reversals |
| Stats.StartIsOpeningIff | apps/api/src/services/stats.service.ts:127-137 | the balance at period start is the statement's opening balance for that day if and only if rows dated after today plus the opening balance add up to the history before it |
| Stats.StartIsOpening | apps/api/src/services/stats.service.ts:127-137 | with no opening entry and days that never go back the two agree in every state that satisfies the invariant |
| Examples.OpeningEntrySplitsTheTwo | apps/api/src/services/stats.service.ts:127-137 | a database older than the ledger, after its migration, in which the two differ for every period |
| Csv.StatementRoundTrip | apps/api/src/services/statement.render.ts:32-61 | reading the file after its byte-order mark by section 2 of RFC 4180 gives the guarded header and rows cell for cell, and no cell read starts a formula |
| Csv.ParseUndoesPrinting | apps/api/src/services/statement.render.ts:36-60 | the same for any table with no empty record |
| Csv.FileTellsTheRows | apps/api/src/services/statement.render.ts:39-61 | the file read back gives the header and, for every row, its date, reference and description, its amount under money in or money out with the other empty, and its balance, also below zero |
| Pages.PagesCoverTheList | apps/api/src/services/admin/admin.service.ts:34-42 | following nextCursor yields every row once in order, in max(1, n / limit rounded up) pages, all but the last full |
| Pages.PageIsNextStretch | apps/api/src/services/wallet.service.ts:206-223 | the page after a cursor is the next stretch of the list, with a next cursor exactly when something is left |
| Facts.CategoriesAccountForSpending | apps/api/src/services/insights/facts.service.ts:107-124 | category totals add up to all spending of both periods exactly, biggest first |
| Facts.BlocksPartitionHistory | apps/api/src/services/insights/facts.service.ts:142-150 | the three blocks split the history's spending and its count between them, and match the two periods compared |
| Facts.BlocksAreThirtyDays | apps/api/src/services/insights/facts.service.ts:142-143 | the blocks are 30 days each, one after the other |
| Facts.MedianIsInTheMiddle | apps/api/src/services/insights/facts.service.ts:60-65 | at most half of the values lie strictly above the median and at most half strictly below |
| Facts.UnusualIsRare | apps/api/src/services/insights/facts.service.ts:167-176 | with the payees recognised as regular left out, at most half of the history can be unusual; at most the two largest are shown, each at least three times the typical spend and ₦5,000 |
| Facts.UnusualAreShown | apps/api/src/services/insights/facts.service.ts:169-178 | every spend of the period that is large, three times the median and not to someone paid regularly is shown, unless two no smaller ones are |
| Facts.OnlyUnusualAreShown | apps/api/src/services/insights/facts.service.ts:169-178 | every spend shown is one of those |
| Facts.RegularMeans | apps/api/src/services/insights/facts.service.ts:151-157 | someone is paid regularly if and only if paid in each block of thirty days, always within a quarter of the median |
| Facts.SpendsAre | apps/api/src/services/insights/facts.service.ts:100-118 | the spends of each period: debits that are no withdrawals, dated in its days |
| Facts.MedianIsMiddle | apps/api/src/services/insights/facts.service.ts:60-65 | the median is the middle value or the mean of the two middle ones |
| Facts.CategoriesAreInOrder | apps/api/src/services/insights/facts.service.ts:121-126 | categories come by this period's spending, then by the one before, and ties as they were found |
| Facts.RegularPayeesAreRegular | apps/api/src/services/insights/facts.service.ts:152-166 | exactly the payees paid in each of the three blocks with amounts near their median are regular, as far as the limit shown allows; each was paid at least three times, and no payment is more than five thirds of another |
| Facts.RecipientTotals | apps/api/src/services/insights/facts.service.ts:126-132 | exactly the people paid are listed, each with the sum and the number of their payments |
| Facts.PercentIsNearest | apps/api/src/services/insights/facts.service.ts:57-58 | the rounded change is within half a per cent of the real one, at least minus 100, and missing exactly when there is nothing to compare with |
| Money.ReadingUndoesPrinting | apps/api/src/services/insights/writer.ts:25-31 | reading a printed naira figure gives the same amount back, for every amount |
| Money.CommasEveryThreeDigits | apps/api/src/services/insights/writer.ts:28-29 | in a grouped number exactly every fourth character from the right is a comma |
| Figures.UsesOnlyAllowedFigures | apps/api/src/services/insights/writer.ts:122-132 | the answer is the first refusal among the amounts and then the percentages found; it passes exactly when every one is allowed |
| Figures.AmountsAreFound | apps/api/src/services/insights/writer.ts:124-124 | the amounts the pattern finds in a text are exactly those printed into it, in order |
| Figures.PercentsAreFound | apps/api/src/services/insights/writer.ts:128-128 | the percentages the pattern finds are exactly those printed, whatever digits the words before them hold |
| Figures.AmountIsRead | apps/api/src/services/insights/writer.ts:124-124 | after the sign an amount is read with its decimals, with or without one space before it |
| Figures.PercentIsRead | apps/api/src/services/insights/writer.ts:128-128 | before the sign a percentage is read with its decimals, with or without one space after it |
| Figures.DecimalsMustBeZero | apps/api/src/services/insights/writer.ts:128-130 | a percentage with decimals passes exactly when they are all zero and the whole number is allowed |
| Money.ThirdDecimalRounds | apps/api/src/services/insights/writer.ts:125-125 | a figure with more than two decimals is read to the nearest kobo, halves up |
| Insights.CheckIsExact | apps/api/src/services/insights/writer.ts:122-132 | a text of words and printed figures passes the check if and only if every figure in it is allowed |
| Insights.AllowedAre | apps/api/src/services/insights/writer.ts:85-105 | the amounts and percentages allowed are exactly those of the facts |
| Insights.TemplatePasses | apps/api/src/services/insights/writer.ts:148-205 | when names quote no figures, the headline and every insight of the template pass the check built from the same facts |
| Insights.TemplateInsights | apps/api/src/services/insights/writer.ts:149-205 | the quiet text exactly when nothing was spent and nothing came in; otherwise the headline and, in this order, the sentences for what there is, at most four |
| Insights.HeadlineReads | apps/api/src/services/insights/writer.ts:157-163 | the text of the headline, with less exactly for a negative change |
| Insights.CategoryReads | apps/api/src/services/insights/writer.ts:166-175 | the text of the category insight, with up exactly for a positive change |
| Insights.OthersRead | apps/api/src/services/insights/writer.ts:176-203 | the texts of the other three insights |
| Insights.TopIsFirst | apps/api/src/services/insights/writer.ts:166-167 | the category told of is the first named one with spending |
| Database.Store.Book | apps/api/src/services/wallet.service.ts:36-51 | moves the row's wallet by its amount and settles the row with the balances around it |
| Database.Store.Post | apps/api/src/services/ledger/ledger.service.ts:60-79 | appends the balanced entry of the movement and nothing else |
| Database.Store.PostMirror | apps/api/src/services/ledger/ledger.service.ts:85-100 | appends the mirror of the first matching entry, or reports that there is none |
| Database.Store.AssertCanSend | apps/api/src/services/limits.service.ts:76-98 | refuses exactly without a tier, over the per-payment limit, or over what the day's spending leaves of the daily one, naming what is left |
| Database.Store.AssertCanReceive | apps/api/src/services/limits.service.ts:104-119 | refuses exactly without a tier or wallet and past a first-tier wallet's 500,000 naira, naming the room |
| WalletService.CreditWallet | apps/api/src/services/wallet.service.ts:9-84 | a credit request is the run of its two steps, the second giving up when the lock stays busy, and fails exactly then or without a wallet |
| WalletService.DebitWallet | apps/api/src/services/wallet.service.ts:86-165 | a debit request is the run of its two steps, the second giving up when the lock stays busy, with the failure the code gives |
| TransferService.TransferFunds | apps/api/src/services/transfer.service.ts:48-177 | the database and the result or failure of a transfer request, failure path and busy locks included |
| TransferService.TransferIsARun | apps/api/src/services/transfer.service.ts:64-176 | a transfer request is a two-step run of the engine, given up when the locks stay busy, and fails exactly when no wallet changed |
| ReversalService.ReverseTransaction | apps/api/src/services/reversal.service.ts:8-39 | the whole new state and the result or error, busy locks included: refuses exactly what is not reversible and changes nothing then; otherwise the outcome of the single or the transfer reversal |
| ReversalService.RefusalTells | apps/api/src/services/reversal.service.ts:8-33 | which refusal a request gets, in the order the code finds out |
| ReversalService.ReverseSingle | apps/api/src/services/reversal.service.ts:43-121 | the pending row is settled with the original undone, or failed, with the failure the code gives, a busy lock among them |
| ReversalService.SingleReversalIsARun | apps/api/src/services/reversal.service.ts:43-121 | a reversal request for a row without a transfer is a two-step run of the engine, given up when the lock stays busy, and errs exactly when no wallet changed |
| ReversalService.ReverseTransfer | apps/api/src/services/reversal.service.ts:125-240 | the outcome for whichever CREDIT row the lookup returns, with its result or error, busy locks included, or the pair-not-found error |
| ReversalService.DebitLegReversalIsARun | apps/api/src/services/reversal.service.ts:160-196 | from the DEBIT leg, in any state of the invariant, the code's reversal is the two-step run of the engine, given up when the locks stay busy |
| PaymentServices.StartDeposit | apps/api/src/services/payments/deposit.service.ts:62-108 | records the deposit as PENDING within the cap; after whatever others do while Paystack is asked, it is left as it is or overwritten with FAILED |
| DepositStarts.FailedStartIsSafeIff | apps/api/src/services/payments/deposit.service.ts:100-107 | overwriting the status with FAILED keeps the invariant, and every account in step with the tables, if and only if the deposit is not SUCCESSFUL by then |
| DepositStarts.FailedStartIsAStep | apps/api/src/services/payments/deposit.service.ts:100-107 | while nobody has decided the deposit otherwise, the overwriting is the step of a failed payment, so the theorems about runs cover it |
| Examples.FailedStartLosesADeposit | apps/api/src/services/payments/deposit.service.ts:100-107 | a run from an empty database in which the deposit is confirmed before the overwriting, which then breaks the invariant |
| PaymentServices.Settle | apps/api/src/services/payments/deposit.service.ts:115-160 | claims and credits a PENDING deposit, once; throws exactly when the lock stays busy or there is no wallet, with nothing changed |
| PaymentServices.CheckDeposit | apps/api/src/services/payments/deposit.service.ts:200-225 | acts on Paystack's answer and says what the caller gets for each: credited exactly for a successful payment with the deposit's reference, amount and currency; a busy lock leads where no answer leads |
| PaymentServices.Refund | apps/api/src/services/payments/withdrawal.service.ts:91-165 | claims and refunds a withdrawal, from the account that the status read before the claim says, also when it is marked as paid in between; throws exactly when the lock stays busy or there is no wallet |
| PaymentServices.MarkPaid | apps/api/src/services/payments/withdrawal.service.ts:194-215 | only a PROCESSING withdrawal becomes SUCCESSFUL, with its entry |
| PaymentServices.ApplyStatus | apps/api/src/services/payments/withdrawal.service.ts:218-242 | each reported status leads to the step it names, and throws exactly when a refund does, a busy lock included |
| PaymentServices.Send | apps/api/src/services/payments/withdrawal.service.ts:249-268 | a reported status is applied, a 4xx refunds, anything else is left alone; it throws exactly when the refund after a 4xx does |
| PaymentServices.Withdraw | apps/api/src/services/payments/withdrawal.service.ts:274-348 | WalletNotFound, InsufficientFunds exactly for less than the amount, or the limit's own refusal, with nothing changed; otherwise debited first, recorded for that user and amount as PROCESSING, and sent after; an error to the caller exactly when a lock stays busy |
| PaymentServices.CheckWithdrawal | apps/api/src/services/payments/withdrawal.service.ts:354-372 | acts on Paystack's answer, with the grace for a missing transfer, and says when it throws; a busy lock leads where no answer leads |
| BusyLocks.BusyThrows | apps/api/src/utils/lock.utils.ts:34-45 | a confirmation that finds the wallet's lock busy throws for a retry and has changed nothing, as if Paystack had not answered |
| AdjustmentService.Request | apps/api/src/services/admin/adjustments.service.ts:56-101 | InvalidAdjustment and UserNotFound exactly under the stated conditions on the request's fields; otherwise those fields are recorded, and a small one is applied or rejected at once, also by a busy lock |
| AdjustmentService.ApplyPending | apps/api/src/services/admin/adjustments.service.ts:108-160 | applies a PENDING adjustment or fails with nothing changed, for the reason the code gives, a busy lock first |
| AdjustmentService.Approve | apps/api/src/services/admin/adjustments.service.ts:191-215 | succeeds exactly when the adjustment exists, can be applied, the lock can be had and, for the requester, nobody else could approve; each refusal has its own error |
| AdjustmentService.Reject | apps/api/src/services/admin/adjustments.service.ts:217-228 | rejects exactly existing PENDING adjustments, with the error for each other case |
| ReconcileService.Record | apps/api/src/services/payments/paystack-webhook.service.ts:35-56 | stores an event once under its key and reports duplicates with the first one's id and state |
| ReconcileService.Process | apps/api/src/services/payments/paystack-webhook.service.ts:59-94 | runs the event's confirmation and marks it, or leaves both database and event as they were for a retry, busy locks included |
| ReconcileService.ReconcilePayments | apps/api/src/services/payments/reconcile.service.ts:21-79 | leaves the database as the confirmations of its two batches do, each of which may find its lock busy, hands the overdue events back, and counts everything it looked at once |

## Left out

- SQL, Prisma, indexes and schema: tables are sequences and maps, queries are filters and sums. The mismatch reports' limit of 200 rows is not modelled.
- Redis, HTTP, queues, email and Gemini: Paystack is an oracle or a state per transfer, a queue means that a step may be called again. Putting an event back on the queue is taken to succeed.
- Idempotency keys: the record is written after success, so only a replay after the fact is guarded.
- What runs after a commit and throws: the catch blocks would then mark settled rows FAILED.
- The two status writes of a failed pair are one step, and the two pending rows of a transfer or of its reversal are neighbours in the table.
- The checks of a reversal and the writing of its pending rows are one step, and so are the check for a second approver and the approval; in the code each check runs shortly before.
- Decimals: amounts with more than two decimals, which the validators of the development endpoints accept, are excluded by the type of amounts.
- Table order stands for creation order: where the code sorts by creation time and then by random id, pages, passes and pending lists take the table's order.
- Runs.StepKeepsInv: a transfer's reversal from the CREDIT leg is not an action of a run, because it breaks the books; see Reversals.TransferReversalNeedsDebitLeg.
- PaymentServices.ApplyStatus: this, Send and CheckWithdrawal call Refund with nobody marking the withdrawal as paid between its read and its claim; Refund itself and RefundRaces are about that.
- RefundRaces.LateClaimsShiftTwoAccounts: a refund's read and claim are steps of their own only here; Repeats, Webhooks and PayoutWorld take them as one.
- LockService.Redis.WithMultiLock: the releases, sent together in the code, happen one after the other with other clients acting in between.
- LockProtocol.LocksSerialize: reads are per wallet, and the writes of one transaction are one step.
- PayoutWorld.NeverPaidAndRefunded: Paystack's and the bank's own behaviour is an assumption, stated above.
- Outcomes.SameAnswersSameOutcome: the asks are made at one moment with one answer about each payment; time, other actions and changing answers are in Repeats and Webhooks, where the order of decisive asks stays as it was.
- Confirmations.FireAllEnds: the same one moment.
- Statements.GetStatement: row descriptions and counterparty names are not modelled; the CSV theorem holds for any.
- Stats.TotalsAreTheRows: the percentage of change is not modelled.
- Facts.CategoriesAccountForSpending: this and all other facts take the fetched rows as one per payment. The query joins a transfer's other rows without looking at their status (facts.service.ts:89), so after a failed reversal of the transfer it returns the payment three times.
- EventKeys.SameKeyIff: Paystack's ids, references and digests are taken from different ranges; in the code they share one string.
- Webhooks.PassTakesTheFirst: the first in the table are the oldest by creation time.
- Facts.PercentIsNearest: exact arithmetic instead of the rounding of floating-point numbers.
- Insights.TemplatePasses: dates come formatted, and Pseudonymiser and the AI's own texts are not part of this model.
- PDF drawing, notification wording, audit log, receipts, KYC, password reset, staff roles, demo data, Express routes and the web app: plumbing, or one-branch facts.
- bcrypt, JWT, HMAC signatures and encryption: foreign cryptography; a right or wrong PIN or password is a parameter.
