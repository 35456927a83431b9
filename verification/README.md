# Banking core, modelled and proved

A Dafny model of the money core of a retail-banking API and of the services around it, with proofs about
every run of them.

- **Money.** `Bank` is a state machine over accounts, customer rows, transfers, checks and a double-entry
  journal. Each request is split into the reads it makes outside its transaction and the transaction itself:
  a request in flight carries the row it read, so stale reads, retries and concurrent requests are runs like any
  other. A database transaction is one atomic step that commits whole or not at all; unique indexes are guards
  that abort it. `BankShape` keeps the tables well formed, `BankAgreement` proves that the cached balance, the
  feed and the sub-ledger agree, `BankDeposits` compares deposits with approved checks, `BankLifecycle` counts what each
  transfer did, `BankOwners` says when a call of `initiate` goes ahead and that everybody moves their own money,
  `BankEffects` what each committed transaction does to each table, `BankDecisions` counts what admins decided, `BankClosing` what
  settlements and refunds leave in suspense, `BankLimits` keeps amounts and fees as quoted, `BankOnce` adds
  what holds when a transaction finds its row as it was read, `BankRaces` shows which conditions are needed. `BankStore`
  holds the services as they run, statement by statement, each proved to take exactly the machine's step. `Ledger`,
  `Quote` and `Fx` hold posting, pricing and currency conversion.
- **Sessions.** `Sessions`: refresh-token rotation with a reuse audit, after section 4.14.2 of RFC 9700, with the
  lookup and the commit of a refresh as separate steps.
- **Recurring transfers.** `Calendar` and `Iso` are the date arithmetic and the date text of ECMA-262,
  `Schedule` is the next occurrence, `Recurring` the scans with failures, edits and crashes between any two steps,
  `Occurrences` what becomes of a schedule from scan to scan.
- **Lists and reports.** `Pagination` and `Cursor` (keyset pages), `Statements` (monthly statements).
- **Arithmetic and limits.** `Splits`, `RoundUps`, `Pin`, `Luhn`. `Sums` holds the laws of totals,
  `Text` the few string operations that decide a branch.

`Serialised` runs, where a result needs them, are those in which a settlement, decision or deposit transaction finds
the row it acts on as it was read. `SteadyFor` asks that of one transfer's requests only, and that neither `forceSettle` nor
a job that never read it rewrites its status once it has settled.

## Where the code and its promises differ

- Monthly on the 31st, asked on 31 January, answers 31 March: `setUTCMonth` rolls over a short month before the
  day is cut to the month's last one. `apps/api/src/modules/recurring-transfers/recurring-transfers.service.spec.ts`
  expects the last day of February (`Schedule.JanuaryThirtyFirstSkipsFebruary`).
- Monthly on day 0, which the request type admits, may answer the same day; `Schedule.StrictlyLaterExactly` says
  exactly when. No occurrence is paid twice even so.
- Two rejections of one transfer, both past their check before either commits, refund it twice in balance and ledger
  and once in the feed (`BankRaces.OverlappingRejectionsBreakTheFeed`). `BankAgreement.FeedAgreesExactlyOnLiveRows` is the
  exact condition; the ledger agrees always.
- Inbound transfers debit their account first and credit it back, so they cost their fee and never drain
  `PENDING_OUT`.
- A settlement or refund that commits on a transfer whose feed row is no longer pending drains suspense again - after
  `forceSettle` on a settled transfer (`BankRaces.ReopenedSettlementPaysTwice`), or beside a stale decision
  (`BankRaces.RejectedTransferSettles`). `BankClosing.SuspenseIsOwedExactly` is the exact condition.
- Two approvals of one deposit, both past their check, credit it twice; `BankDeposits.BalancesAgreeWithChecksExactly` is
  the exact condition.
- A second round-up sweep of a user on one day replays the first transfer and marks the new rows applied, and a split
  naming a goal that is gone leaves swept rows unmarked; `RoundUps.ApplyKeepsLevelExactly` is the exact condition. A
  purchase whose event arrives twice is recorded twice (`RoundUps.OneRowPerArrival`).
- A recurring transfer that was made just before a crash stays due while its owner's transfers are disabled: the lock is
  checked before the key (`Recurring.ScanMovesPaidRowsOnly`). It is not paid again either.
- Cursors are longer than the length the list request admits for its `cursor` field, so the refinement holds of the
  service, not of a client behind that validation.

## Model

| member | source | states |
|---|---|---|
| `BankAgreement.BalancesAgreeWithLedger` | apps/api/src/modules/transfers/transfers.service.ts:387-482 | in every reachable state, under every interleaving of reads and commits, job failures, `forceSettle` and deposits: each cached balance is its opening value plus the deposit rows of its feed plus net credits on its `ACCT_` sub-ledger |
| `BankAgreement.BalancesAgreeWithRowsAndDrift` | apps/api/src/modules/transfers/settlement.worker.ts:59-157 | in every reachable state each balance is its opening value plus its pending and posted rows plus a named drift: the amounts of transactions that overwrote a row already out of the balance |
| `BankAgreement.FeedAgreesExactlyWithoutOverwrites` | apps/api/src/modules/admin/transfers/admin-transfers.service.ts:268-316 | balances and customer rows agree for all accounts if and only if no committed transaction moved money for a row that was already out of the balance |
| `BankAgreement.FeedAgreesExactlyOnLiveRows` | apps/api/src/modules/admin/transfers/admin-transfers.service.ts:268-316 | the same condition on the steps of the run: every settlement and refund that moved money found its row pending or posted when it committed |
| `BankDeposits.DepositsAreCommittedCredits` | apps/api/src/modules/check-deposits/check-deposits.service.ts:385-413 | in every run the deposit rows of an account are the approvals that committed, each worth its check |
| `BankDeposits.BalancesAgreeWithChecksExactly` | apps/api/src/modules/check-deposits/check-deposits.service.ts:373-413 | every balance is its opening value plus its approved checks plus net sub-ledger credits, if and only if no approval or rejection committed on a check already approved |
| `BankDeposits.DepositsAreApprovedChecksExactly` | apps/api/src/modules/check-deposits/check-deposits.service.ts:373-413 | the deposits of all accounts are their approved checks under exactly that condition |
| `BankDeposits.SerialisedHandleOnce` | apps/api/src/modules/check-deposits/check-deposits.service.ts:373-381 | the condition holds in every serialised run |
| `BankOnce.AllRecordsAgree` | apps/api/src/modules/transfers/transfers.service.ts:387-482 | balance, feed rows and sub-ledger agree on every account in every run whose transactions find their row as they read it |
| `BankAgreement.NoOverdraft` | apps/api/src/modules/transfers/transfers.service.ts:371-398 | no interleaving of any number of initiates past the same stale pre-check, settlements, refunds and failures takes a non-negative balance below zero |
| `BankAgreement.MoneyIsConserved` | apps/api/src/modules/transfers/transfers.service.ts:403-432 | over all customers, growth beyond deposits plus the nets of cash, suspense and fee revenue is zero in every reachable state |
| `BankAgreement.TrialBalanceIsAlwaysZero` | apps/api/src/modules/ledger/trial-balance.service.ts:28-46 | summed ledger account by ledger account, debits equal credits in every reachable state |
| `BankLifecycle.OneTransferPerKey` | apps/api/src/modules/transfers/transfers.service.ts:293-303 | over every interleaving, including concurrent requests with one key: a key has at most one transfer, each with one initiation journal, one commit and its own pending row |
| `BankLifecycle.ReplayIsStable` | apps/api/src/modules/transfers/transfers.service.ts:293-303 | after any further run, repeating a key answers with that same transfer for its user, a conflict for anyone else, the lock for a user disabled by then, and changes nothing |
| `BankLifecycle.SuspenseLaw` | apps/api/src/modules/transfers/transfers.service.ts:403-432 | under every interleaving the net `PENDING_OUT` credit of a transfer is its amount times one less its drains, and its settle and reject journals are exactly its committed settlements and rejections |
| `BankClosing.SuspenseIsOwedExactly` | apps/api/src/modules/transfers/settlement.worker.ts:65-156 | in every run, also with `forceSettle`: a transfer has at most one settle or reject journal if and only if each of them found its feed row pending at commit; suspense holds its amount while the row is pending and nothing after under exactly that condition, and never more |
| `BankClosing.SuspenseBalanceIsOwedExactly` | apps/api/src/modules/transfers/settlement.worker.ts:65-156 | in every run the suspense balance is at most what the transfers owe it, and equal to the cent if and only if no outbound or internal transfer with money was closed from a row no longer pending |
| `BankOnce.SuspenseIsExact` | apps/api/src/modules/transfers/settlement.worker.ts:39-53 | when the requests on one transfer find the row they read and its status is left alone once settled, whatever happens to others: `posted` and `rejected` tell which journal there is, and suspense holds the amount exactly while neither |
| `BankOnce.SuspenseBalanceIsOutstandingTotal` | apps/api/src/modules/transfers/settlement.worker.ts:65-156 | when that holds of every transfer, the suspense balance is the total of those neither posted nor rejected, to the cent |
| `BankLifecycle.SettlementFollowsApproval` | apps/api/src/modules/transfers/transfers.service.ts:453-464 | in every run a wire out, an ACH transfer out or a P2P payment of the threshold or more settles only after an earlier approval |
| `BankLifecycle.HeldExactly` | apps/api/src/modules/transfers/transfers.service.ts:453-464 | in every reachable state the transfers held for review are the wires out, the ACH transfers out and the P2P payments from the threshold up, and only those carry a decision |
| `BankOwners.TransfersAreOwned` | apps/api/src/modules/transfers/transfers.service.ts:358-369 | in every reachable state the account a transfer debits belongs to the user who asked for it, an internal transfer has a destination of the same user, and accounts never change hands |
| `BankOwners.StartsExactly` | apps/api/src/modules/transfers/transfers.service.ts:270-374 | a call goes ahead if and only if its key is new, its user not disabled, it is quoted, a wire has its details and a local one an approved payee, and the accounts are the caller's own, active, with amount and fee at hand; it then asks for exactly what was quoted |
| `BankOwners.RefusalsAreTrue` | apps/api/src/modules/transfers/transfers.service.ts:270-374 | every refusal names something that is wrong with the call |
| `BankOwners.KnownKeysReplay` | apps/api/src/modules/transfers/transfers.service.ts:293-303 | a used key answers its own user with a transfer that carries it and refuses anybody else |
| `BankEffects.InitiationsTake` | apps/api/src/modules/transfers/transfers.service.ts:387-482 | in every run each initiation that commits takes amount and fee from its account alone, as one pending row of its kind, books the amount to suspense and the fee to revenue, and records the transfer as asked, held for review by kind and threshold |
| `BankEffects.InitiateCommitsExactly` | apps/api/src/modules/transfers/transfers.service.ts:387-482 | the locked part commits if and only if the funds are there and the key is unused, whatever the unlocked part saw |
| `BankEffects.SettlementsPay` | apps/api/src/modules/transfers/settlement.worker.ts:59-157 | in every run each settlement that commits pays by kind: internal and P2P raise the destination's balance, row and sub-ledger by the amount out of suspense, inbound ones their own account's out of cash, others move suspense to cash and no customer's balance |
| `BankEffects.RejectionsRefund` | apps/api/src/modules/admin/transfers/admin-transfers.service.ts:268-316 | in every run each rejection that commits gives amount and fee back to the account they came from, out of suspense and revenue, and reverses row and transfer |
| `BankEffects.ApprovalsOnlyDecide` | apps/api/src/modules/admin/transfers/admin-transfers.service.ts:229-242 | an approval records itself and moves nothing |
| `BankEffects.ApprovedChecksCredit` | apps/api/src/modules/check-deposits/check-deposits.service.ts:385-413 | an approved check credits its account with its amount, as one posted deposit row and without a journal |
| `BankEffects.RejectedChecksOnlyClose` | apps/api/src/modules/check-deposits/check-deposits.service.ts:447-465 | a rejected check leaves the pending state and nothing else changes |
| `BankDecisions.DecisionsAreFinal` | apps/api/src/modules/admin/transfers/admin-transfers.service.ts:221-242 | in every run at most one decision is recorded on a transfer if and only if none was committed on it once decided; and then a rejected one never settles, however stale the settlements, even when set back to pending |
| `BankDecisions.SerialisedDecideOnce` | apps/api/src/modules/admin/transfers/admin-transfers.service.ts:226-227 | decisions on one transfer that commit on the row they read are decided once, whatever else in the run is stale |
| `BankLimits.EveryTransferIsPriced` | apps/api/src/modules/transfers/transfers.service.ts:316-345 | in every reachable state each transfer lies within the limits of its kind and carries exactly the fee of its speed, kind and reach, whatever raced between quote and commit |
| `BankShape.PendingPostingsPost` | apps/api/src/modules/transfers/transfers.service.ts:403-432 | the postings built by `initiate` pass every guard of `post`, for every amount and fee |
| `BankShape.SettlePostingsPost` | apps/api/src/modules/transfers/settlement.worker.ts:59-125 | the postings of all three settlement branches pass every guard of `post` |
| `BankShape.RejectPostingsPost` | apps/api/src/modules/admin/transfers/admin-transfers.service.ts:279-301 | the postings of a refund pass every guard of `post`, with and without a fee |
| `BankShape.RunKeepsShape` | apps/api/src/modules/transfers/transfers.service.ts:387-482 | every run keeps the tables well formed: journals balanced on known codes, rows and transfers linked, non-negative amounts |
| `BankRaces.OverlappingRejectionsBreakTheFeed` | apps/api/src/modules/admin/transfers/admin-transfers.service.ts:226-316 | from any reviewable transfer, two rejections that both read it before either commits record two decisions and leave some balance off its rows, while the ledger still agrees |
| `BankRaces.OverlappingApprovalsCreditTwice` | apps/api/src/modules/check-deposits/check-deposits.service.ts:377-413 | from any pending check, two approvals that both read it before either commits credit its account twice for one approved check |
| `BankRaces.RejectedTransferSettles` | apps/api/src/modules/admin/transfers/admin-transfers.service.ts:226-342 | from any reviewable transfer, a rejection and an approval that both read it before either commits, then `forceSettle`: it is refunded and settled |
| `BankRaces.ReopenedSettlementPaysTwice` | apps/api/src/modules/transfers/transfers.service.ts:638-656 | from any transfer that can settle, settling, `forceSettle` and settling again posts two settlements |
| `BankRaces.InflowsOnlyCostTheirFee` | apps/api/src/modules/transfers/settlement.worker.ts:96-115 | the two journals of an inbound transfer together cost its account the fee and leave the amount in `PENDING_OUT` |
| `BankStore.Store.Submit` | apps/api/src/modules/transfers/transfers.service.ts:270-374 | the unlocked checks in the code's order: it proceeds if and only if key, user, quote, wire details, ownership, state and funds all allow it, and then one request is in flight with exactly that amount and fee |
| `BankStore.InitiateTx` | apps/api/src/modules/transfers/transfers.service.ts:387-482 | the `initiate` transaction, statement by statement, commits or rolls back exactly as the specification |
| `BankStore.SettleTx` | apps/api/src/modules/transfers/settlement.worker.ts:59-157 | the settlement transaction with its three branches, equal to its specification |
| `BankStore.RejectTx` | apps/api/src/modules/admin/transfers/admin-transfers.service.ts:268-316 | the rejection transaction with refund and fee refund, equal to its specification |
| `BankStore.CreditTx` | apps/api/src/modules/check-deposits/check-deposits.service.ts:385-413 | the deposit approval transaction, equal to its specification |
| `BankStore.Store.RunTransaction` | apps/api/src/modules/transfers/settlement.worker.ts:59-157 | a transaction on the tables commits whole or leaves no trace |
| `BankStore.Store.PickUp` | apps/api/src/modules/transfers/settlement.worker.ts:38-53 | a settlement job goes ahead exactly for a pending transfer that needs no review or is approved, carrying the row as it is |
| `BankStore.Store.OnFailed` | apps/api/src/modules/transfers/settlement.worker.ts:217-223 | a job out of attempts marks its transfer declined, whether or not it ever read it, and changes nothing else of the transfers |
| `BankStore.Store.ForceSettle` | apps/api/src/modules/transfers/transfers.service.ts:638-656 | any row that is not pending is set back to pending, and nothing else changes |
| `BankStore.Store.OpenDecision` | apps/api/src/modules/admin/transfers/admin-transfers.service.ts:214-242 | a decision goes ahead exactly for an undecided transfer under review, a rejection only with a reason that is not blank, carrying the row as it is |
| `BankStore.Store.OpenDeposit` | apps/api/src/modules/check-deposits/check-deposits.service.ts:373-383 | a deposit decision goes ahead exactly for a pending deposit, an approval only with its account |
| `BankStore.Store.SubmitCheck` | apps/api/src/modules/check-deposits/check-deposits.service.ts:52-97 | a mobile deposit is taken exactly when positive, within the limit and for an existing account |
| `BankStore.Store.SetTransfersDisabled` | apps/api/src/modules/admin/users/admin-users.service.ts:931-958 | the lock of one user is set or lifted, never by that user, and nobody else is touched |
| `Ledger.CheckPosting` | apps/api/src/modules/ledger/ledger.service.ts:54-100 | the guards and the `byCode` loop of `post` compute the specified outcome |
| `Ledger.OpenCodesSpec` | apps/api/src/modules/ledger/ledger.service.ts:54-100 | `post` keeps known codes, repeats none, knows every posting's code on success, and is refused exactly for an unknown code it may not open |
| `Ledger.PostsExactly` | apps/api/src/modules/ledger/ledger.service.ts:54-100 | a journal posts if and only if it has two postings, debits equal credits, and each unknown code may be opened by its own or an earlier posting; each other case has its own error |
| `Ledger.Book.Post` | apps/api/src/modules/ledger/ledger.service.ts:54-100 | a posted journal is appended and well posted on the new codes; a refused one changes nothing |
| `Ledger.Book.EnsureAccountLedger` | apps/api/src/modules/ledger/ledger.service.ts:40-52 | a customer's sub-ledger code is present afterwards, added at most once and after the codes there were |
| `Ledger.Book.ComputeAndReport` | apps/api/src/modules/ledger/trial-balance.service.ts:28-46 | the accumulated delta is the per-account total, and a book of well-posted journals always reports balanced |
| `Ledger.BalancedJournalsTotalZero` | apps/api/src/modules/ledger/trial-balance.service.ts:28-46 | journals balanced one by one total zero when summed account by account |
| `Ledger.AccountCodesAreSeparate` | apps/api/src/modules/ledger/chart-of-accounts.ts:17-31 | a sub-ledger code names one account and is never a system code |
| `Quote.PricedTransfersAreWithinLimits` | apps/api/src/modules/transfers/quote.util.ts:35-81 | a transfer is priced if and only if it is within its limits and not both instant and internal; an instant fee is the larger of the minimum and the floored share, a wire costs 350 or 460, anything else nothing |
| `Quote.FeesAreMonotone` | apps/api/src/modules/transfers/quote.util.ts:59-80 | sending more never costs less |
| `Quote.BetweenPricedAmounts` | apps/api/src/modules/transfers/quote.util.ts:44-80 | between two priced amounts every amount is priced, at a fee between theirs |
| `Fx.RatePositive` | apps/api/src/modules/fx/fx.service.ts:124-150 | rates are positive whatever the feed holds, through the peg fallback |
| `Fx.RatesCompose` | apps/api/src/modules/fx/fx.service.ts:124-150 | rates over one table compose across a third currency; hence they are mutually reciprocal |
| `Fx.ConvertMonotone` | apps/api/src/modules/fx/fx.service.ts:158-171 | a larger amount never converts to less |
| `Fx.RoundTripError` | apps/api/src/modules/fx/fx.service.ts:158-171 | converting and converting back is off by at most 1/2 + 1/(2k) minor units |
| `Fx.LosslessExactlyWhenFiner` | apps/api/src/modules/fx/fx.service.ts:158-171 | the way back recovers every amount if and only if k is at least 1 |
| `Fx.DollarWiresSettleAtFace` | apps/api/src/modules/transfers/transfers.service.ts:133-155 | a wire sent in dollars, in any spelling of their code, settles at exactly the amount sent |
| `Fx.SettlesAtTheRate` | apps/api/src/modules/transfers/transfers.service.ts:133-155 | a transfer settles at its dollars, a wire in a supported currency within half a cent of the live rate, or of the peg where there is none, and an unknown currency is refused |
| `Fx.PegAnswers` | apps/api/src/modules/fx/fx.constants.ts:39-70 | what a hundred thousand minor units of each currency come to at the pegs |
| `Sessions.TokensRotateAtMostOnce` | apps/api/src/modules/sessions/sessions.service.ts:100-158 | under every interleaving of reads, commits, revocations and purges each refresh token rotates at most once |
| `Sessions.CurrentTokensAreFresh` | apps/api/src/modules/sessions/sessions.service.ts:138-158 | current tokens are distinct, none of them audited or ever rotated |
| `Sessions.OneLiveSessionPerUser` | apps/api/src/modules/sessions/sessions.service.ts:55-79 | each user has at most one unrevoked session in every reachable state |
| `Sessions.ReuseKillsFamilyForEver` | apps/api/src/modules/sessions/sessions.service.ts:100-118 | presenting a rotated token leaves its family without a live session in that state and every later one |
| `Sessions.CurrentTokenIsRefreshable` | apps/api/src/modules/sessions/sessions.service.ts:100-136 | the current token of every live session can be refreshed |
| `Sessions.RefreshIsThreeSteps` | apps/api/src/modules/sessions/sessions.service.ts:100-158 | an undisturbed refresh is its three atomic steps in a row |
| `Sessions.SessionStore.IssueSession` | apps/api/src/modules/sessions/sessions.service.ts:46-98 | issuing revokes the user's other sessions, adds one, live under the token it answers, and changes no one else's |
| `Sessions.SessionStore.RotateRefresh` | apps/api/src/modules/sessions/sessions.service.ts:100-158 | a refresh answers a new token exactly for the current token of a live session that is not idle, auditing the old one; an audited or stale token ends its family, an idle session ends alone |
| `Sessions.SessionStore.RevokeAllForUser` | apps/api/src/modules/sessions/sessions.service.ts:160-174 | answers exactly the user's live sessions, which become revoked; no other session changes and the user has none live |
| `Sessions.SessionStore.RevokeAllOther` | apps/api/src/modules/sessions/sessions.service.ts:253-267 | the same for the user's sessions but the current one, which stays as it is |
| `Sessions.SessionStore.RevokeOne` | apps/api/src/modules/sessions/sessions.service.ts:191-201 | one session ends, for its own user only, and the others stay |
| `Sessions.SessionStore.PurgeForUser` | apps/api/src/modules/sessions/sessions.service.ts:210-251 | a purge takes away exactly the user's sessions and the audit rows of their families |
| `Sessions.PurgedSessionsStayGone` | apps/api/src/modules/sessions/sessions.service.ts:210-251 | a purged session never comes back, whatever refreshes were in flight |
| `Calendar.FromDayIsRight` | apps/api/src/modules/recurring-transfers/recurring-transfers.service.ts:8-23 | every day number has exactly one valid civil date naming it (with `ToDayIsRight`), over all integers: section 21.4.1 of ECMA-262, which the setters follow |
| `Calendar.ToDayIsRight` | apps/api/src/modules/recurring-transfers/recurring-transfers.service.ts:8-23 | every valid civil date is the one its day number has |
| `Calendar.DaysFollowOn` | apps/api/src/modules/recurring-transfers/recurring-transfers.service.ts:8-23 | day 0 is Thursday 1 January 1970, and each date and weekday follows the one before by the lengths of the months and the leap years |
| `Schedule.ComputeNextRunAt` | apps/api/src/modules/recurring-transfers/recurring-transfers.service.ts:8-23 | the setters of the code, with their rollovers, compute the specified occurrence |
| `Schedule.WeeksLandOnWeekday` | apps/api/src/modules/recurring-transfers/recurring-transfers.service.ts:10-15 | weekly lands 1 to 7 and biweekly 8 to 14 days on, on the chosen weekday |
| `Schedule.MonthsLandOnDay` | apps/api/src/modules/recurring-transfers/recurring-transfers.service.ts:16-20 | monthly lands on min(dayOf, last day) of the month `setUTCMonth` rolls into |
| `Schedule.StrictlyLaterExactly` | apps/api/src/modules/recurring-transfers/recurring-transfers.service.ts:8-23 | the answer is strictly later than the clock if and only if it is not a monthly schedule on day 0 asked at or after nine on a month's last day whose number the next month has too |
| `Schedule.NeverBeforeDueOccurrence` | apps/api/src/modules/recurring-transfers/recurring-transfers.service.ts:8-23 | the answer is never before an occurrence already due, for every schedule |
| `Schedule.JanuaryThirtyFirstSkipsFebruary` | apps/api/src/modules/recurring-transfers/recurring-transfers.service.ts:16-20 | 31 January, monthly on the 31st: 31 March in every year |
| `Schedule.DayZeroCanGoBack` | apps/api/src/modules/recurring-transfers/recurring-transfers.service.ts:16-20 | monthly on day 0: an input for which the answer is earlier than the clock |
| `Recurring.AtMostOncePerOccurrence` | apps/api/src/modules/recurring-transfers/recurring-transfers.service.ts:98-127 | over every interleaving of scans, failures, edits, cancellations and crashes: no occurrence of a schedule has two transfers, none is early, and none that was not paid is about to be advanced past |
| `Recurring.NoOccurrenceIsSwallowed` | apps/api/src/modules/recurring-transfers/recurring-transfers.service.ts:106-113 | an accepted firing makes its transfer unless that very occurrence already has one |
| `Recurring.OccurrencesMoveForward` | apps/api/src/modules/recurring-transfers/recurring-transfers.service.ts:66-127 | when each firing finds its row as the scan read it, the occurrences paid for a schedule strictly increase |
| `Recurring.KeyNamesOccurrence` | apps/api/src/modules/recurring-transfers/recurring-transfers.service.ts:106-106 | two idempotency keys are equal if and only if schedule and occurrence are |
| `Recurring.OneBankTransferPerOccurrence` | apps/api/src/modules/transfers/transfers.repository.ts:13-15 | in every run of the bank the transfers table has at most one row under an occurrence's key |
| `Recurring.ScanMovesPaidRowsOnly` | apps/api/src/modules/recurring-transfers/recurring-transfers.service.ts:98-127 | after a scan a row it read has moved on - run now, next date of its schedule, else as it was - if and only if its occurrence has a transfer and its owner was not locked out; other rows are unchanged |
| `Recurring.ScanIsRun` | apps/api/src/modules/recurring-transfers/recurring-transfers.service.ts:98-127 | a scan is a run of the state machine |
| `Recurring.Scheduler.RunDueNow` | apps/api/src/modules/recurring-transfers/recurring-transfers.service.ts:98-127 | the loop over the due rows makes exactly the scan's steps; a row moves on exactly when its occurrence is paid and its owner not locked out, others stay, and the count is of the calls that returned |
| `Occurrences.ScanAdvances` | apps/api/src/modules/recurring-transfers/recurring-transfers.service.ts:114-120 | after a scan a paid row was run now, waits at nine on the day its frequency names, counted from now, and is due again only in the day-0 case; any other row it read is as it was |
| `Occurrences.SchedulesKeepPaying` | apps/api/src/modules/recurring-transfers/recurring-transfers.service.ts:98-127 | in every run, once a scan has paid a schedule, the next scan at or after the date it waits for makes one more transfer, for that date, which had none |
| `Occurrences.FullScanLeavesNothingDue` | apps/api/src/modules/recurring-transfers/recurring-transfers.service.ts:98-127 | a scan that reads every due row and can make every transfer pays them all and leaves no row due, outside the day-0 case |
| `Occurrences.StoppedSchedulesStayStopped` | apps/api/src/modules/recurring-transfers/recurring-transfers.service.ts:88-101 | a schedule paused or cancelled outside a scan gets no more transfers until somebody switches it on again, in any run |
| `Occurrences.EditsSetWhatTheyName` | apps/api/src/modules/recurring-transfers/recurring-transfers.service.ts:58-85 | an edit sets the fields it names and keeps the others; the next run is recomputed from now if and only if the schedule changed |
| `Occurrences.CreatedAndCancelled` | apps/api/src/modules/recurring-transfers/recurring-transfers.service.ts:34-54 | a new schedule is on, never run and waits for its first date; cancelling it leaves the table as it was |
| `Occurrences.PicksExactlyDueRows` | apps/api/src/modules/recurring-transfers/recurring-transfers.service.ts:98-102 | a scan reads a row if and only if it is on and its date has come |
| `Occurrences.FiringsExactly` | apps/api/src/modules/recurring-transfers/recurring-transfers.service.ts:104-113 | a firing makes a transfer if and only if its occurrence has a date that can name it, none yet, and the service can make it; it goes on then, and also when there was one and the owner is not locked out |
| `Occurrences.UpdatesKeepEdits` | apps/api/src/modules/recurring-transfers/recurring-transfers.service.ts:114-120 | the update after a transfer writes the dates of the row the scan read and keeps what was edited since |
| `Iso.IsoRoundTrip` | apps/api/src/modules/recurring-transfers/recurring-transfers.service.ts:106-106 | reading back an ISO string gives the instant it was written from, for all years the format can write |
| `Iso.KnownIso` | apps/api/src/modules/recurring-transfers/recurring-transfers.service.ts:106-106 | the texts of two instants, field by field |
| `Pagination.PagesAreTheListing` | apps/api/src/modules/transactions/transactions.service.ts:34-72 | for any table with unique ids, any filters and any limit of at least 1, following `nextCursor` ends, and the pages together show every row the filters ask for that is not hidden, nothing else, newest first and each once |
| `Pagination.PagesFromAnywhere` | apps/api/src/modules/transactions/transactions.service.ts:34-72 | the same from any position, however a cursor text was read into it |
| `Pagination.PagesFromCursor` | apps/api/src/modules/transactions/transactions.service.ts:34-72 | from any cursor text, also one that does not decode, the pages are what its query leaves |
| `Pagination.PageIsPrefix` | apps/api/src/modules/transactions/transactions.service.ts:51-72 | a page is the visible part of the first `limit` rows, and has a cursor exactly when rows remain, at which the query is what remains |
| `Pagination.CursorCuts` | apps/api/src/modules/transactions/transactions.repository.ts:36-53 | the cursor predicate at a row selects exactly the rows after it |
| `Pagination.ListingIsSortedMatches` | apps/api/src/modules/transactions/transactions.repository.ts:21-53 | a row is listed if and only if its account, status, category, instant and text are as asked, newest first, greater id first among equals |
| `Cursor.DecodeEncode` | apps/api/src/modules/transactions/cursor.util.ts:6-19 | decoding undoes encoding for every date that parses and every plain id |
| `Cursor.DecodesOnlyCursors` | apps/api/src/modules/transactions/cursor.util.ts:10-19 | what decodes is a cursor the service could have written, with a date that parses and an identifier |
| `Cursor.Base64RoundTrip` | apps/api/src/modules/transactions/cursor.util.ts:6-12 | base64url of any byte string decodes to it |
| `Cursor.KnownVectors` | apps/api/src/modules/transactions/cursor.util.ts:6-8 | the test vectors of RFC 4648, section 10, and the URL alphabet of section 5 |
| `Cursor.CursorsOutgrowTheirField` | apps/api/src/modules/transactions/dto/list-transactions.dto.ts:10-13 | every cursor of a UUID and a four-digit year has 114 characters, more than the 64 the request field admits |
| `Pin.FewFailuresPerWindow` | apps/api/src/modules/elevation/transaction-pin.service.ts:114-155 | after any history, with no success or reset between, at most 5k comparisons fail in any k consecutive half-open 15-minute windows |
| `Pin.FiveFailuresFit` | apps/api/src/modules/elevation/transaction-pin.service.ts:135-147 | the bound is reached |
| `Pin.PinService.VerifyPin` | apps/api/src/modules/elevation/transaction-pin.service.ts:114-155 | a PIN is granted exactly when well formed, set, matching and not locked; the counter map after the call, for the caller and for everyone else |
| `Pin.LockLastsExactly` | apps/api/src/modules/elevation/transaction-pin.service.ts:135-147 | the fifth failure refuses every call that begins within fifteen minutes of its end and no later one, and an earlier failure refuses none |
| `Pin.PinService.Reset` | apps/api/src/modules/elevation/transaction-pin.service.ts:105-105 | setting a PIN clears the user's counter only |
| `Splits.NormalizedToOneHundred` | apps/api/src/modules/autosave/splits.util.ts:6-18 | normalised percents are non-negative, total exactly 100, over exactly the positive goals; empty only when none is positive |
| `Splits.NormalizedShares` | apps/api/src/modules/autosave/splits.util.ts:6-18 | each goal gets the floor of its share, and the points lost, fewer than the goals, go to one with the largest |
| `Splits.ScaledPositives` | apps/api/src/modules/autosave/splits.util.ts:6-12 | the entries kept are exactly the positive ones, and each is scaled to the floor of its points of the total |
| `Splits.NormalizeSplits` | apps/api/src/modules/autosave/splits.util.ts:6-18 | the code's statements give non-negative percents of exactly 100 over the positive goals, and nothing only when none is positive |
| `Splits.AllocationIsExact` | apps/api/src/modules/autosave/splits.util.ts:20-36 | every cent is shared out, for any amount and any splits |
| `Splits.AllocationIsFair` | apps/api/src/modules/autosave/splits.util.ts:20-36 | each share is its floor, and the first of the largest splits has the leftover besides, fewer cents than there are splits |
| `Splits.NormalizedAllocation` | apps/api/src/modules/autosave/splits.util.ts:6-36 | normalising then allocating shares exactly the amount, fairly, over exactly the positive goals |
| `Splits.LargestIndex` | apps/api/src/modules/autosave/splits.util.ts:29-33 | the split that gets the leftover is the first of the largest |
| `Splits.AllocateCents` | apps/api/src/modules/autosave/splits.util.ts:20-36 | the loop and the update compute the specified shares |
| `RoundUps.EveryCentIsSweptOrWaiting` | apps/api/src/modules/round-ups/round-ups.service.ts:46-108 | over any run of purchases, changes of settings and sweeps, one a user a day: applied rows total the transfers, recorded cents are in a transfer or waiting, goals grew by what was swept for users with splits then |
| `RoundUps.ApplyKeepsLevelExactly` | apps/api/src/modules/round-ups/round-ups.service.ts:68-108 | from level books a sweep leaves them level if and only if a condition known before it: it stops at a guard, or what it will mark is what it will move, or a split names no goal and it moves nothing |
| `RoundUps.SecondSweepTodayMarksWithoutMoving` | apps/api/src/modules/round-ups/round-ups.service.ts:82-107 | a second sweep of a day marks rows applied and moves nothing, unless the user is locked out |
| `RoundUps.FailedSweepCarriesOver` | apps/api/src/modules/round-ups/round-ups.service.ts:68-108 | after a sweep that stops before its transfer and any purchases, settings and other users' sweeps, the next one moves what waited and all recorded since in one transfer and leaves nothing |
| `RoundUps.ThrownSweepMovesTwice` | apps/api/src/modules/round-ups/round-ups.service.ts:82-107 | after a sweep that throws at a missing goal the next one moves the same cents again, and the transfers exceed the marked rows by exactly what was thrown |
| `RoundUps.OneRowPerArrival` | apps/api/src/modules/round-ups/round-ups.service.ts:24-44 | a purchase has exactly one row for each time its event arrived while round-ups were on |
| `RoundUps.CreditSucceedsExactly` | apps/api/src/modules/round-ups/round-ups.service.ts:98-102 | the goal updates all succeed if and only if every share names a goal |
| `RoundUps.RoundUpIsLeast` | apps/api/src/modules/round-ups/round-ups.service.ts:8-12 | the round-up is the least amount that makes whole dollars |
| `RoundUps.DailyIsRun` | apps/api/src/modules/round-ups/round-ups.service.ts:46-66 | the daily job is a run of sweeps |
| `RoundUps.RoundUpStore.OnSettled` | apps/api/src/modules/round-ups/round-ups.service.ts:24-44 | a row of the cents missing to whole dollars is recorded exactly for an enabled user's card purchase with spare cents |
| `RoundUps.RoundUpStore.ApplyForUser` | apps/api/src/modules/round-ups/round-ups.service.ts:68-108 | guards, transfer or replay, goal updates in a loop, marks: skipped exactly at a guard, one transfer unless the day has one, exactly the user's rows marked and each goal raised by the shares that name it, a missing goal throwing half way |
| `RoundUps.GoalsGetTheirShares` | apps/api/src/modules/round-ups/round-ups.service.ts:98-102 | each goal grows by exactly the shares that name it |
| `RoundUps.RoundUpStore.ApplyDaily` | apps/api/src/modules/round-ups/round-ups.service.ts:46-66 | sums read up front stay right user by user; the job equals the sweeps in order and reports their count and total; when it throws, the users before are done, one is half done and the rest untouched |
| `Statements.StatementAddsUp` | apps/api/src/modules/statements/statements.service.ts:55-92 | closing is opening plus in less out, the last running balance, and the total of all posted rows before the end |
| `Statements.ChainCarriesForward` | apps/api/src/modules/statements/statements.service.ts:43-92 | along any chain of contiguous periods each closing is the next opening, and the ends differ by everything reported |
| `Statements.LinesRun` | apps/api/src/modules/statements/statements.service.ts:55-80 | each line moves the running balance by its amount; lines are the period's posted rows in order |
| `Statements.LinesAreThePeriod` | apps/api/src/modules/statements/statements.service.ts:55-78 | the lines are exactly the account's posted rows from the start to before the end, oldest first; money in is the total of their credits, money out of their debits |
| `Statements.BalanceCountsPostedRows` | apps/api/src/modules/statements/statements.service.ts:296-302 | a balance counts each posted row of the account before the instant once, from nothing |
| `Statements.PeriodSplitsHistory` | apps/api/src/modules/statements/statements.service.ts:296-302 | the balance at the end of a period is that at its start plus its posted rows |
| `Statements.PriorMonthsFollowOn` | apps/api/src/modules/statements/statements.service.ts:9-13 | the period is the whole month before, already over, and the next month's period starts where it ends |
| `Statements.PriorMonthIsTheMonthBefore` | apps/api/src/modules/statements/statements.service.ts:9-13 | the period runs from midnight on the first of the month before to midnight on the first of this one |
| `Statements.Render` | apps/api/src/modules/statements/statements.service.ts:65-92 | the walk accumulates the figures the statement should have |
| `Statements.StatementStore.constructor` | apps/api/src/modules/statements/statements.service.ts:43-47 | an empty file of statements is right for any history |
| `Statements.StatementStore.GenerateOne` | apps/api/src/modules/statements/statements.service.ts:43-92 | one statement per account and start: the one on file unchanged, or a right one |
| `Luhn.CheckDigit` | apps/api/src/modules/cards/card-pan.util.ts:21-32 | the loop computes the digit that makes the weighed sum a multiple of ten |
| `Luhn.CheckDigitIsTheOnlyOne` | apps/api/src/modules/cards/card-pan.util.ts:21-32 | exactly that digit completes the number |
| `Luhn.OneWrongDigitFails` | apps/api/src/modules/cards/card-pan.util.ts:21-32 | changing any single digit of a passing number of any length fails |
| `Luhn.SwappedNeighboursPassExactly` | apps/api/src/modules/cards/card-pan.util.ts:21-32 | swapping neighbours passes if and only if they are equal or a 0 and a 9 |
| `Luhn.KnownNumber` | apps/api/src/modules/cards/card-pan.util.ts:21-32 | a known number passes and its neighbour does not |
| `Luhn.GeneratePan` | apps/api/src/modules/cards/card-pan.util.ts:3-10 | a six-digit prefix gives a 16-digit number that starts with it and passes; anything else is an error |

## Left out

- Email, SMS, push and realtime events, PDF rendering, storage, audit log rows and notifications: they follow a commit
  and change none of the modelled tables.
- Hashing, encryption, JWT and WebAuthn: tokens and hashes are fresh, injective values; a PIN comparison is its result.
- Row fields that no modelled branch reads: descriptions, timestamps other than `occurredAt`, settled-row links.
- Identifiers of transfers, rows and sessions are table positions; the schedule, goal, user and row identifiers that
  appear in keys or orders are text.
- Admin wire reversal and admin transaction overrides; `hidden` stands for the override's effect on the list.
- The monthly job's loop over the active accounts: one `generateOne` each.
- The text filter of the list is any predicate on rows; the merchant join is not modelled.
- Limits and fees from configuration are assumed non-negative where a lemma says `Sane`.
- Floating point: rates and conversions are over reals, percent scaling is integer division of integer percents.
- `Date` range limits: instants are unbounded; `toISOString` is taken to fail outside six-digit years.
- `transfers.initiate`, as recurring transfers and round-ups call it, is locked, replayed, made or refused, in that order;
  `BankLifecycle.OneTransferPerKey` and `BankLifecycle.ReplayIsStable` prove that order of the bank. Keys
  a client chooses to equal a schedule's key are not considered there.
- Round-up keys are modelled as the pair of user and UTC day, not as text.
- Overlapping sweeps of one user, overlapping PIN calls of one user and exceptions after a settlement's commit: each of these
  calls is one step.
- The comparison of the current PIN inside `setPin` is not part of the attempt counter.
- Decode: recognises the JSON text `encodeCursor` writes, and dates in the format of `toISOString`; other JSON spellings
  and date formats that JavaScript would accept are taken as undecodable.
- Encode: identifiers are printable ASCII without quotes or backslashes, as UUIDs are, so no JSON escaping is modelled.
- AllRecordsAgree: stated for serialised runs only, because it is false of others; the general statement is
  `BankAgreement.FeedAgreesExactlyOnLiveRows`.
- `Text.Upper` leaves alone the characters whose upper case is several letters; no supported currency code contains such
  a sequence.
- Stored statements are taken over a fixed posted history; rows posted later with an earlier date are not modelled.
