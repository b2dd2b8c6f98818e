# BCKash: lending, branch money, ledger and histories

A Dafny model of the parts of the BCKash cooperative-lending backend where money and statuses have to agree
across several collections, with proofs of what those parts promise. `dafny verify dfyconfig.toml` checks it.

| files | what they hold |
|---|---|
| `Lending`, `LendingInvariant`, `LendingCoherence`, `OvertakenWrites` | the group-loan lifecycle as one state machine over loans, member accounts, verifications and calls in flight; its invariants over all runs; exactly which steps break them, with runs that do |
| `LendingMoney`, `LendingAttempts`, `LendingMembers`, `LendingAftermath` | conservation of branch funds, disbursement, totals, exactly when overlapping attempts pay twice, quoted interest, one loan per customer, cheque handover, completion |
| `LendingPasses`, `LendingVerification`, `LendingEffects` | when an attempt may pay, what passes and overrides lead to, verifying all members in turn; what every other operation accepts and writes |
| `LendingService` | the loan services as a class over its collections, each method proved to be its step or its run |
| `Interest`, `Schedule` | flat and reducing interest, due dates, schedules, re-dating |
| `BranchFunds` | fundings verified or rejected by racing callers, balances credited and debited |
| `JournalBalance`, `Ledger`, `PostingLines`, `LedgerService`, `TrialBalance` | the balance check, idempotent posting under interleaving, which accounts a posting moves, the trial balance |
| `MoneyTrail` | lending and accounting as one joint machine, from the branch debit to the ledger entries |
| `Leave`, `Registers`, `ApprovalChain` | leave usage, the three close-old-open-new histories, product approval chains |
| `Common` | sums over collections, exchange of nested sums, sorting |

Money is in integer kobo and instants in integer milliseconds. A document's id is its position in its
collection; a deleted document leaves a gap. A state machine is a function `Next` over an `Action`, a run
is a sequence of actions, and a guard that fails (an exception, or nothing to do) leaves the state as it
is. The classes hold the collections as fields; their methods follow the services' control flow and are
proved equal to the steps, or, where guards sit inside a database write, run `Interfere` between their
operations: an arbitrary number of arbitrary steps of other callers.

## Assumptions about the surroundings

- The workflow engine decides a request at most once and delivers events only for requests so decided, at
  any later moment and any number of times. For manual journal entries the payloads approved are ones
  `proposeEntry` accepted; what an unchecked payload does is stated separately, and likewise for product
  approval chains.
- Each call that raises, edits, deletes, rejects or hands over is one step. Verification calls are split into
  the read of the loan, the read of the account, the status write and the recording of the outcome;
  resolutions into checks and writes; attempts to disburse into the reads of the loan, of the verifications and
  of the product, and the transaction, which conflicting transactions serialise. Funding decisions, ledger
  postings and leave handlers are split at every database operation that other callers can overtake.
- Repayments, reversals and penalties touch only accounts that have been disbursed.
- Disbursement postings begin only in the loop that follows a disbursement (`loan-verification.service.ts:513-534`,
  the only caller), at any later moment and any number of times; every other posting is arbitrary.
- Within a loan no two accounts belong to one customer (proved), so looking a member up by first or by last
  match is the same.

## Where the code and its documentation differ

- An attempt to disburse is said to be safe to call repeatedly (`loan-verification.service.ts:358-364`). Attempts
  that do not overlap are (`ApartIsUnrepeated`, `LateAttemptNeverPays`). One that runs its transaction after
  another has paid the loan since its own read of it, or after a late status write has reopened the loan, pays a
  second time: `PaymentRepeatsIff`, `PaidOnceIffNoneLate`, with runs in `OvertakenWrites`.
- A rejection is said never to reach an active account (`loans.service.ts:501-512`). A verification call's status
  write and upsert, a resolution's rejection and the transaction of a disbursement do not look again at what
  they overwrite: `RunCoherentIff` says exactly when, at the granularity above, loans, accounts and
  verifications come to disagree,
  `OvertakenWrites` gives runs that close an unpaid account and disburse a rejected loan.
- The cumulative amount is said to be unable to drift (`loans.service.ts:601-603`). An edit that throws midway
  leaves it stale; `EditTalliesIff` says exactly when.
- A customer is to have one loan at a time (`loans.service.ts:277-280`). A reversed repayment can reopen a
  second one, and so can a disbursement that comes after a rejection; `OneOpenRunIff` says exactly when.
- The guard against negative principal (`interest-schedule.ts:153-159`) is dead code, while the last portion,
  which it does not guard, can be negative, at ordinary rates too: `PortionsNonNegativeIff`,
  `CoveredPortionsNonNegative`, `LargeInstallmentPortionsNonNegative` and `OverpaidPortionNegative` say when.
  Interest is said to decline strictly; it never rises.
- The product schema calls the rate annual; the code charges it once per tenure, and so does the model.
- The error for an empty request list (`loans.service.ts:254-256`) is unreachable: the consent check fails first.
- "endDate must be on or after startDate" (`leave-application.service.ts:117`) tolerates half a day.
- A leave application is meant to be counted exactly while approved. Overlapping handlers can leave a cancelled
  one counted or an approved one not; `SettledRunIff` says exactly when.
- A penalty can be added to an account that was closed after the sweep selected it (`penalty-sweep.service.ts:309-313`).
- The trial balance is called a check that debits equal credits system-wide (`accounting.service.ts:319-325`). A
  posting while it is read account by account can make it report otherwise; `TornTotalsDiffer` says by how much.
- A backdated salary (`salary.service.ts:101-146`) makes two records apply at once; `CoverageExact` says exactly when.

## Model

| member | source | states |
|---|---|---|
| LendingCoherence.CoherentLoan | src/modules/loans/loans.service.ts:501-512 | In a coherent state a loan before disbursement has only pending, unscheduled accounts, a rejected one only closed, never scheduled ones, and a disbursed or closed one only scheduled accounts that passed verification; VERIFICATION_FAILED and DEFAULTED never occur |
| LendingCoherence.CoherentStepIff | src/modules/loans/loan-verification.service.ts:105-478 | A step from a coherent state stays coherent if and only if it is not overtaken: no status write of a verification call for a loan that has left APPROVED and VERIFICATION_IN_PROGRESS, no escalation and no rejection recorded after the money went out, no payout after a member has lost its pass, no penalty on an account closed meanwhile |
| LendingCoherence.RunCoherentIff | src/modules/loans/loan-verification.service.ts:105-478 | A whole run, its verification calls and attempts to disburse interleaved at every database operation, is coherent at every point if and only if no step of it is overtaken |
| LendingCoherence.InitialRunCoherentIff | src/modules/loans/loan-verification.service.ts:105-478 | In particular every run from an empty loan book |
| LendingCoherence.RejectionSparesActiveIff | src/modules/loans/loans.service.ts:501-529 | In a coherent state a rejection, by workflow or by escalation, leaves an ACTIVE account as it was if and only if it is not a resolution overtaken by the disbursement of that account |
| OvertakenWrites.LateEscalationClosesUnpaidAccount | src/modules/loans/loan-verification.service.ts:199-220 | From every empty loan book and every raisable one-member application, a run in which only an escalation is late ends with the branch debited, the loan REJECTED and the unpaid, scheduled account CLOSED |
| OvertakenWrites.LateMarkDebitsTwice | src/modules/loans/loan-verification.service.ts:112-143 | From every empty loan book with funds for both, a run of two calls in which only a status write is late, and no two attempts to disburse overlap, debits the branch twice for one loan |
| OvertakenWrites.LateMarkDisbursesRejected | src/modules/loans/loan-verification.service.ts:112-143 | And another in which it revives a loan already rejected and disburses it |
| OvertakenWrites.OverlappingAttemptsDebitTwice | src/modules/loans/loan-verification.service.ts:358-478 | Attempts are said to be safe to repeat; from every empty loan book with funds for both, two that overlap debit the branch twice although no other call is late |
| LendingInvariant.RunBase | src/modules/loans/loans.service.ts:431-573 | Over every run whatsoever: accounts belong to existing loans, one per member, verifications, running calls, resolutions and attempts name loans past approval, a disbursed loan is never pending again, balances are not negative |
| LendingInvariant.SoundStepIff | src/modules/loans/loan-verification.service.ts:139-143 | A step keeps statuses, money and schedules in agreement if and only if it is not a late status write: a call that saw APPROVED writing to a loan that is neither APPROVED nor VERIFICATION_IN_PROGRESS any more |
| LendingInvariant.RunSound | src/modules/loans/loans.service.ts:431-573 | Over every run without a late status write: statuses agree with whether money left and with the one decision of the workflow, accounts are scheduled exactly when their loan was disbursed, schedules telescope from the principal |
| LendingInvariant.NextSound | src/modules/loans/loans.service.ts:431-573 | Every single step but a late status write keeps that invariant |
| LendingMoney.FundsConserved | src/modules/branches/branch-fund-balance.service.ts:61-106 | After any run whatsoever, late writes included, a branch balance is the total of its verified fundings less everything paid out of it, and never negative |
| LendingMoney.FundsAreLentOrRepeated | src/modules/branches/branch-fund-balance.service.ts:61-106 | In every run it is the total of its verified fundings, less the cumulative amounts of its disbursed loans, less what was paid out for loans disbursed before |
| LendingAttempts.ApartFundsAreLent | src/modules/branches/branch-fund-balance.service.ts:61-106 | Over every run without a late status write in which attempts to disburse the same loan do not overlap, it is its verified fundings less its disbursed loans |
| LendingAttempts.FundsAreLentIfNoneLate | src/modules/branches/branch-fund-balance.service.ts:61-106 | More generally over every run in which no transaction comes late |
| LendingMoney.StepSpends | src/modules/loans/loan-verification.service.ts:411-478 | No step creates or loses branch money: verified money leaves a balance exactly by what the step pays out |
| LendingMoney.DisbursementAllOrNothing | src/modules/loans/loan-verification.service.ts:415-478 | The transaction needs only enough funds; then exactly one branch is debited by exactly the cumulative amount, exactly the loan and its accounts change, each owing principal plus interest, the sum of its instalments; otherwise nothing changes |
| LendingMoney.OutstandingAmount | src/modules/loans/loan-verification.service.ts:433-468 | Each member is scheduled on the product read, its own principal, the tenure and the instant of disbursement; at a flat rate it owes beyond the principal exactly the whole kobo nearest to principal times rate over 10,000 |
| LendingMoney.AttemptRuns | src/modules/loans/loan-verification.service.ts:358-393 | An attempt that meets nobody else disburses if the loan is in verification, every member passed, its product exists and funds suffice, and otherwise changes nothing but its own record |
| LendingPasses.UndisturbedDisbursesIff | src/modules/loans/loan-verification.service.ts:358-393 | An attempt with nobody in between disburses if and only if the loan is VERIFICATION_IN_PROGRESS, has members, each with a PASSED verification of this loan, its product exists and its branch holds at least the amount; otherwise no document changes |
| LendingPasses.ClearsIff | src/modules/loans/loan-verification.service.ts:374-390 | The reads of accounts and verifications let an attempt go on if and only if the loan has an account and each has a PASSED verification of that loan |
| LendingPasses.UndisturbedNotLate | src/modules/loans/loan-verification.service.ts:374-390 | Such an attempt never pays for a member that has lost its pass |
| LendingPasses.LatePayoutIff | src/modules/loans/loan-verification.service.ts:199-393 | In every run a payment finds a member without a pass if and only if an escalation of that member was recorded after this attempt read the verifications, and not passed again |
| LendingPasses.ResolutionWrites | src/modules/loans/loan-verification.service.ts:305-342 | An override leaves that one verification PASSED and starts an attempt for its loan, a rejection leaves it ESCALATED, the loan REJECTED and all its accounts CLOSED; both record actor and note, and no other verification changes |
| LendingPasses.RunResolvesNamed | src/modules/loans/loan-verification.service.ts:292-300 | In every run the writes of a resolution meet a verification that exists |
| LendingPasses.OverrideDisbursesIff | src/modules/loans/loan-verification.service.ts:324-342 | An override with nobody in between leaves the loan DISBURSED, its branch debited once, its accounts active, if and only if it is in verification, every other member had passed, the product exists and funds suffice; otherwise only the verification changes |
| LendingPasses.PassDisbursesIff | src/modules/loans/loan-verification.service.ts:199-248 | The same for a member that passes its verification |
| LendingPasses.FailureEscalates | src/modules/loans/loan-verification.service.ts:199-248 | A failed one is recorded as ESCALATED, replacing what was there, and nothing else happens |
| LendingVerification.VerificationBegins | src/modules/loans/loan-verification.service.ts:112-123 | A call is let through exactly for a loan that is APPROVED or in verification, and remembers which |
| LendingVerification.VerificationReads | src/modules/loans/loan-verification.service.ts:125-143 | And then exactly for a member of the loan whose account is PENDING |
| LendingVerification.StrangerNotVerified | src/modules/loans/loan-verification.service.ts:125-131 | A customer who is no member of the loan is refused |
| LendingVerification.ResolutionBegins | src/modules/loans/loan-verification.service.ts:288-303 | A resolution is taken up exactly for an ESCALATED verification and a note that is not blank |
| LendingVerification.MemberPasses | src/modules/loans/loan-verification.service.ts:105-248 | A whole call in which a member passes, whatever was recorded of it before: the loan is in verification, and disbursed if and only if it was the last member without a pass, with product and funds there |
| LendingVerification.MemberFails | src/modules/loans/loan-verification.service.ts:105-248 | A whole call in which it fails: escalated, and the loan in verification |
| LendingVerification.InTurnWaits | src/modules/loans/loan-verification.service.ts:358-390 | While one member is still to pass, verifying the others in whatever order disburses nothing |
| LendingVerification.MembersPassInTurn | src/modules/loans/loan-verification.service.ts:105-478 | When all members pass in turn, in whatever order, the last pass disburses the loan, debiting the branch once |
| LendingMoney.AttemptsRepeatable | src/modules/loans/loan-verification.service.ts:358-393 | Two attempts in a row: the first does all of it or nothing, from any state, and after a payment the second changes no document |
| LendingAttempts.LaterAttemptIdle | src/modules/loans/loan-verification.service.ts:358-372 | After any run without a late status write, whatever it interleaves, an attempt on a disbursed loan changes no document |
| LendingAttempts.LateAttemptNeverPays | src/modules/loans/loan-verification.service.ts:358-372 | An attempt started on a disbursed loan never comes to run its transaction, whatever runs before and between its steps |
| LendingAttempts.DisbursedForGood | src/modules/loans/loan-verification.service.ts:358-372 | A disbursed loan with no attempt under way is never paid again, deleted or edited and keeps amount, branch, terms and disbursement date, over any run without a late status write, however later attempts overlap |
| LendingAttempts.ApartIsUnrepeated | src/modules/loans/loan-verification.service.ts:358-372 | Attempts for a loan that do not overlap never pay it out a second time, over any run without a late status write, whatever else is interleaved |
| LendingAttempts.ApartPaysOnce | src/modules/loans/loan-verification.service.ts:358-478 | Then it is paid out exactly once, by its cumulative amount, if it ends disbursed and otherwise never |
| LendingMoney.PaymentsCounted | src/modules/loans/loan-verification.service.ts:411-478 | In every run whatsoever a loan is paid out once if it ends disbursed, and once more for each transaction that ran on it when disbursed already, each time by its cumulative amount |
| LendingAttempts.PaymentRepeatsIff | src/modules/loans/loan-verification.service.ts:365-478 | In every run, when the transaction of an attempt comes, its loan is disbursed already if and only if another attempt has paid it since this one read it, or a late status write had reopened it before that read |
| LendingAttempts.PaidOnceIffNoneLate | src/modules/loans/loan-verification.service.ts:365-478 | So in every run a loan is paid out exactly once if it ends disbursed and otherwise never, if and only if no transaction comes late in one of these two ways |
| LendingAttempts.PaidOnceIffNoneOvertaken | src/modules/loans/loan-verification.service.ts:365-478 | Without late status writes: if and only if no transaction runs on it after another attempt has paid it since its own read of it |
| LendingAttempts.RepeatsIffMoneyIsOut | src/modules/loans/loan-verification.service.ts:365-372 | In a coherent state: if and only if the status, which the transaction does not look at, is DISBURSED or CLOSED |
| LendingMoney.EditTalliesIff | src/modules/loans/loans.service.ts:605-675 | After an edit the cumulative amount equals the principals if and only if the edit finished or the requests saved before the bad one add up to the old amount |
| LendingMoney.FailedEditDrifts | src/modules/loans/loans.service.ts:635-659 | A concrete edit, one changed amount followed by an unknown customer, leaves the cumulative amount stale |
| LendingMoney.EditedAsRequested | src/modules/loans/loans.service.ts:633-661 | Saving requests one account at a time leaves each member exactly as the last request for it says, and nobody else changed |
| LendingMoney.RunTallies | src/modules/loans/loans.service.ts:296-299 | Over any run whose edits finish, every cumulative amount is the total of its loan's principals |
| LendingMembers.EstimateIsCharged | src/modules/loans/loans.service.ts:821-843 | The interest shown for a loan before its disbursement is the interest its schedules contain afterwards, if it is disbursed under the rate, type and period shown |
| LendingMembers.ShownIsOwed | src/modules/loans/loans.service.ts:821-843 | Once disbursed it is the total of what the members owe beyond their principals |
| LendingMembers.ApartQuoteHolds | src/modules/loans/loans.service.ts:821-843 | From approval on the interest shown for a loan never changes, over any run without a late status write in which attempts for it do not overlap and saves of the product before disbursement, and products read by attempts under way, keep rate, type and period |
| LendingMembers.OneOpenRunIff | src/modules/loans/loans.service.ts:277-294 | Over any run whatsoever a customer has at most one open account at every point if and only if no step opens a second one |
| LendingMembers.ReverseKeepsOneOpenIff | src/modules/repayments/repayments.service.ts:492-546 | Reversing a repayment keeps one open account per customer if and only if it does not reopen a closed account of a customer who has another open one |
| LendingMembers.PayKeepsOneOpenIff | src/modules/loans/loan-verification.service.ts:453-468 | A disbursement keeps it if and only if none of the accounts it activates was closed and has a customer with another open one |
| LendingMembers.OneOpenStepIff | src/modules/loans/loans.service.ts:277-294 | A step keeps at most one open account per customer if and only if it is neither such a reversal nor such a disbursement |
| LendingAftermath.HandedOverForGood | src/modules/loans/loan-verification.service.ts:684-691 | An account handed over, with no attempt to disburse its loan under way, is refused another handover and its schedule is final, over any run without a late status write |
| LendingAftermath.HandoverMovesDatesOnly | src/modules/loans/loan-verification.service.ts:690-724 | A handover changes due dates and the handover date of one account and nothing else; balances still telescope and all sums stay |
| LendingAftermath.LoneDisbursementDatesFreshIff | src/modules/loans/loan-verification.service.ts:703-722 | If a loan is disbursed while no other attempt for it is under way, then whatever run without a late status write lies in between, the handover gives the schedule built fresh on that day if and only if the repayment period is still the same or there is one instalment |
| LendingAftermath.PlanForGood | src/modules/loans/loan-verification.service.ts:666-724 | Until its handover an account keeps the schedule it was disbursed with, over any run without a late status write, if no attempt to disburse its loan is under way |
| LendingAftermath.CompletedOwesNothing | src/modules/loans/loans.service.ts:531-552 | In a coherent state a loan found completed has outstanding balance zero on every account |
| LendingAftermath.SyncDecides | src/modules/loans/loans.service.ts:554-573 | After a resync a disbursed loan is CLOSED if and only if it has accounts and all are closed, otherwise DISBURSED; resyncing again changes nothing |
| Lending.RaiseAcceptedIff | src/modules/loans/loans.service.ts:208-314 | An application is accepted if and only if all of its conditions hold; the empty-list error is unreachable |
| Lending.NoMemberErrorIff | src/modules/loans/loans.service.ts:257-275 | The member loop passes exactly on distinct active members asking positive amounts |
| Lending.NoMissingDetailsIff | src/modules/loans/loans.service.ts:218-227 | The first loop passes exactly when every transfer has bank details |
| Lending.SavedEdits | src/modules/loans/loans.service.ts:635-659 | How many requests are saved before the first bad one stops the loop |
| LendingEffects.RaiseWrites | src/modules/loans/loans.service.ts:333-407 | An accepted application adds one pending loan with its terms, raiser and total, and per request one pending, unscheduled account with its customer, amount, channel and bank details; a refused one changes nothing |
| LendingEffects.EditAcceptedIff | src/modules/loans/loans.service.ts:582-632 | An edit is taken up exactly from the raiser of a pending loan, with a tenure, if given, that its product offers |
| LendingEffects.EditCompletesIff | src/modules/loans/loans.service.ts:633-661 | It runs to its end exactly when every request names a member, asks a positive amount and has bank details if it is a transfer, and otherwise stops at the first that does not |
| LendingEffects.EditWrites | src/modules/loans/loans.service.ts:605-675 | Each member ends with amount, channel and bank details of the last saved request that names it, details kept for transfers only, or unchanged; a finished edit sets tenure and total, an unfinished one leaves the loan |
| LendingEffects.DeleteWrites | src/modules/loans/loans.service.ts:677-706 | Exactly the raiser of a pending loan removes it, exactly its accounts, and withdraws its undecided request |
| LendingEffects.ApprovalWrites | src/modules/loans/loans.service.ts:432-448 | An approval takes effect exactly on a loan that is PENDING_APPROVAL |
| LendingEffects.RejectionWrites | src/modules/loans/loans.service.ts:513-529 | A rejection leaves the loan REJECTED, exactly its accounts CLOSED, and nothing else changed |
| LendingEffects.HandoverWrites | src/modules/loans/loan-verification.service.ts:666-724 | A handover is accepted exactly for an active cheque account not handed over before; instalment k is then due k periods of 86,400,000 milliseconds after it, the last when the tenure ends, and nothing else changes |
| LendingEffects.RepaymentWrites | src/modules/repayments/repayments.service.ts:344-418 | A repayment lowers the balance by its amount, at most to zero, and closes the account exactly when nothing is left |
| LendingEffects.ReversalWrites | src/modules/repayments/repayments.service.ts:492-546 | A reversal adds its amount and reopens a closed account that then owes something |
| LendingEffects.ReversalUndoesIff | src/modules/repayments/repayments.service.ts:344-546 | Reversing what a repayment took restores the account if and only if it was closed exactly when it owed nothing |
| LendingService.LendingStore.RaiseApplication | src/modules/loans/loans.service.ts:195-425 | Computes the accept/refuse decision with the first failing check and writes the loan, its accounts and the request |
| LendingService.LendingStore.CheckMembers | src/modules/loans/loans.service.ts:257-275 | The loop with its seen-set reports the first error of the list |
| LendingService.LendingStore.CheckBankDetails | src/modules/loans/loans.service.ts:218-227 | The loop reports the first transfer without bank details |
| LendingService.LendingStore.FindOpenAccount | src/modules/loans/loans.service.ts:281-287 | Finds whether any named customer has an open account |
| LendingService.LendingStore.TotalRequested | src/modules/loans/loans.service.ts:296-299 | The cumulative amount is the sum requested |
| LendingService.LendingStore.CreateLoan | src/modules/loans/loans.service.ts:337-377 | Writes one pending loan and one pending, unscheduled account per request |
| LendingService.LendingStore.UpdatePendingApplication | src/modules/loans/loans.service.ts:605-675 | Is the edit step, including what stays saved after a failure; on success the cumulative amount is the total of the principals |
| LendingService.LendingStore.SaveMemberRequests | src/modules/loans/loans.service.ts:633-661 | Saves exactly the requests before the first bad one and reports that one's error |
| LendingService.LendingStore.DeleteLoan | src/modules/loans/loans.service.ts:677-706 | Cancels an undecided request and removes the loan with exactly its accounts |
| LendingService.LendingStore.HandleWorkflowApproved | src/modules/loans/loans.service.ts:432-448 | Approves only from PENDING_APPROVAL |
| LendingService.LendingStore.RejectLoanAndAccounts | src/modules/loans/loans.service.ts:513-529 | Rejects whatever the status and closes exactly the loan's accounts |
| LendingService.LendingStore.SyncCompletionStatus | src/modules/loans/loans.service.ts:554-573 | Is the resync step |
| LendingService.LendingStore.TotalInterestShown | src/modules/loans/loans.service.ts:825-843 | The interest column sums schedules where there are any and estimates where not |
| LendingService.LendingStore.InitiateMemberVerification | src/modules/loans/loan-verification.service.ts:105-251 | With other callers between all of its database operations: what happens is a run of the state machine in which this call reads the loan, reads the account, writes the status if it saw APPROVED, and records the outcome, in this order, or stops with the error of the guard that refused; after a pass its attempt to disburse follows, again step by step |
| LendingService.LendingStore.ReadLoan | src/modules/loans/loan-verification.service.ts:112-123 | The read of the loan and its guard; the call remembers whether it saw APPROVED |
| LendingService.LendingStore.ReadMember | src/modules/loans/loan-verification.service.ts:125-137 | The read of the account and its guards |
| LendingService.LendingStore.MarkLoan | src/modules/loans/loan-verification.service.ts:139-143 | The status write, whatever the loan has become |
| LendingService.LendingStore.RecordVerification | src/modules/loans/loan-verification.service.ts:199-248 | Upserts the account's verification; a pass starts an attempt to disburse |
| LendingService.LendingStore.ResolveVerification | src/modules/loans/loan-verification.service.ts:282-342 | Note, existence and status are checked in order; then other callers run, and then the writes come: a run of the state machine with these two steps of its own, followed after an override by the steps of its attempt to disburse |
| LendingService.LendingStore.ApplyResolution | src/modules/loans/loan-verification.service.ts:314-342 | Rejects the loan, which may be gone, or passes the member and starts an attempt to disburse; what that leaves of the documents is `ResolutionWrites` |
| LendingService.LendingStore.CheckAndDisburseLoan | src/modules/loans/loan-verification.service.ts:358-478 | With other callers, other attempts for the same loan among them, between all of its database operations: what happens is a run in which this attempt reads the loan, the verifications and the product and runs its transaction, in this order, as far as its reads let it go on, with the error of the step that stopped it |
| LendingService.LendingStore.Disburse | src/modules/loans/loan-verification.service.ts:411-478 | The transaction: insufficient funds is reported exactly when the branch cannot cover the loan, and then no document changed |
| LendingService.LendingStore.ReadForPayout | src/modules/loans/loan-verification.service.ts:365-372 | Only a loan in verification goes on |
| LendingService.LendingStore.CheckMembersPassed | src/modules/loans/loan-verification.service.ts:374-390 | Only one whose members have all passed |
| LendingService.LendingStore.ReadProduct | src/modules/loans/loan-verification.service.ts:400 | The product as it is at this moment is the one the schedules are built on |
| LendingService.LendingStore.EveryMemberPassed | src/modules/loans/loan-verification.service.ts:374-390 | True exactly when the loan has accounts and each has a passed verification of that loan |
| LendingService.LendingStore.ActivateAccounts | src/modules/loans/loan-verification.service.ts:433-468 | Schedules and activates exactly the loan's accounts |
| LendingService.LendingStore.ConfirmChequeHandover | src/modules/loans/loan-verification.service.ts:666-724 | The guards in order, then the re-dated schedule |
| Schedule.DueDatesCoverTenure | src/modules/loans/loan-verification.service.ts:428-431 | The instalment count and due dates reach the tenure exactly, in steps of 1 to period days from the anchor |
| Schedule.InstallmentCountMinimal | src/modules/loans/loan-verification.service.ts:428-431 | No plan with steps of at most the period reaches the tenure with fewer instalments |
| Schedule.BuiltScheduleSound | src/modules/loans/loan-verification.service.ts:602-649 | For both interest types the balances telescope from principal to zero, the portions sum to the principal and the totals to principal plus interest, dated by period and tenure |
| Schedule.DueInMilliseconds | src/modules/loans/loan-verification.service.ts:580-589 | Instalment k is due k periods of 86,400,000 milliseconds after the anchor, the last when the tenure ends |
| Schedule.FlatBuildAmount | src/modules/loans/loan-verification.service.ts:434-453 | A flat schedule charges exactly the whole kobo nearest to principal times rate over 10,000 |
| Schedule.ReducingBuildAmounts | src/modules/loans/loan-verification.service.ts:434-453 | Each instalment of a reducing one charges the whole kobo nearest to its opening balance times rate over 10,000 times the count |
| Schedule.NormalizeFlat | src/modules/loans/loan-verification.service.ts:611-631 | The running balance gives each instalment the principal not yet paid down |
| Schedule.GenerateSchedule | src/modules/loans/loan-verification.service.ts:434-453 | The schedule written for one member |
| Schedule.EstimateMatchesSchedule | src/modules/loans/loans.service.ts:821-843 | The estimate equals the interest of a schedule built on any day |
| Schedule.ReanchorInPlace | src/modules/loans/loan-verification.service.ts:712-720 | Re-dates every entry in place |
| Schedule.ReanchorKeepsAmounts | src/modules/loans/loan-verification.service.ts:712-720 | Re-dating keeps every amount, balance and sum |
| Schedule.HandoverIsFreshScheduleIff | src/modules/loans/loan-verification.service.ts:690-720 | Re-dating equals a fresh schedule if and only if the period is unchanged or there is one instalment |
| Schedule.HandoverShiftsUniformly | src/modules/loans/loan-verification.service.ts:690-720 | With the period unchanged every due date moves by the delay |
| Schedule.ReanchoredIncreasingIff | src/modules/loans/loan-verification.service.ts:580-589 | With a changed period the new due dates increase if and only if the last but one still precedes the tenure |
| Interest.CalculateFlatInterestSchedule | src/modules/loan-products/calculations/interest-schedule.ts:51-90 | The flat loop computes the even split whose last portion takes the remainder, or the argument error |
| Interest.FlatScheduleExact | src/modules/loan-products/calculations/interest-schedule.ts:38-49 | Flat portions are non-negative and sum exactly to principal and to total interest |
| Interest.FlatInterestAmount | src/modules/loan-products/calculations/interest-schedule.ts:60 | The flat interest portions sum to the one integer t with 10000 t <= principal times rate + 5000 < 10000 (t + 1) |
| Interest.LastPortionAbsorbsRemainder | src/modules/loan-products/calculations/interest-schedule.ts:62-74 | The last portion is the base portion plus the remainder of the division |
| Interest.CalculateReducingBalanceSchedule | src/modules/loan-products/calculations/interest-schedule.ts:118-175 | The reducing loop, over exact reals, or the argument error |
| Interest.ReducingScheduleExact | src/modules/loan-products/calculations/interest-schedule.ts:92-105 | Reducing balances chain from principal to zero, portions sum to the principal, interest never rises, each total is principal plus interest, so the negative-principal guard is dead code |
| Interest.ReducingInterestAmounts | src/modules/loan-products/calculations/interest-schedule.ts:126-150 | Each interest portion is the n-th part of the rate on the balance still owed, rounded to the nearest kobo, the first on the whole principal |
| Interest.LevelInstallments | src/modules/loan-products/calculations/interest-schedule.ts:126-149 | All instalments but the last are one amount, the whole kobo nearest to the payment that repays the principal in n equal parts at that rate |
| Interest.InstallmentCoversInterest | src/modules/loan-products/calculations/interest-schedule.ts:153-159 | The rounded annuity instalment covers the interest on the whole principal |
| Interest.CoveredPortionsNonNegative | src/modules/loan-products/calculations/interest-schedule.ts:136-160 | At every rate: no portion is negative if the rounded instalment, paid n - 1 times, stays within the principal |
| Interest.OverpaidPortionNegative | src/modules/loan-products/calculations/interest-schedule.ts:136-160 | At every rate: the last portion is negative if n - 1 instalments net of the first interest exceed the principal |
| Interest.PortionsNonNegativeIff | src/modules/loan-products/calculations/interest-schedule.ts:136-160 | At every rate, for loans whose interest charges round to nothing, both bounds meet: non-negative if and only if n - 1 rounded instalments stay within the principal |
| Interest.LargeInstallmentPortionsNonNegative | src/modules/loan-products/calculations/interest-schedule.ts:126-160 | At every rate: no portion is negative once the instalment is within two kobo of the compounded drift of n roundings, or above it |
| Interest.ThinLoanPortionNegative | src/modules/loan-products/calculations/interest-schedule.ts:126-149 | At every rate: a loan of fewer kobo than n - 1 but at least n / 2, with no interest charged, ends in a negative portion |
| Interest.InstallmentRepays | src/modules/loan-products/calculations/interest-schedule.ts:126-134 | The annuity repays exactly principal and interest, at every rate, zero included |
| Interest.InstallmentBounds | src/modules/loan-products/calculations/interest-schedule.ts:126-134 | It lies between an even split of the principal and that split plus one interest charge on all of it |
| Interest.ZeroRatePortionsNonNegativeIff | src/modules/loan-products/calculations/interest-schedule.ts:130-149 | At rate zero no portion is negative if and only if the rounded instalment paid n - 1 times stays within the principal |
| Interest.NegativeLastPortionExample | src/modules/loan-products/calculations/interest-schedule.ts:147-149 | Five kobo over ten instalments end with a portion of minus four, at every rate below 100% |
| BranchFunds.CreditedExactlyOnceIffVerified | src/modules/branches/branch-funding.service.ts:195-247 | Whatever verify and reject calls race, a record is decided at most once; if it ends VERIFIED it is credited exactly once, by its amount, to its branch and no other, and otherwise never |
| BranchFunds.RunConserves | src/modules/branches/branch-funding.service.ts:209-236 | Over any run of racing calls a balance grows by exactly the newly verified amounts |
| BranchFunds.NextSound | src/modules/branches/branch-funding.service.ts:211-229 | Balances stay non-negative, records keep branch and amount, and a decided record never changes |
| BranchFunds.DecidedByManager | src/modules/branches/branch-funding.service.ts:180-304 | In every interleaving a record is decided only by a call that read it pending as the current manager of its branch, a rejection with a reason, and as that call asks: who verified and when, or why it was rejected |
| BranchFunds.ReadGoesOnIff | src/modules/branches/branch-funding.service.ts:171-188 | A call goes on to its write exactly when it reads a pending record as the current manager, a rejection with a reason |
| BranchFunds.BranchFundStore.Decide | src/modules/branches/branch-funding.service.ts:195-304 | Stale read, other callers, guarded write: each refusal exactly when its guard fails, success exactly when the record is still pending at the write, with its credit; otherwise nothing changes and a concurrent modification is reported |
| BranchFunds.BranchFundStore.DebitBranch | src/modules/branches/branch-fund-balance.service.ts:90-106 | Succeeds exactly when the balance document covers the amount, and only then decrements it |
| BranchFunds.BranchFundStore.CreditBranch | src/modules/branches/branch-fund-balance.service.ts:61-78 | Adds to the balance, creating it if missing |
| BranchFunds.BranchFundStore.HandleBranchCreated | src/modules/branches/branch-fund-balance.service.ts:46-52 | Initialises to zero without touching an existing balance |
| BranchFunds.BranchFundStore.RecordFunding | src/modules/branches/branch-funding.service.ts:78-136 | The guards in order, then a pending record |
| JournalBalance.AssertJournalLinesBalanced | src/modules/accounting/journal-balance.util.ts:18-42 | Accepts exactly the non-empty lists of one-sided lines with equal totals and reports the first rule broken |
| Ledger.PostingIsIdempotent | src/modules/accounting/ledger-posting.service.ts:134-202 | In every reachable interleaving: one entry per reference, callers that return got the entry of their reference, the same one exactly when they post the same source, and only a database failure is ever thrown |
| Ledger.ReturnedEntryIsFinal | src/modules/accounting/ledger-posting.service.ts:145-148 | What a caller was given stays in the ledger unchanged |
| Ledger.RefInjective | src/modules/accounting/ledger-posting.service.ts:143 | prefix:id determines both halves when the prefix holds no colon |
| Ledger.PostingRefsDistinct | src/modules/accounting/ledger-posting.service.ts:89-96 | Two postings share a reference only with one kind and one source; none collides with a manual entry |
| Ledger.NextSound | src/modules/accounting/accounting.service.ts:127-260 | Every step keeps accounts distinct and never removed, mappings complete, every entry balanced on existing accounts, references unique |
| Ledger.ReachableSound | src/modules/accounting/accounting.service.ts:127-152 | Booting on an empty database establishes it, and every reachable ledger has it |
| Ledger.BootSound | src/modules/accounting/accounting.service.ts:127-152 | Seeding keeps what is there and leaves every mapping key mapped to an existing account |
| Ledger.ManualApprovalOnce | src/modules/accounting/manual-journal-entry.service.ts:121-135 | Approving a manual entry again changes nothing |
| PostingLines.EveryEntryExplained | src/modules/accounting/ledger-posting.service.ts:32-202 | In every run each entry is either one entered by hand exactly as proposed, or was written by a call: it names that call's source document and branch, and has exactly its amount as a debit on the account the call resolved from its debit mapping and as a credit on the one from its credit mapping |
| PostingLines.RunMappedAsSeeded | src/modules/accounting/accounting.service.ts:79-110 | From the first boot on, until someone remaps a key: disbursements debit 1020 and credit 1010, repayments the reverse, fees debit 1010 and credit 4010, penalties debit 1030 and credit 4030; the 40xx accounts are of type INCOME, the others ASSET |
| PostingLines.PostingMovesBalances | src/modules/accounting/ledger-posting.service.ts:32-115 | A posting then moves the balances as of its date and later by exactly its amount: a disbursement raises Loans Receivable and lowers Cash, a repayment the reverse, a fee raises Cash and Fee Income, a penalty Penalty Receivable and Penalty Income; no other balance moves |
| LedgerService.LedgerStore.PostIdempotent | src/modules/accounting/ledger-posting.service.ts:134-202 | With other callers at every database operation, what happens is a run of the state machine with this call's steps in order; it returns the one entry of the reference and never a duplicate-key failure, an entry it creates carries its posting and exactly the given lines, and unbalanced lines are refused before anything is read |
| LedgerService.LedgerStore.InsertOrRefetch | src/modules/accounting/ledger-posting.service.ts:150-201 | The insert, which writes exactly the posting and lines of the call, and its duplicate-key branch |
| LedgerService.LedgerStore.Post | src/modules/accounting/ledger-posting.service.ts:30-115 | Resolves both mapped accounts and posts; never fails for a missing mapping or an unbalanced entry; an entry it creates names its source document, branch and date and has exactly the amount as a debit on the account this call looked up for debits and as a credit on the one for credits |
| LedgerService.LedgerStore.OnModuleInit | src/modules/accounting/accounting.service.ts:127-152 | Seeds each missing account and mapping |
| LedgerService.LedgerStore.CreateAccount | src/modules/accounting/accounting.service.ts:158-176 | Adds an account exactly when the parent exists and the code is new |
| LedgerService.LedgerStore.UpdateAccount | src/modules/accounting/accounting.service.ts:178-204 | Succeeds exactly for an existing account and, if one is named, an existing parent; changes name, parent and activity as given and never code or type |
| LedgerService.LedgerStore.SetMapping | src/modules/accounting/accounting.service.ts:247-260 | Remaps a key exactly when the account exists |
| LedgerService.LedgerStore.ProposeEntry | src/modules/accounting/manual-journal-entry.service.ts:72-102 | Accepts exactly balanced lines on existing accounts |
| LedgerService.LedgerStore.GetTrialBalance | src/modules/accounting/accounting.service.ts:326-354 | With other callers between the listing and each account: every row is its account at its own read, and the totals differ by exactly the lines of the entries added between the listing and the reads of their accounts |
| TrialBalance.TornTotalsDiffer | src/modules/accounting/accounting.service.ts:326-344 | The same difference for any reads of a sound ledger |
| TrialBalance.PostingDuringReportBalancesIff | src/modules/accounting/accounting.service.ts:319-344 | One posting in the middle of the report leaves it balanced if and only if its lines on the accounts read afterwards cancel out |
| TrialBalance.TrialBalanceAlwaysBalances | src/modules/accounting/accounting.service.ts:285-354 | In every reachable ledger, for every date and branch filter, total debits equal total credits |
| TrialBalance.TotalsByEntry | src/modules/accounting/accounting.service.ts:298-317 | The sums account by account equal the sums entry by entry when every line names an existing account |
| TrialBalance.TotalsDifferByImbalance | src/modules/accounting/accounting.service.ts:319-325 | The two totals differ by exactly the imbalance of the visible entries |
| TrialBalance.UncheckedManualEntryBalancesIff | src/modules/accounting/manual-journal-entry.service.ts:119-135 | Approving an unchecked payload keeps every trial balance balanced if and only if its lines on existing accounts balance or the request was already posted |
| TrialBalance.UnbalancedPayloadExample | src/modules/accounting/manual-journal-entry.service.ts:121-135 | A one-line payload, if approved, unbalances the report |
| TrialBalance.GetTrialBalance | src/modules/accounting/accounting.service.ts:326-354 | The accumulating loop gives both ledger totals and every row in code order |
| TrialBalance.AccountingEquation | src/modules/accounting/accounting.service.ts:11-14 | Debit-side rows add up to credit-side rows |
| TrialBalance.AccountingEquationByKind | src/modules/accounting/accounting.service.ts:11-14 | Assets and expenses equal liabilities, equity and income, type by type |
| TrialBalance.RowCounts | src/modules/accounting/accounting.service.ts:277-350 | A row is its account with debits less credits for assets and expenses, credits less debits for the others, summed over exactly the entries dated the as-of date or earlier in the branch asked for |
| TrialBalance.AsOfIsPast | src/modules/accounting/accounting.service.ts:285-317 | Rows, totals and account balances as of a day are the undated ones of the ledger that keeps just the entries dated that day or earlier |
| TrialBalance.EntryMovesRow | src/modules/accounting/accounting.service.ts:285-317 | A new entry moves a row by its own lines on that account if it is dated the as-of date or earlier and in the branch, and otherwise not at all |
| TrialBalance.ListedByCode | src/modules/accounting/accounting.service.ts:327 | The rows list every account once, in the order of the codes |
| TrialBalance.RowsAgreeWithAccountBalance | src/modules/accounting/accounting.service.ts:277-283 | Without a branch filter each row is the account balance at the same date |
| TrialBalance.BranchTotalsPartition | src/modules/accounting/accounting.service.ts:294-296 | The totals of all branches add up to the unfiltered totals |
| MoneyTrail.RunJoint | src/modules/loans/loan-verification.service.ts:513-520 | In every joint run of lending and accounting each disbursement posting carries the principal and branch of a disbursed member, and each automated entry is the entry for such a posting |
| MoneyTrail.StepKeepsDebt | src/modules/loans/loan-verification.service.ts:513-520 | No step of lending ever changes the account, principal or branch a disbursed member was or will be posted with |
| MoneyTrail.DisbursedIsPostedIff | src/modules/loans/loan-verification.service.ts:513-534 | In every joint run whose edits finish, the disbursement entries of a disbursed loan never exceed its cumulative amount and total it if and only if every member has been posted |
| MoneyTrail.ApartDebitedIsPostedIff | src/modules/loans/loan-verification.service.ts:411-534 | If attempts for a loan do not overlap, and without late status writes, its entries equal what was debited for it if and only if every member has been posted |
| MoneyTrail.BooksMeetBalanceIff | src/modules/loans/loan-verification.service.ts:411-534 | In every joint run whose edits finish a branch balance is its verified fundings less the disbursements in its books, less repeated payments, which the books never show, if and only if every disbursed member of the branch has been posted; until then it is lower |
| MoneyTrail.ApartBooksMeetBalanceIff | src/modules/loans/loan-verification.service.ts:411-534 | Attempts that do not overlap leave no repeated payments to subtract |
| MoneyTrail.PostedByMember | src/modules/accounting/ledger-posting.service.ts:134-202 | The books hold exactly the principals of the members posted, each once |
| MoneyTrail.OneEntryPerMember | src/modules/loans/loan-verification.service.ts:513-520 | A posted member has one entry, of exactly the principal, whoever else is posted; any other has none |
| MoneyTrail.NextTraced | src/modules/accounting/ledger-posting.service.ts:151-175 | Every step keeps each automated entry the entry for what some call asked to post: source, reference, branch and amount |
| MoneyTrail.PostDisbursements | src/modules/loans/loan-verification.service.ts:513-534 | Posts every member, other callers in between; a failure is noted and does not stop the others; when nothing failed the entries of the loan total its principals |
| MoneyTrail.JointAgreeing | src/modules/loans/loan-verification.service.ts:513-520 | What the loop assumes of other callers holds of every posting a joint run can begin |
| Leave.UsageIsAppliedDays | src/modules/hr/leave-balance.service.ts:113-190 | In every interleaving with repeated events, used days are exactly the days of applications flagged as applied, and never negative |
| Leave.NextConserves | src/modules/hr/leave-balance.service.ts:122-190 | No step changes the difference between counter and flagged days |
| Leave.SettledStepIff | src/modules/hr/leave-application.service.ts:190-310 | A step keeps every application counted exactly if approved, or with a second transaction still to come, if and only if it is not the last outstanding transaction of an application running after the status it was meant for is gone |
| Leave.SettledRunIff | src/modules/hr/leave-application.service.ts:190-310 | Over a whole run this holds at every point if and only if no second transaction is so overtaken |
| Leave.UsageIsApprovedDays | src/modules/hr/leave-balance.service.ts:113-190 | Then, once every handler has finished, a balance counts exactly its approved days |
| Leave.OvertakenRunsDisagree | src/modules/hr/leave-application.service.ts:190-310 | From every empty database: a run that ends CANCELLED with the day counted, and one that ends APPROVED without it |
| Leave.LateApplyAgreesIff | src/modules/hr/leave-application.service.ts:198-202 | The second transaction of an approval makes flag and status agree if and only if the status is still APPROVED |
| Leave.LateReverseAgreesIff | src/modules/hr/leave-application.service.ts:284-296 | That of a cancellation if and only if the application has not been approved again |
| Leave.OvertakenApprovalStaysCounted | src/modules/hr/leave-application.service.ts:284-296 | An approval overtaken by its cancellation ends CANCELLED with its days counted |
| Leave.AtomicHandlersAgree | src/modules/hr/leave-application.service.ts:190-310 | If handlers never overlap, an application is APPROVED exactly when its days are counted |
| Leave.NumberOfDaysInclusive | src/modules/hr/leave-application.service.ts:114-120 | Between midnights the count includes both ends, and only an earlier end is refused |
| Leave.EndBeforeStartRefusedIff | src/modules/hr/leave-application.service.ts:114-120 | In general an end is refused if and only if it is more than half a day before the start |
| Leave.EndBeforeStartAccepted | src/modules/hr/leave-application.service.ts:114-120 | One hour backwards counts as one day |
| Leave.LeaveStore.ApplyForLeave | src/modules/hr/leave-application.service.ts:138-188 | Accepted exactly for active staff, an acceptable period and a known leave type; adds one application under review for the days counted, and flags exactly the days beyond the remaining balance |
| Leave.LeaveStore.GetOrCreateBalance | src/modules/hr/leave-balance.service.ts:42-88 | Creates the row once, with the type's allocation |
| Leave.LeaveStore.CountUsage | src/modules/hr/leave-balance.service.ts:122-157 | Flag and counter move together, exactly when the flag was down |
| Leave.LeaveStore.UncountUsage | src/modules/hr/leave-balance.service.ts:160-190 | The same backwards |
| Leave.LeaveStore.HandleWorkflowApproved | src/modules/hr/leave-application.service.ts:191-203 | Marks, lets others run, then counts: the application ends flagged, and the counters stay exact |
| Leave.LeaveStore.HandleWorkflowRejected | src/modules/hr/leave-application.service.ts:206-216 | Changes the status and counts nothing |
| Leave.LeaveStore.CancelApplication | src/modules/hr/leave-application.service.ts:230-310 | Each refusal exactly when permission or status demands it; write under the status guard, days given back, counters exact |
| Registers.AppendClosesAndOpens | src/modules/branches/branch-manager-assignment.service.ts:163-187 | Closing the open record of a key and adding the new one is exactly appending to the approval log |
| Registers.OneOpenVersion | src/modules/branches/branch-manager-assignment.service.ts:156-162 | At most one record of a key is open, holding the value last approved |
| Registers.CoverageExact | src/modules/hr/salary.service.ts:94-99 | From the first effective date on no instant is without a record; two cover one instant if and only if some approval was backdated across it |
| Registers.OrderedHistoryTiles | src/modules/branches/branch-manager-assignment.service.ts:173-187 | With dates in order exactly one record covers each instant |
| Registers.BackdatedSalaryOverlaps | src/modules/hr/salary.service.ts:118-141 | Three salaries approved for days 1, 10 and 5: two apply on day 7 |
| Registers.ManagerStore.ApplyAssignment | src/modules/branches/branch-manager-assignment.service.ts:163-224 | Refines the log: the branch's manager is the one just approved, other branches keep theirs, the workplace follows |
| Registers.ManagerStore.GetCurrentManager | src/modules/branches/branch-manager-assignment.service.ts:227-229 | Finds the last approved assignment, if any |
| Registers.SalaryStore.HandleWorkflowApproved | src/modules/hr/salary.service.ts:101-146 | Refines the log with the proposal's effective date |
| Registers.SalaryStore.GetCurrentSalary | src/modules/hr/salary.service.ts:162-170 | The salary last approved, whatever its dates; not found exactly if none was |
| Registers.ConfigStore.HandleApproved | src/modules/platform-config/versioned-config.service.base.ts:89-118 | Refines the log: every earlier record is inactive, the new one active |
| Registers.ConfigStore.FindActive | src/modules/platform-config/versioned-config.service.base.ts:129-131 | The configuration last approved; one exists as soon as any was approved |
| ApprovalChain.ContiguousIffPermutation | src/modules/loan-products/loan-products.service.ts:117-119 | Sorting and comparing accepts exactly the rearrangements of 0 to n - 1 |
| ApprovalChain.ContiguousNamesEachOnce | src/modules/loan-products/loan-products.service.ts:120-124 | In an accepted list every order from 0 to n - 1 is taken by exactly one step |
| ApprovalChain.ValidateApprovalChainSteps | src/modules/loan-products/loan-products.service.ts:113-135 | Accepts exactly the non-empty, permuted, known-capability lists and tells which rule broke |
| ApprovalChain.StepKeepsInStepIff | src/modules/loan-products/loan-products.service.ts:308-364 | From a catalogue in step an approval keeps every registered chain equal to the stored steps if and only if its payload meets the order check |
| ApprovalChain.CatalogStaysInStep | src/modules/loan-products/loan-products.service.ts:220-364 | After any approvals of accepted proposals every product's registered chain is its stored steps, well ordered, with known capabilities |
| ApprovalChain.ProductCatalog.OnCreationApproved | src/modules/loan-products/loan-products.service.ts:220-249 | Writes the product, then registers; an ill-ordered chain is refused after the product was written |
| ApprovalChain.ProductCatalog.OnUpdateApproved | src/modules/loan-products/loan-products.service.ts:308-344 | Writes the changes and always registers the chain again from the stored steps |

## Left out

- The workflow engine's own steps, roles and capabilities; it appears as decisions and deliveries.
- Repayment records, penalty rules and early liquidation: only a balance going down or up, closing or reopening its account; whether it is in arrears is not modelled.
- Raising, editing, deleting, rejecting and handing over are one step each, although the code reads first and saves later (`loans.service.ts:605-706`) and rejects in two writes (`loans.service.ts:513-529`). No claim is made for such calls overlapping each other, approval, verification or disbursement: an edit or a deletion overtaken by approval and disbursement is outside the condition of `RunCoherentIff`.
- LendingCoherence.RunCoherentIff: at that granularity.
- LendingCoherence.CoherentStepIff: at that granularity.
- LendingCoherence.InitialRunCoherentIff: at that granularity.
- Overlapping approvals for one branch, staff member or configuration: each handler of the three histories is one step, and the unique indexes are not needed for it.
- TrialBalance.GetTrialBalance: the report over one state of the ledger; `LedgerStore.GetTrialBalance` is the one read account by account.
- Floating point: amounts are unbounded integers.
- Interest.CalculateReducingBalanceSchedule: over exact reals where the source computes in doubles, because the rounding of a double power is not specified to the last bit.
- Interest.ReducingScheduleExact: over the same exact reals.
- Interest.InstallmentCoversInterest: over the same exact reals.
- Interest.ReducingInterestAmounts: over the same exact reals.
- Interest.LevelInstallments: over the same exact reals.
- Schedule.ReducingBuildAmounts: over the same exact reals.
- Interest.InstallmentRepays: over the same exact reals.
- Interest.InstallmentBounds: over the same exact reals.
- Interest.OverpaidPortionNegative: a sufficient condition, over the same exact reals.
- Interest.LargeInstallmentPortionsNonNegative: a sufficient condition, over the same exact reals.
- Interest.PortionsNonNegativeIff: exact where interest charges round to nothing.
- Daylight-saving shifts when days are added to a date: a day is 86,400,000 milliseconds.
- BVN and face checks, consent codes, images, encryption, notifications, bank transfers, audit records: foreign calls; a check is an arbitrary outcome, a consent code the customer it was issued for.
- Fee definitions and outstanding fees on an application, loan purpose, office and officer of a verification, dates of raising and approving: data that no modelled decision reads.
- Groups only as the eligibility, branch and active members an application sees.
- Listing, paging, sorting and filtering of documents; which approval chain a leave application is sent to.
- Product fields other than rate, type, period, tenures and minimum group size; `resolvePenaltyRule` and the creation form's range checks.
- Interest.CoveredPortionsNonNegative: one way only; between it and `OverpaidPortionNegative` the sign of the last portion depends on how n roundings fall.
- MoneyTrail.PostDisbursements: promises the total only when nothing failed; a posting that failed is recorded by the code and not retried.
- LendingInvariant.RunSound: excludes late status writes, as the exact condition of `SoundStepIff` says; so do the theorems about attempts, schedules and quotes that rest on it.
- LendingAttempts.ApartIsUnrepeated: excludes overlapping attempts, one way only; the exact condition is that of `PaidOnceIffNoneOvertaken`.
- LendingMoney.RunTallies: excludes edits that throw midway, as the exact condition of `EditTalliesIff` says.
- LendingVerification.MembersPassInTurn: with nobody in between and every member passing; runs with others in between are the subject of `LendingPasses.LatePayoutIff` and `LendingAttempts`.
- LendingEffects.ReversalUndoesIff: the amount taken is given; that a repayment record is applied and reversed once each is not modelled.
