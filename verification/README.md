# Alyto backend: verified model

Alyto is a payments backend for a custodial Stellar anchor: users hold BOB and USDC wallets, pay in
through banks, and money leaves through Harbor or Vita. This project models the parts of it that are
state machines, ledgers or arithmetic, and proves what they keep over every run. Where a property one
would expect does not hold, the project keeps the code's behaviour, exhibits an input, and proves the
exact condition under which the property does hold.

| module | models |
|---|---|
| `Ledger`, `Refunds`, `RefundConcurrency` | refunds of charged and unexecuted operations, as one handler and as any number of concurrent database sessions under snapshot isolation |
| `TreasuryCoverage`, `RefundCoverage` | the BOB solvency report, and refunds seen from it |
| `PayoutGate` | manual confirmations, re-arms and the atomic gate of a payout |
| `FundingQueue`, `FundingForecast` | the FIFO retry of payouts waiting for USDC and the forecast made about it |
| `UserAudit`, `CorridorLog`, `CorridorEffects` | admin edits, what they write, and the audit trail that must replay to the state |
| `Sep24` | closing expired SEP-24 instructions while other operators and deposits are at work |
| `Sessions`, `EmailCode` | session tokens with a self-expiring revocation list; email codes with a guess limit |
| `KeyOrder`, `CanonicalJson`, `CanonicalText`, `CanonicalValue` | the canonical text a request signature is computed over: how it is built, which text it is, what it depends on |
| `KeySanitizer`, `SanitizeInPlace` | the in-place renaming of dangerous keys |
| `Quote`, `Money` | fee and conversion arithmetic |
| `Runs` | runs of a state machine given by its step function, shared by the machines above |
| `Kyb` | the business-account workflow over two collections |

Handlers that change state are classes whose methods perform the source's writes one by one and are
proved equal to a next-state function; the run theorems are about those functions, and effect lemmas say in
literal terms what each of them answers and writes. Database failures, clocks, provider answers and random
identifiers are parameters.

## Findings

- **Unproven refunds.** `registrarDevolucion` is documented to keep counting a refund made without a
  reference. It does so exactly when the collection itself is on record (`bankQr.paidAt` or
  `confirmationDetails.confirmedAt`): an operation counted only for its in-progress status drops out of
  the committed total (`Refunds.UnprovenRefundKeepsDebt`).
- **Refunds erased.** `registrarDevolucion` reads, checks and saves without a session, replacing the whole
  `refund` subdocument. A registration without references that read before a wallet credit and saves after
  it erases the evidence, and the next session credits again (`RefundConcurrency.ErasureExample`); that is
  the only way to a second credit (`ErasesExactly`). With references it can only replace the evidence
  (`StepKeepsProven`).
- **Forecast.** With `OWLPAY_USDC_SEND_ENABLED` a sent payout has left the chain balance and is still
  counted as in flight, so each send takes twice its amount from the headroom: a forecast without a gap
  empties the queue only if at most one payout waits (`FundingForecast.AutoSendPromise`,
  `AutoSendCounterexample`). For `LLC` the forecast reads an account no dispatch looks at: 1000 USDC in
  it and none in the SRL account show a gap of 899 and release nothing (`LlcCounterexample`). The promise
  holds exactly when the SRL account already has what the queue requires (`LlcPromiseExactly`).
- **One account for two entities.** Each dispatch subtracts only its own entity's payouts in flight from
  the SRL account, so the retries of both can release more than it holds
  (`FundingQueue.BothEntitiesRelease`, `OvercommitsExactly`). A transfer left over from an earlier dispatch
  is sent without that check at all (`FundingDesk.Resubmit`).
- **Second sends.** Several writers may take a transaction back before the payout stage: a manual update, a
  provider's confirmation or a receipt upload saved over what happened since it was read, and two updates
  that set `payin_pending` without looking at the status. Such a write endangers the transaction exactly
  when a send is still under way or was made without a recorded hash, which on Vita is always: then, and
  only then, some run in which nothing endangers it again sends its funds twice
  (`PayoutGate.EndangersExactly`). On Harbor the recorded hash protects a send that is over
  (`RecordedHarborIsSafe`). The memo alone does not: its lookup answers "nothing" on any query error and
  looks at the latest 200 transactions only (`UnrecordedSend`, `SentAgain`).
- **Sessions.** Two logins that read the account before either writes it leave two live tokens
  (`Sessions.InterleavedLogins`). There is one session per user at every point of a run exactly when no
  step displaces a live one (`AlwaysSingleExactly`), which only an overtaken login or a re-issue can. A
  registration token that lives longer than a week outlives its revocation record
  (`RevocationHoldsExactly`).
- **User audit.** An entry whose final write failed is misleading exactly when a value it promises differs
  from the one in effect (`UserAudit.StepReplaysExactly`, `FailedWriteExample`).
- **Suspensions.** `updateUser` bumps `tokenVersion` only for `false` and `'false'`; `0`, `'0'` and `'no'`
  are stored as false without it (`UserAudit.SuspensionMovesVersion`).
- **Corridor history.** A global pricing change whose `$push` fails leaves prices the log does not know,
  and only that does (`CorridorLog.StepReplaysExactly`); the answer is then always 500 (`SuccessIsLogged`).
- **SEP-24.** The compare-and-set looks at the status only, so a notice logged after the evaluation does
  not stop a closing (`Sep24.StaleEvaluationExample`). A closing hits a safe document exactly when no
  trace of it was logged between its lookup and its session (`ClosesSafeExactly`).
- **KYB.** `applyKYB` deletes a rejected profile before it validates the new application; a refused
  re-application leaves the user pointing at nothing (`Kyb.StepKeepsPointers`). The schema comment that
  `businessProfileId` exists only for business accounts does not hold: it is set on application.
- **Quotes.** On whole cents net amounts are monotone exactly up to 100 % in fees. With fractions of a
  cent they are so only without a percentage, or when it is one part in a whole number whose fee steps fall
  on the half cents (`Quote.NetMonotoneEverywhereExactly`): 20 % does, 50 % does not and lets 0.010 net
  less than 0.009 (`SubCentExample`). The fees shown differ from the total by at most two cents.

## Model

| member | source | states |
|---|---|---|
| Refunds.RefundDesk.CreditWallet | src/controllers/adminController.js:2712-2812 | the session commits credit, movement, evidence and audit entry together or leaves the books as they were, with the 404, 409 and 500 cases |
| Refunds.RefundDesk.Register | src/controllers/adminController.js:2814-2895 | which refunds are refused, which go through the wallet session and what the others record |
| Refunds.RegisterAnswers | src/controllers/adminController.js:2819-2895 | which of 200, 400, 404, 409 and 500 is given, each if and only if, and that a refusal changes nothing |
| Refunds.RegisterPays | src/controllers/adminController.js:2841-2878 | an accepted registration pays the requested amount or else the original one, always positive; the document records it, and on the wallet route that very amount is credited by one movement with one audit entry |
| Refunds.WalletRefundPays | src/controllers/adminController.js:2725-2769 | a committed session moves exactly the amount: balance before, after, movement, evidence and audit entry agree |
| Refunds.WalletRefundEffect | src/controllers/adminController.js:2725-2764 | a wallet refund takes from an entity's committed total exactly what the operation owed, and adds the amount to the liabilities of SRL, which owns every BOB wallet |
| Refunds.WalletRefundConserves | src/controllers/adminController.js:2725-2764 | cash minus committed minus wallets of an entity is unchanged if and only if the credit equals what the operation owed, for SRL, or it owed nothing, for any other |
| Refunds.ProvenRefundReleases | src/services/treasuryLiquidity.js:161-182 | a refund registered with a bank or wallet reference releases exactly the operation's debt |
| Refunds.UnprovenRefundKeepsDebt | src/services/treasuryLiquidity.js:128-182 | a refund without a reference stays counted if and only if the collection is on record |
| Ledger.CommittedUpdate | src/services/treasuryLiquidity.js:136-211 | how the committed total of an entity moves when one transaction changes |
| Ledger.CommittedExactly | src/services/treasuryLiquidity.js:136-182 | which operations count and for how much: entity, currency, status or proof of the collection, and no proven refund |
| RefundConcurrency.EveryRunIsSound | src/controllers/adminController.js:2712-2878 | in every interleaving of refund sessions, failures, status changes and registrations in which no registration without references saves over a credit it did not see: at most one credit per transaction, balances equal opening plus refund movements, movements chain, audit mirrors them |
| RefundConcurrency.EveryRunIsProven | src/controllers/adminController.js:2849-2878 | while no registration saves other evidence over that of a credit, every movement is the one its transaction names |
| RefundConcurrency.ErasesExactly | src/controllers/adminController.js:2824-2878 | after an event some run without another erasure credits a transaction twice if and only if the event is a registration without references saved over a credit |
| RefundConcurrency.ErasureExample | src/controllers/adminController.js:2824-2878 | read, credit, save, credit: the wallet holds the amount twice |
| RefundConcurrency.ReadSeesNoCredit | src/controllers/adminController.js:2834-2839 | what a registration may erase was committed between its read and its save |
| RefundConcurrency.StepKeepsProven | src/controllers/adminController.js:2849-2878 | an event keeps every movement named by its transaction if and only if it overwrites no evidence of a credit |
| RefundConcurrency.CommitIsSerial | src/controllers/adminController.js:2717-2769 | a commit that meets no conflict does to the current database what the handler alone would do |
| RefundConcurrency.AbortLeavesDatabase | src/controllers/adminController.js:2801-2806 | every step of a session other than a successful commit leaves the database untouched |
| RefundConcurrency.StepKeepsInv | src/controllers/adminController.js:2712-2878 | an event keeps the ledger, the snapshots and the write counts sound if and only if it is no erasure |
| RefundConcurrency.ChainAdds | src/controllers/adminController.js:2735-2752 | chained movements add up: the last balance is the opening one plus everything credited |
| RefundConcurrency.ChainLinks | src/controllers/adminController.js:2741-2752 | consecutive movements of a user: balanceBefore of the later is balanceAfter of the earlier |
| RefundConcurrency.LoneAttempt | src/controllers/adminController.js:2712-2812 | an attempt that meets nobody else is exactly the handler |
| TreasuryCoverage.ReadAccounts | src/controllers/bankAdminController.js:254-279 | the loop over accounts: gross, read, failed, mock and lines of exactly the readings |
| TreasuryCoverage.ReadBobTreasury | src/controllers/bankAdminController.js:240-301 | the treasury side of the report: partial, rounded gross and net of the committed amount |
| TreasuryCoverage.GetTreasuryCoverage | src/controllers/bankAdminController.js:303-372 | status, ratio and surplus of both assets, the USDC backing from its two readings, and an alert exactly when one asset is undercollateralized |
| TreasuryCoverage.StatusMeaning | src/controllers/bankAdminController.js:333-348 | unknown, no liability, covered and undercollateralized, each if and only if |
| TreasuryCoverage.ReportMeaning | src/controllers/bankAdminController.js:240-301 | one line for each account with its source, the mock flag, and when the reading is partial or the balance absent |
| TreasuryCoverage.GrossAdds | src/controllers/bankAdminController.js:254-279 | the gross sum over two lists of accounts is the sum over each |
| TreasuryCoverage.NetMeaning | src/controllers/bankAdminController.js:283-285 | net is rounded cash less the committed amount, or zero when that is negative |
| TreasuryCoverage.UsdcBacking | src/controllers/bankAdminController.js:310-328 | the USDC backing is treasury plus custody to six decimals, unknown when either service or the treasury could not be read |
| TreasuryCoverage.RatioMeaning | src/controllers/bankAdminController.js:330-331 | the ratio is absent exactly without backing or debt, otherwise the quotient to four decimals |
| TreasuryCoverage.SurplusMeaning | src/controllers/bankAdminController.js:359-369 | the surplus is the difference to the decimals of the currency |
| TreasuryCoverage.SurplusSign | src/controllers/bankAdminController.js:359-369 | a negative surplus means undercollateralized by at least half of its last decimal, and conversely |
| TreasuryCoverage.BobStatusMeaning | src/controllers/bankAdminController.js:337-351 | for a positive liability: covered, undercollateralized or unknown in terms of complete readings and net cash, each if and only if |
| TreasuryCoverage.CoveredIsSound | src/controllers/bankAdminController.js:248-351 | "covered" means every account was read and gross minus committed reaches the liability up to the stated rounding |
| TreasuryCoverage.AccountOrderIrrelevant | src/controllers/bankAdminController.js:254-279 | permuting the accounts does not change the status |
| RefundCoverage.NeutralExactly | src/controllers/bankAdminController.js:283-285 | a whole-cent refund leaves "covered or nothing to cover" equivalent to "covered" afterwards if and only if there was a liability or the cash covers the committed amount |
| RefundCoverage.WholeCentsExactly | src/services/treasuryLiquidity.js:201 | the amounts for which that always holds are exactly the whole-cent ones |
| RefundCoverage.FullRefundKeepsStatus | src/controllers/bankAdminController.js:235-285 | the same for the refund of a full original amount, on the books and the accounts themselves; for an entity without wallets never |
| PayoutGate.TransactionDoc.UpdateStatus | src/controllers/adminController.js:657-845 | answer, status, log, dispatch trigger and exact audit log of a manual update, including every refusal and a failed save after the audit |
| PayoutGate.ManualAnswers | src/controllers/adminController.js:657-760 | each answer of a manual update if and only if, over all statuses, and what it leaves |
| PayoutGate.ConfirmationExactly | src/controllers/adminController.js:714-729 | with a note and both writes working a confirmation is answered 200 from payin_pending, pending_funding or payin_confirmed and 409 from every other status, and asks for a dispatch exactly from the first two |
| PayoutGate.ConfirmationNeverTakesBack | src/controllers/adminController.js:714-729 | no confirmation returns a payment from the payout stage |
| PayoutGate.RearmAndGate | src/controllers/ipnController.js:1398-1413 | a re-arm works exactly from pending_funding, the gate exactly for a requested dispatch of a confirmed payment |
| PayoutGate.SubmissionEnds | src/controllers/ipnController.js:1335-1376 | a submission counts once and ends its dispatch as payout_sent with the hash, or failed without a record |
| PayoutGate.FoundEnds | src/controllers/ipnController.js:884-950 | a lookup that finds its memo ends the dispatch without a second payment |
| PayoutGate.DispatchProceeds | src/controllers/ipnController.js:1195-1333 | before that: the transfer with its own memo, the lookup that shows nothing, and that only the dispatch that created the transfer asks an operator |
| PayoutGate.QuitEnds | src/controllers/ipnController.js:974-1380 | the other ends send nothing and leave the status that says why |
| PayoutGate.OrdinaryHarborCourse | src/controllers/ipnController.js:1195-1380 | a pending Harbor payment that is confirmed and meets no trouble is sent once and says so |
| PayoutGate.OrdinaryVitaCourse | src/controllers/ipnController.js:1398-1419 | and a Vita payment too |
| PayoutGate.SentAtMostOnce | src/controllers/adminController.js:714-729 | in every run in which nothing takes a transaction back while a send is under way, or after one whose hash was not recorded, its funds are sent at most once, by backend and operators together |
| PayoutGate.ConfirmationsSendOnce | src/controllers/adminController.js:714-729 | the same over runs in which only manual confirmations, any number of them, come from administrators at a dangerous moment |
| PayoutGate.RecordedHarborIsSafe | src/controllers/ipnController.js:880-892 | a Harbor transaction whose hash is recorded was sent once and is never endangered by being taken back |
| PayoutGate.UnrecordedSend | src/services/stellarService.js:1073-1164 | a Harbor send whose record fails leaves the transaction failed, sent, and without a hash |
| PayoutGate.SentAgain | src/services/stellarService.js:1042-1060 | taken back and confirmed, such a transaction is sent again when the memo lookup shows nothing |
| PayoutGate.DispatchNeedsArming | src/controllers/ipnController.js:1402-1413 | gates passed never exceed confirmations and re-arms |
| PayoutGate.EndangersExactly | src/controllers/adminController.js:657-733 | an event is excluded if and only if some run after it, in which nothing is excluded again, sends the funds more than once; the writers are manual updates, stale confirmations, stale receipt uploads (paymentController.js:3612-3650) and unfiltered updates (institutionalController.js:189-191, sep31Service.js:266-268) |
| PayoutGate.SecondSend | src/controllers/ipnController.js:1398-1413 | that run, from every such event on either rail and every phase of the send under way |
| PayoutGate.StepKeepsInv | src/controllers/ipnController.js:1195-1380 | one send at most can be under way, through every event that endangers nothing |
| FundingQueue.FundingDesk.DispatchPayout | src/controllers/ipnController.js:1398-1419 | one dispatch: the gate, the branch for an earlier transfer, range and liquidity checks, and what each outcome leaves |
| FundingQueue.TurnExactly | src/controllers/ipnController.js:884-1380 | where one turn leaves a payout, each status if and only if: sent by the backend, handed to an operator, waiting or failed, for a first and for a retried send, with what left the chain |
| FundingQueue.OperatorIsAsked | src/controllers/ipnController.js:1207-1376 | an operator is asked only when operators send and before anything has left the chain; sent means the chain fell by the amount or had it paid already |
| FundingQueue.InFlightExactly | src/services/treasuryLiquidity.js:27-97 | the three statuses in flight |
| FundingQueue.FundingDesk.Resubmit | src/controllers/ipnController.js:884-950 | the branch for an earlier transfer: nothing when an operator is to send, no check of what is in flight, no second payment when the ledger shows the memo |
| FundingQueue.FundingDesk.RetryPendingFunding | src/controllers/fundingController.js:375-414 | the retry loop with its continue and its two breaks |
| FundingQueue.RetryIsFifo | src/controllers/fundingController.js:375-414 | a prefix in creation order leaves the queue, the rest is untouched, and a thrown error leaves at most one re-armed |
| FundingQueue.RetrySpend | src/controllers/ipnController.js:974-984 | what one retry sends for the first time never exceeds what its entity's check saw available, and the chain falls by exactly the sends of the backend, retried ones included |
| FundingQueue.RetryJointHeadroom | src/controllers/ipnController.js:974-984 | in either mode a retry takes what it puts in flight, and what leaves the chain for it, from what the account holds beyond both entities' payouts in flight |
| FundingQueue.OvercommitsExactly | src/controllers/ipnController.js:974-987 | in either mode a dispatch leaves more in flight than the account holds if and only if its own check passes and it takes more than is free of both entities |
| FundingQueue.BothEntitiesRelease | src/controllers/ipnController.js:974-987 | 200 USDC and a payout of 150 for each entity: both are released |
| FundingQueue.TurnStatus | src/controllers/fundingController.js:388-408 | what one turn of the loop does to the status of its transaction, and to nothing else |
| FundingQueue.TurnHeadroom | src/services/treasuryLiquidity.js:82-97 | the headroom falls by what left the chain and by what is now in flight |
| FundingForecast.GetUSDCForecast | src/controllers/fundingController.js:433-492 | available, needs, gap, funding needed and alert level of an entity |
| FundingForecast.AlertMeaning | src/controllers/fundingController.js:477-492 | critical, warning and ok, each if and only if, from balance, payouts in flight, needs and threshold |
| FundingForecast.QueueEmptiedExactly | src/controllers/fundingController.js:375-414 | the retry empties a queue of valid amounts if and only if the headroom reaches a stated amount, in either send mode |
| FundingForecast.GapKeepsPromise | src/controllers/fundingController.js:477-486 | with operators sending, a non-negative gap means the retry puts every payout in range in flight, and only those out of range fail |
| FundingForecast.AutoSendPromise | src/controllers/fundingController.js:477-486 | with the backend sending, that promise holds if and only if at most one payout waits |
| FundingForecast.AutoSendCounterexample | src/controllers/fundingController.js:477-486 | 202 USDC, two payouts of 100, gap zero: one stays in the queue |
| FundingForecast.TopUp | src/controllers/fundingController.js:486-488 | funding with exactly fundingNeeded empties the queue if and only if two or more wait or the deficit was not rounded down; the rounding costs at most half a cent |
| FundingForecast.LlcBalanceIgnored | src/controllers/fundingController.js:442-446 | no balance of the LLC account changes what the retry does |
| FundingForecast.LlcPromiseExactly | src/controllers/fundingController.js:442-486 | the LLC forecast keeps its promise, whatever it reads, if and only if the SRL account less the LLC payouts in flight has what the queue requires |
| FundingForecast.LlcCounterexample | src/controllers/fundingController.js:442-486 | a gap of 899 USDC and a payout that keeps waiting |
| UserAudit.UserAdmin.UpdateUser | src/controllers/adminController.js:159-300 | answer, users and audit log of an edit, with every refusal in the handler's order |
| UserAudit.EditTakesEffect | src/controllers/adminController.js:159-298 | an accepted edit stores each requested value that was not in effect, and nothing else of this or any other user changes |
| UserAudit.ChangesAre | src/controllers/adminController.js:188-195 | what an edit amounts to: the requested values that differ from those in effect |
| UserAudit.InEffect | src/controllers/adminController.js:154-157 | the value in effect: the stored one, else the default |
| UserAudit.ListedValues | src/controllers/adminController.js:195-213 | the values each listed field may take |
| UserAudit.StoredFlag | src/controllers/adminController.js:287-298 | what is stored for a flag, every spelling |
| UserAudit.EditAnswers | src/controllers/adminController.js:195-298 | 400, 403 and 500, each if and only if, for an edit that changes something |
| UserAudit.OtherAnswers | src/controllers/adminController.js:165-195 | the answers to a malformed id, an empty request, an unknown user and an edit without a change |
| UserAudit.EditIsAudited | src/controllers/adminController.js:249-285 | an audit entry exactly for a sensitive change that got past the refusals, with the values in effect and the values promised |
| UserAudit.RequestedIsLast | src/controllers/adminController.js:145-175 | the last value of the body for a field counts, with the texts true and false as booleans |
| UserAudit.AuditReplaysToState | src/controllers/adminController.js:159-300 | over every run in which no request is audited, fails its write and promised another value: role, KYC status and sanctions flag are what the audit log replays to; entries chain and nobody edits himself |
| UserAudit.StepReplaysExactly | src/controllers/adminController.js:249-298 | one request keeps the replay if and only if it is not such a request, and keeps the log chained and well formed in any case |
| UserAudit.FailedWriteExample | src/controllers/adminController.js:249-298 | an approval audited and not written: the log says approved, the user is pending |
| UserAudit.RunReplays | src/controllers/adminController.js:249-298 | the inductive form from any state that already replays |
| UserAudit.UpdateFacts | src/controllers/adminController.js:159-300 | what an audited edit appended and demanded, and that users change together with the log for sensitive fields |
| UserAudit.EveryChangeRecorded | src/controllers/adminController.js:249-298 | with failed writes too, every sensitive value in effect was there at the start or is recorded, and the log only grows |
| UserAudit.RoleFrozen | src/controllers/adminController.js:140-142 | with the break-glass off no role changes and no entry mentions one |
| UserAudit.SuspensionMovesVersion | src/controllers/adminController.js:287-298 | a suspension bumps tokenVersion if and only if it was asked for with false or 'false', not with another value the schema takes for false |
| CorridorLog.CorridorAdmin.SetCorridorRate | src/controllers/adminController.js:928-1000 | answer and corridors after a rate change, refused for a bad rate, a short note or another rail |
| CorridorLog.CorridorAdmin.UpdateCorridor | src/controllers/adminController.js:1075-1140 | the loop over the body: protected keys skipped, changes by printed value logged, all or nothing saved |
| CorridorLog.CorridorAdmin.UpdateGlobalPricing | src/controllers/adminController.js:1154-1215 | one update of all matching corridors, then one log push for each |
| CorridorLog.CorridorAdmin.PushPricing | src/controllers/adminController.js:1191-1212 | the pushes, in any order, quote the prices as they were |
| CorridorLog.CorridorAdmin.DeactivateCorridor | src/controllers/adminController.js:1252-1300 | refused when already inactive or transactions are in flight |
| CorridorEffects.EditTakesEffect | src/controllers/adminController.js:1105-1125 | an accepted edit: each unprotected schema field named holds the stored form of its value, every other field and corridor is unchanged, and the log gains exactly one entry, in body order and quoting the old value, for each value that prints differently |
| CorridorEffects.StoredNumber | src/controllers/adminController.js:1118 | what is stored for a number, every kind of value |
| CorridorEffects.StoredFlag | src/controllers/adminController.js:1118 | and for the flag |
| CorridorEffects.PrintsAlike | src/controllers/adminController.js:1109 | which values print alike |
| CorridorEffects.EditAnswers | src/controllers/adminController.js:1080-1133 | each answer to an edit if and only if |
| CorridorEffects.FeeExample | src/controllers/adminController.js:1105-1119 | a fee of 1, a request for 2: the fee is 2 and the log says so |
| CorridorEffects.RateTakesEffect | src/controllers/adminController.js:928-1000 | each answer to a rate change if and only if, and the rate and the entry it leaves |
| CorridorEffects.DeactivationTakesEffect | src/controllers/adminController.js:1252-1300 | the same of a deactivation |
| CorridorEffects.GlobalTakesEffect | src/controllers/adminController.js:1164-1216 | of a global change, failed midway or not: prices and entries of the corridors it reached, and no others |
| CorridorEffects.GlobalAnswers | src/controllers/adminController.js:1154-1216 | each answer to a global change if and only if |
| CorridorLog.StepReplaysExactly | src/controllers/adminController.js:971-1290 | an edit keeps "the log replays to every economic field and its old values chain" if and only if it is not a global change that lost its push and changed a price |
| CorridorLog.LogReplaysToState | src/controllers/adminController.js:971-1290 | from creation, over every run without lost pushes, folding the log yields the current value |
| CorridorLog.RunReplays | src/controllers/adminController.js:971-1290 | the inductive form |
| CorridorLog.HistoryOnlyGrows | src/controllers/adminController.js:878-880 | in every run at all, no corridor disappears, its log is only appended to and protected fields keep their values |
| CorridorLog.SuccessIsLogged | src/controllers/adminController.js:1188-1216 | a document written without its log entry means the answer was 500 |
| CorridorLog.LostPushExample | src/controllers/adminController.js:1188-1216 | a lost push leaves a price the log does not know |
| CorridorLog.SamePrintSameValue | src/controllers/adminController.js:1109 | values that print alike are stored alike, so not logging them loses nothing |
| Sep24.Blockers | src/controllers/adminController.js:2328-2356 | no blocker if and only if pending, expired and free of every trace |
| Sep24.Desk.CancelExpired | src/controllers/adminController.js:2429-2537 | the batch, served alone, is the sequence of lookups and sessions of its ids |
| Sep24.Desk.CancelOne | src/controllers/adminController.js:2450-2532 | one id of it: not found, skipped, closed with its audit record, or an error that changes nothing |
| Sep24.LineTakesEffect | src/controllers/adminController.js:2450-2532 | what the line of one id reports and writes, in every case |
| Sep24.BlockersExactly | src/controllers/adminController.js:2328-2356 | each reason if and only if |
| Sep24.NamesExactly | src/controllers/adminController.js:2359-2364 | an id names a document by its alias or by its 24 hex digits in either case |
| Sep24.EveryRunIsOneToOne | src/controllers/adminController.js:2429-2537 | with any operators, aliases and interleaving: closed documents, their log entry, audit record and 'cancelled' line correspond one to one, each named by its request and safe when read |
| Sep24.ClosesSafeExactly | src/controllers/adminController.js:2450-2493 | whatever happens between the lookup and the session, the session closes if and only if the document is still pending, and it is safe at that moment if and only if no trace of it was logged in between |
| Sep24.StaleEvaluationExample | src/controllers/adminController.js:2480-2481 | a trace logged after the evaluation does not stop the closing |
| Sep24.UnnamedUntouched | src/controllers/adminController.js:2359-2364 | an operator's step changes no document but the one its current id names |
| Sep24.StepKeepsInv | src/controllers/adminController.js:2429-2537 | the invariant through every event of operators and environment |
| Sessions.SessionStore.IssueSession | src/controllers/authController.js:124-192 | what is written when a session is issued, stopping at the first failure |
| Sessions.SessionStore.LogoutUser | src/controllers/authController.js:885-918 | revocation first, then the active pointer if it still names this session |
| Sessions.SessionStore.ResetPassword | src/controllers/authController.js:768-812 | a reset touches the version counter and no session record |
| Sessions.LoginIsItsSteps | src/controllers/authController.js:124-172 | an uninterrupted login is the four steps of the state machine |
| Sessions.IssueTakesEffect | src/controllers/authController.js:124-172 | the token issued, its lifetime, the pointer and the record of the session it replaces |
| Sessions.LogoutTakesEffect | src/controllers/authController.js:885-918 | a logout revokes the token until it would expire and clears the pointer only if it is its own |
| Sessions.OtherWrites | src/controllers/authController.js:768-812 | a registration starts without a session, resets move the version and no revocation |
| Sessions.StepKeepsSingleSession | src/controllers/authController.js:124-172 | a step keeps "every live token is its user's active one" if and only if it displaces no live session |
| Sessions.OnlyOvertakenDisplaces | src/controllers/authController.js:149-168 | only a login overtaken between its read and its write, or a re-issue, can displace one |
| Sessions.RunKeepsSingleSession | src/controllers/authController.js:124-172 | live tokens are contained in {activeSessionJti} over every undisturbed run, whatever write fails |
| Sessions.AlwaysSingleExactly | src/controllers/authController.js:124-172 | that holds at every point of a run if and only if no step of it displaces a live session |
| Sessions.OneLiveToken | src/controllers/authController.js:366-372 | so from an empty database two live tokens of a user are the same token |
| Sessions.InterleavedLogins | src/controllers/authController.js:149-168 | two logins that both read before either writes leave two live tokens |
| Sessions.RevokedForGood | src/models/RevokedToken.js:78 | a token that is no longer live never becomes live again, purges included |
| Sessions.RevocationHoldsExactly | src/controllers/authController.js:108 | that holds in all runs if and only if registration tokens live no longer than a week |
| Sessions.ResetShutsOut | src/controllers/authController.js:768-812 | while nobody resets the counter, a password reset or deletion shuts out every earlier token for good |
| Sessions.VersionResetReadmits | src/controllers/adminController.js:2281-2285 | resetting the counter readmits exactly the live tokens of version zero |
| EmailCode.EmailVerification.VerifyEmail | src/controllers/authController.js:439-475 | answers and new state of a guess, each answer if and only if |
| EmailCode.EmailVerification.ResendVerification | src/controllers/authController.js:489-520 | a new code exactly when unverified and past the cooldown; waiting retryAfter seconds is enough, one less is not |
| EmailCode.GuessTakesEffect | src/controllers/authController.js:439-475 | what a compared guess leaves: a verified user without a code, or one attempt more |
| EmailCode.ComparedExactly | src/controllers/authController.js:439-463 | a guess is compared exactly when it is six digits for an open code of an unverified user with attempts left |
| EmailCode.CodeTimes | src/controllers/authController.js:489-520 | a new code can be guessed for fifteen minutes and renewed after one |
| EmailCode.GuessBound | src/controllers/authController.js:236-238 | wrong guesses recorded by time t number at most 5 * (1 + floor((t - t0) / 60 s)) in every run, and wrong comparisons made at most as many more as saves failed |
| EmailCode.GuessBoundIsTight | src/controllers/authController.js:236-238 | the bound is reached at every minute |
| EmailCode.VerifiedOnlyByMatch | src/controllers/authController.js:451-472 | verified at the end if and only if verified at the start or some guess matched an unexpired code with attempts left; then nothing changes any more |
| KeyOrder.SortedUnique | scripts/vita-coverage-diagnostic.js:62 | two sorted lists of the same distinct keys are equal |
| KeyOrder.LeExactly | scripts/vita-coverage-diagnostic.js:62 | the order: by the first character that differs, a prefix first |
| CanonicalJson.Clean | scripts/vita-coverage-diagnostic.js:44-56 | the filling loop of deepClean equals its recursive definition |
| CanonicalJson.BuildSortedBody | scripts/vita-coverage-diagnostic.js:75-85 | the appending loop yields the sorted body |
| CanonicalText.BodyAround | scripts/vita-coverage-diagnostic.js:75-85 | around every key of a clean body stand its own text, key then value, the text of the smaller keys alone before it and of the larger keys alone after it |
| CanonicalText.SmallBodies | scripts/vita-coverage-diagnostic.js:75-85 | the empty body, and the body of one field: its key, then its value |
| CanonicalText.ArrayBody | scripts/vita-coverage-diagnostic.js:75-77 | a body that is an array is signed as the object of its decimal indices |
| CanonicalText.ObjectAround | scripts/vita-coverage-diagnostic.js:58-71 | the same inside a nested object, with its braces, separators and quoted strings |
| CanonicalText.ArrayText | scripts/vita-coverage-diagnostic.js:60 | arrays: brackets and commas, element by element |
| CanonicalText.ScalarText | scripts/vita-coverage-diagnostic.js:72 | scalars in an array: JSON, with quotes, backslashes and line ends escaped |
| CanonicalText.ControlText | scripts/vita-coverage-diagnostic.js:72 | control characters: their letter or their two hex digits |
| CanonicalText.PrintableUnchanged | scripts/vita-coverage-diagnostic.js:72 | a text of printable characters without quote and backslash stands as it is |
| CanonicalText.MessageText | scripts/vita-coverage-diagnostic.js:87-90 | login, date and sorted body of the cleaned object, in this order |
| CanonicalValue.CleanMeaning | scripts/vita-coverage-diagnostic.js:44-56 | cleaning keeps the abstract value and leaves no null or undefined |
| CanonicalValue.CleanIdempotent | scripts/vita-coverage-diagnostic.js:44-56 | cleaning twice is cleaning once |
| CanonicalValue.MessageOfValue | scripts/vita-coverage-diagnostic.js:44-92 | bodies with the same abstract value are signed over the same message |
| CanonicalValue.KeyOrderIrrelevant | scripts/vita-coverage-diagnostic.js:58-85 | permuting the entries of an object keeps its abstract value |
| CanonicalValue.NullEntryIrrelevant | scripts/vita-coverage-diagnostic.js:49-51 | inserting a null or undefined entry anywhere keeps it |
| CanonicalValue.NullItemIrrelevant | scripts/vita-coverage-diagnostic.js:46 | inserting a null or undefined array element anywhere keeps it |
| CanonicalValue.PlugCongruence | scripts/vita-coverage-diagnostic.js:44-92 | equal values stay equal in every context |
| CanonicalValue.MessageSurvivesEdit | scripts/vita-coverage-diagnostic.js:44-92 | any such edit at any depth leaves the message unchanged |
| KeySanitizer.SanitizedIsClean | src/app.js:274-288 | afterwards no key at any depth starts with a dollar sign or contains a dot |
| KeySanitizer.SanitizedIdempotent | src/app.js:274-288 | sanitizing twice is sanitizing once |
| KeySanitizer.CleanUnchanged | src/app.js:274-288 | a clean tree is left equal |
| KeySanitizer.Survivor | src/app.js:276-284 | every surviving subtree is the sanitized form of an original one, also when renamed keys collide |
| KeySanitizer.RenamedWinner | src/app.js:276-284 | which original entry ends up under each key |
| KeySanitizer.SafeKeyChars | src/app.js:278-279 | every dollar sign and dot becomes an underscore, every other character stays |
| KeySanitizer.BadKeys | src/app.js:278 | the keys that are renamed: those with a leading dollar sign or a dot |
| SanitizeInPlace.JsObject.RenameOwn | src/app.js:277-282 | the deletion and reassignment of one key of the heap object |
| SanitizeInPlace.JsObject.Sanitize | src/app.js:274-288 | the recursive mutation of a finite acyclic object graph leaves exactly the sanitized tree |
| Quote.NetPlusTotal | src/controllers/adminController.js:1765-1771 | net plus total is the rounded amount, and the amount itself if and only if it is whole cents |
| Quote.ShownPartsNearTotal | src/controllers/adminController.js:1848-1857 | the fees shown one by one differ from the total by at most two cents |
| Quote.ShownPartsExample | src/controllers/adminController.js:1848-1857 | two cents do occur |
| Quote.NetMonotoneExactly | src/controllers/adminController.js:1744-1771 | more whole cents never net less, if and only if the percentages total at most 100, Fintoc's flat fee included |
| Quote.NetMonotoneEverywhereExactly | src/controllers/adminController.js:1706-1771 | on all amounts a larger one never nets less if and only if no percentage is charged, or it is one part in a whole number whose fee steps fall on the half cents |
| Quote.AlignedExamples | src/controllers/adminController.js:1706-1771 | twenty percent qualifies, fifty does not |
| Quote.SubCentExample | src/controllers/adminController.js:1706 | fifty percent nets less for 0.010 than for 0.009 |
| Quote.DeliveryMonotone | src/controllers/adminController.js:1779-1830 | nor deliver less, on all three conversion paths |
| Quote.BobDeliveryError | src/controllers/adminController.js:1810-1824 | through bolivianos the delivery is within 0.005 * (rate + 1) of the unrounded conversion, and the reported rate reproduces it |
| Quote.ClpDeliveryError | src/controllers/adminController.js:1784-1809 | from pesos it is within half a cent of the conversion at the reported rate, and exists exactly when that price is positive |
| Quote.FintocFeeMeaning | src/utils/fintocFees.js:33-53 | the flat fee: the tier rate of the UF value to the nearest peso |
| Quote.DeductionMeaning | src/controllers/adminController.js:1744-1771 | which fees are deducted on each payin rail, to the cent |
| Quote.DeliveryFee | src/controllers/adminController.js:1784-1820 | the payout fee: the provider's cost where it publishes a positive one, else the corridor's own |
| Quote.DeliveryExists | src/controllers/adminController.js:1784-1824 | a delivery is quoted exactly with the prices its path needs |
| Quote.BobDeliveryMeaning | src/controllers/adminController.js:1810-1824 | from bolivianos: two roundings to the cent, the fee and the rate, in plain arithmetic |
| Quote.ClpDeliveryMeaning | src/controllers/adminController.js:1784-1809 | from pesos: likewise |
| Kyb.KybDesk.ApplyKYB | src/controllers/kybController.js:85-194 | users and profiles after an application, with the deletion of a rejected profile before validation |
| Kyb.KybDesk.UploadKYBDocuments | src/controllers/kybController.js:323-365 | documents are appended and the status reopened in both collections only when more information was asked for |
| Kyb.KybDesk.ReviewKYBApplication | src/controllers/kybController.js:510-581 | review fields, limits, verdict and account type after a review |
| Kyb.ApplyTakesEffect | src/controllers/kybController.js:85-194 | an accepted application: the new profile, its files and limits, the link, and nothing else |
| Kyb.UploadTakesEffect | src/controllers/kybController.js:323-365 | an accepted upload: its files are appended to the profile and both statuses reopened |
| Kyb.ReviewTakesEffect | src/controllers/kybController.js:510-581 | an accepted review: status, note, reason, limits and account type |
| Kyb.ApplyAnswers | src/controllers/kybController.js:85-194 | each answer to an application if and only if |
| Kyb.ReviewAnswers | src/controllers/kybController.js:510-581 | each answer to a review if and only if |
| Kyb.StepKeepsAgreement | src/controllers/kybController.js:166-581 | a handler keeps user and profile in agreement if and only if it is not cut short between its two writes |
| Kyb.EveryRunAgrees | src/controllers/kybController.js:101-581 | over every uninterrupted run: one profile per user, pointing both ways with one status, business exactly when the latest verdict approved |
| Kyb.StepKeepsPointers | src/controllers/kybController.js:101-152 | a pointer is left dangling if and only if a rejected user's re-application is refused |
| Kyb.DiscardedUser | src/controllers/kybController.js:101-152 | what that user is left with, and that a complete application mends it |
| Kyb.LimitsChangeOnlyOnApproval | src/controllers/kybController.js:547-554 | limits change only on an approving review that carries them, documents are never lost |
| Kyb.LimitsOfApplication | src/controllers/kybController.js:150-164 | the initial limits by legal entity last until an approval |

## Left out

- Binary floating point: amounts are reals; `Math.round` and `toFixed` are modelled, representation error is not.
- `Math.round` of the Fintoc tier product is taken on the exact product.
- Express, Mongoose internals, e-mail, push, PDF, object storage, bank and Stellar calls: their answers are parameters.
- Interleavings inside `updateTransactionStatus`, `updateUser`, the corridor editors, `reviewKYBApplication` and `verifyEmail`: each is one step. The confirmations of a payin by a provider (ipnController.js:2269-2276 and its siblings) are two, a read and a save, with the widest set of sources any of them takes.
- Vita's own treatment of a repeated order, and an operator paying one instruction twice.
- Harbor's treatment of a repeated `application_transfer_uuid` (ipnController.js:1199): two dispatches that both find no transfer are taken to create one each.
- The 30-second cache of the Stellar balance: a dispatch reads the balance as it is.
- MongoDB's commit with an unknown outcome: a commit either succeeds or fails.
- Stored proof files of a refund and the uploads of a KYB application beyond their names.
- Deposits and withdrawals of wallets: the balances of the refund model change by refunds only.
- Audit entries of KYB reviews: they are written without a session and their failure changes nothing.
- The two-factor login path, whose projection does not load `activeSessionJti`, and the ten-second caches of the middleware.
- Tokens without a `jti`, and login failures before a session is issued.
- Object-valued corridor fields: printed as text they cannot be told apart, so the replay is about the scalar ones; values of other text fields are stored without trimming or case changes.
- Corridor keys that collide with Mongoose document members, array-valued numbers and infinite numbers.
- Casting of user fields other than the two booleans, and 12-byte text ids.
- `updatedAt`, which every save moves.
- The Vita rail's own liquidity and transactions without `digitalAssetAmount` in the forecast; the Harbor range is its default of 31 to 9998 USDC.
- The key `__proto__` in the sanitizer and the cleaner, and the difference between UTF-16 and scalar order of keys.
- Injectivity of the signed message: key and value are concatenated without a separator, so it does not hold.
- Hash collisions: an email code is compared as if its hash determined it.
- Direct edits of `accountType` by an administrator, which the KYB agreement excludes.
- Refunds.RefundDesk.CreditWallet: the notification and the Stellar audit trail after the commit are not modelled.
- Kyb.KybDesk.ApplyKYB: assumes the unique index on `userId`, so a user has at most one profile to find.
- Dashboards, analytics, contacts, notifications, seed and migration scripts: plumbing or one-branch facts.
