# Verified model of the billing, channel-access, administration and text cores

Each file models one stateful or algorithmic core of the backend and proves what it is for. Code that changes rows, counters or
lists step by step is a class or a method with loops, proved against functions that give the new state; the properties over whole
runs are lemmas about those functions.

- **ChannelQuota** - slot reservation in up to four counters by any number of interleaved clients, and the in-memory fallback.
- **SpanSelection** - picking non-overlapping matches, longer ones first.
- **CivilCalendar**, **BillingPeriods** - calendar dates, month addition, due days, half-open billing periods.
- **BillingChain** - the renewal engine of one tenant: subscription row, paid and failed invoices, clock.
- **ScheduledChanges**, **FailedPayments**, **StatusRules** - when a scheduled plan change is made, how long an unpaid invoice
  restricts, and what a sync and a billing attempt leave.
- **Proration**, **UpgradeCharges**, **TrainingAllowance**, **PaymentEvents** - upgrade charges, training characters, payment webhooks.
- **Cancellation**, **CancellationRules** - cancelling, restoring, deleting access, and the daily pass that notifies, switches off and erases.
- **CredentialRotation**, **AdminSessions**, **SignInRules**, **MfaLockout** - lazy secret promotion, sign-in and refresh-token
  sessions, attempt lockout.
- **AuditPaging** - keyset pagination of the audit trail.
- **TextChunking**, **SentenceSpans**, **TextSplitting** - cutting texts into chunks, language spans, and where texts are split.

Month lengths follow section 5.7 and Appendix C of RFC 3339; rounding follows section 4.3.1 of IEEE 754-2008.

`dafny verify dfyconfig.toml` checks the project.

## Where the code differs from what it is called or meant to do

The model follows the code; each point below is a lemma.

- A request can be refused although nobody holds a slot, while an earlier refusal waits for its rollback
  (`ChannelQuota.RefusedWithNoHolder`; exact condition: `GrantedIffRoomBesideOccupants`).
- The "fifth business day" is the first weekday on or after the fifth; it is the fifth business day exactly in months that begin on
  a Monday or a Tuesday (`CivilCalendar.DueDayIsFifthBusinessDay`).
- A scheduled change can take effect before the period it was asked for: any payment makes it, in a settlement or in an ordinary
  cycle pass (`ScheduledChanges.EarlyChangeHappens`; exact conditions: `EarlyChangeIff`, `NeverEarlyIff`). And the renewal step
  stops making it once the calendar month has turned, though the period goes on (`BillingPeriods.ScheduledChangeWindow`).
- A failed payment does not keep a tenant restricted: restricting it writes the subscription row, which makes the failure look old
  (`FailedPayments.NewRestrictionLastsOneSync`; exact condition: `RestrictionStaysIff`).
- Cancelling twice and restoring once leaves the first request open, and the tenant is erased
  (`Cancellation.SecondCancellationOutlivesRestore`; exact condition: `RestoreIsEnoughIff`).
- A rotation while a promotion is due but not stored loses the promoted secret (`CredentialRotation.SecondRotationTooEarly`; exact
  conditions: `RotationFollowsTimer`, and `RotationsWaitIffSavedInTime` over runs).
- With a lock shorter than the window one more attempt is counted (`MfaLockout.BoundedIffLockCoversWindow`).
- The paragraph split of the chunker never splits, because white space was collapsed before (`TextChunking.NormalizedIsTidy`).

## Model

| member | source | states |
|---|---|---|
| `ChannelQuota.QuotaIsNeverExceeded` | backend/apps/chat/channel_quota.py:48-104 | in every interleaving of any number of clients each counter is the granted slots plus the refused increments not yet rolled back, no window is granted beyond its limit, and with nothing waiting the counter is exactly what is outstanding |
| `ChannelQuota.StepKeepsInvariant` | backend/apps/chat/channel_quota.py:60-93 | one pipeline of any client keeps counter = occupants and holders within the limit |
| `ChannelQuota.RunKeepsInvariant` | backend/apps/chat/channel_quota.py:60-188 | so does every run |
| `ChannelQuota.GrantedIffRoomBesideOccupants` | backend/apps/chat/channel_quota.py:76-99 | a request is granted exactly if each of its windows has room beside every occupant, those about to be rolled back included |
| `ChannelQuota.RefusedWithNoHolder` | backend/apps/chat/channel_quota.py:76-98 | a run of four events in which a request is refused although nobody holds a slot |
| `ChannelQuota.GrantedIffWithin` | backend/apps/chat/channel_quota.py:76-98 | granted exactly if no count exceeds its limit; each refusal is given exactly if its window is the first over its limit |
| `ChannelQuota.DistinctWindows` | backend/apps/chat/channel_quota.py:48-59 | two to four windows with different counters and limits of at least one |
| `ChannelQuota.VerdictFromFields` | backend/apps/chat/channel_quota.py:110-148 | the fallback's verdict from the call's own fields: day, then minute, then the session's minute and burst, which count only with a session and both limits |
| `ChannelQuota.RedisVerdictFromFields` | backend/apps/chat/channel_quota.py:32-98 | the same for the Redis path, and that a refusal leaves every counter as it was |
| `ChannelQuota.GrantRaisesItsCounters` | backend/apps/chat/channel_quota.py:48-71 | which counters a granted call raises, by one each, and no others |
| `ChannelQuota.SessionQuotaIsNeverExceeded` | backend/apps/chat/channel_quota.py:48-98 | in every interleaving a session holds at most its own limits in any minute and any ten seconds |
| `ChannelQuota.CredentialQuotaIsNeverExceeded` | backend/apps/chat/channel_quota.py:48-98 | and a credential its own in any day and minute |
| `ChannelQuota.ReserveAloneIsItsSteps` | backend/apps/chat/channel_quota.py:60-105 | an undisturbed reservation is the increment step followed by the rollback step |
| `ChannelQuota.SequentialPathsAgree` | backend/apps/chat/channel_quota.py:110-155 | over any history of reserves and releases, one at a time, Redis and the fallback give the same verdicts and the same counters, which are the slots held; a refusal leaves all of them unchanged |
| `ChannelQuota.PathsAgree` | backend/apps/chat/channel_quota.py:110-155 | the agreement carries from any agreeing pair of states |
| `ChannelQuota.ReleaseUndoesReserve` | backend/apps/chat/channel_quota.py:189-202 | releasing what was just reserved gives back the fallback map exactly if no counter of the call was stored as zero or less |
| `ChannelQuota.QuotaStore.Pipeline` | backend/apps/chat/channel_quota.py:61-71 | one pipeline raises or lowers each key once and reports the new values |
| `ChannelQuota.QuotaStore.ReserveInRedis` | backend/apps/chat/channel_quota.py:47-105 | increment, judge, roll back: the new counters and the reservation |
| `ChannelQuota.QuotaStore.ReserveInMemory` | backend/apps/chat/channel_quota.py:122-155 | judge, then write: counters change only when granted |
| `ChannelQuota.QuotaStore.StoreCounts` | backend/apps/chat/channel_quota.py:144-148 | the counts are stored key by key |
| `ChannelQuota.QuotaStore.ReserveUsageSlot` | backend/apps/chat/channel_quota.py:16-155 | which path runs, what it changes, that the other path's counters stay, and that a reservation is handed out exactly on a grant |
| `ChannelQuota.QuotaStore.ReleaseUsageSlot` | backend/apps/chat/channel_quota.py:158-202 | what a release does to the counters it names and to nothing else |
| `SpanSelection.DeduplicateMatchesLongerWins` | backend/shared/text/span_utils.py:10-25 | the loop's result satisfies the promise below |
| `SpanSelection.SelectionIsTheUniqueOne` | backend/shared/text/span_utils.py:10-25 | a set of spans satisfies 'a span is dropped exactly if a kept span that is longer, or as long and further left, overlaps it' if and only if it is the returned one |
| `SpanSelection.LongerWinsIsUnique` | backend/shared/text/span_utils.py:10-25 | the promise leaves no choice |
| `SpanSelection.GreedyMeetsPromise` | backend/shared/text/span_utils.py:17-23 | the greedy scan over spans sorted by length keeps the promised set |
| `SpanSelection.GreedyDropsOverlapped` | backend/shared/text/span_utils.py:19-23 | whatever the scan drops is overlapped by an earlier kept match |
| `SpanSelection.SelectionIsDisjointSortedAndMaximal` | backend/shared/text/span_utils.py:10-25 | output matches come from the input, do not overlap, stand in order of start, and every dropped one overlaps a kept one at least as long |
| `SpanSelection.SpansIgnoreInputOrder` | backend/shared/text/span_utils.py:17 | permuting the input changes neither the spans nor their order |
| `SpanSelection.OverlapIff` | backend/shared/text/span_utils.py:19-21 | non-empty spans overlap exactly if they share a place; touching spans do not |
| `SpanSelection.SelectedIsFirst` | backend/shared/text/span_utils.py:17 | of several matches with the same non-empty span the first of the input survives, with its kind and value |
| `SpanSelection.SameOutputIff` | backend/shared/text/span_utils.py:17 | two orders of the same non-empty matches give the same output exactly if each kept match comes first among its equals in the other order too |
| `SpanSelection.SelectionIsIdempotent` | backend/shared/text/span_utils.py:10-25 | a second application returns its input |
| `CivilCalendar.FifthBusinessDay` | backend/apps/billing/calculations.py:33-37 | the first weekday on or after the fifth, at most the seventh |
| `CivilCalendar.DueDayFacts` | backend/apps/billing/calculations.py:33-37 | the same day stated by month, with all earlier days from the fifth on being weekend |
| `CivilCalendar.DueDayIsFifthBusinessDay` | backend/apps/billing/calculations.py:33-37 | that day is the fifth business day of its month exactly if the month begins on a Monday or a Tuesday |
| `CivilCalendar.NextDayIsNext` | backend/apps/billing/calculations.py:36 | adding a day in the calendar adds one to the ordinal |
| `CivilCalendar.OrdinalOrder` | backend/apps/billing/calculations.py:29-37 | calendar order is the order of ordinals |
| `CivilCalendar.AddMonthsIsAdditive` | backend/apps/billing/calculations.py:52-54 | adding a then b months is adding a + b |
| `CivilCalendar.AddMonthsMovesIndex` | backend/apps/billing/calculations.py:57-60 | the month moves by count and the day is clamped to its length, never otherwise changed |
| `CivilCalendar.AdminAgrees` | backend/admin/repository/platform_admin_repository.py:1428-1434 | the second month addition, with its own leap-year table, returns the same date for every input |
| `CivilCalendar.RenewalMovesForward` | backend/apps/billing/calculations.py:57-60 | a renewal is later by at least 28 days |
| `CivilCalendar.RenewalsIncrease` | backend/apps/billing/service.py:552-553 | chained renewals strictly increase |
| `CivilCalendar.RenewedDay` | backend/apps/billing/service.py:552-553 | after n renewals the day is the least of the first day and all visited month lengths, never below the lesser of the day and 28 |
| `CivilCalendar.ChainAgainstAtOnce` | backend/apps/billing/calculations.py:57-60 | the chain never runs ahead of adding all months at once, and equals it exactly if no visited month was too short for that day |
| `BillingPeriods.InstantHasOnePeriod` | backend/apps/billing/calculations.py:63-79 | an instant lies in a period (start included, end excluded) exactly if it is the one computed |
| `BillingPeriods.PeriodShape` | backend/apps/billing/calculations.py:63-79 | which month's due days bound the computed period |
| `BillingPeriods.PeriodsTile` | backend/apps/billing/calculations.py:63-79 | each period ends where the next begins, and none is empty |
| `BillingPeriods.KeysFollowTime` | backend/apps/billing/calculations.py:63-79 | period keys never fall as time passes |
| `BillingPeriods.ScheduledChangeWindow` | backend/apps/billing/workflows.py:47-68 | a scheduled change is applied exactly from the end of the period it was requested in until the calendar month turns |
| `BillingChain.InvoicesFormOneChain` | backend/apps/billing/workflows.py:143-200 | over every run of cycle passes and settlements, paid or failed, dated invoices form one chain without gaps or repetition from the first due date, each naming the next, all before the current due date, to which an unsettled failure belongs |
| `BillingChain.RunKeepsChain` | backend/apps/billing/service.py:1569-1743 | the chain invariant, and that no invoice is lost, over every run |
| `BillingChain.OpKeepsChain` | backend/apps/billing/service.py:1569-1743 | and over each operation |
| `BillingChain.SuccessKeepsChain` | backend/apps/billing/service.py:1614-1676 | a paid billing adds exactly the due date and moves on by one interval |
| `BillingChain.FailureKeepsChain` | backend/apps/billing/service.py:1677-1720 | a failed one adds no paid invoice and leaves the subscription as it was |
| `BillingChain.SyncKeepsRows` | backend/apps/billing/workflows.py:77-128 | a status sync changes only status and time of change; with nothing unsettled or cancelled a paid plan is active |
| `BillingChain.PassBillsOneDate` | backend/apps/billing/workflows.py:143-166 | a pass bills exactly one chain date while one is due, and nothing otherwise |
| `BillingChain.PassesCatchUp` | backend/apps/billing/workflows.py:168-200 | repeated passes on one day bill only dates that were due, until the due date lies ahead |
| `BillingChain.PassesReachFixpoint` | backend/apps/billing/workflows.py:168-200 | and then another pass that day changes no row |
| `BillingChain.BillingRows.CompleteSubscriptionBilling` | backend/apps/billing/service.py:1569-1720 | the rows after a billing attempt, and when it reports success |
| `BillingChain.BillingRows.SettleSubscription` | backend/apps/billing/service.py:1723-1743 | a settlement is a forced billing attempt |
| `BillingChain.BillingRows.LatestUnsettledFailure` | backend/apps/billing/service.py:1615-1625 | the last failure, unless something was paid after it |
| `BillingChain.BillingRows.SyncStatus` | backend/apps/billing/workflows.py:77-128 | status and tenant switch from cancellation, unpaid invoices and trial end |
| `BillingChain.BillingRows.ProcessTenant` | backend/apps/billing/workflows.py:175-200 | one tenant's turn in a cycle: scheduled change, sync, invoice |
| `ScheduledChanges.NeverEarlyIff` | backend/apps/billing/workflows.py:143-200 | over every run of passes and settlements a scheduled change never takes effect before its period exactly if no operation before that period is a payment |
| `ScheduledChanges.EarlyChangeIff` | backend/apps/billing/service.py:1569-1720 | before its period a change is made exactly by a successful settlement, or by a cycle pass that bills an active, paid, unrestricted tenant whose due day has come and is not invoiced |
| `ScheduledChanges.EarlyChangeHappens` | backend/apps/billing/service.py:1656-1670 | a dated subscription whose change is made early by the ordinary cycle pass, and one day after it was asked for by a settlement |
| `ScheduledChanges.RunKeepsScheduleIff` | backend/apps/billing/workflows.py:47-68 | over every run, before or in its period, the change is still waiting exactly if every operation kept it, and otherwise it has been made |
| `ScheduledChanges.PassKeepsScheduleIff` | backend/apps/billing/workflows.py:143-166 | a cycle pass leaves the change waiting exactly if the tenant is switched off, or neither the renewal step's window is open nor the pass bills |
| `ScheduledChanges.BillingKeepsScheduleIff` | backend/apps/billing/service.py:1569-1720 | a billing attempt leaves it waiting exactly if it is neither due nor forced, or it fails in another period than the change's |
| `ScheduledChanges.NextDueDateAfterChange` | backend/apps/billing/service.py:1627-1670 | a billing that makes a change counts the next due day by the new interval only in the change's own period |
| `ScheduledChanges.StatusAfterRenewalStep` | backend/apps/billing/workflows.py:55-68 | what the renewal step's change leaves in every field, for the free plan and for paid ones |
| `ScheduledChanges.PaidChangeResetsDueDate` | backend/apps/billing/workflows.py:55-68 | the renewal step's change to a paid plan puts the due date one interval after the subscription began, and leaves it exactly if it was that day |
| `ScheduledChanges.RequestedPeriodIsBefore` | backend/apps/billing/service.py:1497-1506 | a change asked for is early throughout the period it was asked in |
| `StatusRules.StatusAfterSync` | backend/apps/billing/workflows.py:25-38 | for every plan exactly when a sync leaves it restricted, on trial or active |
| `StatusRules.SwitchAfterSync` | backend/apps/billing/workflows.py:77-125 | exactly when a sync switches the tenant off, and when it writes the row |
| `StatusRules.FreePass` | backend/apps/billing/workflows.py:175-200 | a cycle pass leaves a free tenant on trial before the trial's end, restricts it from then on, and writes no invoice |
| `StatusRules.FreeTrialRun` | backend/apps/billing/workflows.py:168-200 | the same at every pass of every run |
| `StatusRules.UnsettledIff` | backend/apps/billing/service.py:1615-1625 | a failure is unsettled exactly if it is the last and nothing was paid after it |
| `StatusRules.KnownIff` | backend/apps/billing/repositories.py:463-474 | what counts as invoiced or failed before |
| `StatusRules.FailingTwiceRecordsOnce` | backend/apps/billing/service.py:1679-1715 | failing again for the same day records nothing more |
| `StatusRules.DueDateIs` | backend/apps/billing/service.py:492-550 | the due day: paid until, else one interval after the trial or the subscription began |
| `StatusRules.PassInvoicesIff` | backend/apps/billing/workflows.py:143-166 | exactly when an undisturbed pass invoices, and for which day |
| `StatusRules.SuccessfulSettlement` | backend/apps/billing/service.py:1614-1676 | what a paid settlement invoices and leaves in every field |
| `StatusRules.FailedSettlement` | backend/apps/billing/service.py:1677-1720 | what a failed one records, once for a day and with the first deadline kept, and that nothing else changes |
| `StatusRules.FailedSettlementRestricts` | backend/apps/billing/workflows.py:91-118 | after it the first pass past the due day restricts the tenant |
| `FailedPayments.RestrictedIff` | backend/apps/billing/workflows.py:91-118 | a paid plan is restricted exactly while its latest failure is unsettled, past its due day, and not older than the last write of the subscription row |
| `FailedPayments.RestrictionStaysIff` | backend/apps/billing/repositories.py:334 | a restriction outlasts the sync that made it exactly if that sync was no write, or the failure is not older than it |
| `FailedPayments.NewRestrictionLastsOneSync` | backend/apps/billing/workflows.py:107-128 | so a newly restricted tenant is active again at the next sync, though nothing was paid |
| `FailedPayments.RestrictionHoldsThroughPasses` | backend/apps/billing/workflows.py:107-128 | while the row is not written the restriction holds through every run of passes and nothing is billed |
| `FailedPayments.SecondPassBillsAgain` | backend/apps/billing/workflows.py:143-166 | of two passes after a failure the first restricts the tenant and the second bills it |
| `Proration.RoundHalfEvenIsNearest` | backend/apps/billing/calculations.py:91-95 | rounding returns k exactly if k is nearest, and even when two are equally near |
| `Proration.RoundHalfEvenIsMonotone` | backend/apps/billing/calculations.py:91-95 | rounding is monotone |
| `Proration.MonthlyChargeIsMonotone` | backend/apps/billing/calculations.py:98-100 | monthly charges are multiples of 100 and monotone in price |
| `Proration.LongerIntervalsCostNoMore` | backend/apps/billing/calculations.py:82-100 | yearly <= quarterly <= monthly <= list price |
| `Proration.CoverageStartsBeforeItEnds` | backend/apps/billing/subscription_proration.py:84-87 | the coverage window is never empty |
| `Proration.ShareBounds` | backend/apps/billing/subscription_proration.py:64-75 | remaining days lie between 0 and the total, all before the start and none after the end |
| `Proration.CreditBounds` | backend/apps/billing/subscription_proration.py:110-160 | the credit lies between 0 and the old charge, reaching both ends at full and no remaining days |
| `Proration.CreditNeverGrows` | backend/apps/billing/subscription_proration.py:110-160 | in a fixed window the credit never grows as days pass |
| `Proration.UpgradeChargeBounds` | backend/apps/billing/subscription_proration.py:110-160 | an accepted upgrade costs at least the fee difference and at most the new charge plus that, its credit is within the old charge, and it pays for a time after today |
| `Proration.FeesCoverDifference` | backend/apps/billing/subscription_proration.py:100-107 | along any chain of plans the fees cover the fee difference, and equal it exactly if no step goes to a lower fee |
| `Proration.UpgradeFeesTelescope` | backend/apps/billing/subscription_proration.py:28-40 | in the default catalogue every chain of accepted upgrades pays exactly the difference of the end fees |
| `UpgradeCharges.TotalBalances` | backend/apps/billing/subscription_proration.py:128-142 | what is paid and what is credited make up the new charge and the fee; a credit beyond the new charge is lost |
| `UpgradeCharges.ChargesFromCatalogue` | backend/apps/billing/subscription_proration.py:124-136 | both period charges and the fee from list price, discount and months |
| `UpgradeCharges.MonthlyChargeIs` | backend/apps/billing/calculations.py:82-100 | a monthly charge is the price less 0, 7 or 15 per cent, rounded to a cent with ties to even, cut to full hundreds |
| `UpgradeCharges.MonthlyChargeIsUnique` | backend/apps/billing/calculations.py:82-100 | no other amount is |
| `UpgradeCharges.CoverageIs` | backend/apps/billing/subscription_proration.py:78-87 | which days the old period covers |
| `UpgradeCharges.DaysAddUp` | backend/apps/billing/subscription_proration.py:64-75 | days passed and days remaining make up the total inside the window; all before it, none after |
| `UpgradeCharges.CoveredDays` | backend/apps/billing/subscription_proration.py:129-131 | the days previewed are those of that window |
| `UpgradeCharges.CreditIsTheShare` | backend/apps/billing/subscription_proration.py:132-134 | the credit is the old charge's share for the remaining days, to the nearest cent |
| `UpgradeCharges.RefusedIff` | backend/apps/billing/subscription_proration.py:119-124 | exactly which upgrades are refused |
| `UpgradeCharges.PaidUntilIs` | backend/apps/billing/subscription_proration.py:90-92 | one new interval from today, clamped to the month |
| `UpgradeCharges.FirstDayCostsTheDifference` | backend/apps/billing/subscription_proration.py:110-142 | on or before the first covered day an upgrade costs the difference of the period charges and the fee |
| `UpgradeCharges.AfterCoverageCostsAll` | backend/apps/billing/subscription_proration.py:110-142 | after the last covered day it costs the full new charge and the fee |
| `UpgradeCharges.WaitingNeverSaves` | backend/apps/billing/subscription_proration.py:110-142 | the same upgrade never gets cheaper as days pass |
| `UpgradeCharges.FeesOfTheWholeLadder` | backend/apps/billing/subscription_proration.py:95-107 | the training fees of each step through the default catalogue, and their sum |
| `UpgradeCharges.SampleUpgrade` | backend/apps/billing/subscription_proration.py:110-142 | one upgrade in numbers: 31 of 46 days, 2628 credited, 12272 due |
| `TrainingAllowance.AllowanceIsIncludedPlusPurchased` | backend/apps/billing/service.py:313-336 | over any run of purchases, paid or refused, and plan changes that do not reduce the included characters, the allowance is the plan's characters plus everything bought |
| `TrainingAllowance.AllowanceOfNewAccount` | backend/apps/billing/service.py:227-244 | the same from a new account on, with nothing else added |
| `TrainingAllowance.PurchaseRaisesByItsSize` | backend/apps/billing/service.py:1745-1820 | an accepted purchase raises the allowance and the invoiced characters by exactly its size, a refused one by nothing |
| `TrainingAllowance.PayingProvidersAreCounted` | backend/apps/billing/payment.py:68-73 | a provider's payments can succeed exactly if its invoices carry a status that the add-on query counts, so the third status is never written |
| `TrainingAllowance.AllowanceAgainstInvoices` | backend/apps/billing/service.py:313-320 | the allowance is never less than plan plus invoices, and equal exactly while the carryover does not exceed that |
| `TrainingAllowance.PlanChangeKeepsAllowanceIff` | backend/apps/billing/service.py:1210-1234 | a plan change leaves plan plus purchases exactly if the new plan includes what the carryover has beyond the purchases |
| `TrainingAllowance.QuantityIs` | backend/apps/billing/service.py:1750-1752 | a quantity below one counts as one, in what is paid and in what is bought |
| `TrainingAllowance.ImmediateChangeIsKept` | backend/apps/billing/service.py:1210-1234 | what an immediate change reached is not lost by any later scheduled switch |
| `TrainingAllowance.PaymentSucceedsIff` | backend/apps/billing/payment.py:94-197 | exactly which payments go through, by provider, key, amount and reply |
| `TrainingAllowance.UpgradesKeepTraining` | backend/apps/billing/subscription_proration.py:28-40 | an accepted upgrade in the default catalogue never reduces the included characters |
| `TrainingAllowance.AccountRow.PurchaseTrainingAddon` | backend/apps/billing/service.py:1745-1820 | refused exactly if the payment fails, with nothing written; otherwise one counted invoice more and the allowance higher by the size |
| `TrainingAllowance.AccountRow.ApplyImmediatePlanChange` | backend/apps/billing/service.py:1210-1234 | the account after an immediate change |
| `TrainingAllowance.AccountRow.AvailableTrainingChars` | backend/apps/billing/service.py:313-336 | the loop over invoice lines adds up the counted add-ons |
| `PaymentEvents.RepeatsChangeNothing` | backend/apps/billing/service.py:1277-1374 | any sequence of deliveries has the effect of the sequence without repeats, whether the first delivery was acted on, only recorded, or recorded and failed |
| `PaymentEvents.NoEventIsInvoicedTwice` | backend/apps/billing/service.py:1324-1373 | over any sequence every event is recorded once and invoiced at most once |
| `PaymentEvents.ProcessKeepsOneInvoice` | backend/apps/billing/service.py:1324-1373 | the same over one delivery |
| `PaymentEvents.AnswerIs` | backend/apps/billing/service.py:1284-1312 | exactly which deliveries get which answer |
| `PaymentEvents.UpgradeLeaves` | backend/apps/billing/service.py:1318-1331 | plan, interval, paid-until, schedule and characters after a processed upgrade, and that other rows stay |
| `PaymentEvents.UpgradeInvoiceIs` | backend/apps/billing/service.py:1335-1373 | its one invoice: tenant, event, and the amount sent or else the amount computed |
| `PaymentEvents.PreviewIs` | backend/apps/billing/service.py:1199-1208 | the upgrade previewed is the one from the tenant's row on that day in the running period |
| `PaymentEvents.NewRowIsFreeTrial` | backend/apps/billing/service.py:227-244 | the row given to a tenant that had none |
| `PaymentEvents.PaymentLedger.RecordPaymentEventOnce` | backend/apps/billing/repositories.py:524-556 | finds the recorded event or appends it, and says which; a new event of an unknown tenant breaks the foreign key and is not written |
| `PaymentEvents.PaymentLedger.ProcessVerifiedPaymentEvent` | backend/apps/billing/service.py:1277-1374 | ledger and answer after one delivery, errors and the trial row of a tenant without one included |
| `CredentialRotation.LazyPromotionRefinesTimer` | backend/apps/chat/channel_access.py:392-475 | over any run in which some accepted request falls between each window's end and the next rotation, the stored row accepts exactly the secrets an eager timer accepts |
| `CredentialRotation.RotationsWaitIffSavedInTime` | backend/apps/chat/channel_access.py:354-390 | no rotation finds a promotion due and unsaved exactly if the timer accepts some request between each window's end and the next rotation |
| `CredentialRotation.StepFollowsTimer` | backend/apps/chat/channel_access.py:354-475 | the same over one event |
| `CredentialRotation.AuthenticationFollowsTimer` | backend/apps/chat/channel_access.py:392-475 | acceptance against the timer, that no request changes what the timer shows later, and that an accepted one saves a due promotion |
| `CredentialRotation.RotationFollowsTimer` | backend/apps/chat/channel_access.py:354-390 | a rotation does what the timer's rotation does exactly if no promotion is due and unsaved, or the due secret is in force anyway |
| `CredentialRotation.NewSecretAtOnceOldUntilWindowEnds` | backend/apps/chat/channel_access.py:97-143 | after a rotation and any requests the new secret works at every later instant, the window's last included, and the old one exactly before it |
| `CredentialRotation.RequestsKeepTimer` | backend/apps/chat/channel_access.py:392-475 | requests alone never change what the timer shows |
| `CredentialRotation.AcceptedRequestSavesPromotion` | backend/apps/chat/channel_access.py:97-118 | after an accepted request no promotion is due, whatever requests follow |
| `CredentialRotation.SecondRotationTooEarly` | backend/apps/chat/channel_access.py:371-373 | a rotation that finds a due promotion unsaved loses the new secret and keeps the oldest alive |
| `CredentialRotation.ChannelCredential.PromoteNextSecretIfDue` | backend/apps/chat/channel_access.py:97-118 | the row after promotion, and whether there was one |
| `CredentialRotation.ChannelCredential.AuthenticateWithReason` | backend/apps/chat/channel_access.py:392-475 | the answer in each case, and that a refused request leaves the stored row as it was |
| `CredentialRotation.AnswerIs` | backend/apps/chat/channel_access.py:392-475 | exactly which answer each request gets, and which of the two secrets an accepted one is taken for |
| `CredentialRotation.StoredAfter` | backend/apps/chat/channel_access.py:392-475 | a refused request changes nothing; an accepted one stores the due promotion and the secret used |
| `CredentialRotation.RevokedAcceptsNothing` | backend/apps/chat/channel_access.py:333-352 | a revoked credential accepts nothing in any run until it is rotated |
| `CredentialRotation.ChannelCredential.RotateCredential` | backend/apps/chat/channel_access.py:354-390 | the row after a rotation |
| `AdminSessions.SessionsNeverExceedLogins` | backend/admin/service/platform_admin_service.py:291-438 | in every run a user has at most as many valid sessions as successful logins |
| `AdminSessions.CallKeepsInvariant` | backend/admin/service/platform_admin_service.py:291-438 | every call keeps that bound and the soundness of session rows |
| `AdminSessions.VersionsNeverDecrease` | backend/admin/repository/platform_admin_repository.py:202-330 | in every run a security version never decreases |
| `AdminSessions.BumpKillsEarlierTokens` | backend/admin/service/platform_admin_service.py:422-438 | a token issued before its user's version was raised is never accepted again, as access or as refresh |
| `AdminSessions.WhatRaisesVersion` | backend/admin/repository/platform_admin_repository.py:202-340 | exactly which calls raise a version: lockout, deactivation, deletion, password and second-factor changes |
| `AdminSessions.RefreshTokenWorksOnce` | backend/admin/service/platform_admin_service.py:386-410 | a refresh succeeds exactly if the token is acceptable, and then never again in any run |
| `AdminSessions.RaisedVersionNeedsLogin` | backend/admin/service/platform_admin_service.py:386-410 | after a raise no refresh token of that user is accepted until the next login |
| `AdminSessions.RaiseMakesStale` | backend/admin/service/platform_admin_service.py:513-526 | a raise leaves every session of that user behind the current version |
| `AdminSessions.DroppedSessionsStayDropped` | backend/admin/repository/platform_admin_repository.py:431-437 | once a user's sessions are dropped no refresh token of that user works in any run until the next login, even though the version is unchanged, and other users keep theirs |
| `AdminSessions.PlatformAdminService.IssueAccessAndRefresh` | backend/admin/service/platform_admin_service.py:291-320 | the new session row and both tokens |
| `AdminSessions.PlatformAdminService.SignIn` | backend/admin/service/platform_admin_service.py:322-384 | state and answer in every branch of a login |
| `AdminSessions.PlatformAdminService.ExchangeRefreshToken` | backend/admin/service/platform_admin_service.py:386-410 | state and answer of a refresh; a token that does not match its row ends all sessions of that user |
| `AdminSessions.PlatformAdminService.SignOut` | backend/admin/service/platform_admin_service.py:412-420 | a logout ends the session of a matching refresh token |
| `AdminSessions.PlatformAdminService.ResolveToken` | backend/admin/service/platform_admin_service.py:422-438 | when an access token is accepted |
| `AdminSessions.PlatformAdminService.ManageAccount` | backend/admin/repository/platform_admin_repository.py:202-340 | what each account operation does to versions and sessions |
| `SignInRules.LoginSucceedsIff` | backend/admin/service/platform_admin_service.py:322-384 | a login succeeds exactly with the right password of a usable user and, where set up, a right second factor |
| `SignInRules.LoginRefusals` | backend/admin/service/platform_admin_service.py:322-368 | exactly which reply every other login gets |
| `SignInRules.WrongPasswordsLock` | backend/admin/service/platform_admin_service.py:332-345 | wrong passwords in a row lock a user exactly when there are max(1, threshold) with those before; the version rises once and sessions stay |
| `SignInRules.RefreshSucceedsIff` | backend/admin/service/platform_admin_service.py:386-410 | exactly which refreshes succeed |
| `SignInRules.IssuedTokensWork` | backend/admin/service/platform_admin_service.py:291-320 | what is issued, and that it works until it expires |
| `SignInRules.AccessAcceptedIff` | backend/admin/service/platform_admin_service.py:422-438 | exactly when an access token is accepted in any later state |
| `SignInRules.FieldsAfterCall` | backend/admin/repository/platform_admin_repository.py:202-340 | every field of every user after any call |
| `SignInRules.NewUserIsInactive` | backend/admin/repository/platform_admin_repository.py:176-200 | a created user can do nothing until a password is set |
| `SignInRules.SessionsAfterCall` | backend/admin/repository/platform_admin_repository.py:382-437 | a user's valid sessions after any call: all ended, one closed, opened or exchanged, or the same |
| `SignInRules.LogoutIsFinal` | backend/admin/service/platform_admin_service.py:412-420 | a refresh token that was logged out is never accepted again in any run |
| `MfaLockout.BoundedIffLockCoversWindow` | backend/admin/repository/platform_admin_repository.py:456-510 | at most maxAttempts per started window are counted in every sequence of attempts, exactly if the lock is at least as long as the window |
| `MfaLockout.LongLockBounds` | backend/admin/repository/platform_admin_repository.py:456-510 | the bound when the lock covers the window |
| `MfaLockout.CountWithinBound` | backend/admin/repository/platform_admin_repository.py:456-510 | the bound from any row a run can reach |
| `MfaLockout.BurstCounts` | backend/admin/repository/platform_admin_repository.py:456-510 | with a shorter lock, one attempt more is counted inside one window |
| `MfaLockout.LockLastsItsLength` | backend/admin/repository/platform_admin_repository.py:439-510 | the attempt that fills the count locks the scope for exactly the lock's length, whatever is tried meanwhile; another counted attempt leaves it open |
| `MfaLockout.LockNeedsFullWindow` | backend/admin/repository/platform_admin_repository.py:456-510 | a locked scope has had at least maxAttempts failed attempts within one window |
| `MfaLockout.StoredCountIsReal` | backend/admin/repository/platform_admin_repository.py:456-510 | the stored count never exceeds the attempts made in its window, and a lock is stored exactly with a full count |
| `MfaLockout.FullWindowLocks` | backend/admin/repository/platform_admin_repository.py:456-510 | of failed attempts within one window of the first, exactly the maxAttempts-th locks |
| `MfaLockout.NextWindowStartsAtOne` | backend/admin/repository/platform_admin_repository.py:476-500 | an attempt counts one more within the window and starts again at one after it |
| `MfaLockout.NormalizedIs` | backend/admin/repository/platform_admin_repository.py:462-470 | settings below one count as one |
| `MfaLockout.AttemptCounter.RecordFailedAttempt` | backend/admin/repository/platform_admin_repository.py:456-510 | the row after an attempt; one made while locked changes nothing |
| `MfaLockout.AttemptCounter.Reset` | backend/admin/repository/platform_admin_repository.py:512-530 | a reset clears count and lock |
| `AuditPaging.FollowCursor` | backend/admin/repository/platform_admin_repository.py:1166-1249 | following the cursor ends, gives every matching row once in descending order for any page size, and takes exactly the pages that the rows fill |
| `AuditPaging.QueryAfterRow` | backend/admin/repository/platform_admin_repository.py:1147-1164 | asking below a row of the full list gives the list after it |
| `AuditPaging.QueryIsExact` | backend/admin/repository/platform_admin_repository.py:1147-1164 | the query holds exactly the matching rows, newest first |
| `AuditPaging.DescendingIsUnique` | backend/admin/repository/platform_admin_repository.py:1166-1249 | a descending list is determined by its rows |
| `AuditPaging.PageIgnoresRowsAboveCursor` | backend/admin/repository/platform_admin_repository.py:1147-1164 | rows not below the cursor, new ones included, do not change a page |
| `AuditPaging.CursorRoundTrip` | backend/admin/repository/platform_admin_repository.py:1111-1145 | a cursor decodes to the row's own place, with or without a time zone |
| `AuditPaging.RangesAreHalfOpen` | backend/admin/repository/platform_admin_repository.py:1147-1164 | a date range ends before its upper bound: cut anywhere, its rows fall into two parts that share none |
| `AuditPaging.LimitsAre` | backend/admin/repository/platform_admin_repository.py:1166-1180 | page sizes between 1 and 200, 50 for none; caps up to 50000 |
| `AuditPaging.ListAuditTrail` | backend/admin/repository/platform_admin_repository.py:1166-1249 | page, and a next cursor exactly if more rows follow |
| `AuditPaging.ExportAuditTrail` | backend/admin/repository/platform_admin_repository.py:1251-1327 | at most cap rows, all matching, newest first, a prefix of the full list and the whole of it when shorter than the cap |
| `AuditPaging.ExportIsPagesCut` | backend/admin/repository/platform_admin_repository.py:1251-1327 | it is the prefix of what the pages make up, and all of it within the cap |
| `TextChunking.ChunkTextForTraining` | backend/shared/text/chunking.py:10-44 | when it fails, and that the chunks before the last filter fit, lose nothing but white space, and are the greedy runs of whole sentences |
| `TextChunking.GreedyBlocksAreUnique` | backend/shared/text/chunking.py:26-42 | consecutive runs that fit, or hold one oversized sentence, and could not have taken the next sentence: there is one such division |
| `TextChunking.BlocksKeepText` | backend/shared/text/chunking.py:15-42 | such runs make chunks of at most max characters that hold the text's characters in order and once |
| `TextChunking.SentencesRebuild` | backend/shared/text/chunking.py:24 | the sentences joined by single spaces are the text, and none is empty or has outer white space |
| `TextChunking.NormalizedIsTidy` | backend/shared/text/chunking.py:11-16 | normalising keeps all other characters and leaves no line break, so the paragraph split never splits |
| `TextChunking.SlicesRebuild` | backend/shared/text/chunking.py:38-39 | slices of an oversized sentence are full except the last and make it up |
| `TextChunking.RenderedSizes` | backend/shared/text/chunking.py:30-42 | no chunk is longer than max |
| `TextChunking.RenderedContent` | backend/shared/text/chunking.py:30-42 | chunks and sentences hold the same non-space characters |
| `TextChunking.FilterLosesOnlyFragments` | backend/shared/text/chunking.py:44 | the kept parts stand at increasing places, which are exactly those of the parts with more than 20 characters |
| `TextChunking.KeptFromIsUnique` | backend/shared/text/chunking.py:44 | that determines the filter's result |
| `TextChunking.PackingIsUnique` | backend/shared/text/chunking.py:26-42 | the sentences and the limit determine the chunks |
| `TextChunking.PackSentences` | backend/shared/text/chunking.py:25-42 | the buffer loop produces the greedy runs |
| `TextChunking.KeepLongParts` | backend/shared/text/chunking.py:44 | the filter loop |
| `TextChunking.SliceSentence` | backend/shared/text/chunking.py:38-39 | the slicing loop |
| `SentenceSpans.DetectLanguagePerChunk` | backend/shared/text/language_detection.py:29-81 | when it fails, that spans are ordered and inside the text, how each strategy chose them, and their labels |
| `SentenceSpans.SentenceChunks` | backend/shared/text/language_detection.py:39-46 | the chunks are the gaps between separators of at least ten characters, and any rest, in order and once |
| `SentenceSpans.SeparatorsAreOrdered` | backend/shared/text/language_detection.py:10 | the separators found are non-empty, in order, apart, and inside the text |
| `SentenceSpans.LongGapsAndRest` | backend/shared/text/language_detection.py:39-46 | the collected gaps are exactly the chosen ones |
| `SentenceSpans.MergeShort` | backend/shared/text/language_detection.py:48-57 | the merge cuts the chunks into consecutive shortest runs of at least 30 characters |
| `SentenceSpans.RunsAreUnique` | backend/shared/text/language_detection.py:48-57 | there is one way to cut them so |
| `SentenceSpans.MergeIsUnique` | backend/shared/text/language_detection.py:48-57 | so the chunks determine the merged spans |
| `SentenceSpans.MergedSpansAreOrderedAndLong` | backend/shared/text/language_detection.py:48-57 | merged spans are ordered and disjoint, and all but the last have at least 30 characters |
| `SentenceSpans.EachChunkInOneSpan` | backend/shared/text/language_detection.py:48-57 | each chunk lies in exactly one merged span |
| `SentenceSpans.CoveredIff` | backend/shared/text/language_detection.py:48-57 | a character lies in a merged span exactly if it lies in a chunk of its run or between two neighbours of it |
| `SentenceSpans.SpansIffChosen` | backend/shared/text/language_detection.py:39-57 | there is a span at all exactly if some piece between separators was chosen |
| `SentenceSpans.FixedChunks` | backend/shared/text/language_detection.py:58-60 | the fixed-size strategy tiles the text; step zero fails, a negative one yields nothing |
| `SentenceSpans.TilesAreUnique` | backend/shared/text/language_detection.py:58-60 | there is one such tiling |
| `SentenceSpans.LabelSpans` | backend/shared/text/language_detection.py:66-79 | each span in order gets the label of its own text |
| `SentenceSpans.LabelIsSupported` | backend/shared/text/language_detection.py:66-79 | a piece is labelled hu or es exactly if the detector is there and says so of at least five characters |
| `TextSplitting.WordsStayApart` | backend/shared/text/chunking.py:11 | the words of a text are determined: none of nothing, one of a text without white space, and white space separates |
| `TextSplitting.SentencesStayApart` | backend/shared/text/chunking.py:24 | so are the sentences: white space after a sentence end separates, and nothing else does |
| `TextSplitting.StripIs` | backend/shared/text/chunking.py:17 | stripping takes off outer white space and nothing else |
| `TextSplitting.SeparatorsAreExact` | backend/shared/text/language_detection.py:10 | the separators are exactly the longest stretches of line breaks and of white space from a sentence end on |
| `TextSplitting.StretchesAreUnique` | backend/shared/text/language_detection.py:10 | there are no other such stretches |
| `TextSplitting.PieceIsChunkIff` | backend/shared/text/language_detection.py:39-46 | a piece between separators is a chunk exactly if it has ten characters, the rest if it is not empty |
| `Cancellation.RunAdvances` | backend/apps/billing/service.py:664-770 | in every run marks are set at most once and never cleared, a restored request never changes again, and requests go only with their tenant |
| `Cancellation.PerformAdvances` | backend/apps/billing/repositories.py:147-276 | the same over each operation, with notices dated two days before, one day before, and on or after the effective day |
| `Cancellation.ErasureNeedsMarkedRequest` | backend/apps/billing/service.py:838-851 | only a pass erases, and only for an open request marked at least seven days before |
| `Cancellation.ErasureTakesFourteenDays` | backend/apps/billing/service.py:796-852 | without an explicit deletion of access, erasure comes no earlier than fourteen days after an open request's effective day |
| `Cancellation.FourteenDaysAreReached` | backend/apps/billing/service.py:796-852 | and two passes on those days do erase |
| `Cancellation.SafeIffNoOpenRequest` | backend/apps/billing/service.py:796-852 | left alone, a tenant keeps its row, its switch and its requests in every run exactly if none of its requests is open |
| `Cancellation.RestoreIsEnoughIff` | backend/apps/billing/service.py:699-733 | a successful restore saves the tenant exactly if it had no other open request |
| `Cancellation.SecondCancellationOutlivesRestore` | backend/apps/billing/repositories.py:237-269 | cancelling twice and restoring once reports success and leaves the tenant to be erased |
| `Cancellation.CancellationTable.CancelSubscription` | backend/apps/billing/service.py:664-697 | a new open request for the day after the paid period, even beside an open one |
| `Cancellation.CancellationTable.RestoreSubscriptionRenewal` | backend/apps/billing/service.py:699-733 | state and reply in every branch of a restore |
| `Cancellation.CancellationTable.DeleteServiceAccess` | backend/apps/billing/service.py:735-770 | state and reply in every branch of an explicit deletion |
| `Cancellation.CancellationTable.SyncStatus` | backend/apps/billing/workflows.py:77-122 | when a status sync switches a tenant off and marks its request |
| `Cancellation.CancellationTable.MarkCancellationDeactivated` | backend/apps/billing/repositories.py:201-217 | the mark is written once |
| `Cancellation.CancellationTable.HardDeleteTenant` | backend/apps/billing/repositories.py:271-276 | a tenant goes with all its requests |
| `Cancellation.CancellationTable.HandleRequest` | backend/apps/billing/service.py:801-851 | what a pass does for one request as read at its start |
| `Cancellation.CancellationTable.ProcessCancellationLifecycle` | backend/apps/billing/service.py:796-852 | the state after a pass, and that it counts the tenants it deleted |
| `CancellationRules.FlagAfter` | backend/apps/billing/service.py:823-829 | exactly when an operation switches a tenant off, and that every other switch stays |
| `CancellationRules.DeactivatedIsOff` | backend/apps/billing/service.py:756-761 | a deletion that reports success has switched the tenant off and marked its request |
| `CancellationRules.OffStaysOff` | backend/apps/billing/service.py:796-852 | a switch once off stays off in every run |
| `CancellationRules.ErasedIff` | backend/apps/billing/service.py:838-851 | a tenant is erased exactly by a pass that finds a request acted on a week ago and drops its schema |
| `CancellationRules.MarksAfterPass` | backend/apps/billing/service.py:801-837 | every mark on every request after a pass, notices on their own days |
| `CancellationRules.MarkAfterCall` | backend/apps/billing/repositories.py:201-217 | which requests the other operations mark |
| `CancellationRules.RestoreReplies` | backend/apps/billing/service.py:699-733 | exactly when a restore succeeds, and what alone it changes |
| `CancellationRules.DeletionReplies` | backend/apps/billing/service.py:735-770 | exactly which reply a deletion gets |
| `CancellationRules.CancellationOpens` | backend/apps/billing/service.py:677-697 | what a cancellation adds, and that it touches nothing else |

## Left out

- ChannelQuota.QuotaStore.ReserveInRedis: does not model key expiry, nor a connection that breaks between the two pipelines; keys
  are constructors instead of strings.
- ChannelQuota.QuotaStore.ReserveUsageSlot: a broken connection is noticed at the first pipeline only, before anything is counted.
- Releasing the same reservation twice.
- Quota limits that differ between calls on one key are covered only by their upper bound.
- Row order by time stamps: invoices, cancellation requests and payment events are in order of arrival.
- Time zones other than UTC in billing, and years outside 1 to 9999.
- BillingChain: immediate upgrades within a run, and passes over several tenants, which share no rows; payment execution, whose
  outcome is an input; the simulated date, under which rows are stamped with the wall clock.
- BillingChain.InvoicesFormOneChain: runs begin with no scheduled change, because the renewal step's change to a paid plan moves the
  due date (`ScheduledChanges.PaidChangeResetsDueDate`).
- BillingChain.BillingRows.CompleteSubscriptionBilling: does not model the debug path that forces a second invoice for one day, nor
  amounts and invoice lines.
- ScheduledChanges: asking for or withdrawing a change within a run.
- TrainingAllowance: the characters of an add-on are fixed when it is bought; a catalogue edited later is not modelled.
- Question add-ons, invoice lines, currencies, e-mail texts and PDF invoices.
- PaymentEvents: names arrive in normal form, a malformed amount is not modelled, and no tenant is created or deleted in a run.
- Cancellation.CancellationTable.SyncStatus: whether an invoice is overdue is an input; the test itself is in BillingChain.
- Cancellation.CancellationTable.ProcessCancellationLifecycle: of the three counts it reports, only the deleted tenants are modelled.
- Cancellation: rows without an effective moment (none is created), the administrator's own restore and deletion, and the
  restriction of the subscription status, which is in BillingChain.
- CredentialRotation: the legacy hash column, allowed origins and address ranges (an input), and the random secret.
- AdminSessions: hashing, token signatures and one-time codes (inputs), invitation tokens, the shorter life of
  access tokens, and the lockout rows, which are in MfaLockout.
- AdminSessions.PlatformAdminService.ManageAccount: names, e-mail and other profile fields are not modelled.
- MfaLockout: the several scopes of one sign-in, which are counted apart.
- AuditPaging.CursorRoundTrip: the text form of a cursor (JSON in base64) is its decoded payload.
- AuditPaging: the action and e-mail filters are any predicate on rows.
- TextChunking.SentencesRebuild: stated for normalised text, the only text the splitter is given.
- SentenceSpans: the language detector is an input.
- Routers, background jobs, threads, logging and the user interface.
