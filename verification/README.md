# Finance system: a verified model of its ledgers, leases, repairs and evaluations

This project models, in Dafny, the parts of the finance system that carry state, money
arithmetic or concurrency, and proves what each of them is relied on for. The offline broker is
a class with the same fields as in the source and one method per operation; its journal is the
reference that every other figure must agree with. The replay day loop runs on that class and
is proved equal to a replay on plain values. The lease protocols are transition systems over
tables of rows, with any number of workers, crashes between any two statements, and theorems
about whole runs. The key rename, the window evaluator, the segmented log, the request budget,
the document retry, the row association, the chunker, the calendar and the order sizing follow.

`dafny verify dfyconfig.toml` checks everything.

How the files fit together:

- `Outcomes`, `Totals`, `Sorting`: options and results, sums over maps, sorting of integers.
- `Ledger` (operations and invariant on values), `LedgerProofs` (theorems over runs),
  `FillLaws` (acceptance and fees in figures), `OfflineBroker` (the object), `ReplaySizing` (budgets and fees), `ReplaySpec` (the day loop on
  values), `ReplayLimits` (risk limits, cash and events over days and runs), `ReplayLaws` (what a day
  sells, buys and is worth), `Replay` (the day loop
  on the object).
- `Leases`, `Reconciliation`, `LeaseTables`: agent runs and reconciliation runs. `Intents`:
  trading intents. `ScheduledTasks`: the unfenced task journal.
- `RepairPlans`, `RepairDates`, `RepairStore`, `RepairTransactions`: re-dating of recommendation
  events under a unique key.
- `Evaluations`, `Evaluator`, `EvaluationProofs`, `EvaluationLaws`: the window evaluator.
- `SegmentedLogs`, `RequestBudget`, `DocumentRetry`. `RowSchedules` (schedules of bounded
  concurrency), `AssetTypes` and `RowHandling` (rows on values), `RowAssociation` (the handlers).
- `Chunking`, `TradingCalendar`, `TradingSizing`.

## What the proofs found

- Cash can go below zero: a sell whose amount does not cover its fee is accepted
  (`CashCanTurnNegative`); a step makes cash negative exactly in that case (`CashTurnsNegative`).
- A buy after a partial sell leaves an entry price that is not the average buy price
  (`BuyAveragesExactly`). Fills dated 1, 2, 1 reach such an account (`AverageCanBeWrong`); with
  fill dates that never go back it cannot arise (`OpenCyclesAreBlocks`).
- "At most one reconciliation is RUNNING" fails when a manual run is started above queued runs and
  its lease expires (`ManualRunCanOvertake`). It holds over a run if and only if no queued row is
  claimed while another is RUNNING (`OneRunningExactly`), a check that the manual start makes and
  the claim does not. "Runs finish in id order" fails even without that (`ManualRunCanFinishFirst`);
  it holds if and only if no run finishes below one that has finished (`FinishedInOrderExactly`).
  The stronger "every id below a started run is finished" holds throughout exactly when every
  insertion respects the order (`RunIsSerial`), and implies both (`SerialHasOneRunning`,
  `FinishesInIdOrder`). At most one lease is live in any case (`OneLiveLease`). The manual entry
  point has no caller but tests in the repository: the scheduler, the dashboard and the HTTP handlers
  all queue their runs, so `QueuedRunsAreSerial` covers them.
- An intent can be expired and then still completed (`ExpiredCanBeCompleted`), because one statement
  uses `<=` and the other `>=`. In every run the first finish that carries the expired claim's token
  succeeds if and only if its clock reading is within the lease; unless that reading is older than
  the expiry's, both are taken at the very end of the lease (`FinishAfterExpiry`).
- A terminal task status can be overwritten by a worker that lost its claim: from the empty journal,
  nine steps take a task to SUCCEEDED and then to FAILED (`StaleWorkerOverwrites`). The status stays
  in every continuation exactly when each execution of its row is over or about to write that
  status (`TerminalStaysExactly`). The row is never queued or claimed again in any case.
- `buildChunks` does not terminate when the overlap reaches the target size and the text is
  longer than one chunk (`TerminatesExactly`), and a negative overlap loses text
  (`BuildChunks`); the configuration check excludes neither.
- The retained length of a log is an exact function of the bytes written, for every high water mark
  above the segment size (`WriteRetainsExactly`). That pruning leaves one full segment holds exactly
  for marks of whole segments (`ReachesTheMarkExactly`, `MarkMustBeWholeSegments`); the shipped mark
  is one.
- A document whose retry fails to restore its claim, or whose process stops while holding it, stays
  ANALYZING in every later state and no call claims it again (`LostClaimStays`); a process that stops
  right after the claim is enough (`ClaimCanBeLost`).
- Rounding a buy gives a volume that the board rule admits if and only if the rule has no maximum or
  one that is not below its minimum (`RoundBuyMeetsTheRuleExactly`). Every listed board has such a
  rule (`EveryBoardRoundsWell`); `UnlawfulMaximum` shows a rule, of no board, where the result is
  below the minimum.

## Model

| member | source | states |
|---|---|---|
| `LedgerProofs.RunInv` | trading_agent/replay.py:65-102 | every sequence of submit, fill and cancel, with rejected and duplicate fills, keeps the whole invariant: cash, positions, closed cycles, orders and profit are what the journal says |
| `LedgerProofs.JournalReconciles` | trading_agent/replay.py:104-112 | in every reachable account, folding the journal gives exactly the running cash and the open volumes, so reconciliation never raises |
| `LedgerProofs.PositionsReconcile` | trading_agent/replay.py:108-111 | the open volumes are the non-zero journal volumes of every symbol |
| `LedgerProofs.ProfitIsExplained` | trading_agent/replay.py:86-95 | cash gained since the start is the sum of the closed cycles' profit and of sold proceeds less cost and fees over the open positions |
| `LedgerProofs.NoOverfill` | trading_agent/replay.py:72-75 | every order with a fill has a positive volume journalled, the one it records and within its quantity, and each execution id is journalled at most once |
| `LedgerProofs.OpenCyclesAreBlocks` | trading_agent/replay.py:81-92 | with fill dates that never go back, an open cycle is a block of buys on its entry date followed by sells on later dates, at the volume-weighted buy price |
| `LedgerProofs.ClosedCyclesAreBlocks` | trading_agent/replay.py:93-95 | every closed cycle has the same shape, nets to zero volume, and its profit is the cash it moved |
| `LedgerProofs.BuyAveragesExactly` | trading_agent/replay.py:86-87 | a buy leaves the average buy price exactly when the cycle has seen no sell |
| `LedgerProofs.CashTurnsNegative` | trading_agent/replay.py:80-92 | a step takes cash below zero exactly when it books a sell that does not cover its fee |
| `LedgerProofs.CashStaysNonNegative` | trading_agent/replay.py:78-92 | cash never goes negative over a run whose sells cover their fees |
| `LedgerProofs.CashCanTurnNegative` | trading_agent/replay.py:62-63 | two accepted fills that leave the account four short of zero |
| `LedgerProofs.AcceptedKeepsInv` | trading_agent/replay.py:71-98 | an accepted fill keeps the account and journal invariants |
| `LedgerProofs.StepKeepsInv` | trading_agent/replay.py:65-102 | so does any operation |
| `LedgerProofs.AverageCanBeWrong` | trading_agent/replay.py:81-92 | a run of five accepted operations, its fills dated 1, 2 and 1, whose open position has an entry price other than the average buy price |
| `Ledger.CyclesKeepVolume` | trading_agent/replay.py:92-95 | taking open and closed cycles out of the journal loses no volume |
| `OfflineBrokers.OfflineBroker.Submit` | trading_agent/replay.py:65-69 | a new key is journalled as a fresh order, a known key changes nothing and returns its order |
| `OfflineBrokers.OfflineBroker.Cancel` | trading_agent/replay.py:100-102 | only a submitted or partially filled order is cancelled |
| `OfflineBrokers.OfflineBroker.Check` | trading_agent/replay.py:73-91 | the first failing check, in the source's order |
| `OfflineBrokers.OfflineBroker.Fill` | trading_agent/replay.py:71-98 | books the fill, or leaves the whole account unchanged on a duplicate id or a failed check |
| `OfflineBrokers.OfflineBroker.Reconcile` | trading_agent/replay.py:104-112 | succeeds exactly when the refolded journal agrees with cash and volumes |
| `OfflineBrokers.ExtendPrefix` | trading_agent/replay.py:106-108 | what one more journal entry adds to each fold |
| `FillLaws.AcceptedExactly` | trading_agent/replay.py:71-91 | a fill is accepted if and only if its id is new, its order open with so much left, its price positive and within the limit, and it is covered by cash or by shares held since an earlier day |
| `FillLaws.FeeInFigures` | trading_agent/replay.py:62-63 | every fee is whole cents and at least 5.00; it is 3/10000 of the amount, rounded half up, and 5/10000 more on the sale of a stock alone |
| `FillLaws.FeeUnique` | trading_agent/replay.py:62-63 | that leaves one fee |
| `FillLaws.StampTaxOnStockSales` | trading_agent/replay.py:62-63 | selling 1000 shares at 100.00 costs 80.00 for a stock, and 30.00 for a fund or to buy |
| `FillLaws.AcceptedFillJournals` | trading_agent/replay.py:78-97 | an accepted fill journals its own id, order, volume, price, date and that fee |
| `FillLaws.EveryCommission` | trading_agent/replay.py:71-97 | in every reachable account every journalled commission is that fee for its amount and asset |
| `ReplaySizing.SizedBuyFits` | trading_agent/replay.py:207-208 | amount plus rounded fee never exceeds the budget, with the minimum fee and half-up cents included |
| `ReplaySizing.BuyFeeBound` | trading_agent/replay.py:62-63 | the rounded fee is at most the proportional fee plus the minimum fee |
| `ReplaySizing.NextLotTooExpensive` | trading_agent/replay.py:208 | one lot more would leave the budget, so the sizing gives up less than a lot |
| `ReplaySizing.BudgetLimits` | trading_agent/replay.py:206-207 | an outlay within the budget is within each of the limits at once |
| `ReplaySizing.SizedBuyWithinLimits` | trading_agent/replay.py:202-214 | a sized buy is a positive multiple of 100 within order, symbol, total, reserve and turnover limits, and covered by cash |
| `ReplayLimits.SizedMeetsLimits` | trading_agent/replay.py:202-208 | an admitted intent is sized, from the account as it then is, to a purchase within every limit and covered by its cash |
| `ReplayLimits.PurchasesMeetLimits` | trading_agent/replay.py:193-214 | every purchase made while going through a day's intents meets the limits of that day, and their events are distinct and new |
| `ReplayLimits.PurchasesExplainTheDay` | trading_agent/replay.py:193-214 | the cash spent is the amounts and fees of exactly those purchases, and the turnover their amounts |
| `ReplayLimits.DayStaysWithinLimits` | trading_agent/replay.py:203-214 | after any number of intents orders, turnover, cash and position count are within their limits, or as they were |
| `ReplayLimits.EveryPurchaseMeetsLimits` | trading_agent/replay.py:160-214 | on every day of a replay, the purchases meet the limits of that day's opening valuation |
| `ReplayLimits.NoEventOnTwoDays` | trading_agent/replay.py:163-214 | no recommendation event is bought on two days |
| `ReplayLimits.PositionsStayFew` | trading_agent/replay.py:209 | at the end of every day the open positions number at most the allowed count |
| `ReplayLaws.ExitsKeepExactly` | trading_agent/replay.py:174-190 | the exits leave exactly the positions without a close or an executable bar, and those whose gain at the previous close is strictly within the bounds that are set and whose open days are too few |
| `ReplayLaws.ExitsPay` | trading_agent/replay.py:186-190 | cash and turnover grow by what the others bring at the open, less the fee of a sale |
| `ReplayLaws.DayKeepsExactly` | trading_agent/replay.py:169-222 | at the end of the day a position is there untouched if and only if it stays by those bounds |
| `ReplayLaws.EveryDayKeepsExactly` | trading_agent/replay.py:160-230 | so on every day of a replay, where entry prices are always positive |
| `ReplayLaws.SizedExactly` | trading_agent/replay.py:206-208 | the sized quantity takes in so many lots if and only if their outlay at the worse price is within every limit |
| `ReplayLaws.IntentBuysExactly` | trading_agent/replay.py:195-214 | an intent places an order if and only if nothing forbids it and one lot is affordable, and buys if and only if the open is within its limit too: the most lots that are affordable, at the open, with the fee of a buy |
| `ReplayLaws.ClosesValueTheDay` | trading_agent/replay.py:215-221 | with a close for every position the account is worth its cash and those closes |
| `ReplayLaws.LastMarkStays` | trading_agent/replay.py:167-219 | a symbol without a close keeps its last mark, and its entry price if it has none |
| `Replay.SellOne` | trading_agent/replay.py:176-190 | sells the whole position exactly when its exit rule fired and the bar is executable; the order is cancelled otherwise |
| `Replay.SellExits` | trading_agent/replay.py:176-190 | in any order of visits: cash, positions, turnover and order count are those of the value-level exits |
| `Replay.SizeIntent` | trading_agent/replay.py:195-208 | passes an intent on exactly when every guard admits it; quantity, amount, fee and the figures they were sized from are those the account had |
| `Replay.BuyOne` | trading_agent/replay.py:195-214 | filled exactly when admitted and the open is within the limit; cash, positions, turnover, orders and events are then those of the sized purchase, of a cancelled order, or unchanged |
| `Replay.BuyIntents` | trading_agent/replay.py:193-214 | all intents in order have the value-level effect, and the count of buys is that of the purchases |
| `Replay.MarkToClose` | trading_agent/replay.py:215-219 | marks move to the close of every held symbol that has one; the others are reported |
| `Replay.ReplayDay` | trading_agent/replay.py:169-222 | a day computes the value-level day, reconciles, and reports cash, volumes, valuation and the number of purchases |
| `Replay.ReportsTheHoldings` | trading_agent/replay.py:215-222 | the report names the volumes held and those without a close, and gives a value only if there are none of these |
| `Replay.ReportsTheCloses` | trading_agent/replay.py:220-222 | the reported value is the reported cash and every reported volume at its close |
| `Replay.Run` | trading_agent/replay.py:160-230 | the whole replay equals the value-level replay; every position stays on every day exactly as the exit rules say; each day's account reconciles and continues the journal of the day before; each day's purchases meet its limits, no event is bought twice, and positions stay within their count |
| `Replay.SellAccepted` | trading_agent/replay.py:184-190 | selling a whole position held since an earlier day is always accepted |
| `Replay.BuyAccepted` | trading_agent/replay.py:210-214 | a covered buy of an unheld symbol at or below its limit is always accepted |
| `Leases.Fencing` | internal/dal/trading_automation.go:109-128 | if an update with a token succeeds, the row was not claimed again since that token was issued |
| `Leases.FinishedForever` | internal/dal/trading_automation.go:111-126 | a finished run is never claimed or written again |
| `Leases.ClaimTimesGrow` | internal/trading/service/worker.go:97-110 | the claim times on one row never go back, and every new claim is strictly later |
| `Leases.ClaimsWaitForTheDeadline` | internal/dal/trading_automation.go:109-122 | in every run a RUNNING row is claimed only strictly after its deadline |
| `Leases.NoClaimWithinALease` | internal/dal/trading_automation.go:109-122 | from the issue of a token until its deadline nobody else claims the row |
| `Leases.HolderWritesUntilTheDeadline` | internal/dal/trading_automation.go:124-128 | the outcome of a RUNNING row is written exactly by its token holder and up to its deadline |
| `Leases.BarrierHolds` | internal/dal/trading_automation.go:175-187 | a RUNNING row stays a barrier over any number of lease expiries and reclaims until its token holder finishes it |
| `LeaseTables.LeaseTable.FirstClaimable` | internal/dal/trading_automation.go:111 | the smallest id that is neither finished nor RUNNING with a deadline not yet past, or none if there is none |
| `LeaseTables.LeaseTable.StartManual` | internal/trading/service/events.go:210-228 | a manual run is refused exactly while any run of the account is RUNNING |
| `LeaseTables.LeaseTable.ClaimAgentRun` | internal/dal/trading_automation.go:109-122 | claims that row with the token and the new deadline; answers none if and only if every row is finished or under a lease not yet past |
| `LeaseTables.LeaseTable.ClaimReconciliation` | internal/dal/trading_automation.go:148-169 | the same, and none as long as any lease is live |
| `LeaseTables.LeaseTable.UpdateClaim` | internal/dal/trading_automation.go:175-180 | writes if and only if the row is RUNNING with that token and a deadline not yet past |
| `Reconciliation.ClaimKeepsSerial` | internal/dal/trading_automation.go:148-169 | a claim never breaks "every id below a started run is finished" |
| `Reconciliation.InsertKeepsSerial` | internal/trading/service/reconciliation_worker.go:29-30 | an insertion keeps that order exactly when it does not overtake |
| `Reconciliation.RunIsSerial` | internal/dal/trading_automation.go:13-18 | over any run every id below a started run is finished, in every state, exactly when every insertion was orderly |
| `Reconciliation.SerialHasOneRunning` | internal/dal/trading_automation.go:13-18 | that order leaves at most one row RUNNING |
| `Reconciliation.QueuedRunsAreSerial` | internal/dal/trading_automation.go:148-187 | with queued runs and growing ids, at most one row is ever RUNNING |
| `Reconciliation.OneRunningExactly` | internal/dal/trading_automation.go:148-169 | over any run of one account, manual runs included, at most one row is RUNNING in every state if and only if no queued row was claimed while one was RUNNING |
| `Reconciliation.FinishesInIdOrder` | internal/dal/trading_automation.go:171-180 | runs finish in id order |
| `Reconciliation.FinishedInOrderExactly` | internal/dal/trading_automation.go:171-180 | over any run the finishes are in id order if and only if none is made below a run already finished |
| `Reconciliation.ManualRunCanOvertake` | internal/trading/service/events.go:210-228 | a run with two RUNNING rows, after a manual start above a queued run |
| `Reconciliation.ManualRunCanFinishFirst` | internal/trading/service/events.go:210-228 | a run with never more than one RUNNING row in which the manual run finishes before a smaller queued one |
| `Reconciliation.OneLiveLease` | internal/dal/trading_automation.go:149-155 | even so, at most one lease of the account is live at any time |
| `Intents.ClaimIsNotReissued` | internal/dal/trading.go:120-149 | from a claim on, the intent either still carries it or can no longer be claimed at or before its time |
| `Intents.Fencing` | internal/dal/trading_automation.go:74-78 | if a finish with a token succeeds, no other claim of the intent happened since it was issued, retries included |
| `Intents.ClaimsInOrder` | internal/dal/trading.go:120-149 | in every run a claim takes an intent that is open, in its validity, due and free of leases, and precedes all such: sales first, then the earlier end of validity, then the smaller id |
| `Intents.OrderIsTotal` | internal/dal/trading.go:120-149 | that order is total |
| `Intents.RetryWaits` | internal/trading/service/worker.go:159-176 | after a failed execution no claim of the intent is made before five time units have passed |
| `Intents.ExpireSparesLiveLeases` | internal/dal/trading_automation.go:80-85 | expiry never touches an intent whose lease is strictly live |
| `Intents.FinishAfterExpiry` | internal/dal/trading_automation.go:76-84 | in every run, a finish after an expiry succeeds if and only if it carries the expired claim's token, its clock reading is within the lease and no finish of that claim has succeeded since; unless that reading is older than the expiry's, both are taken at the instant the lease ends |
| `Intents.ExpiredKeepsOrLosesClaim` | internal/dal/trading_automation.go:76-84 | an expired intent never opens again; it stays as it is until its own claim is finished, and then carries none |
| `Intents.ExpiredCanBeCompleted` | internal/dal/trading_automation.go:76-84 | a run of four steps whose intent is Expired and then Completed |
| `Intents.IntentTable.ClaimNextReady` | internal/dal/trading.go:120-149 | leases the first available intent of that order; answers none if and only if every intent is unavailable |
| `Intents.IntentTable.FinishClaim` | internal/trading/service/worker.go:159-176 | completes the intent, or defers it to five units after the earlier reading of the clock, if and only if it carries the token and its deadline is not yet past |
| `Intents.IntentTable.ExpireDue` | internal/dal/trading_automation.go:80-85 | closes exactly the open, unfinished intents whose validity is over and whose lease is not live beyond this instant |
| `ScheduledTasks.RunInv` | internal/dal/scheduled_task_run.go:53-110 | unique keys, distinct attempt numbers and spent first attempts hold in every reachable journal |
| `ScheduledTasks.LocalClock` | internal/service/automatic_scheduler.go:298-306 | the scheduled instant shows hour and minute on the local clock, on the local date of now |
| `ScheduledTasks.LocalMinute` | internal/service/automatic_scheduler.go:298-306 | the start minute is the one in which the local clock shows the scheduled time |
| `ScheduledTasks.CalledExactly` | internal/service/scheduled_task.go:103-167 | the OpenList handler is called if and only if the schedule is enabled, its local minute shows, the task is of that date and instant, and this is the first attempt |
| `ScheduledTasks.AtMostOncePerDate` | internal/service/scheduled_task.go:103-167 | with crashes, reclaims and schedule changes, the OpenList handler is called at most once per date, and only while the local clock shows the scheduled minute on the date of its key |
| `ScheduledTasks.TerminalNeverClaimed` | internal/dal/scheduled_task_run.go:57-83 | a terminal task is never claimed again |
| `ScheduledTasks.NeverQueuedAgain` | internal/dal/scheduled_task_run.go:74-83 | a claimed task is never QUEUED again |
| `ScheduledTasks.LastWriterDecides` | internal/dal/scheduled_task_run.go:104-110 | whenever two executions of one row are about to write, both writes take effect and the later one decides |
| `ScheduledTasks.TerminalStaysExactly` | internal/dal/scheduled_task_run.go:104-110 | in every reachable state: no continuation changes a terminal status if and only if every execution of its row is over or about to write that status |
| `ScheduledTasks.StaleWorkerOverwrites` | internal/service/scheduled_task.go:103-167 | a run from the empty journal in which an overdue worker turns SUCCEEDED into FAILED |
| `ScheduledTasks.TaskJournal.CreateIfAbsent` | internal/dal/scheduled_task_run.go:19-25 | inserts exactly if no task has the type and key |
| `ScheduledTasks.TaskJournal.EnqueueOpenList` | internal/service/automatic_scheduler.go:227-241 | creates the task of the local date if and only if the schedule is enabled, its minute shows on the local clock and there is none |
| `ScheduledTasks.TaskJournal.ClaimNextDue` | internal/dal/scheduled_task_run.go:53-102 | claims the earliest task of the listed types, or of any if none is listed, that is queued or overdue and not ahead of its time; none if there is none |
| `ScheduledTasks.TaskJournal.UpdateByID` | internal/dal/scheduled_task_run.go:104-110 | writes whatever the caller's claim |
| `RepairPlans.TempKeysDistinct` | cmd/repair-recommendation-dates/main.go:402-404 | temporary keys differ from one another and from every hashed key |
| `RepairPlans.RepairedRows` | cmd/repair-recommendation-dates/main.go:297-320 | in the repaired table every affected event is at its expected date and key, every other one unchanged |
| `RepairPlans.RepairedTables` | cmd/repair-recommendation-dates/main.go:258-452 | row by row: listed dates and the keys hashed with them, plan dates, and exactly the metrics of events whose date changed are gone |
| `RepairPlans.PlannedExactly` | cmd/repair-recommendation-dates/main.go:268-328 | a plan names exactly the rows of listed documents with another date or key, with the date and key they are due |
| `RepairPlans.CollidesExactly` | cmd/repair-recommendation-dates/main.go:287-307 | a collision is two events that hash to one key at the dates they are due on |
| `RepairPlans.RepairIsFixpoint` | cmd/repair-recommendation-dates/main.go:258-339 | planning again on the repaired table yields no updates and no new collision |
| `RepairDates.PlanEvents` | cmd/repair-recommendation-dates/main.go:287-328 | in any row order: an error with a colliding pair, or exactly the rows that differ, in id order |
| `RepairDates.BuildPlan` | cmd/repair-recommendation-dates/main.go:258-339 | fails exactly on a final collision |
| `RepairDates.Batches` | cmd/repair-recommendation-dates/main.go:587-609 | consecutive slices that make up the list, none empty, all but the last full |
| `RepairDates.GroupByDate` | cmd/repair-recommendation-dates/main.go:569-585 | each date's ids in order, and no empty group |
| `RepairDates.UpdateAllDates` | cmd/repair-recommendation-dates/main.go:413-438 | in any order of dates, each listed row ends on its own date and no other row changes |
| `RepairStore.UpdateKeys` | cmd/repair-recommendation-dates/main.go:454-482 | one statement, row by row under the unique index: all rows get their key, or a clash is named |
| `RepairStore.KeyPhase` | cmd/repair-recommendation-dates/main.go:397-411 | a whole phase over its batches, with the changed-row counts checked |
| `RepairStore.CaseOfRow` | cmd/repair-recommendation-dates/main.go:458-465 | the CASE expression gives each listed row its own key |
| `RepairTransactions.ParkingBlocked` | cmd/repair-recommendation-dates/main.go:397-411 | parking is refused only if a temporary key is stored already |
| `RepairTransactions.FinishingBlocked` | cmd/repair-recommendation-dates/main.go:439-443 | finishing is refused only by a row outside the plan, whatever cycles the renames form |
| `RepairTransactions.DistinctThroughout` | cmd/repair-recommendation-dates/main.go:395-482 | keys are distinct after any part is parked, and after any part is finished once all are parked |
| `RepairTransactions.SwapNeedsParking` | cmd/repair-recommendation-dates/main.go:397-404 | without parking, two rows that exchange keys are refused in either order |
| `RepairTransactions.ConsistentRowsNeverBlock` | cmd/repair-recommendation-dates/main.go:295-307 | if unaffected rows store their recomputed key, the repair cannot be blocked by them |
| `RepairTransactions.RecommendationStore.Apply` | cmd/repair-recommendation-dates/main.go:395-452 | commits exactly the repaired table or rolls back; with fresh temporary keys it rolls back exactly if a row outside the plan stores a final key |
| `Evaluations.TradingDatesAscend` | internal/evaluation/evaluator.go:193-211 | the later market dates, once each, in order |
| `Evaluations.OnePassFindsDeepestFall` | internal/evaluation/evaluator.go:295-312 | the running-peak loop's result is the deepest fall over all pairs of days, the start included |
| `Evaluations.DeepestFallUnique` | internal/evaluation/evaluator.go:295-312 | that description determines the number |
| `Evaluations.FirstMax` | internal/evaluation/evaluator.go:280-286 | the first position of the largest value |
| `Evaluator.TradingDatesAfter` | internal/evaluation/evaluator.go:193-211 | the loop with its seen set gives those dates |
| `Evaluator.FirstOnOrAfter` | internal/evaluation/evaluator.go:252-259 | the earliest quoted date not before the recommendation |
| `Evaluator.Extremes` | internal/evaluation/evaluator.go:261-293 | the extreme prices and the first dates that reach them |
| `Evaluator.CalculateMaxDrawdown` | internal/evaluation/evaluator.go:295-312 | the drawdown of the equities, LONG and SHORT |
| `Evaluator.EvaluateWindow` | internal/evaluation/evaluator.go:78-183 | every branch of the evaluation, from the ascending dates and the last quote per date |
| `EvaluationProofs.CountsAddUp` | internal/evaluation/evaluator.go:103-106 | actual and missing quotes always make up the window |
| `EvaluationProofs.NoLookAhead` | internal/evaluation/evaluator.go:75-78 | a READY evaluation depends on nothing after its exit date, nor on order or repetition of the market dates |
| `EvaluationProofs.DrawdownBounds` | internal/evaluation/evaluator.go:295-312 | the drawdown lies in (-1, 0] and is at most the final return |
| `EvaluationProofs.ReturnWithinRange` | internal/evaluation/evaluator.go:163-169 | the return lies between adverse and favorable exactly when the exit close lies in the window's range |
| `EvaluationProofs.DrawdownFloor` | internal/evaluation/evaluator.go:261-312 | with closes inside the day's range, 1 + drawdown is at least (1 + adverse) / max(1, 1 + favorable) |
| `EvaluationProofs.ReadyBounds` | internal/evaluation/evaluator.go:163-181 | all of these bounds on every READY evaluation, those on the range if the closes of the window days are in range |
| `EvaluationLaws.DecidedExactly` | internal/evaluation/evaluator.go:116-160 | a matured window is READY if and only if its first and last dates are quoted, the coverage demanded is reached and all prices are sound; each reason to refuse it holds exactly when its question is the first to fail |
| `EvaluationLaws.RefusedExactly` | internal/evaluation/evaluator.go:78-114 | an invalid window, an unsupported direction and a window not matured are told exactly |
| `EvaluationLaws.CountsTheQuotedDates` | internal/evaluation/evaluator.go:103-105 | the quotes counted are the quoted ones among the elapsed window dates |
| `EvaluationLaws.FullWindowIsReady` | internal/evaluation/evaluator.go:143-181 | a fully quoted window of sound prices is READY whatever coverage is demanded |
| `EvaluationLaws.ReportsTheBase` | internal/evaluation/evaluator.go:94-101 | the base is the earliest quote from the recommendation on, with its close |
| `EvaluationLaws.LastQuoteCounts` | internal/evaluation/evaluator.go:185-191 | of several quotes for a date the last one counts |
| `EvaluationLaws.ReadyReports` | internal/evaluation/evaluator.go:163-181 | a READY result reports entry open, exit close, their returns in both directions, the extremes of all days each with the first day that reaches it, and the deepest loss from the entry or a close to a later close |
| `SegmentedLogs.WriteStaysBelow` | scripts/service_runtime.py:68-89 | from any directory a write ends below the mark, loses nothing if all stays below, and keeps a regular log regular |
| `SegmentedLogs.WriteKeepsTheTail` | scripts/service_runtime.py:68-89 | the retained bytes are a suffix of what was there and what was written |
| `SegmentedLogs.WriteRetains` | scripts/service_runtime.py:68-89 | for every mark above the segment size, the retained length is an exact function of the bytes written so far |
| `SegmentedLogs.WriteRetainsExactly` | scripts/service_runtime.py:68-89 | the same from any regular log, also one found at or above the mark |
| `SegmentedLogs.FullSegmentsAtTheMark` | scripts/service_runtime.py:73-89 | when the mark is reached, the segments before the newest hold a fixed number of bytes |
| `SegmentedLogs.ReachesTheMarkExactly` | scripts/service_runtime.py:73-89 | with a mark of whole segments, it is reached exactly and with a full newest segment |
| `SegmentedLogs.MarkMustBeWholeSegments` | scripts/service_runtime.py:17-18 | for any other mark some regular log is cut down to a segment that is not full |
| `SegmentedLogs.SegmentedLog.WriteChunk` | scripts/service_runtime.py:74-89 | one pass of the loop: append what fits, prune at the mark |
| `SegmentedLogs.SegmentedLog.Write` | scripts/service_runtime.py:68-89 | the loop terminates for all data, keeps a suffix of all bytes ever written, and on a regular log retains exactly the stated length |
| `SegmentedLogs.Open` | scripts/service_runtime.py:54-60 | refuses a mark that does not exceed a positive segment size |
| `RequestBudget.CancellationIsNeverLost` | agent/app/request_budget.py:28-54 | in every interleaving, once a cancel has returned no watcher is inside its body with an open socket |
| `RequestBudget.NoSuccessAfterCancel` | agent/app/request_budget.py:48-54 | after the flag is set nobody enters a body and nobody inside leaves without raising |
| `RequestBudget.RunInv` | agent/app/request_budget.py:20-54 | registered watchers can be reached, and a canceller covers every open body |
| `RequestBudget.CancelCanReturn` | agent/app/request_budget.py:30-33 | a canceller past its snapshot can always make progress |
| `RequestBudget.Budget.CloseAll` | agent/app/request_budget.py:32-33 | shuts down every listed socket |
| `RequestBudget.Budget.Remaining` | agent/app/request_budget.py:20-26 | raises exactly if cancelled or past the deadline |
| `DocumentRetry.RunInv` | internal/service/document_retry.go:61-133 | over every run: holders see ANALYZING, one holder per document, ANALYZING rows are held, written outcomes stand |
| `DocumentRetry.OneAnalysisAtATime` | internal/dal/document.go:26-34 | at most one call holds a document's claim |
| `DocumentRetry.RestoreGivesBackOwnClaim` | internal/dal/document.go:36-39 | a restore that changes the row gives back the caller's own claim |
| `DocumentRetry.ResultNeverOverwritten` | internal/service/document_retry.go:98-106 | PLANNED and INVALID are never overwritten |
| `DocumentRetry.AnalyzingExactlyWhileHeld` | internal/service/document_retry.go:100-106 | a document is ANALYZING exactly while claimed, or after a claim was lost without a restore |
| `DocumentRetry.LostClaimStays` | internal/service/document_retry.go:100-106 | once a call has ended without restoring its claim, in every later state its document is ANALYZING and no step claims it |
| `DocumentRetry.ClaimCanBeLost` | internal/service/document_retry.go:100-106 | a run of four steps in which a process stops while it holds a claim, so that its document is ANALYZING for good |
| `DocumentRetry.CompletedRetriesLeaveNoClaim` | internal/service/document_retry.go:98-106 | once every retry of a document has restored it, it is not ANALYZING |
| `DocumentRetry.ProducedNeverReclaimed` | internal/dal/document.go:29-31 | a document with stored results is never claimed again |
| `DocumentRetry.OneCallPerProcess` | internal/service/document_retry.go:41-52 | a process works on a document in at most one call |
| `DocumentRetry.DocumentService.RetryFailedDocument` | internal/service/document_retry.go:61-133 | one retry by itself: busy, not allowed, finished with its result, or restored to FAILED |
| `DocumentRetry.DocumentService.UpdateAnalysisStatus` | internal/service/document_retry.go:32-39 | PARSED and FAILED are held back during a retry |
| `DocumentRetry.FinalStatusMeaning` | internal/service/document_retry.go:117-124 | a retry ends terminal exactly if its analysis reported a terminal status |
| `RowHandling.OrderIrrelevant` | internal/service/market_data.go:408-435 | quotes and missing items are the same multisets in every order of the handlers |
| `RowHandling.LeftOutExactly` | internal/service/market_data.go:440-448 | every security is quoted or missing, and only unreported ones are added, once each |
| `RowHandling.LeftOutOrder` | internal/service/market_data.go:440-448 | what is added does not depend on the order of the results |
| `AssetTypes.MatchExactly` | internal/service/market_data.go:496-512 | asset types match if and only if they read the same, or both as one of the three names of a stock |
| `AssetTypes.MatchingIsAnEquivalence` | internal/service/market_data.go:496-512 | matching is an equivalence |
| `AssetTypes.PaddingIgnored` | internal/service/market_data.go:497-498 | white space around an asset type does not matter |
| `RowHandling.RowsDecide` | internal/service/market_data.go:408-434 | a row is quoted if and only if the last security of its code matches it and it converts, and is otherwise refused under the code and for the reason that apply |
| `RowSchedules.ConcurrencyBounded` | internal/service/market_data.go:514-551 | in every state of every schedule the handlers running or leaving number at most the concurrency, one if that is not positive |
| `RowSchedules.CompleteSchedulePermutes` | internal/service/market_data.go:514-551 | a complete schedule has handled every row exactly once |
| `RowSchedules.SchedulesEnd` | internal/service/market_data.go:514-551 | every schedule ends: after n steps, four for each row less n are left |
| `RowSchedules.NeverStuck` | internal/service/market_data.go:514-551 | a schedule that is not complete can always go on |
| `RowAssociation.Association.Record` | internal/service/market_data.go:410-434 | one handler's critical section |
| `RowAssociation.Association.RunConcurrent` | internal/service/market_data.go:514-551 | whichever handler is taken next, the states passed form a complete schedule and the order recorded is its order |
| `RowAssociation.AssociateRows` | internal/service/market_data.go:388-452 | exactly the known rows that convert are quoted, the others are missing with their reasons, quotes plus row errors are the rows, quotes are sorted by code, all results those of one-by-one handling |
| `Chunking.TerminatesExactly` | internal/parser/parser.go:566-583 | the starts that the loop takes reach an end exactly if the overlap is below the target or one chunk holds the text |
| `Chunking.BuildChunks` | internal/parser/parser.go:555-585 | numbered, sized and overlapping chunks; chunk k is cut at the k-th start, and there are as many as the first end says; the text is recovered exactly if the overlap is not negative or one chunk holds it |
| `TradingCalendar.Validate` | internal/config/trading_calendar.go:13-31 | accepts exactly the valid calendars |
| `TradingCalendar.Search` | internal/config/trading_calendar.go:49 | binary search splits the dates at the day |
| `TradingCalendar.CountBySplits` | internal/config/trading_calendar.go:68-70 | the difference of two split points is the plain count of open dates between |
| `TradingCalendar.OpenBetweenAdds` | internal/config/trading_calendar.go:57-71 | elapsed days add up over an intermediate day |
| `TradingCalendar.Elapsed` | internal/config/trading_calendar.go:56-71 | the plain count of open dates after the entry up to the as-of date, and when it fails |
| `TradingCalendar.Next` | internal/config/trading_calendar.go:45-54 | the smallest later open date, failing only if there is none or the day is not covered |
| `TradingCalendar.Previous` | internal/config/trading_calendar.go:73-82 | the open date so many places back |
| `TradingCalendar.NextElapsesOne` | internal/config/trading_calendar.go:45-71 | one day elapses to the next open date |
| `TradingCalendar.PreviousOfNext` | internal/config/trading_calendar.go:45-82 | the next date leads back to an open day, and only to it |
| `TradingCalendar.ElapsedOfPrevious` | internal/config/trading_calendar.go:56-82 | going back k open dates, k days elapse to return |
| `TradingSizing.RoundBuyIsLargest` | internal/trading/instrument/instrument.go:116-129 | rounding gives the largest buyable volume not above the input, and fails only if there is none |
| `TradingSizing.RoundBuyNeverIncreases` | internal/trading/instrument/instrument.go:116-129 | under every rule rounding never increases the volume |
| `TradingSizing.RoundBuyMeetsTheRuleExactly` | internal/trading/instrument/instrument.go:116-129 | for a valid rule and a volume not below its minimum, the result is buyable exactly if there is no maximum or it is not below the minimum |
| `TradingSizing.EveryBoardRoundsWell` | internal/trading/instrument/instrument.go:97-129 | on every listed board rounding fails exactly below the minimum and gives a buyable volume otherwise |
| `TradingSizing.BuyableOnBoards` | internal/trading/instrument/instrument.go:97-113 | what can be bought on each board, in figures |
| `TradingSizing.RoundSellFits` | internal/trading/instrument/instrument.go:131-160 | a sale never exceeds what is wanted, and leaves the steps only to clear the position |
| `TradingSizing.RoundSellIsLargest` | internal/trading/instrument/instrument.go:131-160 | under a lawful rule a sale gets the largest sellable volume not above what is wanted, and fails if and only if there is none |
| `TradingSizing.UnlawfulMaximum` | internal/trading/instrument/instrument.go:124-127 | a rule, of no listed board, for which the rounded volume is below the minimum |
| `TradingSizing.EighthIsNear` | internal/rules/trading_sizing.go:64 | printing eight decimals moves a ratio by at most half a unit of the last one |
| `TradingSizing.BudgetIsTheLimits` | internal/rules/trading_sizing.go:74-81 | staying within the budget is the same as respecting every limit |
| `TradingSizing.LimitsInFigures` | internal/rules/trading_sizing.go:64-81 | the limits hold for the ratios as configured up to half of an eighth decimal |
| `TradingSizing.BuyVolume` | internal/rules/trading_sizing.go:32-97 | the largest volume within all limits, the proposal and the board units; refused exactly if there is none, the proposal is off its units, or the budget overflows |
| `TradingSizing.SellVolume` | internal/rules/trading_sizing.go:22-31 | the largest volume held, on the board's units or clearing the position, and not above the proposal; refused if and only if there is none |
| `TradingSizing.TradingVolume` | internal/rules/trading_sizing.go:21-98 | the same for either side |

## Left out

- OfflineBrokers.OfflineBroker.Submit: returns the order as a value; the source returns the stored dictionary itself, which a caller could change behind the ledger.
- Replay.Run: the strategy's intents, the close before the day and the risk figures are inputs; the opening prices of bars with volume and range are positive and the order, symbol and reserve ratios not negative; the intents of a day have distinct symbols and non-negative ratios, as the strategy produces them, and an empty date range, which the source refuses, gives an empty replay.
- LeaseTables.LeaseTable.UpdateClaim: models status, token and deadline; the other columns a worker writes do not take part in the protocol.
- RepairTransactions.RecommendationStore.Apply: the tables do not change between planning and applying; a row already holding its temporary key counts as not changed, as MySQL does by default, and the changed-row count of the date statement, which always matches because every planned date differs, is not modelled.
- RepairDates.BuildPlan: every event is joined to a blogger; the expected dates per document are an input.
- Evaluator.EvaluateWindow: the direction arrives already trimmed and upper-cased, dates are day numbers, and prices are reals, so NaN and infinities do not occur.
- SegmentedLogs.SegmentedLog.Write: the directory is the list of its segments in name order; symbolic links, the lock file and the limit of twenty digits are not modelled.
- RequestBudget.CancellationIsNeverLost: speaks of watchers whose response has a socket; without one the closer has nothing to shut down.
- DocumentRetry.RunInv: all processes use the retry path; the main analysis path writes statuses without a claim.
- RowAssociation.AssociateRows: no cancellation of the context; converting a row of a known security and the upper case of a character are parameters, and codes are integers in the order of their text.
- TradingCalendar.Validate: dates are day numbers, so malformed date strings do not occur.
- TradingSizing.BuyVolume: risk ratios are reals, so their own binary representation plays no part in rounding them to eight decimals.
- Decimal and float precision: money, ratios and prices are exact reals throughout.
- Time zones with changing offsets; a schedule's zone is one offset, and what is said on the local clock is said of hours below 24 and minutes below 60, as the configuration demands.
- The database itself: every conditional UPDATE and every short locked transaction is one atomic step, and isolation is assumed.
- The helpers that update trading rows by id without a token, and the services that call them.
- HTTP handlers, configuration loading, remote clients, OCR, deployment scripts and the front end.
- Trading price and exit-level rules, plan generation and merging of intents: mostly single branches.
