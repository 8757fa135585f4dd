# A verified model of a trading safety kernel

This project models the parts of the trading system where one wrong step moves money: how a trade
is sized, what a session of sized trades can lose, how an open position is managed, how halts are
raised and lifted, how approvals, budgets and fills are recorded when processes crash or overlap,
and how the two measuring loops (the order-flow backfill and the tape aggregation) and the replay
agree with their simple definitions. Last come the canonical forms that digests are taken over.

Amounts and prices are exact `real` values; times are whole milliseconds or microseconds; a
transaction, a row lock and a Redis GETDEL are atomic steps; hashes are taken as injective, so a
digest stands for what was digested.

| files | what they hold |
|---|---|
| `Common`, `Arithmetic`, `Sequences`, `Text`, `TextOrder` | shared values, real-number lemmas, stable sorting and filtering, dates, JSON literals, UTF-8, text order |
| `RiskV6`, `RiskSession`, `SessionReports` | one risk evaluation; every trading week made of gated entries; what the floor asks of their reports |
| `ManagedPosition`, `PositionRuns`, `PositionMirror` | one decision of the position manager; every run of it; long and short as mirror images |
| `TapeWindow`, `TapeBars`, `BarMeaning` | the evicting, span-filtered window; the paged bucketing; what each bar says of the tape |
| `Resolve`, `ResolveMoves`, `Regime`, `RegimeMeaning` | the replay's trade walk, when it moves its stop and what it pays; its higher-frame veto, and what a regime is in prices |
| `ControlRows`, `ControlStores`, `ControlRuns` | control rows; ledger and approvals; every interleaving of commands with crashes |
| `BudgetAnchors`, `RiskEngine` | approval transactions over budget anchors; the engine that proposes them |
| `ConfigCache`, `Settlement`, `Protection` | the contended configuration cache; resumable fill settlement; which settled entries are handed over for their stops |
| `Universe`, `UniverseForms`, `KrxFraming` | reading a universe, its canonical bytes and comparison; the framed KRX streams |

## Where the code and its promise differ

Where the promise can fail, the exact condition under which it holds is proved for all inputs.

- The backfill compares whole milliseconds, so an entry with a fraction of a millisecond loses the
  trades that carry its own millisecond (`TapeWindow.JudgedWindowIsPromisedIff`,
  `TapeWindow.HalfAMillisecondLosesATrade`).
- A short whose costs reach its average is given a break-even stop at or below zero, and the next
  pass raises on its own position (`PositionRuns.PassStaysAcceptableIff`, `PositionRuns.ShortCanBeRefused`).
- The paging guard demands a divisor of a minute; a divisor of an hour is exactly what is needed
  (`TapeBars.MisalignedExitIff`).
- `resolve` can show more than the initial risk when there is no bar to walk (`Resolve.NoBarToWalk`,
  `Resolve.LastBarShowsMoreThanTheRisk`).
- A safety action lowers a kill-switch level exactly when it is a HALT on a row in EMERGENCY
  (`ControlRows.SafetyLowersIff`), so the halt theorem is about disarming, not about levels only rising.
- The count of unmatched fills counts the same hand-placed trade again on every pass until a recorded
  fill passes it (`Settlement.CountedAgain`, `Settlement.CountedWhileNothingPassedIt`).
- An entry committed by a pass that stops before handing it over never gets its stop from a later pass:
  the list lives in memory and the cursor has passed it (`Protection.HandedOverIff`,
  `Protection.DroppedForGood`, `Protection.AnEntryLeftWithoutItsStop`).
- The session floor holds for every caller that understates nothing. For every other caller it holds
  over a run if and only if each entry had room in the real book when it was taken
  (`SessionReports.FloorsHoldIffEveryEntryHasRoom`). The request built at
  `src/autotrader/apps/trader/risk_context.py:80-99` reports no day, week, open risk, losses or trades;
  `src/autotrader/strategies/david_v6/engine.py:148-153` grades it and evaluates it. A grade is let
  through that way exactly by a futures policy that sizes it at a fraction fitting its open fraction
  (`SessionReports.SilentEntryIff`), so the smallest of the normal, A and candidate fractions decides
  (`SessionReports.SilentPolicyIff`), and then there is no floor at all
  (`SessionReports.NothingReportedNoFloor`, `SessionReports.SilentRunPassesTheFloor`).
- An approval to arm issued before a halt arms after it, once a clear has made the panel read the same
  again, exactly while its minute lasts (`ControlRuns.OldApprovalArmsIffAlive`); from a lifetime after the
  halt on, only approvals issued after it apply (`ControlRuns.LateApprovalsAreNew`).
- The approval service never compares a reservation's currency with its anchors': currency by currency,
  the books agree exactly for requests whose reservation names no currency or its own
  (`BudgetAnchors.StepIsFiledIff`).

## Model

| member | source | states |
|---|---|---|
| `RiskV6.EvaluateV6Risk` | src/autotrader/risk/v6.py:261-375 | raises exactly on a market mismatch, otherwise returns exactly the blockers whose reading holds, with the derived amounts |
| `RiskV6.BaseIsTheSmallerEquity` | src/autotrader/risk/v6.py:281 | the risk base is the smaller of the two equities |
| `RiskV6.FractionIsTheGrades` | src/autotrader/risk/v6.py:394-411 | each grade's exact fraction, elevated ones held to the normal one |
| `RiskV6.BudgetIsAShare` | src/autotrader/risk/v6.py:281-283 | the budget is the base times the grade's fraction |
| `RiskV6.DistanceIsInAtrs` | src/autotrader/risk/v6.py:320-321 | the reported distance times the ATR is the entry's distance to the stop |
| `RiskV6.LossLimitsMean` | src/autotrader/risk/v6.py:327-330 | each loss code exactly when the result is at or below minus its share of the base |
| `RiskV6.OpenLimitMeans` | src/autotrader/risk/v6.py:338-342 | the open-risk code exactly when open risk and budget pass their share of the base |
| `RiskV6.StopCodesMean` | src/autotrader/risk/v6.py:314-325 | each stop code exactly on its inequality in the returned amounts |
| `RiskV6.RiskFraction` | src/autotrader/risk/v6.py:378-411 | the fraction is at most one percent, and zero exactly for a rejected or unsupported grade |
| `RiskV6.SizeQuantity` | src/autotrader/risk/v6.py:344-352 | the mutated raw quantity, floored, is the specified size |
| `RiskV6.StopLeavesTheLeastRoom` | src/autotrader/risk/v6.py:285-313 | the returned stop leaves four ticks, two spreads and on futures a tenth of the fast ATR past the reference on the losing side, and no more than the largest of these |
| `RiskV6.SetupBlockers` | src/autotrader/risk/v6.py:289-304 | a setup or market code is listed if and only if its reading holds |
| `RiskV6.StopBlockers` | src/autotrader/risk/v6.py:306-325 | a stop code is listed if and only if its reading holds |
| `RiskV6.LossBlockers` | src/autotrader/risk/v6.py:327-332 | a loss code is listed if and only if its reading holds |
| `RiskV6.SizeBlockers` | src/autotrader/risk/v6.py:333-363 | a count, open-risk or size code is listed if and only if its reading holds |
| `RiskV6.AllowedIffPositiveQuantity` | src/autotrader/risk/v6.py:357-375 | allowed, no blocker and a positive quantity are one and the same |
| `RiskV6.FlooredSizeIsLargestFit` | src/autotrader/risk/v6.py:344-352 | the floored size fits the cap and the scaled budget, and no larger step multiple does |
| `RiskV6.AllowedQuantityIsLargestFit` | src/autotrader/risk/v6.py:344-375 | an allowed quantity is a step multiple, fits, and is the largest that does |
| `RiskV6.AllowedStopIsOnTheLosingSide` | src/autotrader/risk/v6.py:306-325 | an allowed stop is positive, beyond the reference on the losing side, inside the ATR window |
| `RiskV6.AllowedLossIsBounded` | src/autotrader/risk/models.py:126-166 | the loss at the stop is positive, fits the budget, and the budget is at most one percent of the smaller equity |
| `RiskV6.LossFitsBothEquities` | src/autotrader/risk/v6.py:344-375 | quantity times stop distance plus cost fits the budget and one percent of either equity |
| `RiskV6.NoLargerSizeFits` | src/autotrader/risk/v6.py:344-352 | in those terms the quantity is a step multiple that fits, and no larger one does |
| `RiskSession.EntryGuards` | src/autotrader/risk/v6.py:327-342 | what an allowed entry that understates nothing proves about the real book |
| `RiskSession.StepKeepsInv` | src/autotrader/risk/v6.py:281-352 | every entry, risk-lowering step, close and new session keeps the book within its limits even if all open positions lose |
| `RiskSession.LossFloorOverEveryRun` | src/autotrader/risk/v6.py:281-352 | over every run of entries that understate nothing, the day stays above minus start equity times daily plus open fraction, never below minus eight percent, the week likewise, and open risk is capped |
| `SessionReports.EntryKeepsFloorsIff` | src/autotrader/risk/v6.py:327-342 | whatever its request reports, an entry keeps the day's and the week's floor under every unwinding if and only if the real book has room for its reservation |
| `SessionReports.FloorsHoldIffEveryEntryHasRoom` | src/autotrader/risk/v6.py:281-352 | over every run the code accepts, whatever its entries report, the floors hold at every point and under every unwinding if and only if each entry had room when it was taken |
| `SessionReports.ReportingMakesRoom` | src/autotrader/risk/v6.py:327-342 | an entry that understates nothing has that room |
| `SessionReports.SilentEntryIff` | src/autotrader/strategies/david_v6/engine.py:148-153 | a grade is allowed with nothing reported exactly under a futures policy that sizes it at a fraction fitting its open fraction |
| `SessionReports.SilentPolicyIff` | src/autotrader/risk/v6.py:394-411 | some such request is allowed exactly when the smallest of the policy's fractions fits its open fraction |
| `SessionReports.ElevatedGradeSlipsThrough` | src/autotrader/risk/v6.py:402-411 | a policy that refuses every silent NORMAL entry and lets a silent A entry through |
| `SessionReports.NothingReportedNoFloor` | src/autotrader/apps/trader/risk_context.py:80-99 | any allowed request that reports nothing, of whatever grade, sent often enough, loses more than any named amount in the day and the week |
| `SessionReports.SilentRunPassesTheFloor` | src/autotrader/apps/trader/risk_context.py:80-99 | for every grade a policy lets through and from every equity, such entries pass the day limit and the eight percent |
| `ManagedPosition.ManageV6Position` | src/autotrader/operations/david_v6_position.py:168-269 | raises exactly on an invalid position or facts, otherwise the prioritised decision |
| `ManagedPosition.ExitsByPriority` | src/autotrader/operations/david_v6_position.py:183-211 | each exit fact, below the more urgent ones, gives its own exit alone, of the whole quantity at market, halting exactly for failed protection |
| `ManagedPosition.Fib66ExitIff` | src/autotrader/operations/david_v6_position.py:208-211 | with no other exit fact the position is closed exactly when the price is at its 66 level or past it in its favour |
| `ManagedPosition.StopComesFirst` | src/autotrader/operations/david_v6_position.py:212-226 | an unprotected position gets its initial stop and nothing else |
| `ManagedPosition.ProtectedDecision` | src/autotrader/operations/david_v6_position.py:228-269 | a protected one adds alone exactly on the add's trigger, otherwise moves its stop exactly on break-even's and records exactly the marks due |
| `ManagedPosition.MarksAreDueIff` | src/autotrader/operations/david_v6_position.py:236-268 | when each of the four marks is due, in prices |
| `ManagedPosition.WorstCaseIsTheLossAtTheStop` | src/autotrader/operations/david_v6_position.py:399-408 | worst-case risk is what the stop would lose on the whole quantity, and nothing if it would gain |
| `ManagedPosition.MovedStopIsTheTighter` | src/autotrader/operations/david_v6_position.py:387-396 | a moved stop is the tighter of the one there was and the break-even one |
| `ManagedPosition.ObservationsMean` | src/autotrader/operations/david_v6_position.py:236-268 | a mark is listed if and only if it is reached and unrecorded, each kind once, and none carries an order, a quantity, a price or a halt |
| `ManagedPosition.MovedStopRisksNothing` | src/autotrader/operations/david_v6_position.py:370-408 | a stop moved past its own average leaves zero risk on either side |
| `ManagedPosition.AddIsNeverRefusedForRisk` | src/autotrader/operations/david_v6_position.py:272-323 | an add is decided on its triggers alone: the refusal on resulting risk never fires, and the risk is zero |
| `ManagedPosition.BreakEvenRisksNothing` | src/autotrader/operations/david_v6_position.py:326-367 | a break-even move leaves exactly zero risk |
| `ManagedPosition.OffsetIsTheLeastCover` | src/autotrader/operations/david_v6_position.py:375-384 | the offset is the least whole number of ticks that covers fees, slippage and a tick |
| `ManagedPosition.MovedStopPaysItsCosts` | src/autotrader/operations/david_v6_position.py:289-306 | being stopped at a moved stop gains every unit its costs and a tick over the average |
| `ManagedPosition.AddConservesCost` | src/autotrader/operations/david_v6_position.py:289-294 | the weighted average costs the whole position what its parts cost |
| `PositionRuns.EveryRunKeeps` | src/autotrader/operations/david_v6_position.py:168-408 | over every run the stop never widens, risk never rises, the position grows once at most, and a truthful risk record stays truthful |
| `PositionRuns.AtMostOneAdd` | src/autotrader/operations/david_v6_position.py:276-277 | at most one add is ordered over any run, none after one is recorded |
| `PositionRuns.ExitClosesEverything` | src/autotrader/operations/david_v6_position.py:183-211 | an exit happens exactly on its facts, is the most urgent one's, alone, for the whole quantity, and ends the position |
| `PositionRuns.PassStaysAcceptableIff` | src/autotrader/operations/david_v6_position.py:370-396 | a pass leaves an acceptable position exactly when it is long, or neither trigger fires, or its offset is below the average the trigger moves it around |
| `PositionRuns.ShortCanBeRefused` | src/autotrader/operations/david_v6_position.py:370-384 | a concrete short whose own break-even stop makes the next pass raise |
| `PositionRuns.LongIsNeverRefused` | src/autotrader/operations/david_v6_position.py:180-269 | no run of valid facts over a long ever raises |
| `PositionMirror.ManagingMirrors` | src/autotrader/operations/david_v6_position.py:168-416 | managing a short is managing the long reflected about the initial entry |
| `PositionMirror.RunsMirror` | src/autotrader/operations/david_v6_position.py:168-416 | whole runs mirror too |
| `TapeWindow.MergeSpans` | scripts/backfill-big-trades.py:186-193 | the merged spans are disjoint, ascending and cover every entry's half hour |
| `TapeWindow.JudgeDue` | scripts/backfill-big-trades.py:225-240 | judges exactly the entries due at this row, from the buffer as it stands |
| `TapeWindow.Absorb` | scripts/backfill-big-trades.py:241-257 | filtering by span and evicting cost no pending entry a trade |
| `TapeWindow.Backfill` | scripts/backfill-big-trades.py:178-257 | each entry the stream reaches is judged once, in order, on the whole stream's window before its millisecond |
| `TapeWindow.JudgedWindowIsPromisedIff` | scripts/backfill-big-trades.py:121-125 | that window is the half-open half hour exactly when no trade shares the entry's fractional millisecond |
| `TapeWindow.HalfAMillisecondLosesATrade` | scripts/backfill-big-trades.py:177-189 | a concrete stream where it is not |
| `TapeBars.FillBuckets` | scripts/aggregate-tape-bars.py:102-106 | each bucket holds exactly its trades in tape order, keys in order of first trade |
| `BarMeaning.BarsDescribe` | scripts/aggregate-tape-bars.py:102-119 | each row opens and closes at the prices of its bucket's first and last trade on the tape, bounds and reaches its high and low, holds its quantity, and every trade has its row |
| `TapeBars.Aggregate` | scripts/aggregate-tape-bars.py:73-125 | the rows are the pages' bars, or the misaligned exit exactly when they do not ascend |
| `TapeBars.CheckAscending` | scripts/aggregate-tape-bars.py:122-124 | the neighbour check decides strict ascent |
| `TapeBars.PagedIsOnePass` | scripts/aggregate-tape-bars.py:84-121 | from an aligned cursor, paging gives the bars of a single pass |
| `TapeBars.VolumeIsConserved` | scripts/aggregate-tape-bars.py:107-119 | every unit traded is in exactly one bar |
| `TapeBars.BarsAreAscending` | scripts/aggregate-tape-bars.py:107-119 | bar opens ascend strictly |
| `TapeBars.AggregateIsOnePass` | scripts/aggregate-tape-bars.py:73-125 | one pass, volume conserved, opens ascending, exit unreachable, for every divisor of an hour |
| `BarMeaning.AggregateDescribes` | scripts/aggregate-tape-bars.py:73-125 | the same of every row read page by page, one row to a bucket |
| `BarMeaning.BucketIs` | scripts/aggregate-tape-bars.py:104-106 | a bucket starts on a multiple of its length and holds its trades' milliseconds |
| `BarMeaning.CursorIsAtOrBefore` | scripts/aggregate-tape-bars.py:84-86 | the aligned cursor is at most a bucket before the start |
| `TapeBars.MinuteDividesHour` | scripts/aggregate-tape-bars.py:236-237 | the guard on the command line is enough |
| `TapeBars.MisalignedExitIff` | scripts/aggregate-tape-bars.py:122-124 | some tape reaches the exit exactly when the bucket does not divide an hour |
| `Resolve.ResolveTrade` | scripts/replay-h0.py:349-462 | the loop over moving stop, units and extremes computes the specified closing |
| `ResolveMoves.MovesAndPays` | scripts/replay-h0.py:391-462 | the stop was moved exactly when a walked bar short of stop and target went far enough; two units exactly when one went far enough for the add short of the stop in force; and the exact result at target, close or stop |
| `ResolveMoves.TouchIff` | scripts/replay-h0.py:407-410 | a bar touches stop or target exactly when its worst or best goes that far from the entry |
| `Resolve.ResolveIsBounded` | scripts/replay-h0.py:391-462 | a loss at the unmoved stop is exactly the risk, one at a moved stop is never negative, a win pays at least the reward |
| `Resolve.FullLossIffOriginalStop` | scripts/replay-h0.py:391-462 | never below minus the risk, and exactly that only when the original stop is hit |
| `Resolve.NoBarToWalk` | scripts/replay-h0.py:461-462 | with no bar to walk the mark can show more than the risk, exactly when it is past the stop |
| `Resolve.LastBarShowsMoreThanTheRisk` | scripts/replay-h0.py:1141-1142 | a fill at its level on the last bar, with the close past the stop, does |
| `Resolve.ResolveMirrors` | scripts/replay-h0.py:402-462 | the sell side is the buy side over price-negated bars |
| `Resolve.ResolveIgnoresTheFuture` | scripts/replay-h0.py:402-462 | bars after the closing index do not matter, nor their number once the trade closed or used its horizon |
| `Resolve.ExcursionsAreExact` | scripts/replay-h0.py:391-438 | the reported extremes are exactly the furthest the walked bars went either way |
| `Resolve.PlainIsFirstTouch` | scripts/replay-h0.py:402-442 | with no add and no break-even, the outcome is that of the first bar to touch stop or target, the stop first |
| `Regime.CloseHigherFrame` | scripts/replay-h0.py:810-821 | the last bar of each whole bucket, partial bucket dropped |
| `Regime.ReadRegimes` | scripts/replay-h0.py:824-859 | one reading per close, from values at or before it |
| `RegimeMeaning.RegimeIs` | scripts/replay-h0.py:837-859 | from the prices alone: 1 exactly when the price is above those 70 and 200 back and the last 70 average above the last 200, -1 when all three are reversed, 0 otherwise and before 200 closes |
| `RegimeMeaning.RisingReadsUp` | scripts/replay-h0.py:853-854 | strictly rising closes read 1 |
| `RegimeMeaning.FallingReadsDown` | scripts/replay-h0.py:855-856 | strictly falling closes read -1 |
| `RegimeMeaning.NegatedReadsOpposite` | scripts/replay-h0.py:853-858 | negated prices read the opposite |
| `RegimeMeaning.RisingBarsVetoShorts` | scripts/replay-h0.py:1049-1056 | on bars that only rise the veto lets longs through and refuses shorts |
| `Regime.RegimeAt` | scripts/replay-h0.py:862-871 | the binary search finds what a linear scan finds |
| `Regime.NoLookAhead` | scripts/replay-h0.py:810-871 | the regime at a bar is the one of the series cut there |
| `Regime.FutureBarsDoNotMatter` | scripts/replay-h0.py:810-871 | series that agree up to the bar agree on the regime |
| `Regime.RegimeAtBar` | scripts/replay-h0.py:810-871 | bucketing, averages and binary search over the whole series give the regime of the series cut at the bar |
| `Regime.VetoHasNoLookAhead` | scripts/replay-h0.py:969-973 | at every bar the loop decides on, for either step, the veto is the one of the series cut there |
| `Regime.LaterBarsDoNotVeto` | scripts/replay-h0.py:1049-1056 | series that agree up to the bar veto alike |
| `Regime.DecideVeto` | scripts/replay-h0.py:1049-1056 | the veto taken from the whole series' readings is the cut series' veto |
| `Regime.VetoSettledIff` | scripts/replay-h0.py:972-973 | why skipping the first bars is enough: cutting the series cannot change the veto exactly when a bucket is whole or none ever is |
| `ControlRows.ControlTable.ApplySafety` | src/autotrader/apps/backoffice/commands.py:162-223 | every action disarms every row; with no rows it refuses |
| `ControlRows.ControlTable.ApplyExposure` | src/autotrader/apps/backoffice/exposure.py:205-229 | arming through a halt is refused and changes nothing; otherwise every row changes |
| `ControlRows.ControlTable.RaiseTo` | src/autotrader/apps/trader/live_safety.py:63-75 | each row raised, disarmed when asked |
| `ControlRows.StrongestIsTheMaximum` | src/autotrader/apps/backoffice/commands.py:233-238 | the reported level is the highest among the rows |
| `ControlRows.HaltsHalt` | src/autotrader/apps/trader/live_safety.py:48-75 | HALT, EMERGENCY and the account halt leave every row disarmed and stopped |
| `ControlRows.SafetyMeans` | src/autotrader/apps/backoffice/commands.py:176-223 | every safety action disarms every row, a halt and an emergency set their level, a disarm keeps it |
| `ControlRows.ExposureMeans` | src/autotrader/apps/backoffice/exposure.py:218-228 | a clear lifts every level and arms nothing, an arm arms every row and lifts nothing |
| `ControlRows.StateMeans` | src/autotrader/apps/backoffice/commands.py:226-238 | the shown state is armed exactly when every row is, at the strongest level, and trading is allowed exactly when it shows armed and none |
| `ControlRows.RaisingOnlyRaises` | src/autotrader/apps/trader/live_safety.py:63-91 | each row ends at the stronger level, disarmed exactly when asked, one version on exactly when changed |
| `ControlRows.SafetyLowersIff` | src/autotrader/apps/backoffice/commands.py:217-223 | a safety action lowers a row exactly when it is a HALT and the row is in EMERGENCY |
| `ControlRows.SafetyLowersTheTableIff` | src/autotrader/apps/backoffice/commands.py:217-238 | some row, and the level shown, falls exactly when a HALT finds an EMERGENCY |
| `ControlStores.CommandLedger.Open` | src/autotrader/apps/backoffice/ledger.py:87-109 | a command is opened once |
| `ControlStores.CommandLedger.Succeed` | src/autotrader/apps/backoffice/ledger.py:111-131 | an opened command is closed as applied |
| `ControlStores.CommandLedger.Fail` | src/autotrader/apps/backoffice/ledger.py:133-151 | only an IN_PROGRESS row becomes FAILED |
| `ControlStores.ApprovalStore.Issue` | src/autotrader/apps/backoffice/second_password.py:184-194 | a live identity is refused, any other stored with its time |
| `ControlStores.ApprovalStore.Consume` | src/autotrader/apps/backoffice/second_password.py:196-209 | gone whatever the answer; accepted exactly when live and bound to this request |
| `ControlRuns.ApplyCommand` | src/autotrader/apps/backoffice/exposure.py:196-258 | rows, ledger and approval of one transaction: applied together, or only the approval spent |
| `ControlRuns.StepIsOnTheRecord` | src/autotrader/apps/backoffice/commands.py:162-203 | a step changes rows only through the protection service or through exactly one recorded command whose row goes IN_PROGRESS to SUCCEEDED |
| `ControlRuns.CommittedIffSucceeded` | src/autotrader/apps/backoffice/ledger.py:87-151 | over every run with crashes a change is committed if and only if its row reads SUCCEEDED, once, and a closed row never changes |
| `ControlRuns.LedgerHoldsFromTheStart` | src/autotrader/apps/backoffice/ledger.py:87-151 | every run from a new installation keeps ledger and record in agreement |
| `ControlRuns.ApprovalsHoldFromTheStart` | src/autotrader/apps/backoffice/second_password.py:184-209 | every run from a new installation applies each approval at most once, as bound and in its lifetime |
| `ControlRuns.StepKeepsApprovals` | src/autotrader/apps/backoffice/second_password.py:184-209 | an approval that was applied is gone, was bound to the facts it was applied against, and was no older than its lifetime |
| `ControlRuns.FactsAreThePanel` | src/autotrader/apps/backoffice/exposure.py:277-309 | the facts an approval is bound to are the account and the rows as they stand |
| `ControlRuns.AttemptSpends` | src/autotrader/apps/backoffice/second_password.py:196-209 | an attempt that gets as far as the approval spends it, applied or not, and no other |
| `ControlRuns.EveryEntryHasItsMoment` | src/autotrader/apps/backoffice/exposure.py:207-249 | every audit entry was written by one step of the run against the facts of that moment |
| `ControlRuns.TradingAgainNeedsClearThenArm` | src/autotrader/apps/backoffice/exposure.py:196-229 | from any halted state, trading again needs a later CLEAR_HALT then an ARM, each with its own approval bound to the facts when spent |
| `ControlRuns.LateApprovalsAreNew` | src/autotrader/apps/backoffice/second_password.py:184-209 | an approval spent a lifetime or more after the halt was not issued yet when it happened |
| `ControlRuns.OldApprovalArmsIffAlive` | src/autotrader/apps/backoffice/second_password.py:196-209 | one to arm issued before the halt arms after the clear exactly while its own lifetime lasts |
| `ControlRuns.FreshApprovalApplies` | src/autotrader/apps/backoffice/exposure.py:164-258 | an approval issued on the current panel and spent at once applies, unless it arms through a halt |
| `ControlRuns.ClearThenArmIsEnough` | src/autotrader/apps/backoffice/exposure.py:217-229 | from any halted state those two commands do bring trading back |
| `BudgetAnchors.RiskTables.RaiseAnchors` | src/autotrader/risk/service.py:88-98 | refuses exactly when some locked row lacks room, else raises each once |
| `BudgetAnchors.RiskTables.PersistDecision` | src/autotrader/persistence/mysql/repositories/risk.py:51-80 | one decision per intent; a different payload collides |
| `BudgetAnchors.RiskTables.PersistReservation` | src/autotrader/persistence/mysql/repositories/risk.py:87-134 | one reservation per decision; says whether it was inserted |
| `BudgetAnchors.RiskTables.PersistApproval` | src/autotrader/risk/service.py:53-98 | committed whole or rolled back to the tables it found |
| `BudgetAnchors.BookedHolds` | src/autotrader/risk/service.py:89-98 | a booking adds its amount once to each side of its currency and to no other |
| `BudgetAnchors.BookedRowByRow` | src/autotrader/risk/service.py:89-98 | the two locked rows hold the amount more and are one version on; nothing else changes |
| `BudgetAnchors.StepMoves` | src/autotrader/risk/service.py:53-98 | one transaction changes an anchor only to leave it within its limit, and moves both sides and the reservations by one amount |
| `BudgetAnchors.FreshRequestIsCommittedIff` | src/autotrader/risk/service.py:61-98 | a new request is committed exactly when anchors exist, it is coherent, its rows enter, and an approval has room on both |
| `BudgetAnchors.EveryRunMoves` | src/autotrader/risk/service.py:53-98 | over every interleaving each anchor within its limit stays within it whatever the others hold, GLOBAL grows by what the ACCOUNT anchors grow by, and reservations hold exactly that |
| `BudgetAnchors.StepIsFiledIff` | src/autotrader/persistence/mysql/repositories/risk.py:97-115 | a committed request keeps the books currency by currency exactly when it is a replay, holds nothing, or its reservation is in its own currency |
| `BudgetAnchors.EveryRunIsFiled` | src/autotrader/risk/service.py:65-98 | over every interleaving of such requests each currency's GLOBAL anchor grows by what the reservations in it hold |
| `BudgetAnchors.ReplayChangesNothing` | src/autotrader/risk/service.py:83-87 | an accepted request sent again after any later run is accepted and changes nothing |
| `BudgetAnchors.EveryRunKeepsKeys` | src/autotrader/persistence/mysql/repositories/risk.py:51-134 | over every interleaving no intent is decided twice, no decision reserved twice, and every reservation accounts for its amount |
| `BudgetAnchors.CollisionsAreRefused` | src/autotrader/persistence/mysql/repositories/risk.py:71-132 | an intent decided otherwise, or a decision reserved for something else, is refused and changes nothing |
| `RiskEngine.ApprovalNeedsRoom` | src/autotrader/risk/engine.py:20-79 | an APPROVE has matching anchors with room under both limits |
| `RiskEngine.MatchedAreLocked` | src/autotrader/risk/engine.py:164-187 | the matched pair are the very rows the service locks |
| `RiskEngine.ApprovalIsNeverRefusedForRoom` | src/autotrader/risk/engine.py:164-210 | an APPROVE on unchanged anchors is never refused by the service's own check, and leaves both anchors within the policy limit too |
| `RiskEngine.ApprovalIsCommitted` | src/autotrader/risk/service.py:53-98 | a new, coherent approval is committed and each anchor grows by what the engine reserved |
| `RiskEngine.ReservesItsCost` | src/autotrader/risk/engine.py:60-79 | an approval is a purchase and reserves its quantity at its price |
| `RiskEngine.PriceIs` | src/autotrader/risk/engine.py:81-91 | the limit, or the quote moved against the trader by exactly the allowed slippage |
| `RiskEngine.MatchedIff` | src/autotrader/risk/engine.py:164-187 | with one GLOBAL anchor and one for the account, these two are matched exactly when both are in the snapshot's currency |
| `RiskEngine.UnmatchedUnlessSole` | src/autotrader/risk/engine.py:164-187 | with none or several of either there is no match |
| `RiskEngine.MarketPriceIsAdverse` | src/autotrader/risk/engine.py:81-91 | a market order is priced at or past the touch, against the trader |
| `ConfigCache.ConfigurationCache.Refresh` | src/autotrader/apps/trader/live_authority.py:87-99 | an uncontended caller keeps a fresh reading, otherwise takes the venue's, keeping the old one on failure |
| `ConfigCache.StepKeepsInv` | src/autotrader/apps/trader/live_authority.py:87-99 | one reader at a time, holding a lock on a reading a whole interval old |
| `ConfigCache.EveryInterleavingKeeps` | src/autotrader/apps/trader/live_authority.py:87-99 | readings stored at least an interval apart, every returning caller served a stored reading younger than the interval, failures included |
| `ConfigCache.VenueIsNotAskedTooOften` | src/autotrader/apps/trader/live_authority.py:66-99 | n stored readings span at least n-1 intervals, however many callers contend |
| `ConfigCache.SomeoneCanMove` | src/autotrader/apps/trader/live_authority.py:93-99 | no caller is ever stuck behind a failed read |
| `Settlement.FillSettlement.Settle` | src/autotrader/apps/trader/live_settlement.py:93-118 | one pass applies the answer in id order above the cursor, then hands its entries over for their stops |
| `Settlement.Cursor` | src/autotrader/apps/trader/live_settlement.py:120-126 | the highest id on the ledger, none when it is empty |
| `Settlement.EveryRunIsExact` | src/autotrader/apps/trader/live_settlement.py:93-168 | over overlapping unordered answers with stops anywhere, the ledger is exactly the matched trades up to its highest id, once, ascending |
| `Settlement.FinishedPassSkipsNothing` | src/autotrader/apps/trader/live_settlement.py:99-110 | a finished pass has recorded every matched trade its answer reaches |
| `Settlement.PassCountsByHand` | src/autotrader/apps/trader/live_settlement.py:138-143 | a pass adds exactly the unlinked trades above its cursor to the count |
| `Settlement.CountedAgain` | src/autotrader/apps/trader/live_settlement.py:88-91 | a pass that records nothing counts the same trades again next time |
| `Settlement.CountedWhileNothingPassedIt` | src/autotrader/apps/trader/live_settlement.py:138-143 | a hand-placed trade is counted exactly while nothing at or above it is recorded |
| `Protection.EveryEntryIsAccountedFor` | src/autotrader/apps/trader/live_settlement.py:99-117 | over every run each recorded entry is handed over, waiting in its pass, or dropped, and nothing else is |
| `Protection.DroppedIff` | src/autotrader/apps/trader/live_settlement.py:99-117 | an entry is dropped exactly by a stop between its commit and its handing over |
| `Protection.HandedOverIff` | src/autotrader/apps/trader/live_settlement.py:99-117 | between passes a recorded entry was handed over if and only if its pass was not stopped first |
| `Protection.DroppedForGood` | src/autotrader/apps/trader/live_settlement.py:100-117 | no later pass, whatever the venue answers, hands a dropped entry over |
| `Protection.AnEntryLeftWithoutItsStop` | src/autotrader/apps/trader/live_settlement.py:99-117 | a concrete run that leaves a recorded entry without its stop |
| `Universe.ReadMembers` | src/autotrader/application/universe_manifest.py:205-245 | reads all members with no symbol twice, or stops at the first malformed or repeated one with its fault |
| `Universe.ReadsBackIff` | src/autotrader/application/universe_manifest.py:226-289 | an entry reads as a member exactly when it is that member's own published form and the member is proper |
| `Text.TrimmedIff` | src/autotrader/application/universe_manifest.py:279-289 | a text passes exactly when it is not empty and stripping leaves it as it is |
| `UniverseForms.CanonicalIsUnambiguous` | src/autotrader/application/universe_manifest.py:134-160 | equal bytes exactly for equal authority, date and sorted members |
| `UniverseForms.MemberTextIs` | src/autotrader/application/universe_manifest.py:147-159 | one member's JSON: keys sorted, no spaces, null for what is missing |
| `UniverseForms.CanonicalTextIs` | src/autotrader/application/universe_manifest.py:143-160 | the whole JSON: date, members in symbol order with commas between, authority |
| `UniverseForms.CanonicalIgnoresOrder` | src/autotrader/application/universe_manifest.py:134-160 | member order and provenance do not change the bytes |
| `UniverseForms.DifferenceMeans` | src/autotrader/application/universe_manifest.py:178-202 | each list holds exactly the symbols added, removed or changed, ascending, once |
| `UniverseForms.ByNameKeepsTheLast` | src/autotrader/application/universe_manifest.py:187-188 | a repeated symbol keeps its last line |
| `UniverseForms.ComparesIff` | src/autotrader/application/universe_manifest.py:185-186 | only snapshots of one authority compare |
| `UniverseForms.PatchGivesCurrent` | src/autotrader/application/universe_manifest.py:187-202 | removing, adding and replacing what is listed gives the current members |
| `UniverseForms.IdenticalIffSameMap` | src/autotrader/application/universe_manifest.py:104-106 | nothing listed exactly when the members by symbol are equal |
| `UniverseForms.CanonicalEqualIffIdentical` | src/autotrader/application/universe_manifest.py:134-202 | for one authority and date, equal bytes exactly when the comparison reports identical |
| `KrxFraming.FramingReadsBack` | src/autotrader/domain/krx_instrument_authority.py:353-356 | the framed stream decodes back to its fields |
| `KrxFraming.LengthReadsBack` | src/autotrader/domain/krx_instrument_authority.py:306-306 | the four bytes are the length, big end first |
| `KrxFraming.HeadIsInOrder` | src/autotrader/domain/krx_instrument_authority.py:335-340 | tag, time and the two source hashes come first |
| `KrxFraming.InstrumentIsInOrder` | src/autotrader/domain/krx_instrument_authority.py:341-352 | then each instrument's market and symbol, at its place |
| `KrxFraming.NamesAreInOrder` | src/autotrader/domain/krx_instrument_authority.py:346-347 | its standard code and name |
| `KrxFraming.ClassCodesAreInOrder` | src/autotrader/domain/krx_instrument_authority.py:348-351 | and its three class codes |
| `KrxFraming.ActivationIsInOrder` | src/autotrader/domain/krx_instrument_authority.py:295-305 | the nine fields of an activation, each at its place |
| `Text.IsoMomentReads` | src/autotrader/domain/krx_instrument_authority.py:337-337 | date, hour, minute and second are where an ISO moment has them |
| `Text.IsoDateReads` | src/autotrader/domain/krx_instrument_authority.py:300-300 | year, month and day are where an ISO date has them |
| `Text.Utf8Reads` | src/autotrader/domain/krx_instrument_authority.py:347-347 | a character's bits are where UTF-8 puts them |
| `Text.LessMeans` | src/autotrader/domain/krx_instrument_authority.py:323-323 | symbols are ordered as a dictionary orders them |
| `KrxFraming.ValidateInstruments` | src/autotrader/domain/krx_instrument_authority.py:311-324 | accepts exactly the non-empty, well-formed, strictly ascending lists |
| `KrxFraming.SortedAndUniqueIffAscending` | src/autotrader/domain/krx_instrument_authority.py:323-324 | equal to its sort and as long as its set exactly when strictly ascending |
| `KrxFraming.FeedSnapshot` | src/autotrader/domain/krx_instrument_authority.py:327-356 | the bytes fed are the framed field list, and no length overflows |
| `KrxFraming.SnapshotStreamIsUnambiguous` | src/autotrader/domain/krx_instrument_authority.py:327-356 | equal streams exactly for equal capture times, hashes and instruments in order |
| `KrxFraming.ActivationStreamIsUnambiguous` | src/autotrader/domain/krx_instrument_authority.py:283-308 | equal activation streams exactly for equal activations |
| `KrxFraming.StreamsNeverMeet` | src/autotrader/domain/krx_instrument_authority.py:295-340 | no activation feeds the bytes of a snapshot |

## Left out

- Decimal arithmetic: the 28-digit rounding of division is not modelled; reals are exact.
- The order in which blocker codes are listed, reason strings, and record fields no decision reads.
- RiskV6.EvaluateV6Risk: malformed requests and policies are excluded by their `Valid()` predicates, which is where the source raises; the policy's freshness ages are not used by the evaluation.
- RiskSession.LossFloorOverEveryRun: asks that entries understate nothing, because without that the floor is false; SessionReports states the exact condition for entries that report anything.
- RiskSession.StepKeepsInv: the same, for one step.
- SessionReports.SilentEntryIff: the scoring that grades a setup and the session size multiplier are left open; every grade and multiplier is covered.
- The sink that turns a managed-position action into orders is only a protocol in the source; a step takes stop, average, quantity and risk from the action, and a mark only records itself.
- TapeBars.Aggregate: tape times are at or after 1970; the dates before it never occur on the tape.
- TapeWindow.Backfill: states the stream that was read; months without an entry are never downloaded, and the order-flow verdict is a function of the window left abstract.
- Floating-point division of time differences in the two scripts is taken as exact truncation.
- The atomicity of the protection service's row changes is an assumption: it takes no row lock. Kill-switch levels outside the three stored ones are excluded by the table's own check.
- ControlRuns.ApplyCommand: rollback of a transaction refused by the database itself is a fate of the run machine, not of this method.
- Rate limiting of password attempts, secret activation, sign-in, routes and screens.
- Other writers of the budget anchors (releases, fills, adoption) and foreign keys of the decision and reservation tables.
- RiskEngine.ApprovalIsNeverRefusedForRoom: identity, hash and table refusals remain possible and are listed in the transaction's own result.
- Settlement assumes what its source promises: ids never appear below one already shown, an answer reaches back to the cursor, and an order is linked before its trades are shown; planning and dispatching a stop after the hand-over is not modelled.
- ConfigCache assumes that a reading is dated no earlier than the moment its caller came with.
- Lone surrogates, which cannot be encoded, are not texts here; calendar dates allow day 31 in every month, which only widens the statements.
- Setup discovery, indicators, order-flow facts and dispatch are kept abstract where they are called.
