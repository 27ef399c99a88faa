# Maintenance workshop core in Dafny

This project models the core of a web application for a maintenance
workshop, in `script.js`. The application keeps machines, spare parts,
technicians, maintenance requests ("solicitudes") and work orders. The
model covers:

- The work-order life cycle. Orders move through `Pendiente`, `En Proceso`,
  `Pausado`, `Completado` and `Cancelado`, by a full-form save or by the
  quick-action buttons of a work card. Each move rebuilds the order's
  timeline of worked intervals.
- The stock ledger. Stock is changed by signed read-modify-write steps that
  refuse to go below zero. Parts are consumed when an order is first
  completed, and stock is reconciled when an order's parts list is edited.
- Identifiers. Work-order ids have the form `MA-YY-NNNN`; the next one is
  derived from the highest sequence number in use. Request ids have the form
  `SOL-NNNN` and are numbered from the count of requests.
- Worked time, cost, and scheduled uptime. Worked time is computed from the
  interval timeline. An order's cost is parts plus labour plus any additional
  cost. Scheduled uptime comes from each machine's weekday, Saturday and
  Sunday hours.
- The dashboard indicators: MTBF, MTTR, availability, the preventive ratio
  and the average cost. The machine report uses the same formulas; they are
  modelled once.

## How the model is organised

Each module follows one part of the program:

- `Common`: statuses, order types, time units.
- `WorkTime`: worked intervals and durations.
- `Ids`: work-order and request ids.
- `StockLedger`: stock changes and parts reconciliation.
- `WorkOrders`: the order record, validation, and the interval rules.
- `Cost`: order and batch costs.
- `Schedule`: scheduled uptime.
- `Kpi`: the indicators.
- `Workshop`: the stored state and the handlers.

The modules share these representations:

- Timestamps are integer milliseconds since the epoch. A calendar date is
  its UTC day number.
- Times of day (`HH:MM`) are minutes after midnight.
- Money is `real`.
- A JavaScript `Map` is a sequence of key/value pairs, kept in insertion
  order.

The handlers are written as imperative code in the class
`Workshop.Workshop`:

- `SaveWorkOrder` models `saveWorkOrder`.
- `HandleWorkOrderAction` models `handleWorkOrderAction`.
- `SaveManagedParts` models `handleSaveManagedParts`.
- `SubmitRequest` models `handleSolicitudSubmit`.

The class holds the orders and requests in fields, and the stock in a
`StockLedger.PartStore` object. Each method is proved to change that state
exactly as a specification function on a `State` value says (`SaveSpec`,
`ActionSpec`, `PartsSpec`, `SubmitSpec`). The properties are then proved as
lemmas about those functions. The loops of the source are methods with loop
invariants, proved against functions:

- the stock-write loop;
- the two passes that compute the stock deltas;
- the day walk of the uptime calculation;
- the duration sums.

Document keys are taken to be equal to the visible ids. An order is stored
under its own id, and a part's stock document under its part id.

### Behaviour the proofs bring out

- Intervals stay consistent only under the buttons a card offers.
  Consistent means that only the last interval may be open, and that it is
  open exactly while the order is `En Proceso`.
  - `QuickActionKeepsConsistent` and `OfferedActionKeepsIntervals` prove
    that the offered buttons keep this.
  - `FormSaveKeepsConsistent` proves the same for the full form, except when
    the form moves a running order straight to `Pendiente` or `Cancelado`.
    In that case the open interval is left open. Reopening the order then
    opens a second interval, and pausing closes only the first
    (`CancelledWhileRunningKeepsOpenInterval`).
- Stock writes are not rolled back. When one write of a completion or of a
  parts edit is refused, the writes before it stay and the order is not
  written (`RunFailureKeepsEarlierWrites`, `SaveShortfallKeepsEarlierWrites`).
  A retry therefore consumes those parts again.
- The full form and the quick actions consume parts differently. The full
  form consumes only the positive quantities of the saved parts list. The
  quick action consumes every listed quantity.

## Model

| member | source | states |
|---|---|---|
| WorkTime.TotalWorkDurationMs | script.js:1796-1810 | the running total over the intervals equals the worked time: closed spans summed, open intervals ignored |
| WorkTime.ActiveWorkDurationMs | script.js:1812-1821 | a running order (En Proceso, last interval open) shows its worked time with the open interval closed at now; any other order shows its worked time; the running figure is never below the stored one |
| WorkTime.WorkedMsIsClosedSpanSum | script.js:1796-1810 | worked time is the sum of end - start over exactly the closed intervals |
| WorkTime.ClosedOnly | script.js:1800-1806 | the closed intervals are exactly those of the list with an end |
| WorkTime.WorkedMsAppend | script.js:1796-1810 | worked time is additive over concatenation of timelines |
| WorkTime.AppendOpenKeepsWorked | script.js:1800 | opening a new interval leaves the worked time unchanged |
| WorkTime.CloseAtAddsSpan | script.js:1815-1819 | closing an open interval at now adds exactly now - start |
| WorkTime.WorkedMsNonNegative | script.js:1796-1810 | worked time is not negative when no closed interval runs backwards |
| WorkTime.OpenCount | script.js:2290 | no open interval exactly when every interval has an end |
| Ids.NextWorkOrderId | script.js:2566-2580 | the id is the prefix `MA-YY-` followed by at least four characters |
| Ids.NextWorkOrderIdSequence | script.js:2566-2580 | the next id is `MA-YY-` followed by a field that reads back as 1 + the largest sequence number among the ids with that prefix |
| Ids.NextWorkOrderIdFresh | script.js:2566-2580 | the generated id is never one already in use |
| Ids.NextSequencedIdFresh | script.js:2570-2579 | a prefix followed by 1 + the largest number in use is new among the ids |
| Ids.NextWorkOrderIdValid | script.js:2181-2186 | the generated id passes the save-time format check exactly when the year has two digits and the sequence fits in four digits |
| Ids.NextWorkOrderIdExample | script.js:2566-2580 | in 2025 with MA-25-0001 and MA-25-0007 in use the next id is MA-25-0008 |
| Ids.ParseDigitsAfterSpaces | script.js:2572 | `parseInt` skips leading white space and reads the digits that follow |
| Ids.SpaceSeparatorSkipped | script.js:2572 | a Unicode space separator such as U+3000 before the digits is skipped |
| Ids.SequenceNumbersHas | script.js:2570-2573 | every id with the prefix whose field parses contributes its number |
| Ids.NextSequenceNumber | script.js:2570-2577 | the id built from the prefix reads back as 1 + the largest number in use |
| Ids.AboveAllIsFresh | script.js:2570-2579 | an id whose number exceeds every number in use is not among the ids |
| Ids.ValidOrderIdNumber | script.js:2570-2572 | every id that passes the save-time check `^MA-\d{2}-\d{4}$` (script.js:2181) is counted by the generator under its own prefix, with the value of its four digits |
| Ids.ParseIntFieldNaN | script.js:2572 | `parseInt` gives NaN, and the id is skipped, when the field is only white space or its first other character is neither a digit nor a sign |
| Ids.OrderIdShape | script.js:2181-2186 | `MA-` + year digits + `-` + sequence digits passes the format check exactly when they are two and four digits |
| Ids.MaxOrZero | script.js:2575 | the largest of the numbers, in the list, or 0 for none |
| Ids.PadZeros | script.js:2577 | left zero padding to the width, the string kept at the right end |
| Ids.DecimalRoundTrip | script.js:2577 | the decimal digits of n read back as n |
| Ids.PadZerosValue | script.js:2577 | padding with zeros keeps the value of a digit string |
| Ids.RequestIdForCount | script.js:1609-1610 | a request id is `SOL-` followed by digits, at least four |
| Ids.RequestIdInjective | script.js:1609-1610 | two counts give the same request id exactly when they are equal |
| Ids.RequestIdFresh | script.js:1609-1610 | while requests are only added, the count-based id is new and the ids stay sequential |
| Ids.RequestIdExamples | script.js:1610 | the first request is SOL-0001 and the forty-second SOL-0042 |
| StockLedger.Step | script.js:2083-2091 | a part missing from the store is skipped; a change that would go below zero is refused with the stock read and the quantity needed; otherwise the new stock is the old plus the change |
| StockLedger.Run | script.js:2081-2093 | a run of changes keeps the set of stored parts |
| StockLedger.PartStore.ApplyDelta | script.js:2083-2091 | the stock write does what Step says and touches only that part |
| StockLedger.PartStore.ApplyAll | script.js:2081-2093 | the write loop leaves the stock and error that Run computes |
| StockLedger.RunKeepsStockNonNegative | script.js:2088-2091 | stock that starts non-negative stays non-negative, whether or not the run stops |
| StockLedger.RunSuccessAddsNetDelta | script.js:2081-2093 | a run without error moves each stored part by the sum of the changes addressed to it |
| StockLedger.RunFailureKeepsEarlierWrites | script.js:2088-2090 | a run that stops leaves exactly the stock of the changes before the refused one, and reports that one |
| StockLedger.ConsumptionDeltas | script.js:2317-2335 | completion removes each listed quantity (only positive ones for the form, all of them for the quick action); per part the changes add up to minus the quantity consumed |
| StockLedger.CompletionShortfallExample | script.js:2327-2330 | completing with 5 of P1 when 3 are in stock fails with a shortfall of 2 and leaves 3 |
| StockLedger.Put | script.js:2062 | `map.set`: the key gets the value, other keys keep theirs, keys stay unique |
| StockLedger.MapOf | script.js:2054 | a `Map` built from the parts list has each part once |
| StockLedger.LookupIffKey | script.js:2075 | `map.has` and `map.get` agree |
| StockLedger.ComputeStockDeltas | script.js:2065-2078 | the two `forEach` passes compute the reconciliation map |
| StockLedger.ChangedLoop | script.js:2066-2072 | first pass over the new parts |
| StockLedger.RemovedLoop | script.js:2074-2078 | second pass over the old parts |
| StockLedger.ChangedPassSpec | script.js:2066-2072 | a listed part whose quantity changed gets minus the difference; an unchanged one none |
| StockLedger.RemovedPassSpec | script.js:2074-2078 | a part no longer listed gives back its whole old quantity |
| StockLedger.StockDeltasSpec | script.js:2065-2078 | for every part the change is old quantity minus new quantity, none when unchanged |
| StockLedger.NetDeltaOfMap | script.js:2081 | iterating the entries of the delta map applies each part's entry once |
| StockLedger.ReconcileConservesStock | script.js:2054-2093 | after a successful edit each stored part's stock plus its quantity on the order is what it was before |
| WorkOrders.Validate | script.js:2181-2272 | a save is accepted exactly when every rule holds (id format, no duplicate new id, end after start, failure type for correctives, maintenance type for preventives, lead technician unless cancelled); a refusal reports the first failing rule in the source's order |
| WorkOrders.NonEmpty | script.js:2246 | the list without blanks |
| WorkOrders.FirstIndex | script.js:2246 | the position of the first occurrence: the entry is there and not before it |
| WorkOrders.Dedupe | script.js:2246 | the same entries, each once, in the order in which they first occur |
| WorkOrders.TechniciansOf | script.js:2246 | the technicians field holds exactly the non-blank lead and support technicians, without repeats, lead first, the rest in the order they first occur in the form |
| WorkOrders.NonEmptyKeepsOrder | script.js:2246 | dropping blanks keeps the order of first occurrences |
| WorkOrders.FirstOpen | script.js:2298 | the position of the first open interval, or none when all are closed |
| WorkOrders.ResumeStart | script.js:2289-2295 | a new interval starts at the manual start time only when no interval is open and that time is not in the future; otherwise at now |
| WorkOrders.FormIntervals | script.js:2281-2304 | completing with both times gives the single interval [start, end]; entering En Proceso appends one open interval; leaving En Proceso for Pausado or Completado closes the first open interval at now, adding its span; everything else keeps the list |
| WorkOrders.SavedOrder | script.js:2234-2312 | the saved record: the button's status or else the form's, the form's fields, deduplicated technicians, intervals recomputed from the stored ones, the end time from them, and creation time now on create or kept otherwise |
| WorkOrders.FormEndTime | script.js:2306-2309 | a completion without an end time takes the end of the last interval, or now |
| WorkOrders.QuickIntervals | script.js:2385-2409 | start appends an open interval at now; pause and complete close the last interval if it is open, adding its span; otherwise unchanged |
| WorkOrders.QuickAction | script.js:2381-2409 | a start without a lead technician is refused; a first start sets start time and date; a completion sets the end time only when missing; nothing else of the order changes |
| WorkOrders.ConsistentIntervals | script.js:2281-2304 | under the interval invariant there is at most one open interval, one exactly while En Proceso, and worked time is not negative |
| WorkOrders.QuickActionKeepsConsistent | script.js:2385-2409 | the buttons a card offers keep the interval invariant |
| WorkOrders.QuickStartWhileRunningOpensSecond | script.js:2399 | a start on an order already running would open a second interval |
| WorkOrders.FormIntervalsKeepConsistent | script.js:2281-2304 | the form's interval rule keeps the invariant except for a running order moved to Pendiente or Cancelado |
| WorkOrders.FormSaveKeepsConsistent | script.js:2274-2313 | a full save keeps the invariant under the same exception |
| WorkOrders.CancelledWhileRunningKeepsOpenInterval | script.js:2284-2303 | a running order cancelled from the form keeps its open interval; reopening opens a second; pausing closes only the first |
| Cost.FindBy | script.js:3380 | `find` by key, used for parts by id (line 3380) and technicians by username (line 3392): the element at the first position with the key, or no element has it |
| Cost.FirstKeyIndex | script.js:3392 | the position of the first element with the key: every earlier one has another key |
| Cost.PartsCost | script.js:3377-3383 | with non-negative costs and quantities the parts cost is not negative |
| Cost.LaborCost | script.js:3385-3399 | labour is zero without technicians or worked hours, else the hours times the sum of the hourly rates (salary / 160) |
| Cost.LaborIsHoursTimesRates | script.js:3391-3398 | the labour `reduce` equals hours times the sum of the rates |
| Cost.OrderCost | script.js:3376-3403 | labour is zero without technicians or worked hours and otherwise the hours times the sum of the technicians' rates; the total is not negative when no cost, quantity, salary or additional cost is negative |
| Cost.RateSumNonNegative | script.js:3391-3396 | with no negative salary the summed hourly rates are not negative |
| Cost.LaborNonNegative | script.js:3385-3399 | with no negative salary the labour cost is not negative |
| Cost.BatchFromSums | script.js:3405-3413 | the batch `reduce` from an accumulator adds the component sums to it |
| Cost.SumTotalsSplits | script.js:3401 | summed totals are summed parts plus summed labour plus summed additional costs |
| Cost.BatchCostIsComponentwiseSum | script.js:3405-3413 | the batch totals are the component-wise sums of the orders' breakdowns, and the batch total is parts plus labour plus additional costs |
| Cost.BatchCost | script.js:3405-3413 | the batch parts, labour and total are the sums over the orders of their parts costs, labour costs and totals |
| Cost.SumTotalsAppend | script.js:3405-3413 | batch totals split over concatenation |
| Cost.OrderCostExample | script.js:3376-3403 | rates 100 and 150, 2 hours and three parts at 50 give 150 + 500 = 650 |
| Schedule.Weekday | script.js:3342 | the day of the week is in 0..6 |
| Schedule.WalkMs | script.js:3340-3371 | walking the days of a window never adds negative time |
| Schedule.UptimeMs | script.js:3327-3373 | the sum of what each machine contributes, using the rounded day count as written; not negative on a window that is not reversed (a reversed window can give a negative count, as in the source) |
| Schedule.SpanMs | script.js:3361-3367 | an active day adds end - start only when both are given and the span is positive |
| Schedule.DailyMs | script.js:3345-3367 | a day the schedule does not switch on adds nothing |
| Schedule.RoundedDayCount | script.js:3333 | `Math.round(span / oneDay) + 1`, or 1 when that is 0: never 0; 1 exactly when the span rounds to 0 or -1 days; otherwise one more than the span rounded to the nearest day, halves upwards; at least 1 on a window that is not reversed |
| Schedule.MachineUptimeMs | script.js:3328-3371 | a machine with its schedule disabled adds nothing; one without a schedule adds 10 hours per rounded day; a scheduled one adds what its day walk adds; not negative on a window that is not reversed |
| Schedule.UnscheduledMachinesUptime | script.js:3333-3337 | enabled machines without a schedule are each charged 10 hours per rounded day |
| Schedule.ScheduledUptimeMs | script.js:3324-3374 | the loops over machines and days, with the rounded day count for a machine without a schedule, compute the sum of what each machine contributes |
| Schedule.WalkedDayCountIsDaysWalked | script.js:3333 | the corrected day count equals the number of days the walk visits |
| Schedule.WholeDaysWindow | script.js:3333 | a window of n whole days counts n days |
| Schedule.RoundedDayCountOvercounts | script.js:3333 | the count as written gives n + 1 on a window of n whole days, where the walk visits n; a machine without a schedule gets 20 hours on a one-day window, where the intended contribution is 10 |
| Schedule.IntendedMachineUptimeMs | script.js:3333-3337 | the intended contribution, charging 10 hours per day of the window: not negative, nothing for a disabled schedule |
| Schedule.IntendedUptimeIsDaysWalked | script.js:3333-3337 | the intended contribution of a machine without a schedule is 10 hours for each day the walk visits |
| Schedule.RoundedExceedsIntended | script.js:3333-3337 | on a window of n whole days the contribution as written is 10 hours above the intended one |
| Schedule.WalkWithinWindow | script.js:3340-3371 | with hours inside a day, a machine is scheduled no more than the days walked |
| Schedule.UptimeAppend | script.js:3327-3373 | uptime splits over concatenation of the machines |
| Schedule.DisabledMachinesAddNothing | script.js:3329-3331 | machines with schedule disabled add nothing |
| Schedule.WeekdayHoursExample | script.js:3345-3367 | 08:00-17:00 on weekdays gives 9 hours on a Monday |
| Kpi.Filter | script.js:3441 | `filter` keeps exactly the matching orders |
| Kpi.FilterAppend | script.js:3441 | filtering splits over concatenation, so the kept orders stay in order |
| Kpi.FilterOne | script.js:3441 | one order is kept exactly when it matches, so every matching record counts once per occurrence |
| Kpi.PeriodOrders | script.js:3311-3315 | the orders of the period are dated |
| Kpi.FailureTimes | script.js:3444 | one failure time per corrective |
| Kpi.Insert | script.js:3444 | insertion keeps order and places the new time between the ends |
| Kpi.SortTimes | script.js:3444 | the sorted failure times are ascending and as many |
| Kpi.InsertPermutes | script.js:3444 | insertion adds exactly the new time |
| Kpi.SortPermutes | script.js:3444 | the sort is a permutation of the failure times |
| Kpi.MinMaxBounds | script.js:3447-3448 | the earliest and latest times are in the list and bound it |
| Kpi.SortedEnds | script.js:3447-3448 | the first and last sorted times are the earliest and the latest |
| Kpi.DaysPerGap | script.js:3452-3453 | a positive span gives a positive per-gap mean |
| Kpi.Mtbf | script.js:3444-3455 | N/A with at most one failure; a value is positive |
| Kpi.MtbfIsSpanOverGaps | script.js:3444-3455 | MTBF is a value exactly when there are two failures at different times; then it is (latest - earliest) / (failures - 1) in days, and positive |
| Kpi.Mttr | script.js:3458-3464 | MTTR is N/A exactly when there is no repair |
| Kpi.SumWorkedBounds | script.js:3461 | the summed repair time lies between count times the shortest and count times the longest |
| Kpi.MttrBetweenShortestAndLongest | script.js:3458-3464 | MTTR in hours lies between the shortest and the longest repair |
| Kpi.FindMachine | script.js:3468 | the selected machine, if one has that id |
| Kpi.MachinesInScope | script.js:3468 | a selected machine yields at most one machine with that id |
| Kpi.Availability | script.js:3474-3489 | N/A exactly when no machine or no scheduled time; otherwise in [0, 100] for non-negative downtime, 100 with no downtime, 0 when downtime reaches the scheduled time |
| Kpi.AvailabilityExample | script.js:3474-3485 | 9 scheduled hours and 2 hours of repair give 700/9 percent |
| Kpi.CountPreventive | script.js:3495 | the preventive count is at most the number of orders |
| Kpi.PreventiveRatio | script.js:3492-3497 | N/A exactly without completed orders, otherwise a percentage in [0, 100] |
| Kpi.AverageCost | script.js:3500-3504 | N/A exactly without completed orders, otherwise the mean total cost |
| Kpi.DashboardKpis | script.js:3436-3506 | MTBF is a value exactly when the correctives give two failures at different times, and then positive; MTTR, preventive ratio and average cost are N/A exactly when their order sets are empty; availability is N/A exactly without machines or scheduled time, otherwise in [0, 100] for non-negative repair time |
| Kpi.PeriodOrdersAreDated | script.js:3311-3315 | all period orders have a failure time |
| Kpi.DatedAreTimed | script.js:3447 | a dated order has a failure time |
| Kpi.DistinctDates | script.js:2954-2974 | each date of the orders once, none already processed |
| Kpi.ReportDayIsDashboardAvailability | script.js:2960-2972 | the report's per-day figure (clamped after the division) equals the dashboard formula over that day's window |
| Kpi.DatedRepairs | script.js:2955 | the machine's dated completed correctives |
| Kpi.ReportDayAvailability | script.js:2961-2975 | N/A exactly when the day's scheduled uptime is not positive; otherwise not negative, and 100 for a day without repair time |
| Kpi.ReportAvailability | script.js:2953-2976 | one row per distinct repair date; each row N/A exactly when that day's scheduled uptime is not positive, otherwise not negative |
| Kpi.ReportRowIsDashboardAvailability | script.js:2953-2975 | each report row is the dashboard availability of that day's repairs over that day |
| Kpi.ReportRowDates | script.js:2953-2975 | one row per date of a repair, no date twice |
| Kpi.CompletedCorrectivesAreRepairs | script.js:2829 | completed correctives filtered in two steps are the repairs |
| Kpi.ReportKpis | script.js:2813-2834 | the report's MTTR is the dashboard MTTR of the machine's repairs, N/A exactly without repairs |
| Workshop.FindRequest | script.js:2342 | the first request with the key, or no request has it |
| Workshop.Promote | script.js:2341-2349 | a pending linked request becomes approved and records the order; no other request changes and no id changes |
| Workshop.PromoteLinked | script.js:2340-2349 | no source request changes nothing; the requests and their ids are kept; a request that is not pending is left as it is |
| Workshop.PromoteOnce | script.js:2343 | a request is approved once: a later linked save changes nothing |
| Workshop.FindRequestSameKeys | script.js:2342 | the lookup depends only on the keys |
| Workshop.SubmitSpec | script.js:1605-1636 | a request needs a machine and a description, otherwise nothing is stored; a stored one is appended pending with the count-based id |
| Workshop.SubmitKeepsValid | script.js:1609-1628 | a submitted request's id is new and the workshop invariant holds |
| Workshop.SaveConsumption | script.js:2315-2317 | a save consumes nothing unless it is a first completion |
| Workshop.SaveSpec | script.js:2178-2359 | refused exactly when validation fails, then nothing changes; a shortfall leaves orders and requests; success stores SavedOrder of the stored order and the form under its id and approves the linked request (PromoteLinked) |
| Workshop.SaveApprovesLinkedRequest | script.js:2340-2349 | a successful save from a pending request approves that request with the order id and leaves every other request |
| Workshop.SaveKeepsValid | script.js:2178-2359 | a save keeps stock non-negative, orders under their ids and request ids sequential |
| Workshop.PromoteLinkedKeepsIds | script.js:2340-2349 | approval keeps the request ids |
| Workshop.SaveConsumesOnFirstCompletion | script.js:2315-2335 | a successful first completion takes exactly the positive listed quantities from stock; any other save leaves stock |
| Workshop.SaveShortfallKeepsEarlierWrites | script.js:2327-2335 | a refused write leaves the stock of the writes before it, reporting the part short |
| Workshop.ActionConsumption | script.js:2412 | a quick action consumes only when completing an order not yet completed |
| Workshop.ActionSpec | script.js:2366-2441 | unknown order or empty id does nothing; a start without a lead does nothing; shortfall leaves orders; success stores exactly the order QuickAction gives, so its start, end time and frame promises hold for the stored order |
| Workshop.ActionKeepsValid | script.js:2366-2441 | a quick action keeps the workshop invariant |
| Workshop.ActionConsumesOnFirstCompletion | script.js:2411-2428 | a first quick completion takes every listed quantity from stock; other actions leave it |
| Workshop.OfferedActionKeepsIntervals | script.js:2385-2409 | an offered button leaves the stored order with a consistent timeline |
| Workshop.PartsSpec | script.js:2041-2107 | unknown order does nothing; a shortfall leaves orders; success stores the new parts list and nothing else of the order |
| Workshop.PartsKeepsValid | script.js:2041-2107 | a parts edit keeps the workshop invariant |
| Workshop.PartsEditConservesStock | script.js:2054-2096 | a completed edit keeps stock plus quantity on the order for every part |
| Workshop.Workshop.SaveWorkOrder | script.js:2178-2359 | the method changes the state and reports exactly as SaveSpec |
| Workshop.Workshop.HandleWorkOrderAction | script.js:2366-2441 | the method changes the state and reports exactly as ActionSpec |
| Workshop.Workshop.SaveManagedParts | script.js:2041-2107 | the method changes the state and reports exactly as PartsSpec |
| Workshop.Workshop.SubmitRequest | script.js:1605-1636 | the method changes the requests exactly as SubmitSpec |

## Left out

- The document store, asynchronous calls, concurrency and the DOM are not modelled. Reads of form fields become parameters; the clock (`new Date()`) is the parameter `now`, and the current year a parameter of `NextWorkOrderId`.
- Role and permission checks are not modelled: the Técnico restriction on quick actions (script.js:2373-2376) and the Jefe de Area filter on machines and orders (script.js:3306-3309, 3469-3472).
- Time zones and daylight saving are not modelled: dates are UTC day numbers, and the day walk steps by a fixed 24 hours.
- Text parsing and formats are not modelled: `toFixed`, locale formatting, ISO strings, and the `NaN` that `parseInt` gives for a malformed quantity in the parts editor.
- Workshop.Workshop.HandleWorkOrderAction: the source closes the last interval by writing into the interval object it shares with the cached order (a shallow copy); the model builds a new list and does not model that aliasing of the cache.
- Workshop.SaveSpec: the `updates` argument of saveWorkOrder is modelled only as an optional status that overrides the form's status; validation uses the form's status, as the source does.
- An existing order without a `workIntervals` field is treated as one with an empty list; the source would fail on a completion without end time in that case.
- Kpi.ReportKpis: orders that have neither `createdAt` nor `date` are excluded by its precondition, since the source then compares invalid dates; Kpi.ReportAvailability likewise takes only dated repairs.
- Kpi.ReportKpis: the report sums repair times in sorted order; the sum does not depend on the order, so the same Mttr is used.
- Request ids are counted from the stored requests; a request deleted outside the application or two concurrent submits would repeat an id, which the sequential invariant of `Workshop.Valid` does not cover.
- A part is "absent" when it is missing from the stock map; the source's separate lookups in the cached catalogue and in the store are collapsed into that one test.
- The KPIs follow the code: `Schedule.UptimeMs` and everything built on it (`Kpi.Availability`, `Kpi.DashboardKpis`, the report rows) use the rounded day count as written. The intended count is `Schedule.IntendedMachineUptimeMs`, which no KPI uses.
- `updateStats`, the charts, the PDF export and all other rendering are not part of this model.

## Findings

| source | as written | input that shows it | evidently intended | confidence | as-written member | corrected member |
|---|---|---|---|---|---|---|
| script.js:3333 | the day count of a machine without a schedule is `Math.round(span / oneDay) + 1` | a one-day window from 00:00:00 to 23:59:59 (as the machine report and the dashboard periods use) counts 2 days, so 20 hours instead of 10 | the number of days in the window, the days the day walk visits | not executed | Schedule.RoundedDayCountOvercounts | Schedule.IntendedUptimeIsDaysWalked |
