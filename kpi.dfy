/** The maintenance indicators: mean time between failures, mean time to
    repair, availability, the preventive ratio and the average cost, each
    `'N/A'` when there is too little data (script.js, updateKpis; the same
    formulas in generateMachineReport). */
module Kpi {
  import opened Common
  import opened WorkTime
  import opened WorkOrders
  import opened Schedule
  import opened Cost

  /** An indicator: a value, or the `'N/A'` sentinel. */
  datatype Metric = NA | Value(v: real)

  /** The machine selector: every machine, or one machine id. */
  datatype Scope = AllMachines | OneMachine(id: string)

  /** The selections the indicators make among orders. */
  datatype Criterion =
    | OfMachine(machineId: string)
    | InPeriod(start: int, end: int)
    | IsCorrective
    | IsRepair
    | IsCompleted
    | IsDatedRepair
    | OnDate(day: int)

  predicate Matches(c: Criterion, o: WorkOrder) {
    match c
    case OfMachine(id) => o.machineId == id
    case InPeriod(start, end) => o.date.Some? && start <= o.date.value * MsPerDay + 12 * MsPerHour <= end
    case IsCorrective => o.orderType == Correctivo
    case IsRepair => o.orderType == Correctivo && o.status == Completado
    case IsCompleted => o.status == Completado
    case IsDatedRepair => o.orderType == Correctivo && o.status == Completado && o.date.Some?
    case OnDate(day) => o.date == Some(day)
  }

  /** `orders.filter(...)`: the orders that match, in order. */
  function Filter(orders: seq<WorkOrder>, c: Criterion): (r: seq<WorkOrder>)
    ensures |r| <= |orders|
    ensures forall o :: o in r <==> o in orders && Matches(c, o)
  {
    if orders == [] then []
    else if Matches(c, orders[0]) then [orders[0]] + Filter(orders[1..], c)
    else Filter(orders[1..], c)
  }

  /** Filtering splits over concatenation ... */
  lemma {:induction false} FilterAppend(a: seq<WorkOrder>, b: seq<WorkOrder>, c: Criterion)
    ensures Filter(a + b, c) == Filter(a, c) + Filter(b, c)
  {
    if a != [] {
      assert (a + b)[0] == a[0] && (a + b)[1..] == a[1..] + b;
      FilterAppend(a[1..], b, c);
    } else {
      assert a + b == b;
    }
  }

  /** ... and keeps one order exactly when it matches, so the filtered list
      keeps the order and the multiplicity of the matching orders. */
  lemma FilterOne(o: WorkOrder, c: Criterion)
    ensures Filter([o], c) == if Matches(c, o) then [o] else []
  {
    assert [o][1..] == [] && Filter([], c) == [];
    assert Filter([o], c) == if Matches(c, o) then [o] + Filter([o][1..], c) else Filter([o][1..], c);
  }

  /** The orders the machine selector keeps. */
  function OrdersInScope(orders: seq<WorkOrder>, scope: Scope): seq<WorkOrder> {
    match scope
    case AllMachines => orders
    case OneMachine(id) => Filter(orders, OfMachine(id))
  }

  /** The dashboard's period filter: dated orders whose date, at noon UTC,
      lies in the window. */
  function PeriodOrders(orders: seq<WorkOrder>, start: int, end: int): (r: seq<WorkOrder>)
    ensures forall o :: o in r ==> o.date.Some?
  {
    Filter(orders, InPeriod(start, end))
  }

  function Correctives(orders: seq<WorkOrder>): seq<WorkOrder> {
    Filter(orders, IsCorrective)
  }

  /** Completed corrective orders: the repairs. */
  function Repairs(orders: seq<WorkOrder>): seq<WorkOrder> {
    Filter(orders, IsRepair)
  }

  function Completed(orders: seq<WorkOrder>): seq<WorkOrder> {
    Filter(orders, IsCompleted)
  }

  // ---- Arithmetic ----

  /** A share of a positive whole, in percent, lies in [0, 100]. */
  lemma Percent(a: int, b: int)
    requires 0 <= a <= b && 0 < b
    ensures 0.0 <= a as real / b as real * 100.0 <= 100.0
    ensures a == b ==> a as real / b as real * 100.0 == 100.0
    ensures a == 0 ==> a as real / b as real * 100.0 == 0.0
  {
    var q := a as real / b as real;
    assert q * b as real == a as real;
  }

  lemma PercentNonNegative(a: int, b: int)
    requires 0 <= a && 0 < b
    ensures 0.0 <= a as real / b as real * 100.0
  {
    var q := a as real / b as real;
    assert q * b as real == a as real;
  }

  /** A mean lies between the bounds of what it averages. */
  lemma MeanBounds(total: real, n: real, lo: real, hi: real)
    requires n > 0.0 && n * lo <= total <= n * hi
    ensures lo <= total / n <= hi
  {
    var q := total / n;
    assert q * n == total;
  }

  lemma PositiveQuotient(a: real, b: real)
    requires a > 0.0 && b > 0.0
    ensures a / b > 0.0
  {
    var q := a / b;
    assert q * b == a;
  }

  /** Dividing by a positive constant keeps the order. */
  lemma DivideKeepsOrder(x: real, y: real, c: real)
    requires x <= y && c > 0.0
    ensures x / c <= y / c
  {
    assert (x / c) * c == x && (y / c) * c == y;
  }

  // ---- MTBF ----

  /** When a failure happened: `createdAt`, falling back to the date at
      midnight UTC. */
  function FailureTime(o: WorkOrder): Option<int> {
    if o.createdAt.Some? then o.createdAt
    else if o.date.Some? then Some(o.date.value * MsPerDay)
    else None
  }

  predicate Timed(orders: seq<WorkOrder>) {
    forall i :: 0 <= i < |orders| ==> FailureTime(orders[i]).Some?
  }

  function FailureTimes(orders: seq<WorkOrder>): (ts: seq<int>)
    requires Timed(orders)
    ensures |ts| == |orders|
  {
    if orders == [] then [] else [FailureTime(orders[0]).value] + FailureTimes(orders[1..])
  }

  /** Ascending order. */
  predicate Sorted(s: seq<int>) {
    forall i, j :: 0 <= i < j < |s| ==> s[i] <= s[j]
  }

  /** Insertion into an ascending list; its first and last elements are the
      smaller and the larger of the old ends and `x`. */
  function Insert(x: int, s: seq<int>): (r: seq<int>)
    requires Sorted(s)
    ensures |r| == |s| + 1
    ensures r[0] == if s != [] && s[0] < x then s[0] else x
    ensures r[|r| - 1] == if s != [] && s[|s| - 1] > x then s[|s| - 1] else x
    ensures Sorted(r)
  {
    if s == [] then [x]
    else if x <= s[0] then [x] + s
    else
      var rest := Insert(x, s[1..]);
      var r := [s[0]] + rest;
      assert forall j :: 0 < j < |r| ==> r[j] == rest[j - 1];
      r
  }

  /** The sort keeps the times: insertion adds exactly `x`... */
  lemma {:induction false} InsertPermutes(x: int, s: seq<int>)
    requires Sorted(s)
    ensures multiset(Insert(x, s)) == multiset(s) + multiset{x}
  {
    if s != [] && x > s[0] {
      InsertPermutes(x, s[1..]);
      assert s == [s[0]] + s[1..];
    }
  }

  /** The ascending sort of the failure times (`sort((a, b) => a - b)`). */
  function SortTimes(s: seq<int>): (r: seq<int>)
    ensures Sorted(r) && |r| == |s|
  {
    if s == [] then [] else Insert(s[0], SortTimes(s[1..]))
  }

  /** ... so the sort is a permutation. */
  lemma {:induction false} SortPermutes(s: seq<int>)
    ensures multiset(SortTimes(s)) == multiset(s)
  {
    if s != [] {
      SortPermutes(s[1..]);
      InsertStep(s[0], s[1..], SortTimes(s[1..]));
      assert [s[0]] + s[1..] == s;
    }
  }

  lemma InsertStep(x: int, rest: seq<int>, sortedRest: seq<int>)
    requires Sorted(sortedRest) && multiset(sortedRest) == multiset(rest)
    ensures multiset(Insert(x, sortedRest)) == multiset([x] + rest)
  {
    InsertPermutes(x, sortedRest);
  }

  /** The earliest and the latest of a non-empty list of times. */
  function Min(s: seq<int>): (m: int)
    requires |s| > 0
  {
    if |s| == 1 then s[0] else var m := Min(s[1..]); if s[0] <= m then s[0] else m
  }

  function Max(s: seq<int>): (m: int)
    requires |s| > 0
  {
    if |s| == 1 then s[0] else var m := Max(s[1..]); if s[0] >= m then s[0] else m
  }

  /** Min and Max are the least and the greatest of the times. */
  lemma {:induction false} MinMaxBounds(s: seq<int>)
    requires |s| > 0
    ensures Min(s) in s && Max(s) in s
    ensures forall i :: 0 <= i < |s| ==> Min(s) <= s[i] <= Max(s)
  {
    if |s| > 1 {
      MinMaxBounds(s[1..]);
      assert forall i :: 1 <= i < |s| ==> s[i] == s[1..][i - 1];
    }
  }

  lemma InsertEnds(x: int, t: seq<int>, lo: int, hi: int)
    requires Sorted(t) && |t| > 0 && t[0] == lo && t[|t| - 1] == hi
    ensures Insert(x, t)[0] == (if x <= lo then x else lo)
    ensures Insert(x, t)[|t|] == (if x >= hi then x else hi)
  {
  }

  /** The ends of the sorted list are the earliest and the latest time. */
  lemma {:induction false} SortedEnds(s: seq<int>)
    requires |s| > 0
    ensures SortTimes(s)[0] == Min(s) && SortTimes(s)[|s| - 1] == Max(s)
  {
    if |s| > 1 {
      var t := SortTimes(s[1..]);
      SortedEnds(s[1..]);
      InsertEnds(s[0], t, Min(s[1..]), Max(s[1..]));
      assert SortTimes(s) == Insert(s[0], t);
    }
  }

  /** A span shared over a number of gaps, in days. */
  function DaysPerGap(span: int, gaps: int): (r: real)
    requires gaps > 0
    ensures span > 0 ==> r > 0.0
  {
    PositiveQuotientWhenPositive(span as real, gaps as real);
    span as real / gaps as real / MsPerDay as real
  }

  lemma PositiveQuotientWhenPositive(a: real, b: real)
    requires b > 0.0
    ensures a > 0.0 ==> a / b / MsPerDay as real > 0.0
  {
    if a > 0.0 {
      PositiveQuotient(a, b);
      PositiveQuotient(a / b, MsPerDay as real);
    }
  }

  /** MTBF of an ascending list of failure times. */
  function MtbfOfSorted(sorted: seq<int>): Metric {
    if |sorted| > 1 && sorted[|sorted| - 1] - sorted[0] > 0 then
      Value(DaysPerGap(sorted[|sorted| - 1] - sorted[0], |sorted| - 1))
    else NA
  }

  /** Mean time between failures in days: the span from the first to the
      last sorted failure over the gaps between them, when positive. */
  function Mtbf(times: seq<int>): (r: Metric)
    ensures |times| <= 1 ==> r.NA?
    ensures r.Value? ==> r.v > 0.0
  {
    MtbfOfSorted(SortTimes(times))
  }

  lemma MtbfOfSortedByEnds(sorted: seq<int>, times: seq<int>)
    requires |sorted| == |times| > 1 && sorted[0] == Min(times) && sorted[|sorted| - 1] == Max(times)
    ensures MtbfOfSorted(sorted) == if Max(times) > Min(times) then Value(DaysPerGap(Max(times) - Min(times), |times| - 1)) else NA
  {
  }

  lemma MtbfBySortedEnds(times: seq<int>)
    requires |times| > 1
    ensures MtbfOfSorted(SortTimes(times)) == if Max(times) > Min(times) then Value(DaysPerGap(Max(times) - Min(times), |times| - 1)) else NA
  {
    SortedEnds(times);
    MtbfOfSortedByEnds(SortTimes(times), times);
  }

  /** MTBF does not depend on the order of the failures: it is N/A unless
      there are two failures at different times, and otherwise the span
      between the earliest and the latest over the number of gaps, in days,
      which is positive. */
  lemma MtbfIsSpanOverGaps(times: seq<int>)
    ensures Mtbf(times).Value? <==> |times| > 1 && Max(times) > Min(times)
    ensures Mtbf(times).Value? ==> Mtbf(times).v == DaysPerGap(Max(times) - Min(times), |times| - 1)
    ensures Mtbf(times).Value? ==> Mtbf(times).v > 0.0
  {
    if |times| > 1 {
      MtbfBySortedEnds(times);
    } else {
      assert |SortTimes(times)| <= 1;
    }
  }

  // ---- MTTR ----

  /** Total worked time of a list of orders. */
  function SumWorked(orders: seq<WorkOrder>): int {
    if orders == [] then 0 else WorkedMs(orders[0].workIntervals) + SumWorked(orders[1..])
  }

  /** Mean time to repair in hours. */
  function Mttr(repairs: seq<WorkOrder>): (r: Metric)
    ensures r.NA? <==> repairs == []
  {
    if |repairs| > 0 then Value(SumWorked(repairs) as real / |repairs| as real / MsPerHour as real) else NA
  }

  lemma {:induction false} SumWorkedBounds(orders: seq<WorkOrder>, lo: int, hi: int)
    requires forall i :: 0 <= i < |orders| ==> lo <= WorkedMs(orders[i].workIntervals) <= hi
    ensures |orders| * lo <= SumWorked(orders) <= |orders| * hi
  {
    if orders != [] {
      SumWorkedBounds(orders[1..], lo, hi);
    }
  }

  /** A mean in hours lies between the bounds, in hours, of what it averages. */
  lemma MeanHoursBetween(total: real, n: real, lo: real, hi: real)
    requires n > 0.0 && n * lo <= total <= n * hi
    ensures lo / MsPerHour as real <= total / n / MsPerHour as real <= hi / MsPerHour as real
  {
    MeanBounds(total, n, lo, hi);
    DivideKeepsOrder(lo, total / n, MsPerHour as real);
    DivideKeepsOrder(total / n, hi, MsPerHour as real);
  }

  lemma ScaledBoundsAsReal(n: int, lo: int, total: int, hi: int)
    requires n * lo <= total <= n * hi
    ensures n as real * lo as real <= total as real <= n as real * hi as real
  {
  }

  /** MTTR lies between the shortest and the longest repair. */
  lemma MttrBetweenShortestAndLongest(repairs: seq<WorkOrder>, lo: int, hi: int)
    requires repairs != []
    requires forall i :: 0 <= i < |repairs| ==> lo <= WorkedMs(repairs[i].workIntervals) <= hi
    ensures lo as real / MsPerHour as real <= Mttr(repairs).v <= hi as real / MsPerHour as real
  {
    SumWorkedBounds(repairs, lo, hi);
    MeanOfScaledBounds(|repairs|, SumWorked(repairs), lo, hi);
  }

  lemma MeanOfScaledBounds(n: int, total: int, lo: int, hi: int)
    requires n > 0 && n * lo <= total <= n * hi
    ensures lo as real / MsPerHour as real <= total as real / n as real / MsPerHour as real <= hi as real / MsPerHour as real
  {
    ScaledBoundsAsReal(n, lo, total, hi);
    MeanHoursBetween(total as real, n as real, lo as real, hi as real);
  }

  // ---- Availability ----

  /** The machines the selector keeps: all of them, or the first with that id. */
  function MachinesInScope(machines: seq<Machine>, scope: Scope): (r: seq<Machine>)
    ensures scope.OneMachine? ==> |r| <= 1 && forall i :: 0 <= i < |r| ==> r[i].id == scope.id
  {
    match scope
    case AllMachines => machines
    case OneMachine(id) => FindMachine(machines, id)
  }

  function FindMachine(machines: seq<Machine>, id: string): (r: seq<Machine>)
    ensures |r| <= 1 && forall i :: 0 <= i < |r| ==> r[i].id == id
    ensures r == [] <==> forall i :: 0 <= i < |machines| ==> machines[i].id != id
  {
    if machines == [] then [] else if machines[0].id == id then [machines[0]] else FindMachine(machines[1..], id)
  }

  /** Availability in percent: the scheduled time left after the repairs'
      downtime (never below zero), over the scheduled time. */
  function Availability(machines: seq<Machine>, start: int, end: int, repairs: seq<WorkOrder>): (r: Metric)
    ensures r.NA? <==> machines == [] || UptimeMs(machines, start, end) <= 0
    ensures r.Value? ==> 0.0 <= r.v
    ensures r.Value? && SumWorked(repairs) >= 0 ==> r.v <= 100.0
    ensures r.Value? && SumWorked(repairs) == 0 ==> r.v == 100.0
    ensures r.Value? && SumWorked(repairs) >= UptimeMs(machines, start, end) ==> r.v == 0.0
  {
    if |machines| > 0 then
      var up := UptimeMs(machines, start, end);
      if up > 0 then
        var down := SumWorked(repairs);
        var left := if up - down > 0 then up - down else 0;
        var pct := left as real / up as real * 100.0;
        assert left <= up ==> 0.0 <= pct <= 100.0 && (left == up ==> pct == 100.0) && (left == 0 ==> pct == 0.0) by {
          if left <= up {
            Percent(left, up);
          }
        }
        assert 0.0 <= pct by {
          PercentNonNegative(left, up);
        }
        Value(pct)
      else NA
    else NA
  }

  // ---- Preventive ratio and average cost ----

  function CountPreventive(orders: seq<WorkOrder>): (n: nat)
    ensures n <= |orders|
  {
    if orders == [] then 0 else (if orders[0].orderType == Preventivo then 1 else 0) + CountPreventive(orders[1..])
  }

  /** The share of completed orders that were preventive, in percent. */
  function PreventiveRatio(completed: seq<WorkOrder>): (r: Metric)
    ensures r.NA? <==> completed == []
    ensures r.Value? ==> 0.0 <= r.v <= 100.0
  {
    if |completed| > 0 then
      Percent(CountPreventive(completed), |completed|);
      Value(CountPreventive(completed) as real / |completed| as real * 100.0)
    else NA
  }

  /** The mean total cost of the completed orders. */
  function AverageCost(catalog: seq<Part>, staff: seq<Technician>, completed: seq<WorkOrder>): (r: Metric)
    ensures r.NA? <==> completed == []
    ensures r.Value? ==> r.v * |completed| as real == SumTotals(catalog, staff, completed)
  {
    if |completed| > 0 then
      BatchCostIsComponentwiseSum(catalog, staff, completed);
      Value(BatchCost(catalog, staff, completed).totalCost / |completed| as real)
    else NA
  }

  // ---- The dashboard ----

  datatype Kpis = Kpis(mtbf: Metric, mttr: Metric, availability: Metric, preventiveRatio: Metric, averageCost: Metric)

  /** The indicators of updateKpis for the orders of the period. */
  function DashboardKpis(ordersInPeriod: seq<WorkOrder>, machines: seq<Machine>, scope: Scope, start: int, end: int,
                         catalog: seq<Part>, staff: seq<Technician>): (k: Kpis)
    requires forall o :: o in ordersInPeriod ==> o.date.Some?
    ensures k.mttr.NA? <==> Repairs(OrdersInScope(ordersInPeriod, scope)) == []
    ensures k.preventiveRatio.NA? <==> Completed(OrdersInScope(ordersInPeriod, scope)) == []
    ensures k.averageCost.NA? <==> Completed(OrdersInScope(ordersInPeriod, scope)) == []
    ensures k.availability.Value? ==> 0.0 <= k.availability.v
    ensures k.availability.Value? && SumWorked(Repairs(OrdersInScope(ordersInPeriod, scope))) >= 0 ==> k.availability.v <= 100.0
    ensures k.availability.NA? <==> MachinesInScope(machines, scope) == [] || UptimeMs(MachinesInScope(machines, scope), start, end) <= 0
    ensures var times := FailureTimes(Correctives(OrdersInScope(ordersInPeriod, scope)));
            k.mtbf.Value? <==> |times| > 1 && Max(times) > Min(times)
    ensures k.mtbf.Value? ==> k.mtbf.v > 0.0
  {
    var periodOrders := OrdersInScope(ordersInPeriod, scope);
    var correctives := Correctives(periodOrders);
    DatedAreTimed(correctives);
    var repairs := Repairs(periodOrders);
    var completed := Completed(periodOrders);
    MtbfIsSpanOverGaps(FailureTimes(correctives));
    Kpis(Mtbf(FailureTimes(correctives)), Mttr(repairs),
         Availability(MachinesInScope(machines, scope), start, end, repairs),
         PreventiveRatio(completed), AverageCost(catalog, staff, completed))
  }

  lemma DatedAreTimed(orders: seq<WorkOrder>)
    requires forall o :: o in orders ==> o.date.Some?
    ensures Timed(orders)
  {
    assert forall i :: 0 <= i < |orders| ==> orders[i] in orders;
  }

  /** The dashboard feeds the indicators the orders of the period. */
  lemma PeriodOrdersAreDated(orders: seq<WorkOrder>, start: int, end: int)
    ensures Timed(PeriodOrders(orders, start, end))
  {
    DatedAreTimed(PeriodOrders(orders, start, end));
  }

  /** Example: 9 scheduled hours and 2 hours of repairs give 700/9 percent
      (about 77.78). */
  lemma AvailabilityExample()
    ensures var s := MachineSchedule(Some(WeekdayGroup(["1", "2", "3", "4", "5"], Some(8 * 60), Some(17 * 60))),
                                     Some(DayGroup(false, None, None)), Some(DayGroup(false, None, None)));
            var repair := WorkOrder("MA-25-0001", "M1", "", Completado, Correctivo, Some(4), None, None, "", "ana", [],
                                    ["ana"], [], Some("Eléctrica"), None, [Interval(0, Some(2 * MsPerHour))], None, None);
            Availability([Machine("M1", false, Some(s))], 4 * MsPerDay, 5 * MsPerDay - 1000, [repair]) == Value(700.0 / 9.0)
  {
    var s := MachineSchedule(Some(WeekdayGroup(["1", "2", "3", "4", "5"], Some(8 * 60), Some(17 * 60))),
                             Some(DayGroup(false, None, None)), Some(DayGroup(false, None, None)));
    var repair := WorkOrder("MA-25-0001", "M1", "", Completado, Correctivo, Some(4), None, None, "", "ana", [],
                            ["ana"], [], Some("Eléctrica"), None, [Interval(0, Some(2 * MsPerHour))], None, None);
    WeekdayHoursExample();
    assert [Interval(0, Some(2 * MsPerHour))][..0] == [];
    assert WorkedMs(repair.workIntervals) == 2 * MsPerHour;
    assert [repair][1..] == [];
    assert SumWorked([repair]) == 2 * MsPerHour;
  }

  // ---- The machine report ----

  /** The window of one day, from midnight to 23:59:59 UTC. */
  function DayStart(day: int): int {
    day * MsPerDay
  }

  function DayEnd(day: int): int {
    day * MsPerDay + MsPerDay - 1000
  }

  /** The distinct dates of a list of orders, in order of first appearance. */
  function DistinctDates(orders: seq<WorkOrder>, seen: set<int>): (r: seq<int>)
    requires forall o :: o in orders ==> o.date.Some?
    ensures forall d :: d in r <==> d !in seen && exists o :: o in orders && o.date == Some(d)
    ensures forall i, j :: 0 <= i < j < |r| ==> r[i] != r[j]
    decreases |orders|
  {
    if orders == [] then []
    else
      var d := orders[0].date.value;
      assert forall o :: o in orders <==> o == orders[0] || o in orders[1..];
      if d in seen then DistinctDates(orders[1..], seen)
      else [d] + DistinctDates(orders[1..], seen + {d})
  }

  /** As the report writes it: the percentage of the day's scheduled time
      left after that day's repairs, clamped at zero after the division. */
  function ReportDayAvailability(m: Machine, dayRepairs: seq<WorkOrder>, day: int): (r: Metric)
    ensures r.NA? <==> UptimeMs([m], DayStart(day), DayEnd(day)) <= 0
    ensures r.Value? ==> r.v >= 0.0
    ensures r.Value? && SumWorked(dayRepairs) == 0 ==> r.v == 100.0
  {
    var up := UptimeMs([m], DayStart(day), DayEnd(day));
    if up > 0 then
      var a := (up - SumWorked(dayRepairs)) as real / up as real * 100.0;
      FullShare(up, SumWorked(dayRepairs), a);
      Value(if a > 0.0 then a else 0.0)
    else NA
  }

  /** With no downtime the whole scheduled time is left. */
  lemma FullShare(up: int, down: int, a: real)
    requires up > 0 && a == (up - down) as real / up as real * 100.0
    ensures down == 0 ==> a == 100.0
  {
    if down == 0 {
      assert (up - down) as real / up as real == 1.0;
    }
  }

  /** The report's per-day figure is the dashboard's availability over that
      day's window: clamping before or after the division agree. */
  lemma ReportDayIsDashboardAvailability(m: Machine, dayRepairs: seq<WorkOrder>, day: int)
    ensures ReportDayAvailability(m, dayRepairs, day) == Availability([m], DayStart(day), DayEnd(day), dayRepairs)
  {
    var up := UptimeMs([m], DayStart(day), DayEnd(day));
    if up > 0 {
      var down := SumWorked(dayRepairs);
      var a := (up - down) as real / up as real * 100.0;
      if up - down > 0 {
        assert a > 0.0;
      } else {
        assert (up - down) as real / up as real <= 0.0;
      }
    }
  }

  /** The machine's dated completed correctives, which the report groups by day. */
  function DatedRepairs(machineOrders: seq<WorkOrder>): (r: seq<WorkOrder>)
    ensures forall o :: o in r <==> o in machineOrders && o.orderType == Correctivo && o.status == Completado && o.date.Some?
  {
    Filter(machineOrders, IsDatedRepair)
  }

  /** The report's availability table: one row per distinct date of the
      machine's dated completed correctives, each over that day's repairs. */
  function ReportAvailability(m: Machine, machineOrders: seq<WorkOrder>): (rows: seq<(int, Metric)>)
    ensures |rows| == |DistinctDates(DatedRepairs(machineOrders), {})|
    ensures forall i :: 0 <= i < |rows| && rows[i].1.Value? ==> rows[i].1.v >= 0.0
    ensures forall i :: 0 <= i < |rows| ==> (rows[i].1.NA? <==> UptimeMs([m], DayStart(rows[i].0), DayEnd(rows[i].0)) <= 0)
  {
    var repairs := DatedRepairs(machineOrders);
    var days := DistinctDates(repairs, {});
    seq(|days|, i requires 0 <= i < |days| =>
      (days[i], ReportDayAvailability(m, Filter(repairs, OnDate(days[i])), days[i])))
  }

  /** Each row of the report is the dashboard availability over that day's
      window of that day's repairs. */
  lemma ReportRowIsDashboardAvailability(m: Machine, machineOrders: seq<WorkOrder>, i: int)
    requires 0 <= i < |ReportAvailability(m, machineOrders)|
    ensures var row := ReportAvailability(m, machineOrders)[i];
            row.1 == Availability([m], DayStart(row.0), DayEnd(row.0), Filter(DatedRepairs(machineOrders), OnDate(row.0)))
  {
    var days := DistinctDates(DatedRepairs(machineOrders), {});
    ReportDayIsDashboardAvailability(m, Filter(DatedRepairs(machineOrders), OnDate(days[i])), days[i]);
  }

  /** The report has one row for each date of a repair, and no date twice. */
  lemma ReportRowDates(m: Machine, machineOrders: seq<WorkOrder>)
    ensures var rows := ReportAvailability(m, machineOrders);
            forall i, j :: 0 <= i < j < |rows| ==> rows[i].0 != rows[j].0
    ensures var rows := ReportAvailability(m, machineOrders);
            forall d :: (exists i :: 0 <= i < |rows| && rows[i].0 == d) <==>
                        exists o :: o in DatedRepairs(machineOrders) && o.date == Some(d)
  {
    var days := DistinctDates(DatedRepairs(machineOrders), {});
    var rows := ReportAvailability(m, machineOrders);
    assert |rows| == |days| && forall i :: 0 <= i < |rows| ==> rows[i].0 == days[i];
    forall d
      ensures (exists i :: 0 <= i < |rows| && rows[i].0 == d) <==> d in days
    {
      if d in days {
        var i :| 0 <= i < |days| && days[i] == d;
        assert rows[i].0 == d;
      }
    }
  }

  /** A completed corrective is a repair: filtering in two steps or in one agree. */
  lemma {:induction false} CompletedCorrectivesAreRepairs(orders: seq<WorkOrder>)
    ensures Filter(Correctives(orders), IsCompleted) == Repairs(orders)
  {
    if orders != [] {
      CompletedCorrectivesAreRepairs(orders[1..]);
    }
  }

  /** The machine report's MTBF and MTTR: the same formulas over all of the
      machine's orders. */
  function ReportKpis(machineOrders: seq<WorkOrder>): (r: (Metric, Metric))
    requires Timed(Correctives(machineOrders))
    ensures r.1.NA? <==> Repairs(machineOrders) == []
    ensures r.1 == Mttr(Repairs(machineOrders))
  {
    var correctives := Correctives(machineOrders);
    CompletedCorrectivesAreRepairs(machineOrders);
    (Mtbf(FailureTimes(correctives)), Mttr(Filter(correctives, IsCompleted)))
  }
}
