/** The cost of work orders: parts at catalogue cost, labour at the hourly
    rate of each technician on the order, and any additional cost
    (script.js, calculateTotalCost and calculateTotalCostForMultiple). */
module Cost {
  import opened Common
  import opened WorkTime
  import opened StockLedger
  import opened WorkOrders

  /** A catalogue part and its unit cost. */
  datatype Part = Part(id: string, cost: real)

  /** A technician and their monthly salary, absent when never entered. */
  datatype Technician = Technician(username: string, salary: Option<real>)

  /** Hours in the month the monthly salary is spread over. */
  const HoursPerMonth: real := 160.0

  /** The three totals the calculator reports. */
  datatype CostBreakdown = CostBreakdown(partsCost: real, laborCost: real, totalCost: real)

  /** `xs.find(x => key(x) === k)`: the first element whose key is `k`, the
      lookup of a catalogue part by id and of a technician by username. */
  function FindBy<T>(xs: seq<T>, key: T -> string, k: string): (r: Option<T>)
    ensures r.Some? ==> FirstKeyIndex(xs, key, k) < |xs| && r.value == xs[FirstKeyIndex(xs, key, k)] && key(r.value) == k
    ensures r.None? ==> forall i :: 0 <= i < |xs| ==> key(xs[i]) != k
  {
    if xs == [] then None else if key(xs[0]) == k then Some(xs[0]) else FindBy(xs[1..], key, k)
  }

  /** The position of the first element whose key is `k`, `|xs|` if none. */
  function FirstKeyIndex<T>(xs: seq<T>, key: T -> string, k: string): (i: nat)
    ensures i <= |xs|
    ensures forall j :: 0 <= j < i ==> key(xs[j]) != k
    ensures i < |xs| ==> key(xs[i]) == k
  {
    if xs == [] then 0 else if key(xs[0]) == k then 0 else 1 + FirstKeyIndex(xs[1..], key, k)
  }

  function FindPart(catalog: seq<Part>, id: string): Option<Part> {
    FindBy(catalog, (p: Part) => p.id, id)
  }

  function FindTechnician(staff: seq<Technician>, username: string): Option<Technician> {
    FindBy(staff, (t: Technician) => t.username, username)
  }

  /** What one entry of the parts list costs: unit cost times quantity, or
      nothing for a part missing from the catalogue. */
  function PartLineCost(catalog: seq<Part>, u: PartUsage): real {
    match FindPart(catalog, u.partId)
    case Some(p) => p.cost * u.quantity as real
    case None => 0.0
  }

  predicate NonNegativeCosts(catalog: seq<Part>) {
    forall i :: 0 <= i < |catalog| ==> catalog[i].cost >= 0.0
  }

  predicate NonNegativeQuantities(parts: seq<PartUsage>) {
    forall i :: 0 <= i < |parts| ==> parts[i].quantity >= 0
  }

  /** Sum of the line costs of a parts list. */
  function PartsCost(catalog: seq<Part>, parts: seq<PartUsage>): (r: real)
    ensures NonNegativeCosts(catalog) && NonNegativeQuantities(parts) ==> r >= 0.0
  {
    if parts == [] then 0.0 else PartLineCost(catalog, parts[0]) + PartsCost(catalog, parts[1..])
  }

  /** No entered salary is negative. */
  predicate NonNegativeSalaries(staff: seq<Technician>) {
    forall i :: 0 <= i < |staff| && staff[i].salary.Some? ==> staff[i].salary.value >= 0.0
  }

  /** The hourly rate of a technician on the order: salary / 160, or nothing
      for an unknown technician or one with no (or a zero) salary. */
  function HourlyRate(staff: seq<Technician>, username: string): real {
    match FindTechnician(staff, username)
    case Some(t) => if t.salary.Some? && t.salary.value != 0.0 then t.salary.value / HoursPerMonth else 0.0
    case None => 0.0
  }

  /** Reference definition: the sum of the hourly rates of the technicians. */
  function RateSum(staff: seq<Technician>, technicians: seq<string>): real {
    if technicians == [] then 0.0 else HourlyRate(staff, technicians[0]) + RateSum(staff, technicians[1..])
  }

  /** The labour `reduce`: for each technician, hours worked times their rate. */
  function LaborSum(staff: seq<Technician>, technicians: seq<string>, hours: real): real {
    if technicians == [] then 0.0
    else hours * HourlyRate(staff, technicians[0]) + LaborSum(staff, technicians[1..], hours)
  }

  /** Worked hours of an order, from its intervals. */
  function HoursWorked(o: WorkOrder): real {
    WorkedMs(o.workIntervals) as real / MsPerHour as real
  }

  /** Labour cost: nothing unless the order has technicians and positive
      worked hours; then the hours times the sum of the rates. */
  function LaborCost(staff: seq<Technician>, o: WorkOrder): (r: real)
    ensures o.technicians == [] || HoursWorked(o) <= 0.0 ==> r == 0.0
    ensures o.technicians != [] && HoursWorked(o) > 0.0 ==> r == HoursWorked(o) * RateSum(staff, o.technicians)
  {
    var hours := HoursWorked(o);
    if |o.technicians| > 0 && hours > 0.0 then
      LaborIsHoursTimesRates(staff, o.technicians, hours);
      LaborSum(staff, o.technicians, hours)
    else 0.0
  }

  /** The breakdown of one order. */
  function OrderCost(catalog: seq<Part>, staff: seq<Technician>, o: WorkOrder): (c: CostBreakdown)
    ensures c.totalCost == c.partsCost + c.laborCost + o.additionalCost.GetOr(0.0)
    ensures c.partsCost == PartsCost(catalog, o.partsUsed) && c.laborCost == LaborCost(staff, o)
    ensures c.laborCost == if o.technicians == [] || HoursWorked(o) <= 0.0 then 0.0
                           else HoursWorked(o) * RateSum(staff, o.technicians)
    ensures (NonNegativeCosts(catalog) && NonNegativeQuantities(o.partsUsed) && NonNegativeSalaries(staff) &&
             o.additionalCost.GetOr(0.0) >= 0.0) ==> c.totalCost >= 0.0
  {
    var parts := PartsCost(catalog, o.partsUsed);
    var labor := LaborCost(staff, o);
    LaborNonNegative(staff, o);
    CostBreakdown(parts, labor, parts + labor + o.additionalCost.GetOr(0.0))
  }

  /** The breakdown of several orders, summed component by component from
      a zero accumulator. */
  function BatchCost(catalog: seq<Part>, staff: seq<Technician>, orders: seq<WorkOrder>): (r: CostBreakdown)
    ensures r.partsCost == SumParts(catalog, orders) && r.laborCost == SumLabor(staff, orders)
    ensures r.totalCost == SumTotals(catalog, staff, orders)
  {
    BatchFromSums(catalog, staff, orders, CostBreakdown(0.0, 0.0, 0.0));
    BatchFrom(catalog, staff, orders, CostBreakdown(0.0, 0.0, 0.0))
  }

  /** The `reduce` of calculateTotalCostForMultiple, from accumulator `acc`. */
  function BatchFrom(catalog: seq<Part>, staff: seq<Technician>, orders: seq<WorkOrder>, acc: CostBreakdown): CostBreakdown
    decreases |orders|
  {
    if orders == [] then acc
    else
      var c := OrderCost(catalog, staff, orders[0]);
      BatchFrom(catalog, staff, orders[1..],
                CostBreakdown(acc.partsCost + c.partsCost, acc.laborCost + c.laborCost, acc.totalCost + c.totalCost))
  }

  /** Reference sums over a list of orders. */
  function SumParts(catalog: seq<Part>, orders: seq<WorkOrder>): real {
    if orders == [] then 0.0 else PartsCost(catalog, orders[0].partsUsed) + SumParts(catalog, orders[1..])
  }

  function SumLabor(staff: seq<Technician>, orders: seq<WorkOrder>): real {
    if orders == [] then 0.0 else LaborCost(staff, orders[0]) + SumLabor(staff, orders[1..])
  }

  function SumAdditional(orders: seq<WorkOrder>): real {
    if orders == [] then 0.0 else orders[0].additionalCost.GetOr(0.0) + SumAdditional(orders[1..])
  }

  function SumTotals(catalog: seq<Part>, staff: seq<Technician>, orders: seq<WorkOrder>): real {
    if orders == [] then 0.0 else OrderCost(catalog, staff, orders[0]).totalCost + SumTotals(catalog, staff, orders[1..])
  }

  // ---- Properties ----

  /** With no negative salary every hourly rate is non-negative ... */
  lemma HourlyRateNonNegative(staff: seq<Technician>, username: string)
    requires NonNegativeSalaries(staff)
    ensures HourlyRate(staff, username) >= 0.0
  {
    var t := FindTechnician(staff, username);
    if t.Some? {
      var i := FirstKeyIndex(staff, (x: Technician) => x.username, username);
      assert t.value == staff[i];
    }
  }

  /** ... and so is their sum ... */
  lemma {:induction false} RateSumNonNegative(staff: seq<Technician>, technicians: seq<string>)
    requires NonNegativeSalaries(staff)
    ensures RateSum(staff, technicians) >= 0.0
  {
    if technicians != [] {
      HourlyRateNonNegative(staff, technicians[0]);
      RateSumNonNegative(staff, technicians[1..]);
    }
  }

  /** ... and so is the labour cost. */
  lemma LaborNonNegative(staff: seq<Technician>, o: WorkOrder)
    ensures NonNegativeSalaries(staff) ==> LaborCost(staff, o) >= 0.0
  {
    if NonNegativeSalaries(staff) && o.technicians != [] && HoursWorked(o) > 0.0 {
      RateSumNonNegative(staff, o.technicians);
      ProductNonNegative(HoursWorked(o), RateSum(staff, o.technicians));
    }
  }

  lemma ProductNonNegative(x: real, y: real)
    requires x >= 0.0 && y >= 0.0
    ensures x * y >= 0.0
  {
  }

  /** Labour is the hours times the sum of the hourly rates. */
  lemma {:induction false} LaborIsHoursTimesRates(staff: seq<Technician>, technicians: seq<string>, hours: real)
    ensures LaborSum(staff, technicians, hours) == hours * RateSum(staff, technicians)
  {
    if technicians != [] {
      LaborIsHoursTimesRates(staff, technicians[1..], hours);
    }
  }

  lemma {:induction false} BatchFromSums(catalog: seq<Part>, staff: seq<Technician>, orders: seq<WorkOrder>, acc: CostBreakdown)
    ensures BatchFrom(catalog, staff, orders, acc) ==
            CostBreakdown(acc.partsCost + SumParts(catalog, orders), acc.laborCost + SumLabor(staff, orders),
                          acc.totalCost + SumTotals(catalog, staff, orders))
    decreases |orders|
  {
    if orders != [] {
      var c := OrderCost(catalog, staff, orders[0]);
      BatchFromSums(catalog, staff, orders[1..],
                    CostBreakdown(acc.partsCost + c.partsCost, acc.laborCost + c.laborCost, acc.totalCost + c.totalCost));
    }
  }

  lemma {:induction false} SumTotalsSplits(catalog: seq<Part>, staff: seq<Technician>, orders: seq<WorkOrder>)
    ensures SumTotals(catalog, staff, orders) ==
            SumParts(catalog, orders) + SumLabor(staff, orders) + SumAdditional(orders)
  {
    if orders != [] {
      SumTotalsSplits(catalog, staff, orders[1..]);
    }
  }

  /** The batch totals are the component-wise sums of the per-order
      breakdowns, and the batch total is parts plus labour plus the
      additional costs. */
  lemma BatchCostIsComponentwiseSum(catalog: seq<Part>, staff: seq<Technician>, orders: seq<WorkOrder>)
    ensures BatchCost(catalog, staff, orders).partsCost == SumParts(catalog, orders)
    ensures BatchCost(catalog, staff, orders).laborCost == SumLabor(staff, orders)
    ensures BatchCost(catalog, staff, orders).totalCost == SumTotals(catalog, staff, orders)
    ensures BatchCost(catalog, staff, orders).totalCost ==
            BatchCost(catalog, staff, orders).partsCost + BatchCost(catalog, staff, orders).laborCost + SumAdditional(orders)
  {
    BatchFromSums(catalog, staff, orders, CostBreakdown(0.0, 0.0, 0.0));
    SumTotalsSplits(catalog, staff, orders);
  }

  /** Costs of a batch split over concatenation. */
  lemma {:induction false} SumTotalsAppend(catalog: seq<Part>, staff: seq<Technician>, a: seq<WorkOrder>, b: seq<WorkOrder>)
    ensures SumTotals(catalog, staff, a + b) == SumTotals(catalog, staff, a) + SumTotals(catalog, staff, b)
  {
    if a == [] {
      assert a + b == b;
    } else {
      assert (a + b)[1..] == a[1..] + b;
      SumTotalsAppend(catalog, staff, a[1..], b);
    }
  }

  /** Two technicians on salaries 16000 and 24000 (rates 100 and 150), one
      closed interval of 2 hours and three parts at 50: parts 150, labour
      500, total 650. */
  lemma OrderCostExample()
    ensures var o := WorkOrder("MA-25-0001", "M1", "", Completado, Correctivo, None, None, None, "", "ana", ["luis"],
                               ["ana", "luis"], [PartUsage("P1", 3)], Some("Mecánica"), None,
                               [Interval(0, Some(2 * MsPerHour))], None, None);
            OrderCost([Part("P1", 50.0)], [Technician("ana", Some(16000.0)), Technician("luis", Some(24000.0))], o)
              == CostBreakdown(150.0, 500.0, 650.0)
  {
    var o := WorkOrder("MA-25-0001", "M1", "", Completado, Correctivo, None, None, None, "", "ana", ["luis"],
                       ["ana", "luis"], [PartUsage("P1", 3)], Some("Mecánica"), None,
                       [Interval(0, Some(2 * MsPerHour))], None, None);
    var catalog := [Part("P1", 50.0)];
    var staff := [Technician("ana", Some(16000.0)), Technician("luis", Some(24000.0))];
    assert [Interval(0, Some(2 * MsPerHour))][..0] == [];
    assert WorkedMs(o.workIntervals) == 2 * MsPerHour;
    assert HoursWorked(o) == 2.0;
    assert HourlyRate(staff, "ana") == 100.0;
    assert HourlyRate(staff, "luis") == 150.0;
    assert o.technicians[1..] == ["luis"] && ["luis"][1..] == [];
    assert RateSum(staff, o.technicians) == 250.0;
    assert o.partsUsed[1..] == [];
    assert PartsCost(catalog, o.partsUsed) == 150.0;
  }
}
