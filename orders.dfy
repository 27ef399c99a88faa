/** Work orders: the stored record, the checks saveWorkOrder makes before
    any write, the technicians list, and how the two transition paths (the
    full form and the quick actions of the work cards) rebuild the work
    intervals (script.js, saveWorkOrder and handleWorkOrderAction). */
module WorkOrders {
  import opened Common
  import opened WorkTime
  import opened Ids
  import opened StockLedger

  /** A stored work order. `date` is the UTC day number of the start date;
      times are milliseconds; `createdAt` and `additionalCost` are absent
      when the record never received them. */
  datatype WorkOrder = WorkOrder(
    id: string,
    machineId: string,
    description: string,
    status: Status,
    orderType: OrderType,
    date: Option<int>,
    startTime: Option<int>,
    endTime: Option<int>,
    requester: string,
    leadTechnician: string,
    supportTechnicians: seq<string>,
    technicians: seq<string>,
    partsUsed: seq<PartUsage>,
    failureType: Option<string>,
    maintenanceType: Option<string>,
    workIntervals: seq<Interval>,
    createdAt: Option<int>,
    additionalCost: Option<real>)

  /** The values of the work-order form when it is saved. Start and end are
      the date and time fields already combined into timestamps; an empty
      select is the empty string. */
  datatype OrderForm = OrderForm(
    machineId: string,
    description: string,
    status: Status,
    orderType: OrderType,
    startDate: Option<int>,
    startTime: Option<int>,
    endTime: Option<int>,
    requester: string,
    leadTechnician: string,
    supportTechnicians: seq<string>,
    partsUsed: seq<PartUsage>,
    failureTypeField: string,
    maintenanceTypeField: string)

  // ---- Validation ----

  /** The reasons saveWorkOrder refuses a save, in the order it checks them. */
  datatype ValidationError =
    | BadIdFormat
    | DuplicateId
    | EndNotAfterStart
    | MissingFailureType
    | MissingMaintenanceType
    | MissingLeadTechnician

  function Rank(e: ValidationError): nat {
    match e
    case BadIdFormat => 0
    case DuplicateId => 1
    case EndNotAfterStart => 2
    case MissingFailureType => 3
    case MissingMaintenanceType => 4
    case MissingLeadTechnician => 5
  }

  /** Whether the rule that `e` reports is met. */
  predicate RuleHolds(e: ValidationError, orderId: string, isNew: bool, existingIds: set<string>, form: OrderForm) {
    match e
    case BadIdFormat => IsValidOrderId(orderId)
    case DuplicateId => !(isNew && orderId in existingIds)
    case EndNotAfterStart =>
      !(form.startTime.Some? && form.endTime.Some? && form.endTime.value <= form.startTime.value)
    case MissingFailureType => !(form.orderType == Correctivo && form.failureTypeField == "")
    case MissingMaintenanceType => !(form.orderType == Preventivo && form.maintenanceTypeField == "")
    case MissingLeadTechnician => !(form.leadTechnician == "" && form.status != Cancelado)
  }

  /** The checks of saveWorkOrder: a save is accepted exactly when every
      rule holds, and a refused save reports the first rule that fails. */
  function Validate(orderId: string, isNew: bool, existingIds: set<string>, form: OrderForm): (r: Option<ValidationError>)
    ensures r.Some? ==> !RuleHolds(r.value, orderId, isNew, existingIds, form)
    ensures r.Some? ==> forall e :: Rank(e) < Rank(r.value) ==> RuleHolds(e, orderId, isNew, existingIds, form)
    ensures r.None? <==> forall e :: RuleHolds(e, orderId, isNew, existingIds, form)
  {
    if !IsValidOrderId(orderId) then Some(BadIdFormat)
    else if isNew && orderId in existingIds then Some(DuplicateId)
    else if form.startTime.Some? && form.endTime.Some? && form.endTime.value <= form.startTime.value then Some(EndNotAfterStart)
    else if form.orderType == Correctivo && form.failureTypeField == "" then Some(MissingFailureType)
    else if form.orderType == Preventivo && form.maintenanceTypeField == "" then Some(MissingMaintenanceType)
    else if form.leadTechnician == "" && form.status != Cancelado then Some(MissingLeadTechnician)
    else None
  }

  // ---- Technicians ----

  predicate NoDuplicates(s: seq<string>) {
    forall i, j :: 0 <= i < j < |s| ==> s[i] != s[j]
  }

  /** `filter(Boolean)` on strings: the non-empty entries, in order. */
  function NonEmpty(s: seq<string>): (r: seq<string>)
    ensures forall x :: x in r <==> x in s && x != ""
    ensures |s| > 0 && s[0] != "" ==> |r| > 0 && r[0] == s[0]
  {
    if s == [] then []
    else if s[0] == "" then NonEmpty(s[1..])
    else [s[0]] + NonEmpty(s[1..])
  }

  /** The position where `x` first occurs in `s`. */
  function FirstIndex(s: seq<string>, x: string): (i: nat)
    requires x in s
    ensures i < |s| && s[i] == x
    ensures forall j :: 0 <= j < i ==> s[j] != x
  {
    if s[0] == x then 0 else 1 + FirstIndex(s[1..], x)
  }

  /** An entry of the prefix first occurs in the whole sequence where it
      first occurs in the prefix. */
  lemma FirstIndexOfPrefix(s: seq<string>, x: string)
    requires |s| > 0 && x in s[..|s| - 1]
    ensures FirstIndex(s, x) == FirstIndex(s[..|s| - 1], x)
  {
    var k := FirstIndex(s[..|s| - 1], x);
    assert s[k] == x;
  }

  /** `[...new Set(s)]`: each entry once, in the order of the places where
      the entries first occur. */
  function Dedupe(s: seq<string>): (r: seq<string>)
    ensures NoDuplicates(r)
    ensures forall x :: x in r <==> x in s
    ensures |s| > 0 ==> |r| > 0 && r[0] == s[0]
    ensures forall i, j :: 0 <= i < j < |r| ==> FirstIndex(s, r[i]) < FirstIndex(s, r[j])
  {
    if s == [] then []
    else
      var p := s[..|s| - 1];
      var r := Dedupe(p);
      assert forall x :: x in s <==> x in p || x == s[|s| - 1];
      forall i | 0 <= i < |r|
        ensures FirstIndex(s, r[i]) == FirstIndex(p, r[i])
      {
        FirstIndexOfPrefix(s, r[i]);
      }
      if s[|s| - 1] in r then r else r + [s[|s| - 1]]
  }

  /** The `technicians` field: lead and support technicians without blanks
      and without repeats, the lead first. */
  function TechniciansOf(lead: string, support: seq<string>): (r: seq<string>)
    ensures NoDuplicates(r)
    ensures forall x :: x in r <==> x != "" && (x == lead || x in support)
    ensures lead != "" ==> |r| > 0 && r[0] == lead
    ensures forall i, j :: 0 <= i < j < |r| ==> FirstIndex([lead] + support, r[i]) < FirstIndex([lead] + support, r[j])
  {
    assert forall x :: x in [lead] + support <==> x == lead || x in support;
    var names := NonEmpty([lead] + support);
    var r := Dedupe(names);
    forall i, j | 0 <= i < j < |r|
      ensures FirstIndex([lead] + support, r[i]) < FirstIndex([lead] + support, r[j])
    {
      NonEmptyKeepsOrder([lead] + support, r[i], r[j]);
    }
    r
  }

  /** Dropping the blank entries keeps the order of first occurrences. */
  lemma {:induction false} NonEmptyKeepsOrder(s: seq<string>, x: string, y: string)
    requires x in NonEmpty(s) && y in NonEmpty(s)
    requires FirstIndex(NonEmpty(s), x) < FirstIndex(NonEmpty(s), y)
    ensures FirstIndex(s, x) < FirstIndex(s, y)
  {
    if s[0] == "" {
      NonEmptyKeepsOrder(s[1..], x, y);
    } else if s[0] != x {
      assert NonEmpty(s) == [s[0]] + NonEmpty(s[1..]);
      assert s[0] != y;
      NonEmptyKeepsOrder(s[1..], x, y);
    }
  }

  // ---- Work intervals ----

  /** `workIntervals.find(i => !i.end)`: the position of the first open interval. */
  function FirstOpen(ivs: seq<Interval>): (r: Option<nat>)
    ensures r.None? <==> forall k :: 0 <= k < |ivs| ==> !IsOpen(ivs[k])
    ensures r.Some? ==> r.value < |ivs| && IsOpen(ivs[r.value])
    ensures r.Some? ==> forall k :: 0 <= k < r.value ==> !IsOpen(ivs[k])
  {
    if ivs == [] then None
    else if IsOpen(ivs[0]) then Some(0)
    else match FirstOpen(ivs[1..])
      case None => None
      case Some(k) => Some(k + 1)
  }

  /** The interval closed at `now`. */
  function Closed(i: Interval, now: int): Interval {
    Interval(i.start, Some(now))
  }

  /** The start of the interval a form save into En Proceso opens: the
      manual start time when no interval is open and that time is not in
      the future, now otherwise. */
  function ResumeStart(ivs: seq<Interval>, manualStart: Option<int>, now: int): (s: int)
    ensures s <= now
    ensures s != now ==> FirstOpen(ivs).None? && manualStart == Some(s)
  {
    if FirstOpen(ivs).None? && manualStart.Some? && manualStart.value <= now then manualStart.value else now
  }

  predicate CompletedWithTimes(newStatus: Status, startTime: Option<int>, endTime: Option<int>) {
    newStatus == Completado && startTime.Some? && endTime.Some?
  }

  /** The interval list a full-form save stores. */
  function FormIntervals(ivs: seq<Interval>, oldStatus: Option<Status>, newStatus: Status,
                         startTime: Option<int>, endTime: Option<int>, now: int): (r: seq<Interval>)
    // completing with both times: exactly the one interval [start, end]
    ensures CompletedWithTimes(newStatus, startTime, endTime) && startTime.value < endTime.value ==>
              r == [Interval(startTime.value, endTime)]
    ensures CompletedWithTimes(newStatus, startTime, endTime) && endTime.value <= startTime.value ==> r == ivs
    // entering En Proceso: one more interval, open, nothing else changes
    ensures !CompletedWithTimes(newStatus, startTime, endTime) && oldStatus != Some(newStatus) && newStatus == EnProceso ==>
              |r| == |ivs| + 1 && r[..|ivs|] == ivs && r[|ivs|] == Interval(ResumeStart(ivs, startTime, now), None) &&
              OpenCount(r) == OpenCount(ivs) + 1 && WorkedMs(r) == WorkedMs(ivs)
    // leaving En Proceso for Pausado or Completado: the first open interval ends now
    ensures !CompletedWithTimes(newStatus, startTime, endTime) && oldStatus == Some(EnProceso) &&
            (newStatus == Pausado || newStatus == Completado) ==>
              match FirstOpen(ivs)
              case None => r == ivs
              case Some(k) => r == ivs[k := Closed(ivs[k], now)] && WorkedMs(r) == WorkedMs(ivs) + (now - ivs[k].start)
    // any other change of status, and an unchanged one, keeps the list
    ensures (!CompletedWithTimes(newStatus, startTime, endTime) && newStatus != EnProceso &&
             !(oldStatus == Some(EnProceso) && (newStatus == Pausado || newStatus == Completado))) ==> r == ivs
    ensures !CompletedWithTimes(newStatus, startTime, endTime) && oldStatus == Some(newStatus) ==> r == ivs
  {
    if CompletedWithTimes(newStatus, startTime, endTime) then
      if endTime.value > startTime.value then [Interval(startTime.value, endTime)] else ivs
    else if oldStatus != Some(newStatus) then
      if newStatus == EnProceso then
        var started := Interval(ResumeStart(ivs, startTime, now), None);
        OpenCountAppend(ivs, started);
        AppendOpenKeepsWorked(ivs, started.start);
        ivs + [started]
      else if (newStatus == Pausado || newStatus == Completado) && oldStatus == Some(EnProceso) then
        match FirstOpen(ivs)
        case None => ivs
        case Some(k) =>
          CloseAtAddsSpan(ivs, k, now);
          ivs[k := Closed(ivs[k], now)]
      else ivs
    else ivs
  }

  /** The end time a full-form save stores: a completion without an end time
      takes the end of the last interval, or now when that is missing. */
  function FormEndTime(newStatus: Status, endTime: Option<int>, ivs: seq<Interval>, now: int): (r: Option<int>)
    ensures endTime.Some? || newStatus != Completado ==> r == endTime
    ensures newStatus == Completado ==> r.Some?
    ensures newStatus == Completado && endTime.None? ==>
              r == if |ivs| > 0 && ivs[|ivs| - 1].end.Some? then ivs[|ivs| - 1].end else Some(now)
  {
    if newStatus == Completado && endTime.None? then
      if |ivs| > 0 && ivs[|ivs| - 1].end.Some? then ivs[|ivs| - 1].end else Some(now)
    else endTime
  }

  /** The record saveWorkOrder writes: the stored order (nothing when it is
      new or not found) overlaid with the form, the status taken from the
      button that saved it when there is one, then the recomputed
      intervals, end time and creation time. */
  function SavedOrder(existing: Option<WorkOrder>, orderId: string, isNew: bool, form: OrderForm,
                      statusOverride: Option<Status>, now: int): (r: WorkOrder)
    // the status: the saving button's, else the form's
    ensures r.id == orderId && r.status == (if statusOverride.Some? then statusOverride.value else form.status)
    // the form's own fields, with the technicians deduplicated
    ensures r.machineId == form.machineId && r.description == form.description && r.orderType == form.orderType
    ensures r.date == form.startDate && r.startTime == form.startTime && r.requester == form.requester
    ensures r.leadTechnician == form.leadTechnician && r.supportTechnicians == form.supportTechnicians
    ensures r.technicians == TechniciansOf(form.leadTechnician, form.supportTechnicians) && r.partsUsed == form.partsUsed
    ensures r.failureType.Some? <==> form.orderType == Correctivo
    ensures r.maintenanceType.Some? <==> form.orderType == Preventivo
    // the intervals recomputed from the stored ones, and the end time from them
    ensures r.workIntervals ==
              FormIntervals(if !isNew && existing.Some? then existing.value.workIntervals else [],
                            if !isNew && existing.Some? then Some(existing.value.status) else None,
                            r.status, form.startTime, form.endTime, now)
    ensures r.endTime == FormEndTime(r.status, form.endTime, r.workIntervals, now)
    // created now on create, otherwise the stored creation time and additional cost are kept
    ensures isNew ==> r.createdAt == Some(now) && r.additionalCost.None?
    ensures !isNew && existing.Some? ==>
              r.createdAt == existing.value.createdAt && r.additionalCost == existing.value.additionalCost
    ensures !isNew && existing.None? ==> r.createdAt.None? && r.additionalCost.None?
  {
    var base := if isNew then None else existing;
    var oldStatus := if base.Some? then Some(base.value.status) else None;
    var ivs := if base.Some? then base.value.workIntervals else [];
    var newStatus := statusOverride.GetOr(form.status);
    var intervals := FormIntervals(ivs, oldStatus, newStatus, form.startTime, form.endTime, now);
    WorkOrder(
      orderId, form.machineId, form.description, newStatus, form.orderType, form.startDate,
      form.startTime, FormEndTime(newStatus, form.endTime, intervals, now), form.requester,
      form.leadTechnician, form.supportTechnicians, TechniciansOf(form.leadTechnician, form.supportTechnicians),
      form.partsUsed,
      if form.orderType == Correctivo then Some(form.failureTypeField) else None,
      if form.orderType == Preventivo then Some(form.maintenanceTypeField) else None,
      intervals,
      if isNew then Some(now) else if base.Some? then base.value.createdAt else None,
      if base.Some? then base.value.additionalCost else None)
  }

  /** A first completion: the new status is Completado and the stored one is not. */
  predicate CompletingNow(oldStatus: Option<Status>, newStatus: Status) {
    newStatus == Completado && oldStatus != Some(Completado)
  }

  // ---- Quick actions ----

  /** The buttons a work card shows: start on a pending order, pause or
      complete on a running one, resume on a paused one. */
  predicate Offered(status: Status, action: Status) {
    (status == Pendiente && action == EnProceso) ||
    (status == EnProceso && (action == Pausado || action == Completado)) ||
    (status == Pausado && action == EnProceso)
  }

  /** The interval list a quick action stores. */
  function QuickIntervals(ivs: seq<Interval>, newStatus: Status, now: int): (r: seq<Interval>)
    ensures newStatus == EnProceso ==>
              |r| == |ivs| + 1 && r[..|ivs|] == ivs && r[|ivs|] == Interval(now, None) &&
              OpenCount(r) == OpenCount(ivs) + 1 && WorkedMs(r) == WorkedMs(ivs)
    ensures (newStatus == Pausado || newStatus == Completado) && |ivs| > 0 && IsOpen(ivs[|ivs| - 1]) ==>
              r == ivs[|ivs| - 1 := Closed(ivs[|ivs| - 1], now)] &&
              WorkedMs(r) == WorkedMs(ivs) + (now - ivs[|ivs| - 1].start)
    ensures newStatus != EnProceso && !((newStatus == Pausado || newStatus == Completado) && |ivs| > 0 && IsOpen(ivs[|ivs| - 1])) ==>
              r == ivs
  {
    if newStatus == EnProceso then
      OpenCountAppend(ivs, Interval(now, None));
      AppendOpenKeepsWorked(ivs, now);
      ivs + [Interval(now, None)]
    else if (newStatus == Pausado || newStatus == Completado) && |ivs| > 0 && IsOpen(ivs[|ivs| - 1]) then
      CloseAtAddsSpan(ivs, |ivs| - 1, now);
      ivs[|ivs| - 1 := Closed(ivs[|ivs| - 1], now)]
    else ivs
  }

  datatype QuickResult = NeedsLead | Updated(order: WorkOrder)

  /** The order update of handleWorkOrderAction (stock aside). Starting needs
      a lead technician; a first start also sets the start time and date; a
      completion sets the end time only when there was none. */
  function QuickAction(order: WorkOrder, newStatus: Status, now: int): (r: QuickResult)
    ensures r.NeedsLead? <==> newStatus == EnProceso && order.leadTechnician == ""
    ensures r.Updated? ==>
              r.order == order.(status := newStatus, workIntervals := QuickIntervals(order.workIntervals, newStatus, now),
                                startTime := r.order.startTime, date := r.order.date, endTime := r.order.endTime)
    ensures r.Updated? ==>
              if newStatus == EnProceso && order.status == Pendiente
              then r.order.startTime == Some(now) && r.order.date == Some(DayOf(now))
              else r.order.startTime == order.startTime && r.order.date == order.date
    ensures r.Updated? ==>
              r.order.endTime == if newStatus == Completado && order.endTime.None? then Some(now) else order.endTime
  {
    if newStatus == EnProceso && order.leadTechnician == "" then NeedsLead
    else
      var first := newStatus == EnProceso && order.status == Pendiente;
      Updated(order.(
        status := newStatus,
        startTime := if first then Some(now) else order.startTime,
        date := if first then Some(DayOf(now)) else order.date,
        endTime := if newStatus == Completado && order.endTime.None? then Some(now) else order.endTime,
        workIntervals := QuickIntervals(order.workIntervals, newStatus, now)))
  }

  // ---- The interval invariant ----

  /** Closed intervals do not run backwards, only the last interval may be
      open, and it is open exactly while the order is En Proceso. */
  predicate IntervalsConsistent(status: Status, ivs: seq<Interval>) {
    (forall k :: 0 <= k < |ivs| ==> ivs[k].end.Some? ==> ivs[k].start <= ivs[k].end.value) &&
    (forall k :: 0 <= k < |ivs| - 1 ==> !IsOpen(ivs[k])) &&
    (status == EnProceso <==> |ivs| > 0 && IsOpen(ivs[|ivs| - 1]))
  }

  /** No interval starts after `now`: the clock has not gone backwards. */
  predicate StartedBy(ivs: seq<Interval>, now: int) {
    forall k :: 0 <= k < |ivs| ==> ivs[k].start <= now
  }

  lemma {:induction false} OpenCountAppend(ivs: seq<Interval>, i: Interval)
    ensures OpenCount(ivs + [i]) == OpenCount(ivs) + (if IsOpen(i) then 1 else 0)
  {
    if ivs == [] {
      assert ivs + [i] == [i];
      assert [i][1..] == [];
    } else {
      assert (ivs + [i])[1..] == ivs[1..] + [i];
      OpenCountAppend(ivs[1..], i);
    }
  }

  lemma {:induction false} OpenCountAllClosedPrefix(ivs: seq<Interval>)
    requires |ivs| > 0
    requires forall k :: 0 <= k < |ivs| - 1 ==> !IsOpen(ivs[k])
    ensures OpenCount(ivs) == if IsOpen(ivs[|ivs| - 1]) then 1 else 0
  {
    var pre := ivs[..|ivs| - 1];
    assert ivs == pre + [ivs[|ivs| - 1]];
    assert forall k :: 0 <= k < |pre| ==> !IsOpen(pre[k]);
    OpenCountAppend(pre, ivs[|ivs| - 1]);
  }

  /** Under the invariant an order has at most one open interval, and has
      one exactly while it is En Proceso; its worked time is not negative. */
  lemma ConsistentIntervals(status: Status, ivs: seq<Interval>)
    requires IntervalsConsistent(status, ivs)
    ensures OpenCount(ivs) <= 1
    ensures OpenCount(ivs) == 1 <==> status == EnProceso
    ensures WorkedMs(ivs) >= 0
  {
    WorkedMsNonNegative(ivs);
    if ivs != [] {
      OpenCountAllClosedPrefix(ivs);
    }
  }

  /** The quick actions a card offers keep the invariant. */
  lemma QuickActionKeepsConsistent(order: WorkOrder, action: Status, now: int)
    requires IntervalsConsistent(order.status, order.workIntervals)
    requires StartedBy(order.workIntervals, now)
    requires Offered(order.status, action)
    requires QuickAction(order, action, now).Updated?
    ensures IntervalsConsistent(action, QuickAction(order, action, now).order.workIntervals)
    ensures StartedBy(QuickAction(order, action, now).order.workIntervals, now)
  {
    var ivs := order.workIntervals;
    var r := QuickIntervals(ivs, action, now);
    assert QuickAction(order, action, now).order.workIntervals == r;
    if action == EnProceso {
      assert r == ivs + [Interval(now, None)];
    } else {
      assert r == ivs[|ivs| - 1 := Closed(ivs[|ivs| - 1], now)];
    }
  }

  /** Why only the offered actions are safe: starting an order that is
      already running opens a second interval. */
  lemma QuickStartWhileRunningOpensSecond()
    ensures var ivs := QuickIntervals([Interval(0, None)], EnProceso, 5);
            ivs == [Interval(0, None), Interval(5, None)] && OpenCount(ivs) == 2
  {
  }

  /** The interval rule of the full form keeps the invariant, unless it
      moves a running order straight to Pendiente or Cancelado. */
  lemma FormIntervalsKeepConsistent(ivs: seq<Interval>, oldStatus: Option<Status>, newStatus: Status,
                                    startTime: Option<int>, endTime: Option<int>, now: int)
    requires oldStatus.Some? ==> IntervalsConsistent(oldStatus.value, ivs) && StartedBy(ivs, now)
    requires oldStatus.None? ==> ivs == []
    requires !(startTime.Some? && endTime.Some? && endTime.value <= startTime.value)
    requires !(oldStatus == Some(EnProceso) && (newStatus == Pendiente || newStatus == Cancelado))
    ensures IntervalsConsistent(newStatus, FormIntervals(ivs, oldStatus, newStatus, startTime, endTime, now))
  {
    var r := FormIntervals(ivs, oldStatus, newStatus, startTime, endTime, now);
    if CompletedWithTimes(newStatus, startTime, endTime) {
      assert r == [Interval(startTime.value, endTime)];
    } else if oldStatus != Some(newStatus) {
      if newStatus == EnProceso {
        assert FirstOpen(ivs).None?;
        assert r == ivs + [Interval(ResumeStart(ivs, startTime, now), None)];
      } else if (newStatus == Pausado || newStatus == Completado) && oldStatus == Some(EnProceso) {
        assert FirstOpen(ivs) == Some(|ivs| - 1);
        assert r == ivs[|ivs| - 1 := Closed(ivs[|ivs| - 1], now)];
      } else {
        assert r == ivs;
      }
    } else {
      assert r == ivs;
    }
  }

  /** A full-form save keeps the invariant, unless it moves a running order
      straight to Pendiente or Cancelado. The stored order is taken to be
      consistent and the form times to have passed validation. */
  lemma FormSaveKeepsConsistent(existing: Option<WorkOrder>, orderId: string, isNew: bool, form: OrderForm,
                                statusOverride: Option<Status>, now: int)
    requires existing.Some? ==> IntervalsConsistent(existing.value.status, existing.value.workIntervals)
    requires existing.Some? ==> StartedBy(existing.value.workIntervals, now)
    requires RuleHolds(EndNotAfterStart, orderId, isNew, {}, form)
    requires !(existing.Some? && !isNew && existing.value.status == EnProceso &&
               statusOverride.GetOr(form.status) in {Pendiente, Cancelado})
    ensures IntervalsConsistent(SavedOrder(existing, orderId, isNew, form, statusOverride, now).status,
                                SavedOrder(existing, orderId, isNew, form, statusOverride, now).workIntervals)
  {
    var base := if isNew then None else existing;
    var oldStatus := if base.Some? then Some(base.value.status) else None;
    var ivs := if base.Some? then base.value.workIntervals else [];
    var newStatus := statusOverride.GetOr(form.status);
    FormIntervalsKeepConsistent(ivs, oldStatus, newStatus, form.startTime, form.endTime, now);
    var saved := SavedOrder(existing, orderId, isNew, form, statusOverride, now);
    assert saved.status == newStatus;
    assert saved.workIntervals == FormIntervals(ivs, oldStatus, newStatus, form.startTime, form.endTime, now);
  }

  /** The exception: a running order cancelled from the form keeps its open
      interval; reopening it opens a second one, and pausing then closes
      only the first, so a paused order is left with a running interval. */
  lemma CancelledWhileRunningKeepsOpenInterval()
    ensures var cancelled := FormIntervals([Interval(0, None)], Some(EnProceso), Cancelado, None, None, 10);
            cancelled == [Interval(0, None)] && !IntervalsConsistent(Cancelado, cancelled)
    ensures var reopened := FormIntervals([Interval(0, None)], Some(Cancelado), EnProceso, None, None, 10);
            reopened == [Interval(0, None), Interval(10, None)] && OpenCount(reopened) == 2
    ensures var paused := FormIntervals([Interval(0, None), Interval(10, None)], Some(EnProceso), Pausado, None, None, 20);
            paused == [Interval(0, Some(20)), Interval(10, None)] && !IntervalsConsistent(Pausado, paused)
  {
    assert FirstOpen([Interval(0, None)]) == Some(0);
    assert FirstOpen([Interval(0, None), Interval(10, None)]) == Some(0);
  }
}
