/** The workshop's stored state and the three handlers that change it:
    saving a work order from the form, a quick status action from a work
    card, and editing the parts of an order, together with the submission
    of maintenance requests (script.js, saveWorkOrder, handleWorkOrderAction,
    handleSaveManagedParts, handleSolicitudSubmit).

    Each handler is specified by a function on a `State` value; the
    `Workshop` class holds the same state in fields and its methods are
    proved to make exactly the change the function describes. */
module Workshop {
  import opened Common
  import opened StockLedger
  import opened WorkOrders
  import Ids

  /** A request's status: `Pendiente`, `Aprobado` or `Rechazado`. */
  datatype RequestStatus = Pending | Approved | Rejected

  /** A maintenance request. `key` is the store's document key, `id` the
      visible `SOL-NNNN` number; `workOrderId` is set on approval. */
  datatype Request = Request(
    key: string,
    id: string,
    machineId: string,
    description: string,
    requester: string,
    status: RequestStatus,
    createdAt: int,
    workOrderId: Option<string>)

  /** Work orders by id, requests in the order they were submitted, and part
      stock by part id. */
  datatype State = State(orders: map<string, WorkOrder>, requests: seq<Request>, stock: map<string, int>)

  /** What a handler reports: the order is unknown, the form is refused, a
      start needs a lead technician, a stock write was refused, or the order
      as written. */
  datatype HandlerResult =
    | NoSuchOrder
    | Invalid(reason: ValidationError)
    | LeadRequired
    | OutOfStock(shortfall: Shortfall)
    | Done(order: WorkOrder)

  function RequestIds(requests: seq<Request>): seq<string> {
    seq(|requests|, i requires 0 <= i < |requests| => requests[i].id)
  }

  /** What the workshop keeps true: stock is never negative, every order is
      stored under its own id, and requests are numbered SOL-0001, SOL-0002,
      ... in submission order. */
  predicate Valid(s: State) {
    (forall p :: p in s.stock ==> s.stock[p] >= 0) &&
    (forall id :: id in s.orders ==> s.orders[id].id == id) &&
    Ids.SequentialRequestIds(RequestIds(s.requests))
  }

  // ---- Requests ----

  /** `solicitudes.find(s => s.fb_id === key)`: the first request with that key. */
  function FindRequest(requests: seq<Request>, key: string): (r: Option<nat>)
    ensures r.Some? ==> r.value < |requests| && requests[r.value].key == key
    ensures r.Some? ==> forall j :: 0 <= j < r.value ==> requests[j].key != key
    ensures r.None? ==> forall j :: 0 <= j < |requests| ==> requests[j].key != key
  {
    if requests == [] then None
    else if requests[0].key == key then Some(0)
    else match FindRequest(requests[1..], key)
         case Some(i) => Some(i + 1)
         case None => None
  }

  /** Approval of the request a work order was created from: a pending
      request becomes approved and records the order; any other is left
      alone. */
  function Promote(requests: seq<Request>, key: string, orderId: string): (r: seq<Request>)
    ensures |r| == |requests| && RequestIds(r) == RequestIds(requests)
    ensures forall i :: 0 <= i < |r| && requests[i].status != Pending ==> r[i] == requests[i]
    ensures forall i :: 0 <= i < |r| && FindRequest(requests, key) != Some(i) ==> r[i] == requests[i]
    ensures FindRequest(requests, key).Some? && requests[FindRequest(requests, key).value].status == Pending ==>
              r[FindRequest(requests, key).value].status == Approved &&
              r[FindRequest(requests, key).value].workOrderId == Some(orderId)
  {
    match FindRequest(requests, key)
    case Some(i) =>
      if requests[i].status == Pending then
        var r := requests[i := requests[i].(status := Approved, workOrderId := Some(orderId))];
        assert RequestIds(r) == RequestIds(requests);
        r
      else requests
    case None => requests
  }

  /** `if (sourceSolicitudId)`: nothing to approve for an empty source key. */
  function PromoteLinked(requests: seq<Request>, sourceKey: string, orderId: string): (r: seq<Request>)
    ensures sourceKey == "" ==> r == requests
    ensures |r| == |requests| && RequestIds(r) == RequestIds(requests)
    ensures forall i :: 0 <= i < |r| && requests[i].status != Pending ==> r[i] == requests[i]
  {
    if sourceKey == "" then requests else Promote(requests, sourceKey, orderId)
  }

  /** A request is approved once: a later save linked to it changes nothing,
      and it keeps the first order it was approved for. */
  lemma PromoteOnce(requests: seq<Request>, key: string, first: string, second: string)
    ensures Promote(Promote(requests, key, first), key, second) == Promote(requests, key, first)
  {
    var once := Promote(requests, key, first);
    var found := FindRequest(requests, key);
    forall j | 0 <= j < |once|
      ensures once[j].key == requests[j].key
    {
      if found == Some(j) && requests[j].status == Pending {
        assert once[j] == requests[j].(status := Approved, workOrderId := Some(first));
      }
    }
    FindRequestSameKeys(requests, once, key);
  }

  lemma {:induction false} FindRequestSameKeys(a: seq<Request>, b: seq<Request>, key: string)
    requires |a| == |b| && forall j :: 0 <= j < |a| ==> a[j].key == b[j].key
    ensures FindRequest(a, key) == FindRequest(b, key)
  {
    if a != [] && a[0].key != key {
      FindRequestSameKeys(a[1..], b[1..], key);
    }
  }

  /** handleSolicitudSubmit: a request needs a machine and a description; it
      is numbered from the count of requests and starts pending. */
  function SubmitSpec(s: State, machineId: string, description: string, requester: string, key: string, now: int)
    : (r: (State, Option<string>))
    ensures r.1.None? <==> machineId == "" || description == ""
    ensures r.1.None? ==> r.0 == s
    ensures r.1.Some? ==>
              r.0 == s.(requests := s.requests + [Request(key, r.1.value, machineId, description, requester, Pending, now, None)])
    ensures r.1.Some? ==> r.1.value == Ids.RequestIdForCount(|s.requests|)
  {
    if machineId == "" || description == "" then (s, None)
    else
      var id := Ids.RequestIdForCount(|s.requests|);
      (s.(requests := s.requests + [Request(key, id, machineId, description, requester, Pending, now, None)]), Some(id))
  }

  /** A submitted request gets an id no earlier request has, and the ids
      stay sequential. */
  lemma SubmitKeepsValid(s: State, machineId: string, description: string, requester: string, key: string, now: int)
    requires Valid(s)
    ensures Valid(SubmitSpec(s, machineId, description, requester, key, now).0)
    ensures SubmitSpec(s, machineId, description, requester, key, now).1.Some? ==>
              SubmitSpec(s, machineId, description, requester, key, now).1.value !in RequestIds(s.requests)
  {
    var r := SubmitSpec(s, machineId, description, requester, key, now);
    if r.1.Some? {
      Ids.RequestIdFresh(RequestIds(s.requests));
      assert RequestIds(r.0.requests) == RequestIds(s.requests) + [r.1.value];
    }
  }

  // ---- Saving from the form ----

  /** The stored order saveWorkOrder starts from: none for a new order or
      one that is not found. */
  function Existing(s: State, orderId: string, isNew: bool): Option<WorkOrder> {
    if !isNew && orderId in s.orders then Some(s.orders[orderId]) else None
  }

  /** The stock changes of a save: the positive quantities of the saved
      parts list on a first completion, nothing otherwise. */
  function SaveConsumption(existing: Option<WorkOrder>, saved: WorkOrder): (ds: seq<Delta>)
    ensures !CompletingNow(if existing.Some? then Some(existing.value.status) else None, saved.status) ==> ds == []
  {
    var oldStatus := if existing.Some? then Some(existing.value.status) else None;
    if CompletingNow(oldStatus, saved.status) then ConsumptionDeltas(saved.partsUsed, true) else []
  }

  /** saveWorkOrder: validate; build the record; on a first completion take
      its parts from stock, stopping at the first shortfall without writing
      the order (earlier stock writes stay); otherwise store the record and
      approve the request it came from. */
  function SaveSpec(s: State, orderId: string, isNew: bool, form: OrderForm, statusOverride: Option<Status>,
                    sourceKey: string, now: int): (r: (State, HandlerResult))
    ensures r.1.Invalid? <==> Validate(orderId, isNew, s.orders.Keys, form).Some?
    ensures r.1.Invalid? ==> r.0 == s && r.1.reason == Validate(orderId, isNew, s.orders.Keys, form).value
    ensures r.1.Invalid? || r.1.OutOfStock? || r.1.Done?
    ensures r.1.OutOfStock? ==> r.0.orders == s.orders && r.0.requests == s.requests
    ensures r.1.Done? ==> r.1.order.id == orderId && r.0.orders == s.orders[orderId := r.1.order]
    ensures r.1.Done? ==> r.1.order == SavedOrder(Existing(s, orderId, isNew), orderId, isNew, form, statusOverride, now)
    ensures r.1.Done? ==> r.0.requests == PromoteLinked(s.requests, sourceKey, orderId)
    ensures r.0.stock.Keys == s.stock.Keys
  {
    match Validate(orderId, isNew, s.orders.Keys, form)
    case Some(e) => (s, Invalid(e))
    case None =>
      var existing := Existing(s, orderId, isNew);
      var saved := SavedOrder(existing, orderId, isNew, form, statusOverride, now);
      var outcome := Run(s.stock, SaveConsumption(existing, saved));
      if outcome.error.Some? then (s.(stock := outcome.stock), OutOfStock(outcome.error.value))
      else (State(s.orders[orderId := saved], PromoteLinked(s.requests, sourceKey, orderId), outcome.stock), Done(saved))
  }

  /** A save from a pending request approves that request with the saved
      order's id and leaves every other request as it was. */
  lemma SaveApprovesLinkedRequest(s: State, orderId: string, isNew: bool, form: OrderForm,
                                  statusOverride: Option<Status>, sourceKey: string, now: int, i: nat)
    requires SaveSpec(s, orderId, isNew, form, statusOverride, sourceKey, now).1.Done?
    requires sourceKey != "" && FindRequest(s.requests, sourceKey) == Some(i) && s.requests[i].status == Pending
    ensures var r := SaveSpec(s, orderId, isNew, form, statusOverride, sourceKey, now).0;
            |r.requests| == |s.requests| && r.requests[i].status == Approved && r.requests[i].workOrderId == Some(orderId)
    ensures var r := SaveSpec(s, orderId, isNew, form, statusOverride, sourceKey, now).0;
            forall j :: 0 <= j < |s.requests| && j != i ==> r.requests[j] == s.requests[j]
  {
  }

  lemma PromoteLinkedKeepsIds(requests: seq<Request>, sourceKey: string, orderId: string)
    ensures RequestIds(PromoteLinked(requests, sourceKey, orderId)) == RequestIds(requests)
  {
  }

  lemma SaveKeepsValid(s: State, orderId: string, isNew: bool, form: OrderForm, statusOverride: Option<Status>,
                       sourceKey: string, now: int)
    requires Valid(s)
    ensures Valid(SaveSpec(s, orderId, isNew, form, statusOverride, sourceKey, now).0)
  {
    if Validate(orderId, isNew, s.orders.Keys, form).None? {
      var existing := Existing(s, orderId, isNew);
      var saved := SavedOrder(existing, orderId, isNew, form, statusOverride, now);
      var outcome := Run(s.stock, SaveConsumption(existing, saved));
      RunKeepsStockNonNegative(s.stock, SaveConsumption(existing, saved));
      PromoteLinkedKeepsIds(s.requests, sourceKey, orderId);
      WriteKeepsValid(s, orderId, saved, PromoteLinked(s.requests, sourceKey, orderId), outcome.stock);
    }
  }

  /** Writing stock that stays non-negative, an order under its own id and
      requests with the same ids keeps a valid state valid. */
  lemma WriteKeepsValid(s: State, orderId: string, saved: WorkOrder, requests: seq<Request>, stock: map<string, int>)
    requires Valid(s) && saved.id == orderId && RequestIds(requests) == RequestIds(s.requests)
    requires forall p :: p in stock ==> stock[p] >= 0
    ensures Valid(s.(stock := stock))
    ensures Valid(State(s.orders[orderId := saved], requests, stock))
  {
  }

  /** A save takes parts from stock only on a first completion, and then
      exactly the positive quantities it lists; any other save leaves the
      stock alone. */
  lemma SaveConsumesOnFirstCompletion(s: State, orderId: string, isNew: bool, form: OrderForm,
                                      statusOverride: Option<Status>, sourceKey: string, now: int)
    requires SaveSpec(s, orderId, isNew, form, statusOverride, sourceKey, now).1.Done?
    ensures var r := SaveSpec(s, orderId, isNew, form, statusOverride, sourceKey, now);
            var existing := Existing(s, orderId, isNew);
            var oldStatus := if existing.Some? then Some(existing.value.status) else None;
            CompletingNow(oldStatus, r.1.order.status) ==>
              forall p :: p in s.stock ==> r.0.stock[p] == s.stock[p] - ConsumedQuantity(form.partsUsed, p, true)
    ensures var r := SaveSpec(s, orderId, isNew, form, statusOverride, sourceKey, now);
            var existing := Existing(s, orderId, isNew);
            var oldStatus := if existing.Some? then Some(existing.value.status) else None;
            !CompletingNow(oldStatus, r.1.order.status) ==> r.0.stock == s.stock
  {
    var existing := Existing(s, orderId, isNew);
    var saved := SavedOrder(existing, orderId, isNew, form, statusOverride, now);
    RunSuccessAddsNetDelta(s.stock, SaveConsumption(existing, saved));
  }

  /** A refused stock write leaves the stock as the writes before it made
      it, and reports the part that fell short. */
  lemma SaveShortfallKeepsEarlierWrites(s: State, orderId: string, isNew: bool, form: OrderForm,
                                        statusOverride: Option<Status>, sourceKey: string, now: int)
    requires SaveSpec(s, orderId, isNew, form, statusOverride, sourceKey, now).1.OutOfStock?
    ensures var r := SaveSpec(s, orderId, isNew, form, statusOverride, sourceKey, now);
            var ds := SaveConsumption(Existing(s, orderId, isNew), SavedOrder(Existing(s, orderId, isNew), orderId, isNew, form, statusOverride, now));
            exists k :: 0 <= k < |ds| && Run(s.stock, ds[..k]) == Outcome(r.0.stock, None) &&
                        Step(r.0.stock, ds[k]) == Short(r.1.shortfall)
  {
    var existing := Existing(s, orderId, isNew);
    RunFailureKeepsEarlierWrites(s.stock, SaveConsumption(existing, SavedOrder(existing, orderId, isNew, form, statusOverride, now)));
  }

  // ---- Quick actions ----

  /** The stock changes of a quick action: every listed quantity when the
      order is completed for the first time. */
  function ActionConsumption(order: WorkOrder, newStatus: Status): (ds: seq<Delta>)
    ensures !(newStatus == Completado && order.status != Completado) ==> ds == []
  {
    if newStatus == Completado && order.status != Completado then ConsumptionDeltas(order.partsUsed, false) else []
  }

  /** handleWorkOrderAction: find the order; a start without a lead
      technician is refused; a first completion takes the parts from stock
      and a shortfall stops it before the order is written. */
  function ActionSpec(s: State, orderId: string, newStatus: Status, now: int): (r: (State, HandlerResult))
    ensures r.1.NoSuchOrder? <==> orderId == "" || orderId !in s.orders
    ensures !r.1.NoSuchOrder? ==>
              (r.1.LeadRequired? <==> newStatus == EnProceso && s.orders[orderId].leadTechnician == "")
    ensures r.1.NoSuchOrder? || r.1.LeadRequired? ==> r.0 == s
    ensures r.1.NoSuchOrder? || r.1.LeadRequired? || r.1.OutOfStock? || r.1.Done?
    ensures r.1.OutOfStock? ==> r.0.orders == s.orders && r.0.requests == s.requests
    ensures r.1.Done? ==> r.0.orders == s.orders[orderId := r.1.order] && r.0.requests == s.requests
    ensures r.1.Done? ==> QuickAction(s.orders[orderId], newStatus, now) == Updated(r.1.order)
    ensures r.0.stock.Keys == s.stock.Keys
  {
    if orderId == "" || orderId !in s.orders then (s, NoSuchOrder)
    else
      var order := s.orders[orderId];
      match QuickAction(order, newStatus, now)
      case NeedsLead => (s, LeadRequired)
      case Updated(o) =>
        var outcome := Run(s.stock, ActionConsumption(order, newStatus));
        if outcome.error.Some? then (s.(stock := outcome.stock), OutOfStock(outcome.error.value))
        else (s.(orders := s.orders[orderId := o], stock := outcome.stock), Done(o))
  }

  lemma ActionKeepsValid(s: State, orderId: string, newStatus: Status, now: int)
    requires Valid(s)
    ensures Valid(ActionSpec(s, orderId, newStatus, now).0)
  {
    if orderId != "" && orderId in s.orders {
      RunKeepsStockNonNegative(s.stock, ActionConsumption(s.orders[orderId], newStatus));
    }
  }

  /** A quick completion of an order not yet completed takes every listed
      quantity from stock; any other quick action leaves the stock alone. */
  lemma ActionConsumesOnFirstCompletion(s: State, orderId: string, newStatus: Status, now: int)
    requires ActionSpec(s, orderId, newStatus, now).1.Done?
    ensures var r := ActionSpec(s, orderId, newStatus, now);
            newStatus == Completado && s.orders[orderId].status != Completado ==>
              forall p :: p in s.stock ==> r.0.stock[p] == s.stock[p] - ConsumedQuantity(s.orders[orderId].partsUsed, p, false)
    ensures var r := ActionSpec(s, orderId, newStatus, now);
            !(newStatus == Completado && s.orders[orderId].status != Completado) ==> r.0.stock == s.stock
  {
    RunSuccessAddsNetDelta(s.stock, ActionConsumption(s.orders[orderId], newStatus));
  }

  /** The buttons a card offers keep the stored order's interval invariant. */
  lemma OfferedActionKeepsIntervals(s: State, orderId: string, newStatus: Status, now: int)
    requires orderId in s.orders
    requires IntervalsConsistent(s.orders[orderId].status, s.orders[orderId].workIntervals)
    requires StartedBy(s.orders[orderId].workIntervals, now)
    requires Offered(s.orders[orderId].status, newStatus)
    requires ActionSpec(s, orderId, newStatus, now).1.Done?
    ensures var o := ActionSpec(s, orderId, newStatus, now).1.order;
            o.status == newStatus && IntervalsConsistent(o.status, o.workIntervals)
  {
    QuickActionKeepsConsistent(s.orders[orderId], newStatus, now);
  }

  // ---- Editing the parts of an order ----

  /** handleSaveManagedParts: find the order; write the stock changes of
      the edit one by one, stopping at the first shortfall (earlier writes
      stay); then store the new parts list. */
  function PartsSpec(s: State, orderId: string, newParts: seq<PartUsage>): (r: (State, HandlerResult))
    ensures r.1.NoSuchOrder? <==> orderId == "" || orderId !in s.orders
    ensures r.1.NoSuchOrder? ==> r.0 == s
    ensures r.1.NoSuchOrder? || r.1.OutOfStock? || r.1.Done?
    ensures r.1.OutOfStock? ==> r.0.orders == s.orders && r.0.requests == s.requests
    ensures r.1.Done? ==> r.1.order == s.orders[orderId].(partsUsed := newParts) &&
                          r.0.orders == s.orders[orderId := r.1.order] && r.0.requests == s.requests
    ensures r.0.stock.Keys == s.stock.Keys
  {
    if orderId == "" || orderId !in s.orders then (s, NoSuchOrder)
    else
      var order := s.orders[orderId];
      var outcome := Run(s.stock, ReconcileDeltas(order.partsUsed, newParts));
      if outcome.error.Some? then (s.(stock := outcome.stock), OutOfStock(outcome.error.value))
      else
        var o := order.(partsUsed := newParts);
        (s.(orders := s.orders[orderId := o], stock := outcome.stock), Done(o))
  }

  lemma PartsKeepsValid(s: State, orderId: string, newParts: seq<PartUsage>)
    requires Valid(s)
    ensures Valid(PartsSpec(s, orderId, newParts).0)
  {
    if orderId != "" && orderId in s.orders {
      RunKeepsStockNonNegative(s.stock, ReconcileDeltas(s.orders[orderId].partsUsed, newParts));
    }
  }

  /** A completed edit moves parts between the shelf and the order: each
      stored part's stock plus its quantity on the order is unchanged. */
  lemma PartsEditConservesStock(s: State, orderId: string, newParts: seq<PartUsage>)
    requires PartsSpec(s, orderId, newParts).1.Done?
    ensures var r := PartsSpec(s, orderId, newParts);
            forall p :: p in s.stock ==>
              r.0.stock[p] + Quantity(newParts, p) == s.stock[p] + Quantity(s.orders[orderId].partsUsed, p)
  {
    ReconcileConservesStock(s.stock, s.orders[orderId].partsUsed, newParts);
  }

  // ---- The workshop as an object ----

  /** The stored state: orders and requests in fields, stock in a part store. */
  class Workshop {
    var orders: map<string, WorkOrder>
    var requests: seq<Request>
    const store: PartStore

    function Snapshot(): State
      reads this, store
    {
      State(orders, requests, store.stock)
    }

    constructor (stock: map<string, int>)
      ensures Snapshot() == State(map[], [], stock)
      ensures fresh(store)
    {
      orders := map[];
      requests := [];
      store := new PartStore(stock);
    }

    method SaveWorkOrder(orderId: string, isNew: bool, form: OrderForm, statusOverride: Option<Status>,
                         sourceKey: string, now: int) returns (r: HandlerResult)
      modifies this, store
      ensures (Snapshot(), r) == SaveSpec(old(Snapshot()), orderId, isNew, form, statusOverride, sourceKey, now)
    {
      var reason := Validate(orderId, isNew, orders.Keys, form);
      if reason.Some? {
        return Invalid(reason.value);
      }
      var existing := if !isNew && orderId in orders then Some(orders[orderId]) else None;
      var saved := SavedOrder(existing, orderId, isNew, form, statusOverride, now);
      var error := store.ApplyAll(SaveConsumption(existing, saved));
      if error.Some? {
        return OutOfStock(error.value);
      }
      orders := orders[orderId := saved];
      requests := PromoteLinked(requests, sourceKey, orderId);
      r := Done(saved);
    }

    method HandleWorkOrderAction(orderId: string, newStatus: Status, now: int) returns (r: HandlerResult)
      modifies this, store
      ensures (Snapshot(), r) == ActionSpec(old(Snapshot()), orderId, newStatus, now)
    {
      if orderId == "" || orderId !in orders {
        return NoSuchOrder;
      }
      var order := orders[orderId];
      var update := QuickAction(order, newStatus, now);
      if update.NeedsLead? {
        return LeadRequired;
      }
      var error := store.ApplyAll(ActionConsumption(order, newStatus));
      if error.Some? {
        return OutOfStock(error.value);
      }
      orders := orders[orderId := update.order];
      r := Done(update.order);
    }

    method SaveManagedParts(orderId: string, newParts: seq<PartUsage>) returns (r: HandlerResult)
      modifies this, store
      ensures (Snapshot(), r) == PartsSpec(old(Snapshot()), orderId, newParts)
    {
      if orderId == "" || orderId !in orders {
        return NoSuchOrder;
      }
      var order := orders[orderId];
      var m := ComputeStockDeltas(order.partsUsed, newParts);
      var ds := seq(|m|, i requires 0 <= i < |m| => Delta(m[i].0, m[i].1));
      assert ds == ReconcileDeltas(order.partsUsed, newParts);
      var error := store.ApplyAll(ds);
      if error.Some? {
        return OutOfStock(error.value);
      }
      var updated := order.(partsUsed := newParts);
      orders := orders[orderId := updated];
      r := Done(updated);
    }

    method SubmitRequest(machineId: string, description: string, requester: string, key: string, now: int)
      returns (id: Option<string>)
      modifies this
      ensures (Snapshot(), id) == SubmitSpec(old(Snapshot()), machineId, description, requester, key, now)
    {
      var nextId := Ids.RequestIdForCount(|requests|);
      if machineId == "" || description == "" {
        return None;
      }
      requests := requests + [Request(key, nextId, machineId, description, requester, Pending, now, None)];
      id := Some(nextId);
    }
  }
}
