/** The stock ledger: signed read-modify-write changes to part stock that
    refuse to go below zero (script.js, the stock loops of saveWorkOrder,
    handleWorkOrderAction and handleSaveManagedParts). */
module StockLedger {
  import opened Common

  /** One entry of a work order's parts list. */
  datatype PartUsage = PartUsage(partId: string, quantity: int)

  /** One signed change to a part's stock. */
  datatype Delta = Delta(partId: string, amount: int)

  /** The "Stock insuficiente" error: the part, the stock that was read and
      the quantity the change needed. */
  datatype Shortfall = Shortfall(partId: string, stock: int, needed: int) {
    /** How many units are missing. */
    function Missing(): int {
      needed - stock
    }
  }

  /** What one stock change does: a part missing from the store is skipped,
      a change that would go below zero is refused, anything else is written. */
  datatype StepResult = Skipped | Written(newStock: int) | Short(shortfall: Shortfall)

  /** One read-modify-write on the stock of `d.partId`. */
  function Step(stock: map<string, int>, d: Delta): (r: StepResult)
    ensures r.Skipped? <==> d.partId !in stock
    ensures d.partId in stock ==> (r.Short? <==> stock[d.partId] + d.amount < 0)
    ensures r.Written? ==> r.newStock == stock[d.partId] + d.amount && r.newStock >= 0
    ensures r.Short? ==> r.shortfall == Shortfall(d.partId, stock[d.partId], -d.amount)
                         && r.shortfall.Missing() > 0
  {
    if d.partId !in stock then Skipped
    else if stock[d.partId] + d.amount < 0 then Short(Shortfall(d.partId, stock[d.partId], -d.amount))
    else Written(stock[d.partId] + d.amount)
  }

  /** The stock after a sequence of changes and the error that stopped it, if any. */
  datatype Outcome = Outcome(stock: map<string, int>, error: Option<Shortfall>)

  /** Changes applied one after the other; the first refused change stops
      the sequence and the changes already written stay written. */
  function Run(stock: map<string, int>, ds: seq<Delta>): (r: Outcome)
    ensures r.stock.Keys == stock.Keys
  {
    if ds == [] then Outcome(stock, None)
    else
      match Step(stock, ds[0])
      case Skipped => Run(stock, ds[1..])
      case Written(n) => Run(stock[ds[0].partId := n], ds[1..])
      case Short(s) => Outcome(stock, Some(s))
  }

  /** The parts collection of the document store, reduced to the stock of each part. */
  class PartStore {
    var stock: map<string, int>

    constructor (initial: map<string, int>)
      ensures stock == initial
    {
      stock := initial;
    }

    /** Reads the current stock, refuses a negative result, otherwise writes it. */
    method ApplyDelta(d: Delta) returns (r: StepResult)
      modifies this
      ensures r == Step(old(stock), d)
      ensures stock == if r.Written? then old(stock)[d.partId := r.newStock] else old(stock)
    {
      if d.partId in stock {
        var current := stock[d.partId];
        var newStock := current + d.amount;
        if newStock < 0 {
          return Short(Shortfall(d.partId, current, -d.amount));
        }
        stock := stock[d.partId := newStock];
        return Written(newStock);
      }
      return Skipped;
    }

    /** The source's `for` loop over the changes, leaving by the first error. */
    method ApplyAll(ds: seq<Delta>) returns (error: Option<Shortfall>)
      modifies this
      ensures Outcome(stock, error) == Run(old(stock), ds)
    {
      var i := 0;
      while i < |ds|
        invariant 0 <= i <= |ds|
        invariant Run(stock, ds[i..]) == Run(old(stock), ds)
      {
        assert ds[i..][0] == ds[i] && ds[i..][1..] == ds[i + 1..];
        var r := ApplyDelta(ds[i]);
        if r.Short? {
          return Some(r.shortfall);
        }
        i := i + 1;
      }
      return None;
    }
  }

  // ---- Properties of a run of changes ----

  /** The sum of the changes addressed to part `p`. */
  function NetDelta(ds: seq<Delta>, p: string): int {
    if ds == [] then 0 else (if ds[0].partId == p then ds[0].amount else 0) + NetDelta(ds[1..], p)
  }

  /** Stock never goes negative: a run starting from non-negative stock ends
      with non-negative stock, whether or not it stopped on an error. */
  lemma {:induction false} RunKeepsStockNonNegative(stock: map<string, int>, ds: seq<Delta>)
    requires forall p :: p in stock ==> stock[p] >= 0
    ensures forall p :: p in Run(stock, ds).stock ==> Run(stock, ds).stock[p] >= 0
  {
    if ds != [] {
      match Step(stock, ds[0])
      case Skipped => RunKeepsStockNonNegative(stock, ds[1..]);
      case Written(n) => RunKeepsStockNonNegative(stock[ds[0].partId := n], ds[1..]);
      case Short(_) =>
    }
  }

  /** A run that succeeds moves every stored part by exactly the sum of the
      changes addressed to it. */
  lemma {:induction false} RunSuccessAddsNetDelta(stock: map<string, int>, ds: seq<Delta>)
    requires Run(stock, ds).error.None?
    ensures forall p :: p in stock ==> Run(stock, ds).stock[p] == stock[p] + NetDelta(ds, p)
  {
    if ds != [] {
      match Step(stock, ds[0])
      case Skipped => RunSuccessAddsNetDelta(stock, ds[1..]);
      case Written(n) => RunSuccessAddsNetDelta(stock[ds[0].partId := n], ds[1..]);
    }
  }

  /** No rollback: a run that stops on an error leaves exactly the stock of
      the changes before the refused one, and the refused change is the
      error reported. */
  lemma {:induction false} RunFailureKeepsEarlierWrites(stock: map<string, int>, ds: seq<Delta>)
    requires Run(stock, ds).error.Some?
    ensures exists k :: 0 <= k < |ds| &&
              Run(stock, ds[..k]) == Outcome(Run(stock, ds).stock, None) &&
              Step(Run(stock, ds).stock, ds[k]) == Short(Run(stock, ds).error.value)
  {
    var r := Run(stock, ds);
    assert ds[..0] == [];
    match Step(stock, ds[0])
    case Short(s) =>
      assert Run(stock, ds[..0]) == Outcome(r.stock, None);
    case Skipped =>
      RunFailureKeepsEarlierWrites(stock, ds[1..]);
      var k :| 0 <= k < |ds[1..]| && Run(stock, ds[1..][..k]) == Outcome(r.stock, None)
                && Step(r.stock, ds[1..][k]) == Short(r.error.value);
      assert ds[..k + 1][1..] == ds[1..][..k];
      assert Run(stock, ds[..k + 1]) == Outcome(r.stock, None);
    case Written(n) =>
      var stock' := stock[ds[0].partId := n];
      RunFailureKeepsEarlierWrites(stock', ds[1..]);
      var k :| 0 <= k < |ds[1..]| && Run(stock', ds[1..][..k]) == Outcome(r.stock, None)
                && Step(r.stock, ds[1..][k]) == Short(r.error.value);
      assert ds[..k + 1][1..] == ds[1..][..k];
      assert Run(stock, ds[..k + 1]) == Outcome(r.stock, None);
  }

  // ---- Completion: consumption of the parts used ----

  /** Completion deltas: `-quantity` for each entry of the parts list. The
      full form consumes only entries with a positive quantity
      (`positiveOnly`); the quick action consumes every entry. */
  function ConsumptionDeltas(parts: seq<PartUsage>, positiveOnly: bool): (ds: seq<Delta>)
    ensures |ds| <= |parts|
    ensures positiveOnly ==> forall k :: 0 <= k < |ds| ==> ds[k].amount < 0
    ensures !positiveOnly ==>
              |ds| == |parts| && forall i :: 0 <= i < |parts| ==> ds[i] == Delta(parts[i].partId, -parts[i].quantity)
    ensures forall p :: NetDelta(ds, p) == -ConsumedQuantity(parts, p, positiveOnly)
  {
    if parts == [] then []
    else
      var rest := ConsumptionDeltas(parts[1..], positiveOnly);
      if positiveOnly && parts[0].quantity <= 0 then rest
      else [Delta(parts[0].partId, -parts[0].quantity)] + rest
  }

  /** The total quantity of part `p` that a completion consumes. */
  function ConsumedQuantity(parts: seq<PartUsage>, p: string, positiveOnly: bool): int {
    if parts == [] then 0
    else
      (if parts[0].partId == p && (!positiveOnly || parts[0].quantity > 0) then parts[0].quantity else 0)
      + ConsumedQuantity(parts[1..], p, positiveOnly)
  }

  /** Example: completing with 5 units of P1 when only 3 are in stock fails,
      naming P1 and a shortfall of 2, and leaves the stock at 3. */
  lemma CompletionShortfallExample()
    ensures var r := Run(map["P1" := 3], ConsumptionDeltas([PartUsage("P1", 5)], true));
            r.stock == map["P1" := 3] && r.error == Some(Shortfall("P1", 3, 5)) && r.error.value.Missing() == 2
  {
    var ds := ConsumptionDeltas([PartUsage("P1", 5)], true);
    assert [PartUsage("P1", 5)][1..] == [];
    assert ds == [Delta("P1", -5)];
  }

  // ---- Reconciliation of an edited parts list ----

  /** A JavaScript `Map` from part id to quantity: entries in insertion order,
      each key at most once. */
  type QtyMap = seq<(string, int)>

  /** The keys of a map. */
  function Keys(m: QtyMap): set<string> {
    if m == [] then {} else {m[0].0} + Keys(m[1..])
  }

  /** Each key occurs once. */
  predicate UniqueKeys(m: QtyMap) {
    m == [] || (m[0].0 !in Keys(m[1..]) && UniqueKeys(m[1..]))
  }

  /** `map.get(k)`. */
  function Lookup(m: QtyMap, k: string): Option<int> {
    if m == [] then None else if m[0].0 == k then Some(m[0].1) else Lookup(m[1..], k)
  }

  /** `map.has(k)` and `map.get(k)` agree. */
  lemma {:induction false} LookupIffKey(m: QtyMap, k: string)
    ensures Lookup(m, k).Some? <==> k in Keys(m)
  {
    if m != [] {
      LookupIffKey(m[1..], k);
    }
  }

  /** `map.set(k, v)`: an existing key keeps its place, a new key goes last. */
  function Put(m: QtyMap, k: string, v: int): (r: QtyMap)
    ensures Lookup(r, k) == Some(v)
    ensures forall k' :: k' != k ==> Lookup(r, k') == Lookup(m, k')
    ensures Keys(r) == Keys(m) + {k}
    ensures UniqueKeys(m) ==> UniqueKeys(r)
  {
    if m == [] then [(k, v)]
    else if m[0].0 == k then [(k, v)] + m[1..]
    else [m[0]] + Put(m[1..], k, v)
  }

  /** `new Map(parts.map(p => [p.partId, p.quantity]))`: a part listed twice
      keeps its first place and its last quantity. */
  function MapOf(parts: seq<PartUsage>): (m: QtyMap)
    ensures UniqueKeys(m)
  {
    if parts == [] then []
    else Put(MapOf(parts[..|parts| - 1]), parts[|parts| - 1].partId, parts[|parts| - 1].quantity)
  }

  /** The quantity of part `p` a parts list records (0 when absent). */
  function Quantity(parts: seq<PartUsage>, p: string): int {
    Lookup(MapOf(parts), p).GetOr(0)
  }

  /** First pass of handleSaveManagedParts: for every part of the new list
      whose quantity changed, the stock change is minus that difference. */
  function ChangedPass(entries: QtyMap, oldMap: QtyMap, acc: QtyMap): QtyMap
    decreases |entries|
  {
    if entries == [] then acc
    else ChangedPass(entries[1..], oldMap, ChangedStep(entries[0], oldMap, acc))
  }

  /** One listed part of the first pass: a changed quantity records minus
      its difference. */
  function ChangedStep(entry: (string, int), oldMap: QtyMap, acc: QtyMap): QtyMap {
    var delta := entry.1 - Lookup(oldMap, entry.0).GetOr(0);
    if delta != 0 then Put(acc, entry.0, Lookup(acc, entry.0).GetOr(0) - delta) else acc
  }

  /** Second pass: every part of the old list that is no longer listed gives
      its whole old quantity back. */
  function RemovedPass(entries: QtyMap, newMap: QtyMap, acc: QtyMap): QtyMap
    decreases |entries|
  {
    if entries == [] then acc
    else RemovedPass(entries[1..], newMap, RemovedStep(entries[0], newMap, acc))
  }

  /** One old part of the second pass: an unlisted part gives back its old
      quantity. */
  function RemovedStep(entry: (string, int), newMap: QtyMap, acc: QtyMap): QtyMap {
    if Lookup(newMap, entry.0).None? then Put(acc, entry.0, Lookup(acc, entry.0).GetOr(0) + entry.1) else acc
  }

  /** The `stockDeltas` map of handleSaveManagedParts. */
  function StockDeltas(oldParts: seq<PartUsage>, newParts: seq<PartUsage>): QtyMap {
    var oldMap := MapOf(oldParts);
    var newMap := MapOf(newParts);
    RemovedPass(oldMap, newMap, ChangedPass(newMap, oldMap, []))
  }

  /** The two `forEach` passes of handleSaveManagedParts, accumulating into
      one `stockDeltas` map. */
  method ComputeStockDeltas(oldParts: seq<PartUsage>, newParts: seq<PartUsage>) returns (deltas: QtyMap)
    ensures deltas == StockDeltas(oldParts, newParts)
  {
    var oldMap := MapOf(oldParts);
    var newMap := MapOf(newParts);
    var changed := ChangedLoop(newMap, oldMap);
    deltas := RemovedLoop(oldMap, newMap, changed);
  }

  /** First pass: `newPartsMap.forEach`. */
  method ChangedLoop(newMap: QtyMap, oldMap: QtyMap) returns (deltas: QtyMap)
    ensures deltas == ChangedPass(newMap, oldMap, [])
  {
    deltas := [];
    var i := 0;
    while i < |newMap|
      invariant 0 <= i <= |newMap|
      invariant ChangedPass(newMap[i..], oldMap, deltas) == ChangedPass(newMap, oldMap, [])
    {
      var partId := newMap[i].0;
      var delta := newMap[i].1 - Lookup(oldMap, partId).GetOr(0);
      var next := if delta != 0 then Put(deltas, partId, Lookup(deltas, partId).GetOr(0) - delta) else deltas;
      ChangedPassStep(newMap, i, oldMap, deltas);
      deltas := next;
      i := i + 1;
    }
  }

  /** Second pass: `originalPartsMap.forEach`. */
  method RemovedLoop(oldMap: QtyMap, newMap: QtyMap, start: QtyMap) returns (deltas: QtyMap)
    ensures deltas == RemovedPass(oldMap, newMap, start)
  {
    deltas := start;
    var i := 0;
    while i < |oldMap|
      invariant 0 <= i <= |oldMap|
      invariant RemovedPass(oldMap[i..], newMap, deltas) == RemovedPass(oldMap, newMap, start)
    {
      var partId := oldMap[i].0;
      var next := if Lookup(newMap, partId).None? then Put(deltas, partId, Lookup(deltas, partId).GetOr(0) + oldMap[i].1) else deltas;
      RemovedPassStep(oldMap, i, newMap, deltas);
      deltas := next;
      i := i + 1;
    }
  }

  /** The first pass over a suffix is one step followed by the rest. */
  lemma ChangedPassStep(entries: QtyMap, i: nat, oldMap: QtyMap, acc: QtyMap)
    requires i < |entries|
    ensures ChangedPass(entries[i..], oldMap, acc) == ChangedPass(entries[i + 1..], oldMap, ChangedStep(entries[i], oldMap, acc))
  {
    assert entries[i..][0] == entries[i] && entries[i..][1..] == entries[i + 1..];
  }

  /** The second pass over a suffix is one step followed by the rest. */
  lemma RemovedPassStep(entries: QtyMap, i: nat, newMap: QtyMap, acc: QtyMap)
    requires i < |entries|
    ensures RemovedPass(entries[i..], newMap, acc) == RemovedPass(entries[i + 1..], newMap, RemovedStep(entries[i], newMap, acc))
  {
    assert entries[i..][0] == entries[i] && entries[i..][1..] == entries[i + 1..];
  }

  /** The stock changes of a parts-list edit, in the order they are applied. */
  function ReconcileDeltas(oldParts: seq<PartUsage>, newParts: seq<PartUsage>): seq<Delta> {
    var m := StockDeltas(oldParts, newParts);
    seq(|m|, i requires 0 <= i < |m| => Delta(m[i].0, m[i].1))
  }

  /** The change for a listed part: minus the difference between its new
      and its old quantity, none when the quantity is unchanged. */
  function ChangeOf(newQty: int, oldQty: Option<int>): Option<int> {
    var diff := newQty - oldQty.GetOr(0);
    if diff != 0 then Some(-diff) else None
  }

  /** The change that reconciliation makes to part `p`, if any. */
  function ExpectedChange(oldMap: QtyMap, newMap: QtyMap, p: string): Option<int> {
    if Lookup(newMap, p).Some? then ChangeOf(Lookup(newMap, p).value, Lookup(oldMap, p))
    else if Lookup(oldMap, p).Some? then Some(Lookup(oldMap, p).value)
    else None
  }

  lemma {:induction false} ChangedPassSpec(entries: QtyMap, oldMap: QtyMap, acc: QtyMap, p: string)
    requires UniqueKeys(entries)
    requires Lookup(entries, p).Some? ==> Lookup(acc, p).None?
    ensures Lookup(ChangedPass(entries, oldMap, acc), p) ==
            if Lookup(entries, p).Some? then ChangeOf(Lookup(entries, p).value, Lookup(oldMap, p))
            else Lookup(acc, p)
    decreases |entries|
  {
    if entries != [] {
      var id := entries[0].0;
      var delta := entries[0].1 - Lookup(oldMap, id).GetOr(0);
      var acc' := if delta != 0 then Put(acc, id, Lookup(acc, id).GetOr(0) - delta) else acc;
      assert ChangedPass(entries, oldMap, acc) == ChangedPass(entries[1..], oldMap, acc');
      if id == p {
        LookupIffKey(entries[1..], p);
        assert Lookup(entries[1..], p).None?;
        assert Lookup(acc', p) == ChangeOf(entries[0].1, Lookup(oldMap, p));
      } else {
        assert Lookup(entries[1..], p) == Lookup(entries, p);
        assert Lookup(acc', p) == Lookup(acc, p);
      }
      ChangedPassSpec(entries[1..], oldMap, acc', p);
    }
  }

  lemma {:induction false} RemovedPassSpec(entries: QtyMap, newMap: QtyMap, acc: QtyMap, p: string)
    requires UniqueKeys(entries)
    ensures Lookup(RemovedPass(entries, newMap, acc), p) ==
            if Lookup(entries, p).Some? && Lookup(newMap, p).None? then
              Some(Lookup(acc, p).GetOr(0) + Lookup(entries, p).value)
            else Lookup(acc, p)
    decreases |entries|
  {
    if entries != [] {
      var id := entries[0].0;
      var acc' := if Lookup(newMap, id).None? then Put(acc, id, Lookup(acc, id).GetOr(0) + entries[0].1) else acc;
      assert RemovedPass(entries, newMap, acc) == RemovedPass(entries[1..], newMap, acc');
      if id == p {
        LookupIffKey(entries[1..], p);
      }
      RemovedPassSpec(entries[1..], newMap, acc', p);
    }
  }

  /** Reconciliation computes, for every part in the old or the new list,
      old quantity minus new quantity: a removed part gives back its whole old
      quantity, a new part takes its whole new quantity, and an unchanged
      quantity produces no change. */
  lemma StockDeltasSpec(oldParts: seq<PartUsage>, newParts: seq<PartUsage>, p: string)
    ensures Lookup(StockDeltas(oldParts, newParts), p) == ExpectedChange(MapOf(oldParts), MapOf(newParts), p)
  {
    PassesSpec(MapOf(oldParts), MapOf(newParts), p);
  }

  lemma PassesSpec(oldMap: QtyMap, newMap: QtyMap, p: string)
    requires UniqueKeys(oldMap) && UniqueKeys(newMap)
    ensures Lookup(RemovedPass(oldMap, newMap, ChangedPass(newMap, oldMap, [])), p) == ExpectedChange(oldMap, newMap, p)
  {
    var first := ChangedPass(newMap, oldMap, []);
    ChangedPassSpec(newMap, oldMap, [], p);
    RemovedPassSpec(oldMap, newMap, first, p);
    LookupIffKey(newMap, p);
  }

  lemma {:induction false} RemovedPassKeepsUnique(entries: QtyMap, newMap: QtyMap, acc: QtyMap)
    requires UniqueKeys(acc)
    ensures UniqueKeys(RemovedPass(entries, newMap, acc))
    decreases |entries|
  {
    if entries != [] {
      var id := entries[0].0;
      var acc' := if Lookup(newMap, id).None? then Put(acc, id, Lookup(acc, id).GetOr(0) + entries[0].1) else acc;
      RemovedPassKeepsUnique(entries[1..], newMap, acc');
    }
  }

  lemma {:induction false} ChangedPassKeepsUnique(entries: QtyMap, oldMap: QtyMap, acc: QtyMap)
    requires UniqueKeys(acc)
    ensures UniqueKeys(ChangedPass(entries, oldMap, acc))
    decreases |entries|
  {
    if entries != [] {
      var id := entries[0].0;
      var delta := entries[0].1 - Lookup(oldMap, id).GetOr(0);
      var acc' := if delta != 0 then Put(acc, id, Lookup(acc, id).GetOr(0) - delta) else acc;
      ChangedPassKeepsUnique(entries[1..], oldMap, acc');
    }
  }

  /** Over a map with distinct keys, the changes addressed to `p` add up to its entry. */
  lemma {:induction false} NetDeltaOfMap(m: QtyMap, p: string)
    requires UniqueKeys(m)
    ensures NetDelta(seq(|m|, i requires 0 <= i < |m| => Delta(m[i].0, m[i].1)), p) == Lookup(m, p).GetOr(0)
  {
    var ds := seq(|m|, i requires 0 <= i < |m| => Delta(m[i].0, m[i].1));
    if m != [] {
      var tail := seq(|m[1..]|, i requires 0 <= i < |m[1..]| => Delta(m[1..][i].0, m[1..][i].1));
      assert ds[1..] == tail;
      NetDeltaOfMap(m[1..], p);
      if m[0].0 == p {
        LookupIffKey(m[1..], p);
      }
    }
  }

  /** Inventory stays consistent: when every change of an edit is written,
      each stored part's stock plus its quantity on the order is the same
      before and after the edit. */
  lemma ReconcileConservesStock(stock: map<string, int>, oldParts: seq<PartUsage>, newParts: seq<PartUsage>)
    requires Run(stock, ReconcileDeltas(oldParts, newParts)).error.None?
    ensures forall p :: p in stock ==>
              Run(stock, ReconcileDeltas(oldParts, newParts)).stock[p] + Quantity(newParts, p)
              == stock[p] + Quantity(oldParts, p)
  {
    var m := StockDeltas(oldParts, newParts);
    var ds := ReconcileDeltas(oldParts, newParts);
    ChangedPassKeepsUnique(MapOf(newParts), MapOf(oldParts), []);
    RemovedPassKeepsUnique(MapOf(oldParts), MapOf(newParts), ChangedPass(MapOf(newParts), MapOf(oldParts), []));
    RunSuccessAddsNetDelta(stock, ds);
    forall p | p in stock
      ensures Run(stock, ds).stock[p] + Quantity(newParts, p) == stock[p] + Quantity(oldParts, p)
    {
      NetDeltaOfMap(m, p);
      StockDeltasSpec(oldParts, newParts, p);
    }
  }
}
