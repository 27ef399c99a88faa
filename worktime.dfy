/** Worked time of a work order, derived only from its list of work
    intervals (script.js, getTotalWorkDurationMs and getActiveWorkDurationMs). */
module WorkTime {
  import opened Common

  /** One span of actively worked time; `end` is absent while the work runs. */
  datatype Interval = Interval(start: int, end: Option<int>)

  predicate IsOpen(i: Interval) {
    i.end.None?
  }

  /** What one interval adds to the worked time: its length when closed,
      nothing while it is still open. */
  function ClosedMs(i: Interval): int {
    if i.end.Some? then i.end.value - i.start else 0
  }

  /** The worked time of a list of intervals, summed left to right. */
  function WorkedMs(ivs: seq<Interval>): int
  {
    if ivs == [] then 0 else WorkedMs(ivs[..|ivs| - 1]) + ClosedMs(ivs[|ivs| - 1])
  }

  /** Reference definition: the closed intervals alone, in order. */
  function ClosedOnly(ivs: seq<Interval>): (r: seq<Interval>)
    ensures forall i :: i in r ==> i in ivs && !IsOpen(i)
    ensures forall k :: 0 <= k < |r| ==> !IsOpen(r[k])
    ensures forall i :: i in ivs && !IsOpen(i) ==> i in r
  {
    if ivs == [] then []
    else if IsOpen(ivs[0]) then ClosedOnly(ivs[1..])
    else [ivs[0]] + ClosedOnly(ivs[1..])
  }

  /** Reference definition: the sum of `end - start` over a list of closed intervals. */
  function SpanSum(ivs: seq<Interval>): int
    requires forall k :: 0 <= k < |ivs| ==> !IsOpen(ivs[k])
  {
    if ivs == [] then 0
    else
      assert !IsOpen(ivs[0]);
      (ivs[0].end.value - ivs[0].start) + SpanSum(ivs[1..])
  }

  /** Number of intervals that are still open. */
  function OpenCount(ivs: seq<Interval>): (n: nat)
    ensures n <= |ivs|
    ensures n == 0 <==> forall i :: 0 <= i < |ivs| ==> !IsOpen(ivs[i])
  {
    if ivs == [] then 0 else (if IsOpen(ivs[0]) then 1 else 0) + OpenCount(ivs[1..])
  }

  /** Source: the running total of getTotalWorkDurationMs. */
  method TotalWorkDurationMs(ivs: seq<Interval>) returns (total: int)
    ensures total == WorkedMs(ivs)
  {
    total := 0;
    var i := 0;
    while i < |ivs|
      invariant 0 <= i <= |ivs|
      invariant total == WorkedMs(ivs[..i])
    {
      assert ivs[..i + 1][..i] == ivs[..i];
      if ivs[i].end.Some? {
        total := total + (ivs[i].end.value - ivs[i].start);
      }
      i := i + 1;
    }
    assert ivs[..i] == ivs;
  }

  /** True when the order is "En Proceso" and its last interval is open:
      the case in which the live timer adds the running span. */
  predicate IsRunning(status: Status, ivs: seq<Interval>) {
    status == EnProceso && |ivs| > 0 && IsOpen(ivs[|ivs| - 1])
  }

  /** Source: getActiveWorkDurationMs, with the clock as the parameter `now`.
      A running order shows the worked time it would have if its open interval
      were closed now; any other order shows its worked time. */
  method ActiveWorkDurationMs(status: Status, ivs: seq<Interval>, now: int) returns (total: int)
    ensures IsRunning(status, ivs) ==>
      total == WorkedMs(ivs[|ivs| - 1 := Interval(ivs[|ivs| - 1].start, Some(now))])
    ensures !IsRunning(status, ivs) ==> total == WorkedMs(ivs)
    ensures IsRunning(status, ivs) && ivs[|ivs| - 1].start <= now ==> total >= WorkedMs(ivs)
  {
    total := TotalWorkDurationMs(ivs);
    if status == EnProceso && |ivs| > 0 {
      var last := ivs[|ivs| - 1];
      if last.end.None? {
        total := total + (now - last.start);
        CloseAtAddsSpan(ivs, |ivs| - 1, now);
      }
    }
  }

  // ---- Properties of the worked time ----

  /** Worked time is additive over concatenation. */
  lemma {:induction false} WorkedMsAppend(a: seq<Interval>, b: seq<Interval>)
    ensures WorkedMs(a + b) == WorkedMs(a) + WorkedMs(b)
    decreases |b|
  {
    if b == [] {
      assert a + b == a;
    } else {
      var b' := b[..|b| - 1];
      assert (a + b)[..|a + b| - 1] == a + b';
      assert (a + b)[|a + b| - 1] == b[|b| - 1];
      WorkedMsAppend(a, b');
    }
  }

  /** Open intervals are ignored: the worked time is the span sum of the
      closed intervals only. */
  lemma {:induction false} WorkedMsIsClosedSpanSum(ivs: seq<Interval>)
    ensures WorkedMs(ivs) == SpanSum(ClosedOnly(ivs))
  {
    if ivs != [] {
      var head := ivs[0];
      var tail := ivs[1..];
      assert ivs == [head] + tail;
      WorkedMsAppend([head], tail);
      assert [head][..0] == [];
      WorkedMsIsClosedSpanSum(tail);
    }
  }

  /** Appending an open interval leaves the worked time unchanged. */
  lemma AppendOpenKeepsWorked(ivs: seq<Interval>, start: int)
    ensures WorkedMs(ivs + [Interval(start, None)]) == WorkedMs(ivs)
  {
    WorkedMsAppend(ivs, [Interval(start, None)]);
    assert [Interval(start, None)][..0] == [];
  }

  /** Closing an open interval at `now` adds exactly `now - start`. */
  lemma {:induction false} CloseAtAddsSpan(ivs: seq<Interval>, k: nat, now: int)
    requires k < |ivs| && IsOpen(ivs[k])
    ensures WorkedMs(ivs[k := Interval(ivs[k].start, Some(now))]) == WorkedMs(ivs) + (now - ivs[k].start)
  {
    var closed := Interval(ivs[k].start, Some(now));
    var pre, post := ivs[..k], ivs[k + 1..];
    assert ivs == pre + [ivs[k]] + post;
    assert ivs[k := closed] == pre + [closed] + post;
    WorkedMsAppend(pre + [ivs[k]], post);
    WorkedMsAppend(pre + [closed], post);
    WorkedMsAppend(pre, [ivs[k]]);
    WorkedMsAppend(pre, [closed]);
    assert [ivs[k]][..0] == [] && [closed][..0] == [];
  }

  /** Worked time is never negative when every closed interval ends no
      earlier than it starts. */
  lemma {:induction false} WorkedMsNonNegative(ivs: seq<Interval>)
    requires forall i :: 0 <= i < |ivs| ==> ivs[i].end.Some? ==> ivs[i].start <= ivs[i].end.value
    ensures WorkedMs(ivs) >= 0
  {
    if ivs != [] {
      WorkedMsNonNegative(ivs[..|ivs| - 1]);
    }
  }
}
