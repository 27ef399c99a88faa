/** Scheduled uptime: how many milliseconds the machines in scope are meant
    to run over a time window, walking the window day by day through each
    machine's weekday, Saturday and Sunday hours (script.js,
    calculateScheduledUptimeMs). */
module Schedule {
  import opened Common
  import Ids

  /** The Monday-to-Friday hours: the days switched on, as the strings "1".."5",
      and start and end as minutes after midnight (absent when left blank). */
  datatype WeekdayGroup = WeekdayGroup(activeDays: seq<string>, startTime: Option<int>, endTime: Option<int>)

  /** Saturday's or Sunday's hours. */
  datatype DayGroup = DayGroup(active: bool, startTime: Option<int>, endTime: Option<int>)

  datatype MachineSchedule = MachineSchedule(weekday: Option<WeekdayGroup>, saturday: Option<DayGroup>, sunday: Option<DayGroup>)

  /** A machine as the uptime calculation sees it. */
  datatype Machine = Machine(id: string, scheduleDisabled: bool, schedule: Option<MachineSchedule>)

  /** Hours assumed per day for a machine that has no schedule. */
  const DefaultDailyHours: int := 10

  /** `getDay()`, taken in UTC: 0 is Sunday; day 0 of the epoch was a Thursday. */
  function Weekday(t: int): (d: int)
    ensures 0 <= d < 7
  {
    (DayOf(t) + 4) % 7
  }

  /** What one active day adds: the span from start to end, only when both
      are given and the span is positive. */
  function SpanMs(startTime: Option<int>, endTime: Option<int>): (r: int)
    ensures r >= 0
    ensures r > 0 <==> startTime.Some? && endTime.Some? && startTime.value < endTime.value
    ensures r > 0 ==> r == (endTime.value - startTime.value) * MsPerMinute
  {
    if startTime.Some? && endTime.Some? && (endTime.value - startTime.value) * MsPerMinute > 0
    then (endTime.value - startTime.value) * MsPerMinute
    else 0
  }

  /** Whether the schedule has hours on weekday `d`. */
  predicate ActiveOn(s: MachineSchedule, d: int) {
    if 1 <= d <= 5 then s.weekday.Some? && Ids.DecimalString(d) in s.weekday.value.activeDays
    else if d == 6 then s.saturday.Some? && s.saturday.value.active
    else if d == 0 then s.sunday.Some? && s.sunday.value.active
    else false
  }

  /** The scheduled milliseconds of one day, by its weekday. */
  function DailyMs(s: MachineSchedule, d: int): (r: int)
    ensures r >= 0
    ensures !ActiveOn(s, d) ==> r == 0
  {
    if 1 <= d <= 5 then
      if ActiveOn(s, d) then SpanMs(s.weekday.value.startTime, s.weekday.value.endTime) else 0
    else if d == 6 then
      if ActiveOn(s, d) then SpanMs(s.saturday.value.startTime, s.saturday.value.endTime) else 0
    else if d == 0 then
      if ActiveOn(s, d) then SpanMs(s.sunday.value.startTime, s.sunday.value.endTime) else 0
    else 0
  }

  /** The day walk from `t` while `t <= end`, one day at a time. */
  function WalkMs(s: MachineSchedule, t: int, end: int): (r: int)
    ensures r >= 0
    decreases end - t
  {
    if t > end then 0 else DailyMs(s, Weekday(t)) + WalkMs(s, t + MsPerDay, end)
  }

  /** How many days the walk visits. */
  function DaysWalked(t: int, end: int): nat
    decreases end - t
  {
    if t > end then 0 else 1 + DaysWalked(t + MsPerDay, end)
  }

  /** The day count a machine without a schedule is charged for:
      `Math.round(span / oneDay) + 1 || 1`. `Math.round` rounds to the
      nearest whole number, halves upwards, and a count of 0 falls back to 1.
      Apart from that fallback the count is one more than the span rounded
      to whole days; on a window that is not reversed it is at least 1. */
  function RoundedDayCount(start: int, end: int): (n: int)
    ensures n != 0
    ensures n == 1 <==> -3 * MsPerDay <= 2 * (end - start) < MsPerDay
    ensures n != 1 ==> (2 * n - 3) * MsPerDay <= 2 * (end - start) < (2 * n - 1) * MsPerDay
    ensures start <= end ==> n >= 1
  {
    var n := (end - start + MsPerDay / 2) / MsPerDay + 1;
    if n == 0 then 1 else n
  }

  /** The number of days in a window as the day walk counts them, the
      intended count for a machine without a schedule (see
      RoundedDayCountOvercounts). */
  function WalkedDayCount(start: int, end: int): (n: int)
    ensures n >= 0
  {
    if end < start then 0 else (end - start) / MsPerDay + 1
  }

  /** What one machine contributes to the scheduled uptime: nothing when its
      schedule is disabled, 10 hours per counted day without a schedule,
      otherwise the hours of the days the walk visits. */
  function MachineUptimeMs(m: Machine, start: int, end: int): (r: int)
    ensures m.scheduleDisabled ==> r == 0
    ensures !m.scheduleDisabled && m.schedule.None? ==> r == RoundedDayCount(start, end) * DefaultDailyHours * MsPerHour
    ensures !m.scheduleDisabled && m.schedule.Some? ==> r == WalkMs(m.schedule.value, start, end)
    ensures start <= end ==> r >= 0
  {
    if m.scheduleDisabled then 0
    else if m.schedule.None? then RoundedDayCount(start, end) * DefaultDailyHours * MsPerHour
    else WalkMs(m.schedule.value, start, end)
  }

  /** The intended contribution: a machine without a schedule charged 10
      hours for each day the window holds. */
  function IntendedMachineUptimeMs(m: Machine, start: int, end: int): (r: int)
    ensures r >= 0
    ensures m.scheduleDisabled ==> r == 0
  {
    if m.scheduleDisabled then 0
    else if m.schedule.None? then WalkedDayCount(start, end) * DefaultDailyHours * MsPerHour
    else WalkMs(m.schedule.value, start, end)
  }

  /** The scheduled uptime of a list of machines: the sum of what each
      contributes. It can be negative only on a reversed window, where the
      rounded day count of a machine without a schedule is negative. */
  function UptimeMs(machines: seq<Machine>, start: int, end: int): (r: int)
    ensures start <= end ==> r >= 0
  {
    if machines == [] then 0 else MachineUptimeMs(machines[0], start, end) + UptimeMs(machines[1..], start, end)
  }

  /** The source's loops: over the machines, and for each scheduled machine
      over the days of the window with a running total. */
  method ScheduledUptimeMs(machines: seq<Machine>, start: int, end: int) returns (total: int)
    ensures total == UptimeMs(machines, start, end)
  {
    total := 0;
    var i := 0;
    while i < |machines|
      invariant 0 <= i <= |machines|
      invariant total + UptimeMs(machines[i..], start, end) == UptimeMs(machines, start, end)
    {
      assert machines[i..][0] == machines[i] && machines[i..][1..] == machines[i + 1..];
      var m := machines[i];
      if m.scheduleDisabled {
      } else if m.schedule.None? {
        total := total + RoundedDayCount(start, end) * DefaultDailyHours * MsPerHour;
      } else {
        var current := start;
        ghost var walked := 0;
        while current <= end
          invariant walked + WalkMs(m.schedule.value, current, end) == WalkMs(m.schedule.value, start, end)
          invariant total - walked + UptimeMs(machines[i..], start, end) == UptimeMs(machines, start, end)
          decreases end - current
        {
          var daily := DailyMs(m.schedule.value, Weekday(current));
          total := total + daily;
          walked := walked + daily;
          current := current + MsPerDay;
        }
      }
      i := i + 1;
    }
  }

  // ---- Properties ----

  /** The corrected day count is exactly the number of days the walk visits. */
  lemma {:induction false} WalkedDayCountIsDaysWalked(t: int, end: int)
    ensures DaysWalked(t, end) == WalkedDayCount(t, end)
    decreases end - t
  {
    if t <= end {
      WalkedDayCountIsDaysWalked(t + MsPerDay, end);
      if t + MsPerDay <= end {
        assert (end - t) / MsPerDay == (end - (t + MsPerDay)) / MsPerDay + 1;
      } else {
        assert (end - t) / MsPerDay == 0;
      }
    }
  }

  /** A window from midnight of day `d` to 23:59:59 of day `d + n - 1` has n days. */
  lemma WholeDaysWindow(d: int, n: nat)
    requires n >= 1
    ensures WalkedDayCount(d * MsPerDay, (d + n) * MsPerDay - 1000) == n
  {
    assert (d + n) * MsPerDay - 1000 - d * MsPerDay == (n - 1) * MsPerDay + (MsPerDay - 1000);
  }

  /** The rounded count of the source counts one day too many on such a
      window: a one-day window counts 2 days, so 20 hours for a machine
      without a schedule, while its day walk visits 1 day. */
  lemma RoundedDayCountOvercounts(d: int, n: nat)
    requires n >= 1
    ensures RoundedDayCount(d * MsPerDay, (d + n) * MsPerDay - 1000) == n + 1
    ensures DaysWalked(d * MsPerDay, (d + n) * MsPerDay - 1000) == n
    ensures MachineUptimeMs(Machine("M", false, None), 0, MsPerDay - 1000) == 20 * MsPerHour
    ensures IntendedMachineUptimeMs(Machine("M", false, None), 0, MsPerDay - 1000) == 10 * MsPerHour
  {
    var span := (d + n) * MsPerDay - 1000 - d * MsPerDay;
    assert span + MsPerDay / 2 == n * MsPerDay + (MsPerDay / 2 - 1000);
    WholeDaysWindow(d, n);
    WalkedDayCountIsDaysWalked(d * MsPerDay, (d + n) * MsPerDay - 1000);
    WholeDaysWindow(0, 1);
  }

  /** The intended contribution of a machine without a schedule is 10 hours
      for each day the walk visits. */
  lemma IntendedUptimeIsDaysWalked(m: Machine, start: int, end: int)
    requires !m.scheduleDisabled && m.schedule.None?
    ensures IntendedMachineUptimeMs(m, start, end) == DaysWalked(start, end) * DefaultDailyHours * MsPerHour
  {
    WalkedDayCountIsDaysWalked(start, end);
  }

  /** On a window of n whole days the rounded count charges a machine
      without a schedule 10 hours more than the intended count. */
  lemma {:induction false} RoundedExceedsIntended(m: Machine, d: int, n: nat)
    requires n >= 1 && !m.scheduleDisabled && m.schedule.None?
    ensures MachineUptimeMs(m, d * MsPerDay, (d + n) * MsPerDay - 1000) ==
            IntendedMachineUptimeMs(m, d * MsPerDay, (d + n) * MsPerDay - 1000) + DefaultDailyHours * MsPerHour
  {
    RoundedDayCountOvercounts(d, n);
    WholeDaysWindow(d, n);
  }

  /** Machines that are all enabled and have no schedule are each charged
      10 hours per rounded day. */
  lemma {:induction false} UnscheduledMachinesUptime(machines: seq<Machine>, start: int, end: int)
    requires forall i :: 0 <= i < |machines| ==> !machines[i].scheduleDisabled && machines[i].schedule.None?
    ensures UptimeMs(machines, start, end) == |machines| * RoundedDayCount(start, end) * DefaultDailyHours * MsPerHour
  {
    UnscheduledChargedEach(machines, start, end, RoundedDayCount(start, end) * DefaultDailyHours * MsPerHour);
  }

  lemma {:induction false} UnscheduledChargedEach(machines: seq<Machine>, start: int, end: int, charge: int)
    requires forall i :: 0 <= i < |machines| ==> !machines[i].scheduleDisabled && machines[i].schedule.None?
    requires charge == RoundedDayCount(start, end) * DefaultDailyHours * MsPerHour
    ensures UptimeMs(machines, start, end) == |machines| * charge
  {
    if machines != [] {
      UnscheduledChargedEach(machines[1..], start, end, charge);
      assert MachineUptimeMs(machines[0], start, end) == charge;
    }
  }

  /** A scheduled machine is never counted more than the whole window when
      its hours lie within a day. */
  predicate HoursWithinDay(s: MachineSchedule) {
    (s.weekday.Some? ==> InDay(s.weekday.value.startTime) && InDay(s.weekday.value.endTime)) &&
    (s.saturday.Some? ==> InDay(s.saturday.value.startTime) && InDay(s.saturday.value.endTime)) &&
    (s.sunday.Some? ==> InDay(s.sunday.value.startTime) && InDay(s.sunday.value.endTime))
  }

  predicate InDay(minutes: Option<int>) {
    minutes.Some? ==> 0 <= minutes.value < 24 * 60
  }

  lemma {:induction false} WalkWithinWindow(s: MachineSchedule, t: int, end: int)
    requires HoursWithinDay(s)
    ensures WalkMs(s, t, end) <= DaysWalked(t, end) * MsPerDay
    decreases end - t
  {
    if t <= end {
      WalkWithinWindow(s, t + MsPerDay, end);
      assert DailyMs(s, Weekday(t)) < MsPerDay;
    }
  }

  /** The uptime of a list of machines splits over concatenation. */
  lemma {:induction false} UptimeAppend(a: seq<Machine>, b: seq<Machine>, start: int, end: int)
    ensures UptimeMs(a + b, start, end) == UptimeMs(a, start, end) + UptimeMs(b, start, end)
  {
    if a == [] {
      assert a + b == b;
    } else {
      assert (a + b)[1..] == a[1..] + b;
      UptimeAppend(a[1..], b, start, end);
    }
  }

  /** Machines whose schedule is disabled add nothing. */
  lemma {:induction false} DisabledMachinesAddNothing(machines: seq<Machine>, start: int, end: int)
    requires forall i :: 0 <= i < |machines| ==> machines[i].scheduleDisabled
    ensures UptimeMs(machines, start, end) == 0
  {
    if machines != [] {
      DisabledMachinesAddNothing(machines[1..], start, end);
    }
  }

  /** A Monday-to-Friday 08:00-17:00 machine is scheduled 9 hours on a
      Monday (day 4 of the epoch, 1970-01-05). */
  lemma WeekdayHoursExample()
    ensures var s := MachineSchedule(Some(WeekdayGroup(["1", "2", "3", "4", "5"], Some(8 * 60), Some(17 * 60))),
                                     Some(DayGroup(false, None, None)), Some(DayGroup(false, None, None)));
            UptimeMs([Machine("M1", false, Some(s))], 4 * MsPerDay, 5 * MsPerDay - 1000) == 9 * MsPerHour
  {
    var s := MachineSchedule(Some(WeekdayGroup(["1", "2", "3", "4", "5"], Some(8 * 60), Some(17 * 60))),
                             Some(DayGroup(false, None, None)), Some(DayGroup(false, None, None)));
    assert Weekday(4 * MsPerDay) == 1;
    assert Ids.DecimalString(1) == "1";
    assert DailyMs(s, 1) == 9 * MsPerHour;
    assert WalkMs(s, 5 * MsPerDay, 5 * MsPerDay - 1000) == 0;
    assert WalkMs(s, 4 * MsPerDay, 5 * MsPerDay - 1000) == 9 * MsPerHour;
    assert [Machine("M1", false, Some(s))][1..] == [];
  }
}
