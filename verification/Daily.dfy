/** Availability per UTC day, and its agreement with the accounting of one long window. */
module Daily {
  import opened Basics
  import opened Intervals
  import opened Accounting

  datatype DailyUptimeStats = DailyUptimeStats(date: Time, downtimeSeconds: int, reportableSeconds: int)

  datatype MaintenanceWindow = MaintenanceWindow(monitor: MonitorId, startsAt: Time, endsAt: Time)

  /** Midnight UTC of the day holding t. */
  function StartOfDay(t: Time): (d: Time)
    ensures d <= t < d + DAY && d % DAY == 0
  {
    t - t % DAY
  }

  function DayStart(firstDay: Time, offset: nat): Time {
    firstDay + offset * DAY
  }

  ghost function WindowsOf(windows: seq<MaintenanceWindow>, monitor: MonitorId): seq<Interval> {
    if windows == [] then []
    else
      var w := windows[|windows| - 1];
      WindowsOf(windows[..|windows| - 1], monitor) + if w.monitor == monitor then [Interval(w.startsAt, w.endsAt)]
          else []
  }

  /** The instants of a monitor's windows. */
  lemma {:induction false} WindowInstants(windows: seq<MaintenanceWindow>, monitor: MonitorId, t: Time)
    ensures t in UnionOf(WindowsOf(windows, monitor))
            <==> exists k :: 0 <= k < |windows| && windows[k].monitor == monitor
                             && windows[k].startsAt <= t < windows[k].endsAt
  {
    if windows != [] {
      var n := |windows| - 1;
      var w, front := windows[n], windows[..n];
      WindowInstants(front, monitor, t);
      assert forall k :: 0 <= k < n ==> windows[k] == front[k];
      if w.monitor == monitor {
        UnionOfPush(WindowsOf(front, monitor), Interval(w.startsAt, w.endsAt));
      } else {
        assert WindowsOf(front, monitor) + [] == WindowsOf(front, monitor);
      }
    }
  }

  // ----- what one entry means -----

  /** The reportable instants of a day: from the first probe on and before now. */
  ghost function DayInstants(dayStart: Time, firstProbe: Time, now: Time): set<Time> {
    Instants(MaxTime(dayStart, firstProbe), MinTime(dayStart + DAY, now))
  }

  ghost predicate DayEntry(
    e: DailyUptimeStats, dayStart: Time, firstProbe: Option<Time>, now: Time,
    outages: seq<Interval>, excluded: set<Time>)
  {
    && e.date == dayStart
    && (firstProbe.None? ==> e.reportableSeconds == 0 && e.downtimeSeconds == 0)
    && (firstProbe.Some? ==>
          var w := DayInstants(dayStart, firstProbe.value, now);
          && e.reportableSeconds == |w| / SECOND
          && e.downtimeSeconds == MinTime(|w|, NetTime(w, outages, excluded)) / SECOND)
  }

  ghost predicate DayEntries(
    entries: seq<DailyUptimeStats>, firstDay: Time, firstProbe: Option<Time>, now: Time,
    outages: seq<Interval>, excluded: set<Time>)
  {
    forall d :: 0 <= d < |entries| ==>
      DayEntry(entries[d], DayStart(firstDay, d), firstProbe, now, outages, excluded)
  }

  method MaintenanceByMonitor(windows: seq<MaintenanceWindow>) returns (byMonitor: map<MonitorId, seq<Interval>>)
    ensures forall m :: Lookup(byMonitor, m) == WindowsOf(windows, m)
  {
    byMonitor := map[];
    for k := 0 to |windows|
      invariant forall m :: Lookup(byMonitor, m) == WindowsOf(windows[..k], m)
    {
      assert windows[..k + 1][..k] == windows[..k];
      var w := windows[k];
      byMonitor := byMonitor[w.monitor := Lookup(byMonitor, w.monitor) + [Interval(w.startsAt, w.endsAt)]];
    }
    assert windows[..|windows|] == windows;
  }

  method OneDay(
      dayStart: Time, firstProbe: Option<Time>, now: Time,
      outages: seq<Interval>, maintenance: seq<Interval>, observerDown: seq<Interval>)
    returns (entry: DailyUptimeStats)
    ensures DayEntry(entry, dayStart, firstProbe, now, outages, UnionOf(maintenance) + UnionOf(observerDown))
  {
    var dayEnd := dayStart + DAY;
    entry := DailyUptimeStats(dayStart, 0, 0);
    if firstProbe.Some? {
      var coverageStart := MaxTime(dayStart, firstProbe.value);
      var coverageEnd := MinTime(dayEnd, now);
      ghost var w := Instants(coverageStart, coverageEnd);
      if coverageEnd > coverageStart {
        var intervals := ExcludedIntervals([maintenance, observerDown]);
        TwoGroups(maintenance, observerDown);
        SeparatedIsDisjoint(intervals);
        NetSumIsNetTime(w, outages, intervals);
        var reportable := coverageEnd - coverageStart;
        var downtime := CappedDowntime(coverageStart, coverageEnd, outages, intervals);
        entry := DailyUptimeStats(dayStart, downtime / SECOND, reportable / SECOND);
      } else {
        assert w == {};
      }
    }
  }

  method MonitorDays(
      firstDay: Time, days: nat, firstProbe: Option<Time>, now: Time,
      outages: seq<Interval>, maintenance: seq<Interval>, observerDown: seq<Interval>)
    returns (entries: seq<DailyUptimeStats>)
    ensures |entries| == days
    ensures DayEntries(entries, firstDay, firstProbe, now, outages, UnionOf(maintenance) + UnionOf(observerDown))
  {
    entries := [];
    for offset := 0 to days
      invariant |entries| == offset
      invariant DayEntries(entries, firstDay, firstProbe, now, outages, UnionOf(maintenance) + UnionOf(observerDown))
    {
      var entry := OneDay(DayStart(firstDay, offset), firstProbe, now, outages, maintenance, observerDown);
      entries := entries + [entry];
    }
  }

  function Find(m: map<MonitorId, Time>, monitor: MonitorId): Option<Time> {
    if monitor in m then Some(m[monitor]) else None
  }

  /** The entries of one monitor, from the tables the loop indexes by monitor. */
  ghost predicate MonitorReport(
    entries: seq<DailyUptimeStats>, days: int, now: Time, m: MonitorId, firstProbes: map<MonitorId, Time>,
    outagesByMonitor: map<MonitorId, seq<Interval>>, maintenance: seq<MaintenanceWindow>, observerDown: seq<Interval>)
  {
    && |entries| == days
    && DayEntries(entries, StartOfDay(now) - (days - 1) * DAY, Find(firstProbes, m), now,
                  Lookup(outagesByMonitor, m), UnionOf(WindowsOf(maintenance, m)) + UnionOf(observerDown))
  }

  method DailyUptime(
      now: Time, days: int, monitors: seq<MonitorId>, firstProbes: map<MonitorId, Time>,
      outagesByMonitor: map<MonitorId, seq<Interval>>, maintenance: seq<MaintenanceWindow>, observerDown: seq<Interval>)
    returns (result: map<MonitorId, seq<DailyUptimeStats>>)
    ensures days <= 0 ==> result == map[]
    ensures days > 0 ==> forall m :: m in result <==> m in monitors
    ensures forall m :: m in result ==>
      MonitorReport(result[m], days, now, m, firstProbes, outagesByMonitor, maintenance, observerDown)
  {
    result := map[];
    if days <= 0 {
      return;
    }
    var today := StartOfDay(now);
    var firstDay := today - (days - 1) * DAY;
    var maintenanceByMonitor := MaintenanceByMonitor(maintenance);
    for k := 0 to |monitors|
      invariant forall m :: m in result <==> m in monitors[..k]
      invariant forall m :: m in result ==>
        MonitorReport(result[m], days, now, m, firstProbes, outagesByMonitor, maintenance, observerDown)
    {
      var monitor := monitors[k];
      var entries := MonitorDays(firstDay, days, Find(firstProbes, monitor), now, Lookup(outagesByMonitor, monitor),
                                 Lookup(maintenanceByMonitor, monitor), observerDown);
      assert MonitorReport(entries, days, now, monitor, firstProbes, outagesByMonitor, maintenance, observerDown);
      assert monitors[..k + 1] == monitors[..k] + [monitor];
      result := result[monitor := entries];
    }
    assert monitors[..|monitors|] == monitors;
  }

  // ----- days against one window -----

  /** The first n days end to end, cut at the first probe and at now. */
  ghost function SpanOfDays(firstDay: Time, n: nat, firstProbe: Time, now: Time): set<Time> {
    Instants(MaxTime(firstDay, firstProbe), MinTime(DayStart(firstDay, n), now))
  }

  ghost function SumReportable(entries: seq<DailyUptimeStats>): int {
    if entries == [] then 0 else SumReportable(entries[..|entries| - 1]) + entries[|entries| - 1].reportableSeconds
  }

  ghost function SumDowntime(entries: seq<DailyUptimeStats>): int {
    if entries == [] then 0 else SumDowntime(entries[..|entries| - 1]) + entries[|entries| - 1].downtimeSeconds
  }

  ghost function TotalReportable(firstDay: Time, n: nat, firstProbe: Time, now: Time): nat {
    if n == 0 then 0
    else TotalReportable(firstDay, n - 1, firstProbe, now) + |DayInstants(DayStart(firstDay, n - 1), firstProbe, now)|
  }

  ghost function TotalDowntime(
    firstDay: Time, n: nat, firstProbe: Time, now: Time, outages: seq<Interval>, excluded: set<Time>): nat
  {
    if n == 0 then 0
    else
      TotalDowntime(firstDay, n - 1, firstProbe, now, outages, excluded)
      + |BadInstants(DayInstants(DayStart(firstDay, n - 1), firstProbe, now), outages, excluded)|
  }

  lemma DayStartStep(firstDay: Time, n: nat)
    requires n > 0
    ensures DayStart(firstDay, n) == DayStart(firstDay, n - 1) + DAY
    ensures DayStart(firstDay, n - 1) >= firstDay
  {
    assert DAY == 86_400_000_000_000;
  }

  lemma AppendDay(firstDay: Time, n: nat, firstProbe: Time, now: Time)
    requires n > 0
    ensures var before := SpanOfDays(firstDay, n - 1, firstProbe, now);
      var day := DayInstants(DayStart(firstDay, n - 1), firstProbe, now);
      before !! day && SpanOfDays(firstDay, n, firstProbe, now) == before + day
  {
    DayStartStep(firstDay, n);
  }

  lemma BadSplits(a: set<Time>, b: set<Time>, outages: seq<Interval>, excluded: set<Time>)
    requires a !! b
    ensures |a + b| == |a| + |b|
    ensures |BadInstants(a + b, outages, excluded)|
            == |BadInstants(a, outages, excluded)| + |BadInstants(b, outages, excluded)|
  {
    assert BadInstants(a + b, outages, excluded)
        == BadInstants(a, outages, excluded) + BadInstants(b, outages, excluded);
  }

  lemma NextDay(firstDay: Time, n: nat, firstProbe: Time, now: Time, outages: seq<Interval>, excluded: set<Time>)
    requires n > 0
    ensures var before := SpanOfDays(firstDay, n - 1, firstProbe, now);
      var day := DayInstants(DayStart(firstDay, n - 1), firstProbe, now);
      var upTo := SpanOfDays(firstDay, n, firstProbe, now);
      && |upTo| == |before| + |day|
      && |BadInstants(upTo, outages, excluded)|
         == |BadInstants(before, outages, excluded)| + |BadInstants(day, outages, excluded)|
  {
    AppendDay(firstDay, n, firstProbe, now);
    BadSplits(SpanOfDays(firstDay, n - 1, firstProbe, now), DayInstants(DayStart(firstDay, n - 1), firstProbe, now),
              outages, excluded);
  }

  /** Unrounded, the days partition the window: both durations add up exactly. */
  lemma {:induction false} DaysPartitionWindow(
    firstDay: Time, n: nat, firstProbe: Time, now: Time, outages: seq<Interval>, excluded: set<Time>)
    ensures TotalReportable(firstDay, n, firstProbe, now) == |SpanOfDays(firstDay, n, firstProbe, now)|
    ensures TotalDowntime(firstDay, n, firstProbe, now, outages, excluded)
            == |BadInstants(SpanOfDays(firstDay, n, firstProbe, now), outages, excluded)|
  {
    hide SpanOfDays, BadInstants, DayInstants, DayStart;
    if n == 0 {
      NoDays(firstDay, firstProbe, now, outages, excluded);
    } else {
      DaysPartitionWindow(firstDay, n - 1, firstProbe, now, outages, excluded);
      NextDay(firstDay, n, firstProbe, now, outages, excluded);
      assert TotalReportable(firstDay, n, firstProbe, now)
          == TotalReportable(firstDay, n - 1, firstProbe, now)
             + |DayInstants(DayStart(firstDay, n - 1), firstProbe, now)|;
    }
  }

  lemma NoDays(firstDay: Time, firstProbe: Time, now: Time, outages: seq<Interval>, excluded: set<Time>)
    ensures SpanOfDays(firstDay, 0, firstProbe, now) == {}
    ensures BadInstants(SpanOfDays(firstDay, 0, firstProbe, now), outages, excluded) == {}
  {
  }

  lemma FloorSum(a: nat, b: nat)
    ensures a / SECOND + b / SECOND <= (a + b) / SECOND <= a / SECOND + b / SECOND + 1
  {
  }

  lemma {:induction false} TruncatedDays(
    entries: seq<DailyUptimeStats>, firstDay: Time, firstProbe: Time, now: Time,
    outages: seq<Interval>, excluded: set<Time>)
    requires Disjoint(outages) && entries != []
    requires DayEntries(entries, firstDay, Some(firstProbe), now, outages, excluded)
    ensures var whole := TotalReportable(firstDay, |entries|, firstProbe, now) / SECOND;
      SumReportable(entries) <= whole <= SumReportable(entries) + |entries| - 1
    ensures var whole := TotalDowntime(firstDay, |entries|, firstProbe, now, outages, excluded) / SECOND;
      SumDowntime(entries) <= whole <= SumDowntime(entries) + |entries| - 1
  {
    var n := |entries| - 1;
    var w := DayInstants(DayStart(firstDay, n), firstProbe, now);
    var bad := BadInstants(w, outages, excluded);
    assert DayEntry(entries[n], DayStart(firstDay, n), Some(firstProbe), now, outages, excluded);
    NetTimeExact(w, outages, excluded);
    DisjointNeverOverlaps(w, outages, excluded);
    SubsetCount(bad, w);
    assert entries[n].downtimeSeconds == |bad| / SECOND;
    if n > 0 {
      TruncatedDays(entries[..n], firstDay, firstProbe, now, outages, excluded);
      FloorSum(TotalReportable(firstDay, n, firstProbe, now), |w|);
      FloorSum(TotalDowntime(firstDay, n, firstProbe, now, outages, excluded), |bad|);
    }
  }

  /** Over n days ending today, the reported daily seconds fall short of the window that starts at
      the first midnight by less than one second per day boundary, and never exceed it. */
  lemma DailyAgreesWithWindow(
    entries: seq<DailyUptimeStats>, window: UptimeWindowStats, firstProbe: Time, now: Time,
    outages: seq<Interval>, excluded: set<Time>)
    requires Disjoint(outages) && entries != []
    requires var firstDay := StartOfDay(now) - (|entries| - 1) * DAY;
      && DayEntries(entries, firstDay, Some(firstProbe), now, outages, excluded)
      && Exact(window, Instants(WindowStart(firstProbe, Some(firstDay)), now), outages, excluded)
    ensures SumReportable(entries) <= window.reportableSeconds <= SumReportable(entries) + |entries| - 1
    ensures SumDowntime(entries) <= window.downtimeSeconds <= SumDowntime(entries) + |entries| - 1
  {
    var n := |entries|;
    var firstDay := StartOfDay(now) - (n - 1) * DAY;
    TruncatedDays(entries, firstDay, firstProbe, now, outages, excluded);
    DaysPartitionWindow(firstDay, n, firstProbe, now, outages, excluded);
    assert DayStart(firstDay, n) > now;
    assert SpanOfDays(firstDay, n, firstProbe, now) == Instants(WindowStart(firstProbe, Some(firstDay)), now);
  }
}
