/** Availability accounting: merging excluded time, clipping outages, and the seconds reported. */
module Accounting {
  import opened Basics
  import opened Sequences
  import opened Intervals

  datatype UptimeWindowStats = UptimeWindowStats(
    totalChecks: int, successfulChecks: int, failedChecks: int,
    maintenanceChecks: int, maintenanceFailedChecks: int,
    downtimeSeconds: int, reportableSeconds: int,
    windowStartedAt: Option<Time>, windowEndedAt: Option<Time>)

  datatype UptimeStats = UptimeStats(
    twentyFourHour: UptimeWindowStats, sevenDay: UptimeWindowStats,
    thirtyDay: UptimeWindowStats, retained: UptimeWindowStats)

  // ----- excluded time -----

  ghost function UnionOfGroups(groups: seq<seq<Interval>>): set<Time> {
    if groups == [] then {} else UnionOfGroups(groups[..|groups| - 1]) + UnionOf(groups[|groups| - 1])
  }

  function StartsNoLater(): (Interval, Interval) -> bool {
    (a: Interval, b: Interval) => a.start <= b.start
  }

  method Concatenate(groups: seq<seq<Interval>>) returns (all: seq<Interval>)
    ensures UnionOf(all) == UnionOfGroups(groups)
  {
    all := [];
    for g := 0 to |groups|
      invariant UnionOf(all) == UnionOfGroups(groups[..g])
    {
      assert groups[..g + 1][..g] == groups[..g];
      UnionOfConcat(all, groups[g]);
      all := all + groups[g];
    }
    assert groups[..|groups|] == groups;
  }

  method ByStart(groups: seq<seq<Interval>>) returns (sorted: seq<Interval>)
    ensures UnionOf(sorted) == UnionOfGroups(groups)
    ensures forall k :: 0 < k < |sorted| ==> sorted[k - 1].start <= sorted[k].start
  {
    var all := Concatenate(groups);
    sorted := SortRows(StartsNoLater(), all);
    UnionOfReorder(all, sorted);
    forall k | 0 < k < |sorted| ensures sorted[k - 1].start <= sorted[k].start {
      assert StartsNoLater()(sorted[k - 1], sorted[k]);
    }
  }

  lemma UnionOfNext(s: seq<Interval>, k: nat)
    requires k < |s|
    ensures UnionOf(s[..k + 1]) == UnionOf(s[..k]) + Span(s[k])
  {
    assert s[..k + 1] == s[..k] + [s[k]];
    UnionOfPush(s[..k], s[k]);
  }

  lemma ExtendLast(merged: seq<Interval>, interval: Interval)
    requires merged != [] && Separated(merged)
    requires merged[|merged| - 1].start <= interval.start <= merged[|merged| - 1].end
    ensures var last := |merged| - 1;
      var r := merged[last := merged[last].(end := MaxTime(merged[last].end, interval.end))];
      UnionOf(r) == UnionOf(merged) + Span(interval) && Separated(r)
  {
    var last := |merged| - 1;
    var extended := merged[last].(end := MaxTime(merged[last].end, interval.end));
    assert merged == merged[..last] + [merged[last]];
    assert merged[last := extended] == merged[..last] + [extended];
    UnionOfPush(merged[..last], merged[last]);
    UnionOfPush(merged[..last], extended);
    assert Span(extended) == Span(merged[last]) + Span(interval);
  }

  lemma StartApart(merged: seq<Interval>, interval: Interval)
    requires Separated(merged)
    requires merged != [] ==> merged[|merged| - 1].start <= interval.start && merged[|merged| - 1].end < interval.start
    ensures UnionOf(merged + [interval]) == UnionOf(merged) + Span(interval)
    ensures Separated(merged + [interval])
  {
    UnionOfPush(merged, interval);
    var r := merged + [interval];
    forall i | 0 <= i < |merged| ensures r[i].start <= interval.start && r[i].end < interval.start {
      assert i < |merged| - 1 ==> merged[i].end < merged[|merged| - 1].start;
    }
  }

  /** Merging changes no instant: the result covers exactly what the groups cover together, however
      they overlap (an inverted interval covers nothing), and its pieces neither overlap nor touch. */
  method ExcludedIntervals(groups: seq<seq<Interval>>) returns (merged: seq<Interval>)
    ensures UnionOf(merged) == UnionOfGroups(groups)
    ensures Separated(merged)
  {
    var sorted := ByStart(groups);
    merged := [];
    for k := 0 to |sorted|
      invariant UnionOf(merged) == UnionOf(sorted[..k])
      invariant Separated(merged)
      invariant merged != [] ==> k > 0 && merged[|merged| - 1].start <= sorted[k - 1].start
    {
      var interval := sorted[k];
      UnionOfNext(sorted, k);
      var last := |merged| - 1;
      if last >= 0 && !(interval.start > merged[last].end) {
        ExtendLast(merged, interval);
        merged := merged[last := merged[last].(end := MaxTime(merged[last].end, interval.end))];
      } else {
        StartApart(merged, interval);
        merged := merged + [interval];
      }
    }
    assert sorted[..|sorted|] == sorted;
  }

  // ----- clipping -----

  function ClippedInterval(start: Time, end: Time, interval: Interval): (r: Option<Interval>)
    ensures r.Some? <==> Instants(start, end) * Span(interval) != {}
    ensures r.Some? ==> r.value.start < r.value.end && Span(r.value) == Instants(start, end) * Span(interval)
  {
    var overlapStart := MaxTime(start, interval.start);
    var overlapEnd := MinTime(end, interval.end);
    assert overlapStart < overlapEnd ==> overlapStart in Instants(start, end) * Span(interval);
    assert Instants(overlapStart, overlapEnd) == Instants(start, end) * Span(interval);
    if !(overlapEnd > overlapStart) then None else Some(Interval(overlapStart, overlapEnd))
  }

  method OverlapDuration(start: Time, end: Time, intervals: seq<Interval>) returns (total: int)
    ensures total == SpanSum(Instants(start, end), intervals)
    ensures Disjoint(intervals) ==> total == |Instants(start, end) * UnionOf(intervals)|
  {
    ghost var w := Instants(start, end);
    total := 0;
    for k := 0 to |intervals|
      invariant total == SpanSum(w, intervals[..k])
    {
      assert intervals[..k + 1][..k] == intervals[..k];
      var overlap := ClippedInterval(start, end, intervals[k]);
      if overlap.Some? {
        total := total + (overlap.value.end - overlap.value.start);
        assert |Span(overlap.value)| == overlap.value.end - overlap.value.start;
      } else {
        assert w * Span(intervals[k]) == {};
      }
    }
    assert intervals[..|intervals|] == intervals;
    if Disjoint(intervals) { DisjointSpanSum(w, intervals); }
  }

  // ----- one availability window -----

  function WindowStart(firstProbe: Time, cutoff: Option<Time>): Time {
    if cutoff.Some? && cutoff.value > firstProbe then cutoff.value else firstProbe
  }

  /** Instants of w that lie in an outage and in no excluded interval. */
  ghost function BadInstants(w: set<Time>, outages: seq<Interval>, excluded: set<Time>): set<Time> {
    w * UnionOf(outages) - excluded
  }

  /** Capping the sum of net durations, as the code reports it. */
  ghost function Capped(w: set<Time>, outages: seq<Interval>, excluded: seq<Interval>): int {
    MinTime(|w|, NetSum(w, outages, excluded))
  }

  /** No unexcluded instant of the window lies in two outages, or the whole window is bad anyway. */
  ghost predicate Measurable(w: set<Time>, outages: seq<Interval>, excluded: set<Time>) {
    !Overlaps(w, outages, excluded) || BadInstants(w, outages, excluded) == w
  }

  /** The reported duration never undercounts the bad instants, and it is their measure exactly if and
      only if no unexcluded instant lies in two outages or every instant of the window is bad. */
  lemma CappedExactly(w: set<Time>, outages: seq<Interval>, excluded: seq<Interval>)
    requires Disjoint(excluded)
    ensures Capped(w, outages, excluded) >= |BadInstants(w, outages, UnionOf(excluded))|
    ensures Capped(w, outages, excluded) == |BadInstants(w, outages, UnionOf(excluded))|
            <==> Measurable(w, outages, UnionOf(excluded))
  {
    var bad := BadInstants(w, outages, UnionOf(excluded));
    NetSumIsNetTime(w, outages, excluded);
    NetTimeExact(w, outages, UnionOf(excluded));
    assert bad <= w;
    hide NetSum, NetTime, Overlaps, BadInstants, UnionOf, Disjoint;
    SubsetCount(bad, w);
    if |bad| == |w| { SameSize(bad, w); }
  }

  lemma SameSize(a: set<Time>, b: set<Time>)
    requires a <= b && |a| == |b|
    ensures a == b
  {
    assert b == a + (b - a);
  }

  lemma DisjointMeasurable(w: set<Time>, outages: seq<Interval>, excluded: set<Time>)
    requires Disjoint(outages)
    ensures Measurable(w, outages, excluded)
  {
    DisjointNeverOverlaps(w, outages, excluded);
  }

  /** Two outages over the same four seconds of a ten second window are reported as eight. */
  lemma OverlapReportedTwice()
    ensures var w, outages := Instants(0, 10 * SECOND), [Interval(0, 4 * SECOND), Interval(0, 4 * SECOND)];
      Capped(w, outages, []) / SECOND == 8 && |BadInstants(w, outages, {})| / SECOND == 4
  {
    var w, o := Instants(0, 10 * SECOND), Interval(0, 4 * SECOND);
    assert w * Span(o) == Span(o) && |Span(o)| == 4 * SECOND;
    assert [o, o][..1] == [o] && [o][..0] == [];
    assert NetSum(w, [o], []) == 4 * SECOND;
    assert UnionOf([o]) == UnionOf([o][..0]) + Span(o) == Span(o);
    assert UnionOf([o, o]) == UnionOf([o]) + Span(o) == Span(o);
    assert BadInstants(w, [o, o], {}) == Span(o);
  }

  /** The loop shared by the window and the daily computation, with the cap that ends it. */
  method CappedDowntime(start: Time, end: Time, outages: seq<Interval>, excluded: seq<Interval>) returns (downtime: int)
    requires start < end
    ensures var w := Instants(start, end);
      && downtime == Capped(w, outages, excluded)
      && (Disjoint(excluded) ==>
            var bad := BadInstants(w, outages, UnionOf(excluded));
            downtime >= |bad| && (downtime == |bad| <==> Measurable(w, outages, UnionOf(excluded))))
  {
    ghost var w := Instants(start, end);
    downtime := 0;
    for k := 0 to |outages|
      invariant downtime == NetSum(w, outages[..k], excluded)
    {
      assert outages[..k + 1][..k] == outages[..k];
      var overlap := ClippedInterval(start, end, outages[k]);
      if overlap.Some? {
        var covered := OverlapDuration(overlap.value.start, overlap.value.end, excluded);
        var outageDuration := overlap.value.end - overlap.value.start - covered;
        assert Span(overlap.value) == w * Span(outages[k]);
        if outageDuration > 0 {
          downtime := downtime + outageDuration;
        }
      } else {
        assert w * Span(outages[k]) == {};
      }
    }
    assert outages[..|outages|] == outages;
    if downtime > end - start {
      downtime := end - start;
    }
    if Disjoint(excluded) {
      CappedExactly(w, outages, excluded);
    }
  }

  /** The accounting step fills in the two durations and nothing else. */
  ghost predicate SameCounts(r: UptimeWindowStats, stats: UptimeWindowStats) {
    r == stats.(reportableSeconds := r.reportableSeconds, downtimeSeconds := r.downtimeSeconds)
  }

  ghost predicate Exact(r: UptimeWindowStats, w: set<Time>, outages: seq<Interval>, excluded: set<Time>) {
    && r.reportableSeconds == |w| / SECOND
    && r.downtimeSeconds == |BadInstants(w, outages, excluded)| / SECOND
  }

  /** Downtime is the count of bad instants, in whole seconds, whenever that can be told from the net
      durations, as with disjoint outages; it is never less; the other fields pass through. */
  method ApplyAvailabilityWindow(
      stats: UptimeWindowStats, firstProbe: Time, cutoff: Option<Time>, now: Time,
      outages: seq<Interval>, maintenance: seq<Interval>)
    returns (r: UptimeWindowStats)
    ensures SameCounts(r, stats)
    ensures var w := Instants(WindowStart(firstProbe, cutoff), now);
      && r.reportableSeconds == |w| / SECOND
      && r.downtimeSeconds == Capped(w, outages, maintenance) / SECOND
      && (Disjoint(maintenance) && (Disjoint(outages) || Measurable(w, outages, UnionOf(maintenance))) ==>
            Exact(r, w, outages, UnionOf(maintenance)))
  {
    var start := firstProbe;
    if cutoff.Some? && cutoff.value > start {
      start := cutoff.value;
    }
    ghost var w := Instants(start, now);
    if Disjoint(outages) { DisjointMeasurable(w, outages, UnionOf(maintenance)); }
    if !(now > start) {
      assert w == {};
      assert BadInstants(w, outages, UnionOf(maintenance)) == {};
      return stats.(reportableSeconds := 0, downtimeSeconds := 0);
    }
    var reportable := now - start;
    var downtime := CappedDowntime(start, now, outages, maintenance);
    r := stats.(reportableSeconds := reportable / SECOND, downtimeSeconds := downtime / SECOND);
  }

  /** All four windows of one monitor: with disjoint outages each reports exactly the instants since
      the later of first probe and cutoff that lie in an outage and in neither maintenance nor
      observer-down time, however those two overlap. */
  method AddStrictAvailability(
      stats: UptimeStats, now: Time, outages: seq<Interval>,
      maintenance: seq<Interval>, observerDown: seq<Interval>)
    returns (r: UptimeStats)
    ensures stats.retained.windowStartedAt.None? ==> r == stats
    ensures SameCounts(r.twentyFourHour, stats.twentyFourHour) && SameCounts(r.sevenDay, stats.sevenDay)
    ensures SameCounts(r.thirtyDay, stats.thirtyDay) && SameCounts(r.retained, stats.retained)
    ensures stats.retained.windowStartedAt.Some? && Disjoint(outages) ==>
      var firstProbe := stats.retained.windowStartedAt.value;
      var excluded := UnionOf(maintenance) + UnionOf(observerDown);
      && Exact(r.twentyFourHour, Instants(WindowStart(firstProbe, Some(now - DAY)), now), outages, excluded)
      && Exact(r.sevenDay, Instants(WindowStart(firstProbe, Some(now - 7 * DAY)), now), outages, excluded)
      && Exact(r.thirtyDay, Instants(WindowStart(firstProbe, Some(now - 30 * DAY)), now), outages, excluded)
      && Exact(r.retained, Instants(WindowStart(firstProbe, None), now), outages, excluded)
  {
    if stats.retained.windowStartedAt.None? {
      return stats;
    }
    var firstProbe := stats.retained.windowStartedAt.value;
    var windows := ExcludedIntervals([maintenance, observerDown]);
    TwoGroups(maintenance, observerDown);
    SeparatedIsDisjoint(windows);
    assert UnionOf(windows) == UnionOf(maintenance) + UnionOf(observerDown);
    var day := ApplyAvailabilityWindow(stats.twentyFourHour, firstProbe, Some(now - DAY), now, outages, windows);
    var week := ApplyAvailabilityWindow(stats.sevenDay, firstProbe, Some(now - 7 * DAY), now, outages, windows);
    var month := ApplyAvailabilityWindow(stats.thirtyDay, firstProbe, Some(now - 30 * DAY), now, outages, windows);
    var retained := ApplyAvailabilityWindow(stats.retained, firstProbe, None, now, outages, windows);
    r := UptimeStats(day, week, month, retained);
  }

  lemma TwoGroups(a: seq<Interval>, b: seq<Interval>)
    ensures UnionOfGroups([a, b]) == UnionOf(a) + UnionOf(b)
  {
    assert [a, b][..1] == [a];
    assert UnionOfGroups([a]) == UnionOfGroups([]) + UnionOf(a);
  }
}
