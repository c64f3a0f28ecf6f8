/** The timeline rebuilt offline: outcome runs listed in order and turned into status intervals. */
module Backfill {
  import opened Basics
  import opened Sequences
  import opened Storage
  import opened Rollups
  import opened OutcomeRuns
  import opened Timeline
  import Compaction

  datatype FailureThresholds = FailureThresholds(default: int, monitors: map<MonitorId, int>)

  function ForMonitor(t: FailureThresholds, m: MonitorId): (threshold: int)
    ensures threshold >= 1
    ensures m in t.monitors && t.monitors[m] >= 1 ==> threshold == t.monitors[m]
    ensures (m !in t.monitors || t.monitors[m] < 1) && t.default >= 1 ==> threshold == t.default
    ensures (m !in t.monitors || t.monitors[m] < 1) && t.default < 1 ==> threshold == 1
  {
    if m in t.monitors && t.monitors[m] > 0 then t.monitors[m] else if t.default > 0 then t.default else 1
  }

  // ----- listing the runs -----

  function IsReportable(): ProbeRow -> bool {
    (p: ProbeRow) => Reportable(p)
  }

  function ListOrder(): (RunRow, RunRow) -> bool {
    (a: RunRow, b: RunRow) => a.monitor < b.monitor || (a.monitor == b.monitor && a.startedAt <= b.startedAt)
  }

  ghost predicate MonitorsOrdered(runs: seq<RunRow>) {
    forall i, j :: 0 <= i < j < |runs| ==> runs[i].monitor <= runs[j].monitor
  }

  /** The listed runs so far: each monitor's rows merged in order, the last monitor's at the end. */
  ghost predicate Listing(result: seq<RunRow>, rows: seq<RunRow>) {
    && (forall m :: RunsOf(result, m) == Collapse([], RunsOf(rows, m)))
    && (result == [] <==> rows == [])
    && (rows != [] ==> result[|result| - 1].monitor == rows[|rows| - 1].monitor)
    && MonitorsOrdered(result)
  }

  lemma RunsOfLater(result: seq<RunRow>, m: MonitorId)
    requires MonitorsOrdered(result) && result != [] && result[|result| - 1].monitor < m
    ensures RunsOf(result, m) == []
  {
    forall k | 0 <= k < |result| ensures result[k].monitor < m {
      assert k < |result| - 1 ==> result[k].monitor <= result[|result| - 1].monitor;
    }
    SelectNone(RunOf(m), result);
  }

  lemma CollapsePush(rows: seq<RunRow>, row: RunRow, m: MonitorId)
    ensures Collapse([], RunsOf(rows + [row], m))
            == if row.monitor == m then Merge(Collapse([], RunsOf(rows, m)), row) else Collapse([], RunsOf(rows, m))
  {
    SelectPush(RunOf(m), rows, row);
    assert (RunsOf(rows, m) + [row])[..|RunsOf(rows, m)|] == RunsOf(rows, m);
  }

  lemma ListMerged(result: seq<RunRow>, rows: seq<RunRow>, row: RunRow)
    requires Listing(result, rows) && result != []
    requires result[|result| - 1].monitor == row.monitor && result[|result| - 1].ok == row.ok
    ensures Listing(result[|result| - 1 := Extended(result[|result| - 1], row)], rows + [row])
  {
    var last := |result| - 1;
    var front, run := result[..last], result[last];
    assert result == front + [run] && result[last := Extended(run, row)] == front + [Extended(run, row)];
    hide Select, Collapse;
    forall m ensures RunsOf(result[last := Extended(run, row)], m) == Collapse([], RunsOf(rows + [row], m)) {
      SelectPush(RunOf(m), front, run);
      SelectPush(RunOf(m), front, Extended(run, row));
      CollapsePush(rows, row, m);
      MergeLast(RunsOf(front, m), run, row);
    }
  }

  lemma AppendedToMonitor(result: seq<RunRow>, row: RunRow, m: MonitorId)
    requires MonitorsOrdered(result)
    requires result != [] ==> result[|result| - 1].monitor <= row.monitor
    requires result != [] ==> result[|result| - 1].monitor != row.monitor || result[|result| - 1].ok != row.ok
    ensures RunsOf(result + [row], m) == if row.monitor == m then Merge(RunsOf(result, m), row) else RunsOf(result, m)
  {
    SelectPush(RunOf(m), result, row);
    if m == row.monitor && result != [] {
      var last := |result| - 1;
      if result[last].monitor < m {
        RunsOfLater(result, m);
      } else {
        assert result == result[..last] + [result[last]];
        SelectPush(RunOf(m), result[..last], result[last]);
      }
    }
  }

  lemma StillOrdered(result: seq<RunRow>, row: RunRow)
    requires MonitorsOrdered(result) && (result != [] ==> result[|result| - 1].monitor <= row.monitor)
    ensures MonitorsOrdered(result + [row])
  {
    forall i | 0 <= i < |result| ensures result[i].monitor <= row.monitor {
      assert i < |result| - 1 ==> result[i].monitor <= result[|result| - 1].monitor;
    }
  }

  lemma ListAppended(result: seq<RunRow>, rows: seq<RunRow>, row: RunRow)
    requires Listing(result, rows)
    requires rows != [] ==> rows[|rows| - 1].monitor <= row.monitor
    requires result != [] ==> result[|result| - 1].monitor != row.monitor || result[|result| - 1].ok != row.ok
    ensures Listing(result + [row], rows + [row])
  {
    hide Collapse, Select, MonitorsOrdered, Merge;
    StillOrdered(result, row);
    forall m ensures RunsOf(result + [row], m) == Collapse([], RunsOf(rows + [row], m)) {
      AppendedToMonitor(result, row, m);
      CollapsePush(rows, row, m);
    }
  }

  lemma ListingStart()
    ensures Listing([], [])
  {
  }

  lemma ListingDone(result: seq<RunRow>, rows: seq<RunRow>)
    requires Listing(result, rows)
    ensures MonitorsOrdered(result) && forall m :: RunsOf(result, m) == Collapse([], RunsOf(rows, m))
  {
  }

  lemma ListNext(result: seq<RunRow>, rows: seq<RunRow>, k: nat)
    requires k < |rows| && MonitorsOrdered(rows) && Listing(result, rows[..k])
    ensures var run, last := rows[k], |result| - 1;
      Listing(if |result| > 0 && result[last].monitor == run.monitor && result[last].ok == run.ok
              then result[last := Extended(result[last], run)] else result + [run], rows[..k + 1])
  {
    var run := rows[k];
    assert rows[..k + 1] == rows[..k] + [run];
    if |result| > 0 && result[|result| - 1].monitor == run.monitor && result[|result| - 1].ok == run.ok {
      ListMerged(result, rows[..k], run);
    } else {
      ListAppended(result, rows[..k], run);
    }
  }

  method MergeListed(rows: seq<RunRow>) returns (runs: seq<RunRow>)
    requires MonitorsOrdered(rows)
    ensures MonitorsOrdered(runs)
    ensures forall m :: RunsOf(runs, m) == Collapse([], RunsOf(rows, m))
  {
    hide Listing, Collapse, Select, MonitorsOrdered;
    runs := [];
    ListingStart();
    for k := 0 to |rows|
      invariant Listing(runs, rows[..k])
    {
      var run := rows[k];
      ListNext(runs, rows, k);
      var last := |runs| - 1;
      if |runs| > 0 && runs[last].monitor == run.monitor && runs[last].ok == run.ok {
        runs := runs[last := runs[last].(endedAt := run.endedAt, probeCount := runs[last].probeCount + run.probeCount)];
      } else {
        runs := runs + [run];
      }
    }
    assert rows[..|rows|] == rows;
    ListingDone(runs, rows);
  }

  // ----- the list is the encoding of the whole history -----

  lemma {:induction false} SinglesOfMonitor(probes: seq<ProbeRow>, m: MonitorId)
    ensures RunsOf(Singles(probes), m) == Singles(Select(ProbeOf(m), probes))
  {
    if probes == [] {
      assert Singles(probes) == [];
    } else {
      var n := |probes| - 1;
      var front, p := probes[..n], probes[n];
      assert probes == front + [p] && Singles(probes) == Singles(front) + [Single(p)];
      SinglesOfMonitor(front, m);
      hide Select;
      SelectPush(RunOf(m), Singles(front), Single(p));
      SelectPush(ProbeOf(m), front, p);
      assert Singles(Select(ProbeOf(m), front) + [p]) == Singles(Select(ProbeOf(m), front)) + [Single(p)];
    }
  }

  ghost predicate Alternating(runs: seq<RunRow>) {
    forall k :: 0 < k < |runs| ==> runs[k - 1].ok != runs[k].ok
  }

  lemma {:induction false} RleAlternates(h: seq<ProbeRow>)
    ensures Alternating(Rle(h))
    ensures h != [] ==> Rle(h) != [] && Rle(h)[|Rle(h)| - 1].ok == h[|h| - 1].ok
  {
    if h != [] {
      var n := |h| - 1;
      assert h == h[..n] + [h[n]];
      RleAlternates(h[..n]);
      RlePush(h[..n], h[n]);
    }
  }

  lemma {:induction false} CollapseStable(runs: seq<RunRow>)
    requires Alternating(runs)
    ensures Collapse([], runs) == runs
  {
    if runs != [] {
      CollapseStable(runs[..|runs| - 1]);
    }
  }

  /** Merging what was compacted with what is still raw gives the encoding of both together. */
  lemma {:induction false} CollapseContinues(done: seq<ProbeRow>, rest: seq<ProbeRow>)
    ensures Collapse([], Rle(done) + Singles(rest)) == Rle(done + rest)
  {
    if rest == [] {
      assert done + rest == done && Rle(done) + Singles(rest) == Rle(done);
      RleAlternates(done);
      CollapseStable(Rle(done));
    } else {
      var n := |rest| - 1;
      var all := Rle(done) + Singles(rest);
      CollapseContinues(done, rest[..n]);
      assert done + rest == (done + rest[..n]) + [rest[n]];
      RlePush(done + rest[..n], rest[n]);
      assert all[..|all| - 1] == Rle(done) + Singles(rest[..n]);
    }
  }

  lemma TailStartsLater(done: seq<ProbeRow>, rest: seq<ProbeRow>)
    requires SortedBy(ProbeBefore(), done + rest)
    ensures SortedBy(StartsBefore(), Rle(done) + Singles(rest))
  {
    var h := done + rest;
    assert SortedBy(ProbeBefore(), done) by { assert forall i :: 0 <= i < |done| ==> done[i] == h[i]; }
    RleStarts(done);
    var runs, all := Rle(done), Rle(done) + Singles(rest);
    forall i, j | 0 <= i < j < |all| ensures StartsBefore()(all[i], all[j]) {
      if j < |runs| {
        assert StartsBefore()(runs[i], runs[j]);
      } else {
        var y := h[|done| + j - |runs|];
        if i < |runs| {
          assert runs[i] in runs && runs[i].startedAt <= h[|done| - 1].at;
          assert ProbeBefore()(h[|done| - 1], y);
        } else {
          assert ProbeBefore()(h[|done| + i - |runs|], y);
        }
      }
    }
  }

  /** Whatever order the query gives to equal starts, each monitor's listed runs encode its history. */
  lemma SortedListEncodes(
    runs: seq<RunRow>, raw: seq<ProbeRow>, sorted: seq<RunRow>, m: MonitorId, h: seq<ProbeRow>)
    requires multiset(sorted) == multiset(runs + Singles(Select(IsReportable(), raw)))
    requires SortedBy(ListOrder(), sorted)
    requires Tracks(runs, raw, m, h) && SortedBy(ProbeBefore(), h)
    ensures Collapse([], RunsOf(sorted, m)) == Rle(h)
  {
    var n: nat :| TracksAt(runs, raw, m, h, n);
    var union := runs + Singles(Select(IsReportable(), raw));
    SelectConcat(RunOf(m), runs, Singles(Select(IsReportable(), raw)));
    SinglesOfMonitor(Select(IsReportable(), raw), m);
    SelectTwice(ProbeOf(m), IsReportable(), ReportableOf(m), raw);
    assert RunsOf(union, m) == Rle(h[..n]) + Singles(h[n..]);
    assert h == h[..n] + h[n..];
    TailStartsLater(h[..n], h[n..]);
    SelectKeepsOrder(RunOf(m), StartsNoLater(), sorted);
    SelectAfterReorder(RunOf(m), StartsNoLater(), StartsBefore(), sorted, union);
    CollapseContinues(h[..n], h[n..]);
  }

  method ListReportableUptimeRuns(runs: seq<RunRow>, raw: seq<ProbeRow>) returns (listed: seq<RunRow>)
    ensures MonitorsOrdered(listed)
    ensures forall m, h :: Tracks(runs, raw, m, h) && SortedBy(ProbeBefore(), h) ==> RunsOf(listed, m) == Rle(h)
  {
    var union := runs + Singles(Select(IsReportable(), raw));
    var sorted := SortRows(ListOrder(), union);
    assert MonitorsOrdered(sorted) by {
      forall i, j | 0 <= i < j < |sorted| ensures sorted[i].monitor <= sorted[j].monitor {
        assert ListOrder()(sorted[i], sorted[j]);
      }
    }
    listed := MergeListed(sorted);
    forall m, h | Tracks(runs, raw, m, h) && SortedBy(ProbeBefore(), h) ensures RunsOf(listed, m) == Rle(h) {
      SortedListEncodes(runs, raw, sorted, m, h);
    }
  }

  // ----- intervals from runs -----

  function BackfillStatus(run: RunRow, threshold: int): Status {
    if run.ok then Up else if run.probeCount >= threshold then Down else Failing
  }

  function BackfillRow(run: RunRow, endedAt: Option<Time>, threshold: int): IntervalRow {
    var status := BackfillStatus(run, threshold);
    IntervalRow(run.monitor, status, run.startedAt, endedAt, StatusCountsAsDowntime(status))
  }

  function NextStart(runs: seq<RunRow>, i: nat): Option<Time>
    requires i < |runs|
  {
    if i + 1 < |runs| && runs[i + 1].monitor == runs[i].monitor then Some(runs[i + 1].startedAt) else None
  }

  function Backfilled(runs: seq<RunRow>, thresholds: FailureThresholds): (rows: seq<IntervalRow>)
    ensures |rows| == |runs|
    ensures forall i :: 0 <= i < |runs| ==>
      rows[i] == BackfillRow(runs[i], NextStart(runs, i), ForMonitor(thresholds, runs[i].monitor))
  {
    seq(|runs|, i requires 0 <= i < |runs| =>
      BackfillRow(runs[i], NextStart(runs, i), ForMonitor(thresholds, runs[i].monitor)))
  }

  method IntervalFor(run: RunRow, endedAt: Option<Time>, failureThreshold: int) returns (row: IntervalRow)
    ensures row == BackfillRow(run, endedAt, failureThreshold)
  {
    var statusValue := Up;
    if !run.ok {
      statusValue := Failing;
      if run.probeCount >= failureThreshold {
        statusValue := Down;
      }
    }
    row := IntervalRow(run.monitor, statusValue, run.startedAt, endedAt, StatusCountsAsDowntime(statusValue));
  }

  method BackfillStatusIntervals(runs: seq<RunRow>, thresholds: FailureThresholds) returns (rows: seq<IntervalRow>)
    ensures rows == Backfilled(runs, thresholds)
  {
    hide BackfillRow, ForMonitor, Backfilled;
    rows := [];
    for i := 0 to |runs|
      invariant |rows| == i && forall j :: 0 <= j < i ==> rows[j] == Backfilled(runs, thresholds)[j]
    {
      var run := runs[i];
      var endedAt: Option<Time> := None;
      if i + 1 < |runs| && runs[i + 1].monitor == run.monitor {
        endedAt := Some(runs[i + 1].startedAt);
      }
      var row := IntervalFor(run, endedAt, ForMonitor(thresholds, run.monitor));
      rows := rows + [row];
    }
  }

  /** One more run closes the row before it, if that is the same monitor's. */
  lemma BackfillPush(runs: seq<RunRow>, run: RunRow, thresholds: FailureThresholds)
    ensures var rows, last := Backfilled(runs, thresholds), |runs| - 1;
      Backfilled(runs + [run], thresholds)
      == (if runs != [] && runs[last].monitor == run.monitor
          then rows[last := rows[last].(endedAt := Some(run.startedAt))] else rows)
         + [BackfillRow(run, None, ForMonitor(thresholds, run.monitor))]
  {
  }

  /** A monitor's rows are the backfill of its own runs. */
  lemma {:induction false} BackfillPerMonitor(runs: seq<RunRow>, thresholds: FailureThresholds, m: MonitorId)
    requires MonitorsOrdered(runs)
    ensures History(Backfilled(runs, thresholds), m) == Backfilled(RunsOf(runs, m), thresholds)
  {
    if runs == [] {
      assert Backfilled(runs, thresholds) == [] && Backfilled(RunsOf(runs, m), thresholds) == [];
    } else {
      var n := |runs| - 1;
      var front, run := runs[..n], runs[n];
      assert runs == front + [run];
      BackfillPerMonitor(front, thresholds, m);
      BackfillRunPush(front, run, thresholds, m);
    }
  }

  lemma BackfillRunPush(front: seq<RunRow>, run: RunRow, thresholds: FailureThresholds, m: MonitorId)
    requires MonitorsOrdered(front + [run])
    requires History(Backfilled(front, thresholds), m) == Backfilled(RunsOf(front, m), thresholds)
    ensures History(Backfilled(front + [run], thresholds), m) == Backfilled(RunsOf(front + [run], m), thresholds)
  {
    hide Select, BackfillRow, MonitorsOrdered;
    var rows, last := Backfilled(front, thresholds), |front| - 1;
    var mine := RunsOf(front, m);
    SelectPush(RunOf(m), front, run);
    BackfillPush(front, run, thresholds);
    BackfillPush(mine, run, thresholds);
    var added := BackfillRow(run, None, ForMonitor(thresholds, run.monitor));
    BackfillRowMonitor(run, None, ForMonitor(thresholds, run.monitor));
    if front != [] && front[last].monitor == run.monitor {
      BackfillClose(front, run, thresholds, m);
    } else {
      SelectPush(OfMonitor(m), rows, added);
      if m == run.monitor {
        NoneOfMonitor(front, run);
      }
    }
  }

  lemma BackfillRowMonitor(run: RunRow, endedAt: Option<Time>, threshold: int)
    ensures BackfillRow(run, endedAt, threshold).monitor == run.monitor
  {
  }

  lemma NoneOfMonitor(front: seq<RunRow>, run: RunRow)
    requires MonitorsOrdered(front + [run])
    requires front != [] ==> front[|front| - 1].monitor != run.monitor
    ensures RunsOf(front, run.monitor) == []
  {
    var all := front + [run];
    assert forall i :: 0 <= i < |front| ==> all[i] == front[i];
    if front != [] {
      assert all[|front| - 1].monitor <= all[|front|].monitor;
      RunsOfLater(front, run.monitor);
    }
  }

  lemma UpdateLastRow(before: seq<IntervalRow>, row: IntervalRow, closed: IntervalRow)
    ensures (before + [row])[|before| := closed] == before + [closed]
    ensures (before + [row])[|before|] == row
  {
  }

  /** The rows of a list whose last run is continued by one of the same monitor. */
  lemma ClosedRows(front: seq<RunRow>, run: RunRow, thresholds: FailureThresholds)
    returns (before: seq<IntervalRow>, row: IntervalRow, added: IntervalRow)
    requires front != [] && front[|front| - 1].monitor == run.monitor
    ensures row.monitor == run.monitor && added.monitor == run.monitor
    ensures added == BackfillRow(run, None, ForMonitor(thresholds, run.monitor))
    ensures Backfilled(front, thresholds) == before + [row]
    ensures Backfilled(front + [run], thresholds) == before + [row.(endedAt := Some(run.startedAt))] + [added]
  {
    hide ForMonitor, NextStart, BackfillStatus, StatusCountsAsDowntime;
    var rows, last := Backfilled(front, thresholds), |front| - 1;
    before, row, added := rows[..last], rows[last], BackfillRow(run, None, ForMonitor(thresholds, run.monitor));
    BackfillPush(front, run, thresholds);
    hide BackfillRow, Backfilled;
    assert rows == before + [row];
    UpdateLastRow(before, row, row.(endedAt := Some(run.startedAt)));
  }

  lemma HistoryOfThree(before: seq<IntervalRow>, row: IntervalRow, added: IntervalRow, m: MonitorId)
    requires row.monitor == added.monitor
    ensures var own := if row.monitor == m then [row] else [];
      && History(before + [row], m) == History(before, m) + own
      && History(before + [row] + [added], m) == History(before, m) + own + if row.monitor == m then [added] else []
  {
    hide Select;
    SelectPush(OfMonitor(m), before, row);
    SelectPush(OfMonitor(m), before + [row], added);
  }

  lemma LastOfMine(front: seq<RunRow>, run: RunRow)
    requires front != [] && front[|front| - 1].monitor == run.monitor
    ensures var mine := RunsOf(front, run.monitor); mine != [] && mine[|mine| - 1].monitor == run.monitor
  {
    hide Select;
    var last := |front| - 1;
    assert front == front[..last] + [front[last]];
    SelectPush(RunOf(run.monitor), front[..last], front[last]);
  }

  lemma BackfillClose(front: seq<RunRow>, run: RunRow, thresholds: FailureThresholds, m: MonitorId)
    requires front != [] && front[|front| - 1].monitor == run.monitor
    requires History(Backfilled(front, thresholds), m) == Backfilled(RunsOf(front, m), thresholds)
    ensures History(Backfilled(front + [run], thresholds), m) == Backfilled(RunsOf(front + [run], m), thresholds)
  {
    hide Select, Backfilled, BackfillRow, ForMonitor, History;
    var mine := RunsOf(front, m);
    var before, row, added := ClosedRows(front, run, thresholds);
    SelectPush(RunOf(m), front, run);
    HistoryOfThree(before, row, added, m);
    HistoryOfThree(before, row.(endedAt := Some(run.startedAt)), added, m);
    if m == run.monitor {
      LastOfMine(front, run);
      var mineBefore, mineRow, mineAdded := ClosedRows(mine, run, thresholds);
      SameLast(History(before, m), row, mineBefore, mineRow);
    }
  }

  lemma SameLast(a: seq<IntervalRow>, x: IntervalRow, b: seq<IntervalRow>, y: IntervalRow)
    requires a + [x] == b + [y]
    ensures a == b && x == y
  {
    assert |a| == |b| && (a + [x])[..|a|] == a && (b + [y])[..|b|] == b;
    assert (a + [x])[|a|] == x && (b + [y])[|b|] == y;
  }

  /** The whole backfill: each monitor's rebuilt timeline depends on its reportable history alone. */
  method BackfillTimeline(runs: seq<RunRow>, raw: seq<ProbeRow>, thresholds: FailureThresholds)
    returns (rows: seq<IntervalRow>)
    ensures BackfillOf(rows, runs, raw, thresholds)
  {
    var listed := ListReportableUptimeRuns(runs, raw);
    rows := BackfillStatusIntervals(listed, thresholds);
    forall m { BackfillPerMonitor(listed, thresholds, m); }
  }

  /** For every number and placement of retention passes that keep daily rollups: what the backfill of
      the compacted tables gives a monitor is the backfill of its full history, so two schedules over
      the same probes rebuild the same timeline. */
  lemma ScheduleDoesNotMatter(
    ops: seq<Compaction.Op>, other: seq<Compaction.Op>, m: MonitorId, thresholds: FailureThresholds,
    rows: seq<IntervalRow>, otherRows: seq<IntervalRow>)
    requires Compaction.PrunedBefore(ops).None? && Compaction.PrunedBefore(other).None?
    requires Compaction.Saved(ops) == Compaction.Saved(other)
    requires SortedBy(ProbeBefore(), Compaction.History(ops, m))
    requires BackfillOf(rows, Compaction.Run(ops).runs, Compaction.Run(ops).raw, thresholds)
    requires BackfillOf(otherRows, Compaction.Run(other).runs, Compaction.Run(other).raw, thresholds)
    ensures History(rows, m) == History(otherRows, m) == Backfilled(Rle(Compaction.History(ops, m)), thresholds)
  {
    assert Compaction.History(other, m) == Compaction.History(ops, m);
    StrictlyNoLater(Compaction.History(ops, m));
    Compaction.HistoryTracked(ops, m);
    Compaction.HistoryTracked(other, m);
  }

  /** What BackfillTimeline guarantees of its rows. */
  ghost predicate BackfillOf(
    rows: seq<IntervalRow>, runs: seq<RunRow>, raw: seq<ProbeRow>, thresholds: FailureThresholds)
  {
    forall m, h :: Tracks(runs, raw, m, h) && SortedBy(ProbeBefore(), h) ==>
      History(rows, m) == Backfilled(Rle(h), thresholds)
  }
}
