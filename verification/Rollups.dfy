/** Raw probes folded into minute, hourly and daily rollups, and the window counts read back. */
module Rollups {
  import opened Basics
  import opened Sequences
  import opened Storage

  datatype Counts = Counts(
    total: int, successful: int, maintenance: int, maintenanceFailed: int, observerSuppressed: int,
    firstReportable: Option<Time>, lastReportable: Option<Time>)

  const ZERO := Counts(0, 0, 0, 0, 0, None, None)

  /** A rollup row; a raw probe counts as one too, its bucket being the time it was checked. */
  datatype RollupRow = RollupRow(monitor: MonitorId, bucket: Time, counts: Counts)

  predicate Reportable(p: ProbeRow) {
    p.maintenance.None? && !p.observerSuppressed && !p.connectivitySuppressed
  }

  function ProbeCounts(p: ProbeRow): Counts {
    var inMaintenance := p.maintenance.Some?;
    var at := if Reportable(p) then Some(p.at) else None;
    Counts(if Reportable(p) then 1 else 0, if Reportable(p) && p.ok then 1 else 0,
           if inMaintenance then 1 else 0, if inMaintenance && !p.ok then 1 else 0,
           if p.observerSuppressed then 1 else 0, at, at)
  }

  function AsRow(p: ProbeRow): RollupRow {
    RollupRow(p.monitor, p.at, ProbeCounts(p))
  }

  function AsRows(probes: seq<ProbeRow>): (rows: seq<RollupRow>)
    ensures |rows| == |probes|
    ensures forall k :: 0 <= k < |probes| ==> rows[k] == AsRow(probes[k])
  {
    seq(|probes|, k requires 0 <= k < |probes| => AsRow(probes[k]))
  }

  // ----- adding counts -----

  function Add(a: Counts, b: Counts): Counts {
    Counts(a.total + b.total, a.successful + b.successful, a.maintenance + b.maintenance,
           a.maintenanceFailed + b.maintenanceFailed, a.observerSuppressed + b.observerSuppressed,
           Earliest(a.firstReportable, b.firstReportable), Latest(a.lastReportable, b.lastReportable))
  }

  lemma Regroup(a: Counts, b: Counts, c: Counts)
    ensures Add(Add(a, c), b) == Add(Add(a, b), c) && Add(Add(a, b), c) == Add(a, Add(b, c))
    ensures Add(a, ZERO) == a
  {
  }

  ghost predicate NonNegative(a: Counts) {
    a.total >= 0 && a.successful >= 0 && a.maintenance >= 0 && a.maintenanceFailed >= 0 && a.observerSuppressed >= 0
  }

  ghost predicate AllNonNegative(rows: seq<RollupRow>) {
    forall k :: 0 <= k < |rows| ==> NonNegative(rows[k].counts)
  }

  /** Every count is at most its counterpart; the times are not compared. */
  ghost predicate AtMost(a: Counts, b: Counts) {
    && a.total <= b.total && a.successful <= b.successful && a.maintenance <= b.maintenance
    && a.maintenanceFailed <= b.maintenanceFailed && a.observerSuppressed <= b.observerSuppressed
  }

  // ----- reading a window -----

  predicate Counted(bucket: Time, cutoff: Option<Time>) {
    cutoff.None? || bucket >= cutoff.value
  }

  function Share(row: RollupRow, m: MonitorId, cutoff: Option<Time>): Counts {
    if row.monitor == m && Counted(row.bucket, cutoff) then row.counts else ZERO
  }

  function Sum(rows: seq<RollupRow>, m: MonitorId, cutoff: Option<Time>): Counts {
    if rows == [] then ZERO else Add(Sum(rows[..|rows| - 1], m, cutoff), Share(rows[|rows| - 1], m, cutoff))
  }

  lemma SumPush(rows: seq<RollupRow>, row: RollupRow, m: MonitorId, cutoff: Option<Time>)
    ensures Sum(rows + [row], m, cutoff) == Add(Sum(rows, m, cutoff), Share(row, m, cutoff))
  {
    assert (rows + [row])[..|rows|] == rows;
  }

  // ----- writing a rollup -----

  // The bucket expressions: the start of the UTC minute, hour or day holding a time.

  function MinuteBucket(): Time -> Time { (t: Time) => t - t % MINUTE }

  function HourlyBucket(): Time -> Time { (t: Time) => t - t % HOUR }

  function DailyBucket(): Time -> Time { (t: Time) => t - t % DAY }

  function FindBucket(table: seq<RollupRow>, m: MonitorId, bucket: Time): (r: Option<nat>)
    ensures r.Some? ==> r.value < |table| && table[r.value].monitor == m && table[r.value].bucket == bucket
    ensures r.None? ==> forall k :: 0 <= k < |table| ==> !(table[k].monitor == m && table[k].bucket == bucket)
  {
    if table == [] then None
    else
      var n := |table| - 1;
      if table[n].monitor == m && table[n].bucket == bucket then Some(n) else FindBucket(table[..n], m, bucket)
  }

  /** INSERT ... ON CONFLICT(monitor_id, bucket_start) DO UPDATE, adding to the row already there. */
  function Upsert(table: seq<RollupRow>, row: RollupRow): seq<RollupRow> {
    var found := FindBucket(table, row.monitor, row.bucket);
    if found.None? then table + [row]
    else table[found.value := table[found.value].(counts := Add(table[found.value].counts, row.counts))]
  }

  function Rebucketed(row: RollupRow, bucketOf: Time -> Time): RollupRow {
    row.(bucket := bucketOf(row.bucket))
  }

  /** Every source row before the cutoff, added into the bucket of the target that holds it. */
  function RollupInto(
      target: seq<RollupRow>, source: seq<RollupRow>, bucketOf: Time -> Time, cutoff: Time): seq<RollupRow>
  {
    if source == [] then target
    else
      var n := |source| - 1;
      var before := RollupInto(target, source[..n], bucketOf, cutoff);
      if source[n].bucket < cutoff then Upsert(before, Rebucketed(source[n], bucketOf))
      else before
  }

  function NotBefore(cutoff: Time): RollupRow -> bool {
    (row: RollupRow) => row.bucket >= cutoff
  }

  // ----- what a rollup conserves -----

  lemma {:induction false} UpdateSum(
    table: seq<RollupRow>, k: nat, c: Counts, m: MonitorId, cutoff: Option<Time>)
    requires k < |table|
    ensures Sum(table[k := table[k].(counts := Add(table[k].counts, c))], m, cutoff)
            == Add(Sum(table, m, cutoff), Share(table[k].(counts := c), m, cutoff))
  {
    hide Add;
    var n := |table| - 1;
    var after := table[k := table[k].(counts := Add(table[k].counts, c))];
    if k == n {
      assert after[..n] == table[..n];
      Regroup(Sum(table[..n], m, cutoff), Share(table[n], m, cutoff), c);
      Regroup(Sum(table[..n], m, cutoff), Share(table[n], m, cutoff), ZERO);
    } else {
      assert after[..n] == table[..n][k := table[k].(counts := Add(table[k].counts, c))];
      UpdateSum(table[..n], k, c, m, cutoff);
      var share := Share(table[k].(counts := c), m, cutoff);
      Regroup(Sum(table[..n], m, cutoff), Share(table[n], m, cutoff), share);
    }
  }

  lemma UpsertSum(table: seq<RollupRow>, row: RollupRow, m: MonitorId, cutoff: Option<Time>)
    ensures Sum(Upsert(table, row), m, cutoff) == Add(Sum(table, m, cutoff), Share(row, m, cutoff))
  {
    var found := FindBucket(table, row.monitor, row.bucket);
    if found.None? {
      SumPush(table, row, m, cutoff);
    } else {
      UpdateSum(table, found.value, row.counts, m, cutoff);
    }
  }

  /** What the moved rows contribute to a window once they sit in coarser buckets. */
  ghost function Moved(
      source: seq<RollupRow>, bucketOf: Time -> Time, before: Time, m: MonitorId, cutoff: Option<Time>): Counts
  {
    if source == [] then ZERO
    else
      var row := source[|source| - 1];
      Add(Moved(source[..|source| - 1], bucketOf, before, m, cutoff),
          if row.bucket < before then Share(Rebucketed(row, bucketOf), m, cutoff) else ZERO)
  }

  lemma {:induction false} RollupSum(
    target: seq<RollupRow>, source: seq<RollupRow>, bucketOf: Time -> Time, before: Time, m: MonitorId,
        cutoff: Option<Time>)
    ensures Sum(RollupInto(target, source, bucketOf, before), m, cutoff)
            == Add(Sum(target, m, cutoff), Moved(source, bucketOf, before, m, cutoff))
  {
    hide Add;
    if source != [] {
      var n := |source| - 1;
      var row := source[n];
      RollupSum(target, source[..n], bucketOf, before, m, cutoff);
      var moved := Moved(source[..n], bucketOf, before, m, cutoff);
      if row.bucket < before {
        UpsertSum(RollupInto(target, source[..n], bucketOf, before), Rebucketed(row, bucketOf), m, cutoff);
        Regroup(Sum(target, m, cutoff), moved, Share(Rebucketed(row, bucketOf), m, cutoff));
      } else {
        Regroup(moved, ZERO, ZERO);
      }
    } else {
      Regroup(Sum(target, m, cutoff), ZERO, ZERO);
    }
  }

  /** A window boundary at a UTC midnight, or no boundary at all, falls between buckets. */
  ghost predicate Aligned(cutoff: Option<Time>) {
    cutoff.None? || cutoff.value % DAY == 0
  }

  /** Moving a time to its bucket moves it earlier, though never across the window boundary. */
  ghost predicate Buckets(bucketOf: Time -> Time, cutoff: Option<Time>) {
    && (forall t :: bucketOf(t) <= t)
    && (Aligned(cutoff) && cutoff.Some? ==> forall t :: t >= cutoff.value ==> bucketOf(t) >= cutoff.value)
  }

  lemma MidnightSplitsBuckets(cutoff: Option<Time>)
    ensures Buckets(MinuteBucket(), cutoff) && Buckets(HourlyBucket(), cutoff) && Buckets(DailyBucket(), cutoff)
  {
    assert MINUTE == 60_000_000_000 && HOUR == 3_600_000_000_000 && DAY == 86_400_000_000_000;
    if Aligned(cutoff) && cutoff.Some? {
      var c := cutoff.value;
      forall t | t >= c ensures t - t % DAY >= c && t - t % HOUR >= c && t - t % MINUTE >= c {
        SplitsBuckets(t, c);
      }
    }
  }

  lemma SplitsBuckets(t: Time, c: Time)
    requires c % DAY == 0 && t >= c
    ensures t - t % DAY >= c && t - t % HOUR >= c && t - t % MINUTE >= c
  {
    SplitsDays(t, c);
    SplitsHours(t, c / DAY * 24);
    SplitsMinutes(t, c / DAY * 1440);
  }

  lemma SplitsDays(t: Time, c: Time)
    requires c % DAY == 0 && t >= c
    ensures t - t % DAY >= c && c == c / DAY * 24 * HOUR && c == c / DAY * 1440 * MINUTE
  {
  }

  lemma SplitsHours(t: Time, hours: int)
    requires t >= hours * HOUR
    ensures t - t % HOUR >= hours * HOUR
  {
  }

  lemma SplitsMinutes(t: Time, minutes: int)
    requires t >= minutes * MINUTE
    ensures t - t % MINUTE >= minutes * MINUTE
  {
  }

  lemma AtMostAdds(a: Counts, b: Counts, c: Counts, d: Counts)
    requires AtMost(a, b) && AtMost(c, d)
    ensures AtMost(Add(a, c), Add(b, d))
  {
  }

  lemma AtMostSelf(a: Counts)
    ensures AtMost(a, a) && (NonNegative(a) ==> AtMost(ZERO, a))
  {
  }

  /** Moved and kept rows together still add up: exactly when the window boundary respects the
      buckets, and otherwise losing only rows whose bucket starts before the boundary. */
  lemma {:induction false} MovedAndKept(
    source: seq<RollupRow>, bucketOf: Time -> Time, before: Time, m: MonitorId, cutoff: Option<Time>)
    requires Buckets(bucketOf, cutoff) && AllNonNegative(source)
    ensures var after := Add(Moved(source, bucketOf, before, m, cutoff), Sum(Select(NotBefore(before), source), m,
        cutoff));
      && AtMost(after, Sum(source, m, cutoff))
      && (Aligned(cutoff) ==> after == Sum(source, m, cutoff))
  {
    hide Add, AtMost;
    if source != [] {
      var n := |source| - 1;
      var row, p := source[n], NotBefore(before);
      assert source == source[..n] + [row];
      MovedAndKept(source[..n], bucketOf, before, m, cutoff);
      SelectPush(p, source[..n], row);
      var moved, kept := Moved(source[..n], bucketOf, before, m, cutoff), Sum(Select(p, source[..n]), m, cutoff);
      var share := if row.bucket < before then Share(Rebucketed(row, bucketOf), m, cutoff) else Share(row, m, cutoff);
      Regroup(moved, kept, share);
      AtMostSelf(row.counts);
      AtMostSelf(ZERO);
      AtMostAdds(Add(moved, kept), Sum(source[..n], m, cutoff), share, Share(row, m, cutoff));
      if row.bucket < before {
        Regroup(moved, share, kept);
      } else {
        SumPush(Select(p, source[..n]), row, m, cutoff);
        Regroup(moved, kept, ZERO);
      }
    } else {
      Regroup(ZERO, ZERO, ZERO);
      AtMostSelf(ZERO);
    }
  }

  /** One rollup statement and the DELETE after it, for target and source together. */
  lemma RollupConserves(
    target: seq<RollupRow>, source: seq<RollupRow>, bucketOf: Time -> Time, before: Time, m: MonitorId,
        cutoff: Option<Time>)
    requires Buckets(bucketOf, cutoff) && AllNonNegative(source)
    ensures var after := Add(Sum(RollupInto(target, source, bucketOf, before), m, cutoff),
                             Sum(Select(NotBefore(before), source), m, cutoff));
      var was := Add(Sum(target, m, cutoff), Sum(source, m, cutoff));
      AtMost(after, was) && (Aligned(cutoff) ==> after == was)
  {
    RollupSum(target, source, bucketOf, before, m, cutoff);
    MovedAndKept(source, bucketOf, before, m, cutoff);
    var moved, kept := Moved(source, bucketOf, before, m, cutoff), Sum(Select(NotBefore(before), source), m, cutoff);
    Regroup(Sum(target, m, cutoff), moved, kept);
    AtMostAdds(Sum(target, m, cutoff), Sum(target, m, cutoff), Add(moved, kept), Sum(source, m, cutoff));
  }

  /** Pruning only loses counts, and none that a window starting at or after the prune cutoff counts. */
  lemma {:induction false} PruneSum(table: seq<RollupRow>, before: Time, m: MonitorId, cutoff: Option<Time>)
    requires AllNonNegative(table)
    ensures AtMost(Sum(Select(NotBefore(before), table), m, cutoff), Sum(table, m, cutoff))
    ensures cutoff.Some? && cutoff.value >= before
            ==> Sum(Select(NotBefore(before), table), m, cutoff) == Sum(table, m, cutoff)
  {
    hide Add, AtMost;
    AtMostSelf(ZERO);
    if table != [] {
      var n := |table| - 1;
      var kept, share := Sum(Select(NotBefore(before), table[..n]), m, cutoff), Share(table[n], m, cutoff);
      assert table == table[..n] + [table[n]];
      PruneSum(table[..n], before, m, cutoff);
      SelectPush(NotBefore(before), table[..n], table[n]);
      SumPush(Select(NotBefore(before), table[..n]), table[n], m, cutoff);
      AtMostSelf(table[n].counts);
      AtMostAdds(kept, Sum(table[..n], m, cutoff), share, share);
      AtMostAdds(kept, Sum(table[..n], m, cutoff), ZERO, share);
      Regroup(kept, share, ZERO);
      Regroup(Sum(table[..n], m, cutoff), share, ZERO);
    }
  }

  lemma {:induction false} LaterCutoffCountsLess(table: seq<RollupRow>, m: MonitorId, early: Time, late: Time)
    requires early <= late
    requires AllNonNegative(table)
    ensures AtMost(Sum(table, m, Some(late)), Sum(table, m, Some(early)))
  {
    if table != [] {
      LaterCutoffCountsLess(table[..|table| - 1], m, early, late);
    }
  }

  lemma {:induction false} RollupNonNegative(
      target: seq<RollupRow>, source: seq<RollupRow>, bucketOf: Time -> Time, before: Time)
    requires AllNonNegative(target)
    requires AllNonNegative(source)
    ensures AllNonNegative(RollupInto(target, source, bucketOf, before))
  {
    if source != [] {
      var n := |source| - 1;
      RollupNonNegative(target, source[..n], bucketOf, before);
      assert NonNegative(source[n].counts);
    }
  }
}
