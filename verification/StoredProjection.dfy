/** The projection of a timeline that was really stored: what ran before decides what is shown. */
module StoredProjection {
  import opened Basics
  import opened Sequences
  import opened Storage
  import opened Timeline
  import opened Projection
  import opened ProjectionView
  import ProjectionUnique

  /** A stored row as the query returns it; its id is its position. */
  function AsInterval(rows: seq<IntervalRow>, k: nat): StatusInterval
    requires k < |rows|
  {
    StatusInterval(k, rows[k].monitor, rows[k].status, rows[k].startedAt, rows[k].endedAt, rows[k].downtime)
  }

  function AsIntervals(rows: seq<IntervalRow>): (r: seq<StatusInterval>)
    ensures |r| == |rows| && forall k :: 0 <= k < |rows| ==> r[k] == AsInterval(rows, k)
  {
    seq(|rows|, k requires 0 <= k < |rows| => AsInterval(rows, k))
  }

  /** Two rows of one monitor are as far apart in its chain as in the table. */
  lemma ChainedRows(rows: seq<IntervalRow>, i: nat, j: nat)
    requires i < j < |rows| && rows[i].monitor == rows[j].monitor && Chain(History(rows, rows[j].monitor))
    ensures rows[i].endedAt.Some? && rows[i].endedAt.value <= rows[j].startedAt
  {
    var m := rows[j].monitor;
    var before := History(rows[..j], m);
    assert rows == rows[..j] + [rows[j]] + rows[j + 1..];
    SelectPush(OfMonitor(m), rows[..j], rows[j]);
    SelectConcat(OfMonitor(m), rows[..j] + [rows[j]], rows[j + 1..]);
    assert rows[i] == rows[..j][i] && OfMonitor(m)(rows[i]);
    var a :| 0 <= a < |before| && before[a] == rows[i];
    var h := History(rows, m);
    assert h[a] == rows[i] && h[|before|] == rows[j];
    ChainOrdered(h, a, |before|);
  }

  /** A monitor's stored intervals are disjoint if its clock does not run backwards. */
  lemma StoredDisjointOf(events: seq<Event>, m: MonitorId, now: Time)
    requires ClockForward(events, m)
    ensures DisjointOf(AsIntervals(Run(events).intervals), m, now)
  {
    var rows := Run(events).intervals;
    var stored := AsIntervals(rows);
    TimelineInvariant(events, m);
    hide History, Chain, Run;
    forall i, j | 0 <= i < j < |stored| && stored[i].monitor == m && stored[j].monitor == m
      ensures !Collide(stored[i], stored[j], now)
    {
      ChainedRows(rows, i, j);
    }
  }

  /** Every run leaves intervals that the projection can be trusted with. */
  lemma StoredDisjoint(events: seq<Event>, now: Time)
    requires forall m :: ClockForward(events, m)
    ensures DisjointIntervals(AsIntervals(Run(events).intervals), now)
  {
    var stored := AsIntervals(Run(events).intervals);
    hide Run, ClockForward;
    forall i, j | 0 <= i < j < |stored| ensures !Collide(stored[i], stored[j], now) {
      StoredDisjointOf(events, stored[i].monitor, now);
    }
  }

  ghost predicate ShownDown(segments: seq<Segment>, m: MonitorId, t: Time) {
    exists s :: s in segments && Holds(s, m, t) && s.downtime
  }

  ghost predicate StoredDown(intervals: seq<StatusInterval>, m: MonitorId, t: Time, now: Time) {
    exists i :: i in intervals && StoredAt(i, m, t, now) && i.downtime
  }

  lemma FlaggedRow(rows: seq<IntervalRow>, m: MonitorId, now: Time, t: Time)
    requires t < now
    ensures Flagged(History(rows, m), t) <==> StoredDown(AsIntervals(rows), m, t, now)
  {
    var h, stored := History(rows, m), AsIntervals(rows);
    if Flagged(h, t) {
      var k :| 0 <= k < |h| && h[k].downtime && Covers(h[k], t);
      assert h[k] in h;
      var r :| 0 <= r < |rows| && rows[r] == h[k];
      assert stored[r] in stored && StoredAt(stored[r], m, t, now);
    }
    if i :| i in stored && StoredAt(i, m, t, now) && i.downtime {
      var r :| 0 <= r < |stored| && stored[r] == i;
      assert rows[r] in h;
      var k :| 0 <= k < |h| && h[k] == rows[r];
      assert Covers(h[k], t);
    }
  }

  lemma ShownIsStored(
    segments: seq<Segment>, intervals: seq<StatusInterval>, windows: seq<Window>, m: MonitorId, now: Time, t: Time)
    requires Faithful(segments, intervals, windows, now) && DisjointOf(intervals, m, now)
    ensures ShownDown(segments, m, t) <==> !InWindow(windows, m, t) && StoredDown(intervals, m, t, now)
  {
    hide InWindow, DisjointOf;
    if ShownDown(segments, m, t) {
      var s :| s in segments && Holds(s, m, t) && s.downtime;
      assert Right(s, intervals, windows, now);
      assert RightAt(s, intervals, windows, now, t);
    }
    if !InWindow(windows, m, t) && StoredDown(intervals, m, t, now) {
      var i :| i in intervals && StoredAt(i, m, t, now) && i.downtime;
      assert Covered(segments, i.monitor, t);
      var s :| s in segments && Holds(s, m, t);
      assert Right(s, intervals, windows, now);
      assert RightAt(s, intervals, windows, now, t);
      var j :| j in intervals && StoredAt(j, s.monitor, t, now) && Reads(s, j, InWindow(windows, s.monitor, t));
      StoredOnce(intervals, i, j, m, t, now);
    }
  }

  // ----- the rows that are returned -----

  predicate RowHolds(row: StatusInterval, m: MonitorId, t: Time, now: Time) {
    row.monitor == m && row.startedAt <= t < if row.endedAt.Some? then row.endedAt.value else now
  }

  ghost predicate ListedDown(rows: seq<StatusInterval>, m: MonitorId, t: Time, now: Time) {
    exists row :: row in rows && RowHolds(row, m, t, now) && row.downtime
  }

  /** A row reads as its segment does. */
  lemma RowReads(s: Segment, intervals: seq<StatusInterval>, windows: seq<Window>, m: MonitorId, t: Time, now: Time)
    requires Right(s, intervals, windows, now)
    ensures RowHolds(Row(s), m, t, now) <==> Holds(s, m, t)
    ensures Row(s).downtime == s.downtime
  {
    hide RightAt;
  }

  lemma ListedIsShown(
    rows: seq<StatusInterval>, listed: seq<Segment>, projection: seq<Segment>, intervals: seq<StatusInterval>,
    windows: seq<Window>, filter: Filter, m: MonitorId, t: Time)
    requires Faithful(projection, intervals, windows, filter.now) && Shows(rows, listed, projection, filter)
    ensures ListedDown(rows, m, t, filter.now) ==> ShownDown(projection, m, t)
  {
    hide Right, SortedBy;
    if ListedDown(rows, m, t, filter.now) {
      var row :| row in rows && RowHolds(row, m, t, filter.now) && row.downtime;
      var k :| 0 <= k < |rows| && rows[k] == row;
      assert listed[k] in multiset(listed) && listed[k] in Select(KeptSince(filter.since), projection);
      RowReads(listed[k], intervals, windows, m, t, filter.now);
    }
  }

  lemma ShownIsListed(
    rows: seq<StatusInterval>, listed: seq<Segment>, projection: seq<Segment>, intervals: seq<StatusInterval>,
    windows: seq<Window>, filter: Filter, m: MonitorId, t: Time)
    requires Faithful(projection, intervals, windows, filter.now) && Shows(rows, listed, projection, filter)
    requires |rows| < Limit(filter) && (filter.since.Some? ==> filter.since.value <= t)
    ensures ShownDown(projection, m, t) ==> ListedDown(rows, m, t, filter.now)
  {
    hide Right, SortedBy;
    if ShownDown(projection, m, t) {
      var s :| s in projection && Holds(s, m, t) && s.downtime;
      assert KeptSince(filter.since)(s);
      assert s in multiset(Select(KeptSince(filter.since), projection)) && s in listed;
      var k :| 0 <= k < |listed| && listed[k] == s;
      assert rows[k] == Row(s);
      RowReads(s, intervals, windows, m, t, filter.now);
    }
  }

  /** From the probes to the screen: whatever was probed and however maintenance windows overlap, a returned
      row shows an instant below now as downtime only if the stored timeline flags it and no uncancelled
      window covers it; and every such instant from since on is shown, unless the limit cut rows off. */
  lemma ShownDowntime(
    events: seq<Event>, rows: seq<StatusInterval>, windows: seq<Window>, filter: Filter, m: MonitorId, t: Time)
    requires ClockForward(events, m) && t < filter.now
    requires Projects(rows, AsIntervals(Run(events).intervals), windows, filter)
    ensures var down := Flagged(History(Run(events).intervals, m), t) && !InWindow(windows, m, t);
      && (ListedDown(rows, m, t, filter.now) ==> down)
      && (down && |rows| < Limit(filter) && (filter.since.Some? ==> filter.since.value <= t) ==>
            ListedDown(rows, m, t, filter.now))
  {
    var stored := AsIntervals(Run(events).intervals);
    StoredDisjointOf(events, m, filter.now);
    FlaggedRow(Run(events).intervals, m, filter.now, t);
    hide Run, Faithful, DisjointOf, Flagged, InWindow, History, Canonical, Shows, ListedDown, ShownDown, StoredDown;
    var projection, listed :|
      && Canonical(projection) && Faithful(projection, stored, windows, filter.now)
      && Shows(rows, listed, projection, filter);
    ShownIsStored(projection, stored, windows, m, filter.now, t);
    ListedIsShown(rows, listed, projection, stored, windows, filter, m, t);
    if |rows| < Limit(filter) && (filter.since.Some? ==> filter.since.value <= t) {
      ShownIsListed(rows, listed, projection, stored, windows, filter, m, t);
    }
  }

  // ----- the rows are determined by what is stored -----

  ghost predicate OwnIds(intervals: seq<StatusInterval>) {
    forall i, j :: 0 <= i < |intervals| && 0 <= j < |intervals| && intervals[i].id == intervals[j].id ==> i == j
  }

  /** Two segments of a projection that start together and carry one id are the same. */
  lemma KeyDetermines(
    p: seq<Segment>, intervals: seq<StatusInterval>, windows: seq<Window>, now: Time, a: Segment, b: Segment)
    requires Canonical(p) && Faithful(p, intervals, windows, now) && OwnIds(intervals)
    requires a in p && b in p && a.startedAt == b.startedAt && a.id == b.id
    ensures a == b
  {
    assert ProjectionUnique.Projected(p, intervals, windows, now);
    ProjectionUnique.Nonempty(p, intervals, windows, now, a);
    ProjectionUnique.Nonempty(p, intervals, windows, now, b);
    hide Canonical, Faithful, RightAt, OpenRight;
    var i :| i in intervals && i.id == a.id && StoredAt(i, a.monitor, a.startedAt, now);
    var j :| j in intervals && j.id == b.id && StoredAt(j, b.monitor, b.startedAt, now);
    var k :| 0 <= k < |intervals| && intervals[k] == i;
    var l :| 0 <= l < |intervals| && intervals[l] == j;
    assert a.monitor == b.monitor;
    ProjectionUnique.Apart(p, intervals, windows, now, a, b);
  }

  lemma InOrderOnce(p: seq<Segment>, x: Segment)
    requires InOrder(p) && forall s :: s in p ==> s.startedAt < s.effectiveEnd
    ensures multiset(p)[x] <= 1
  {
    assert Apart(p);
    AppearsOnce(p, x);
  }

  function Newer(): (Segment, Segment) -> bool {
    (a: Segment, b: Segment) => a.startedAt > b.startedAt || (a.startedAt == b.startedAt && a.id > b.id)
  }

  lemma ListedOnce(listed: seq<Segment>, p: seq<Segment>, since: Option<Time>, i: nat, j: nat)
    requires InOrder(p) && forall s :: s in p ==> s.startedAt < s.effectiveEnd
    requires multiset(listed) == multiset(Select(KeptSince(since), p)) && i < j < |listed|
    ensures listed[i] != listed[j] && listed[i] in p && listed[j] in p
  {
    hide InOrder;
    SelectMultiset(KeptSince(since), p, listed[i]);
    InOrderOnce(p, listed[i]);
    if listed[i] == listed[j] { RepeatCounts(listed, i, j); }
    assert listed[i] in multiset(listed) && listed[j] in multiset(listed);
  }

  /** No two of the listed segments tie. */
  lemma ListedStrictly(
    listed: seq<Segment>, p: seq<Segment>, intervals: seq<StatusInterval>, windows: seq<Window>, filter: Filter)
    requires Canonical(p) && Faithful(p, intervals, windows, filter.now) && OwnIds(intervals)
    requires multiset(listed) == multiset(Select(KeptSince(filter.since), p)) && SortedBy(NewestFirst(), listed)
    ensures SortedBy(Newer(), listed)
  {
    NonemptySegments(p, intervals, windows, filter.now);
    assert InOrder(p);
    hide Canonical, Faithful, InOrder, Select, OwnIds;
    forall i, j | 0 <= i < j < |listed| ensures Newer()(listed[i], listed[j]) {
      ListedOnce(listed, p, filter.since, i, j);
      assert NewestFirst()(listed[i], listed[j]);
      if listed[i].startedAt == listed[j].startedAt && listed[i].id == listed[j].id {
        KeyDetermines(p, intervals, windows, filter.now, listed[i], listed[j]);
      }
    }
  }

  lemma SameRows(
    p: seq<Segment>, intervals: seq<StatusInterval>, windows: seq<Window>, filter: Filter,
    listed: seq<Segment>, relisted: seq<Segment>, rows: seq<StatusInterval>, others: seq<StatusInterval>)
    requires Canonical(p) && Faithful(p, intervals, windows, filter.now) && OwnIds(intervals)
    requires Shows(rows, listed, p, filter) && Shows(others, relisted, p, filter)
    ensures rows == others
  {
    hide Canonical, Faithful, OwnIds, SortedBy, Select, Rows, NewestFirst, Newer;
    ListedStrictly(listed, p, intervals, windows, filter);
    ListedStrictly(relisted, p, intervals, windows, filter);
    NewerWithin();
    StrictOrderUnique(NewestFirst(), Newer(), listed, relisted);
  }

  lemma NewerWithin()
    ensures StrictlyWithin(Newer(), NewestFirst())
  {
  }

  /** After any run with clocks forward there is one answer: whatever unstable sorts do, the same rows in the
      same order. */
  lemma ShownOnce(
    events: seq<Event>, windows: seq<Window>, filter: Filter, rows: seq<StatusInterval>, others: seq<StatusInterval>)
    requires forall m :: ClockForward(events, m)
    requires Projects(rows, AsIntervals(Run(events).intervals), windows, filter)
    requires Projects(others, AsIntervals(Run(events).intervals), windows, filter)
    ensures rows == others
  {
    var stored := AsIntervals(Run(events).intervals);
    StoredDisjoint(events, filter.now);
    assert OwnIds(stored);
    hide Run, Faithful, Canonical, OwnIds, DisjointIntervals, SortedBy, Newest, Select,
      ClockForward, Shows;
    var p, listed :| && Canonical(p) && Faithful(p, stored, windows, filter.now)
                     && Shows(rows, listed, p, filter);
    var q, relisted :| && Canonical(q) && Faithful(q, stored, windows, filter.now)
                       && Shows(others, relisted, q, filter);
    ProjectionUnique.ProjectionDetermined(p, q, stored, windows, filter.now);
    SameRows(p, stored, windows, filter, listed, relisted, rows, others);
  }
}
