/** The stored status timeline over whole runs: a gap-free chain per monitor, with disjoint outages. */
module Timeline {
  import opened Basics
  import opened Sequences
  import opened Intervals
  import opened Monitor
  import opened Storage

  function OfMonitor(m: MonitorId): IntervalRow -> bool {
    (row: IntervalRow) => row.monitor == m
  }

  function History(rows: seq<IntervalRow>, m: MonitorId): seq<IntervalRow> {
    Select(OfMonitor(m), rows)
  }

  // ----- the chain one monitor's rows form -----

  ghost predicate Link(row: IntervalRow, next: IntervalRow) {
    && row.endedAt == Some(next.startedAt)
    && row.startedAt <= next.startedAt
    && row.status != next.status
    && (row.downtime <==> row.status == Down || (row.status == Failing && next.status == Down))
  }

  ghost predicate Chain(c: seq<IntervalRow>) {
    && (forall i :: 0 <= i < |c| - 1 ==> Link(c[i], c[i + 1]))
    && (c != [] ==> c[|c| - 1].endedAt.None? && (c[|c| - 1].downtime <==> c[|c| - 1].status == Down))
  }

  /** What saving a status does to the monitor's own rows. */
  ghost function Extend(c: seq<IntervalRow>, m: MonitorId, status: Status, at: Time): seq<IntervalRow> {
    if c == [] then [Opened(m, status, at)]
    else
      var last := |c| - 1;
      if c[last].status == status then c
      else c[..last] + [ClosedBy(c[last], status, at), Opened(m, status, at)]
  }

  lemma ExtendKeepsChain(c: seq<IntervalRow>, m: MonitorId, status: Status, at: Time)
    requires Chain(c)
    requires c != [] ==> c[|c| - 1].startedAt <= at
    ensures Chain(Extend(c, m, status, at))
  {
    var e, last := Extend(c, m, status, at), |c| - 1;
    if c != [] && c[last].status != status {
      forall i | 0 <= i < |e| - 1 ensures Link(e[i], e[i + 1]) {
        if i < last {
          assert Link(c[i], c[i + 1]);
        }
      }
    }
  }

  lemma {:induction false} ChainOrdered(c: seq<IntervalRow>, i: nat, j: nat)
    requires Chain(c) && i < j < |c|
    ensures c[i].endedAt.Some? && c[i].endedAt.value <= c[j].startedAt
    decreases j - i
  {
    assert Link(c[i], c[i + 1]);
    if i + 1 < j {
      assert Link(c[i + 1], c[i + 2]);
      ChainOrdered(c, i + 1, j);
    }
  }

  lemma OnlyLastOpen(c: seq<IntervalRow>)
    requires Chain(c)
    ensures forall k :: 0 <= k < |c| && c[k].endedAt.None? ==> k == |c| - 1
  {
    forall k | 0 <= k < |c| - 1 ensures c[k].endedAt.Some? {
      assert Link(c[k], c[k + 1]);
    }
  }

  // ----- from the table to the chain -----

  /** Only a monitor's last row is open, so the open row found has none of its rows after it. */
  lemma OpenIsLast(rows: seq<IntervalRow>, m: MonitorId, i: nat)
    requires Chain(History(rows, m))
    requires i < |rows| && rows[i].monitor == m && rows[i].endedAt.None?
    ensures History(rows, m) == History(rows[..i], m) + [rows[i]]
    ensures History(rows[i + 1..], m) == []
  {
    var p := OfMonitor(m);
    var before, after := History(rows[..i], m), History(rows[i + 1..], m);
    assert rows == rows[..i] + [rows[i]] + rows[i + 1..];
    SelectPush(p, rows[..i], rows[i]);
    SelectConcat(p, rows[..i] + [rows[i]], rows[i + 1..]);
    var h := History(rows, m);
    assert h == before + [rows[i]] + after;
    OnlyLastOpen(h);
    assert h[|before|] == rows[i];
  }

  lemma OpenRowFound(rows: seq<IntervalRow>, m: MonitorId)
    requires Chain(History(rows, m)) && History(rows, m) != []
    ensures LatestOpen(rows, m).Some?
  {
    var h := History(rows, m);
    assert h[|h| - 1] in h;
  }

  /** Closing the open row and appending the next one, seen by each monitor. */
  lemma CloseAndAppend(rows: seq<IntervalRow>, i: nat, closed: IntervalRow, added: IntervalRow, other: MonitorId)
    requires i < |rows| && rows[i].monitor == closed.monitor == added.monitor
    requires other == added.monitor ==> History(rows[i + 1..], added.monitor) == []
    ensures History(rows[i := closed] + [added], other)
            == if other == added.monitor then History(rows[..i], other) + [closed, added] else History(rows, other)
  {
    SelectUpdate(OfMonitor(other), rows, i, closed);
    SelectUpdate(OfMonitor(other), rows, i, rows[i]);
    assert rows[i := rows[i]] == rows;
    SelectPush(OfMonitor(other), rows[i := closed], added);
  }

  /** Saving a status extends that monitor's chain and leaves every other monitor's alone. */
  lemma SaveExtendsChain(rows: seq<IntervalRow>, m: MonitorId, status: Status, at: Time, other: MonitorId)
    requires other == m ==> Chain(History(rows, m))
    ensures History(SaveStatusInterval(rows, m, status, at), other)
            == if other == m then Extend(History(rows, m), m, status, at) else History(rows, other)
  {
    var open := LatestOpen(rows, m);
    var h, added := History(rows, m), Opened(m, status, at);
    if open.None? {
      if other == m && h != [] { OpenRowFound(rows, m); }
      SelectPush(OfMonitor(other), rows, added);
    } else {
      var i := open.value;
      if other == m {
        OpenIsLast(rows, m, i);
        assert h[..|h| - 1] == History(rows[..i], m) && h[|h| - 1] == rows[i];
      }
      CloseAndAppend(rows, i, ClosedBy(rows[i], status, at), added, other);
    }
  }

  // ----- runs -----

  datatype Event =
    | Probed(monitor: MonitorId, input: ProbeInput, dueAt: Time)
    | Deleted(keep: set<MonitorId>)

  function Step(db: Db, e: Event): Db {
    match e
    case Probed(m, p, dueAt) => ProbeMonitor(db, m, p, dueAt)
    case Deleted(keep) => DeleteStatesExcept(db, keep)
  }

  lemma StepState(db: Db, e: Event, m: MonitorId)
    ensures StateOf(Step(db, e), m)
            == if Concerns(e, m) then StateAfter(StateOf(db, m), Probe(StateOf(db, m), e.input))
               else if Drops(e, m) then UNKNOWN_STATE
               else StateOf(db, m)
  {
  }

  predicate Concerns(e: Event, m: MonitorId) {
    e.Probed? && e.monitor == m
  }

  predicate Drops(e: Event, m: MonitorId) {
    e.Deleted? && m !in e.keep
  }

  function Run(events: seq<Event>): Db {
    if events == [] then EMPTY else Step(Run(events[..|events| - 1]), events[|events| - 1])
  }

  /** The monitor's clock does not run backwards; nothing is assumed of other monitors. */
  ghost predicate ClockForward(events: seq<Event>, m: MonitorId) {
    forall i, j :: 0 <= i < j < |events| && Concerns(events[i], m) && Concerns(events[j], m) ==>
      events[i].input.at <= events[j].input.at
  }

  /** The monitor's clock advances from probe to probe. */
  ghost predicate ClockAdvances(events: seq<Event>, m: MonitorId) {
    forall i, j :: 0 <= i < j < |events| && Concerns(events[i], m) && Concerns(events[j], m) ==>
      events[i].input.at < events[j].input.at
  }

  /** Every row starts at some probe of its monitor. */
  ghost predicate StartsAtProbes(rows: seq<IntervalRow>, events: seq<Event>) {
    forall k :: 0 <= k < |rows| ==>
      exists i :: 0 <= i < |events| && events[i].Probed? && events[i].monitor == rows[k].monitor
                  && events[i].input.at == rows[k].startedAt
  }

  /** Whatever state it goes on from, a save leaves the timeline alone or saves one status of the monitor. */
  lemma SaveOnTimeline(db: Db, previous: MonitorState, m: MonitorId, p: ProbeInput, dueAt: Time)
    ensures var after := SaveFrom(db, previous, m, p, dueAt).intervals;
      after == db.intervals || exists status :: after == SaveStatusInterval(db.intervals, m, status, p.at)
  {
    hide SaveStatusInterval, CancelPending;
    var r := Probe(previous, p);
    if r.Evaluated? {
      assert SaveFrom(db, previous, m, p, dueAt).intervals == SaveStatusInterval(db.intervals, m, r.next.status, p.at);
    }
  }

  /** A step either leaves the timeline alone or saves one status of the probed monitor. */
  lemma StepOnTimeline(db: Db, e: Event)
    ensures Step(db, e).intervals == db.intervals
      || (e.Probed? && exists status ::
            Step(db, e).intervals == SaveStatusInterval(db.intervals, e.monitor, status, e.input.at))
  {
    hide SaveFrom, SaveStatusInterval;
    if e.Probed? {
      SaveOnTimeline(db, StateOf(db, e.monitor), e.monitor, e.input, e.dueAt);
    }
  }

  lemma SaveStartsAtProbes(rows: seq<IntervalRow>, events: seq<Event>, e: Event, status: Status)
    requires StartsAtProbes(rows, events) && e.Probed?
    ensures StartsAtProbes(rows, events + [e])
    ensures StartsAtProbes(SaveStatusInterval(rows, e.monitor, status, e.input.at), events + [e])
  {
    var all := events + [e];
    forall k | 0 <= k < |rows|
      ensures exists i :: 0 <= i < |all| && all[i].Probed? && all[i].monitor == rows[k].monitor
                          && all[i].input.at == rows[k].startedAt
    {
      var i :| 0 <= i < |events| && events[i].Probed? && events[i].monitor == rows[k].monitor
               && events[i].input.at == rows[k].startedAt;
      assert all[i] == events[i];
    }
    var saved := SaveStatusInterval(rows, e.monitor, status, e.input.at);
    forall k | 0 <= k < |saved|
      ensures exists i :: 0 <= i < |all| && all[i].Probed? && all[i].monitor == saved[k].monitor
                          && all[i].input.at == saved[k].startedAt
    {
      if k < |rows| {
        assert saved[k].monitor == rows[k].monitor && saved[k].startedAt == rows[k].startedAt;
      } else {
        assert all[|events|] == e;
      }
    }
  }

  lemma {:induction false} RowsStartAtProbes(events: seq<Event>)
    ensures StartsAtProbes(Run(events).intervals, events)
  {
    if events != [] {
      var n := |events| - 1;
      var front, e := events[..n], events[n];
      assert events == front + [e];
      RowsStartAtProbes(front);
      StepOnTimeline(Run(front), e);
      if e.Probed? {
        SaveStartsAtProbes(Run(front).intervals, front, e, Unset);
        if Run(events).intervals != Run(front).intervals {
          var status :| Run(events).intervals == SaveStatusInterval(Run(front).intervals, e.monitor, status,
              e.input.at);
          SaveStartsAtProbes(Run(front).intervals, front, e, status);
        }
      } else {
        assert forall i :: 0 <= i < n ==> events[i] == front[i];
      }
    }
  }

  lemma StartedNoLater(front: seq<Event>, e: Event, rows: seq<IntervalRow>)
    requires StartsAtProbes(rows, front) && e.Probed? && ClockForward(front + [e], e.monitor)
    ensures forall row :: row in History(rows, e.monitor) ==> row.startedAt <= e.input.at
  {
    var events := front + [e];
    forall row | row in History(rows, e.monitor) ensures row.startedAt <= e.input.at {
      var k :| 0 <= k < |rows| && rows[k] == row;
      var i :| 0 <= i < |front| && front[i].Probed? && front[i].monitor == rows[k].monitor
               && front[i].input.at == rows[k].startedAt;
      assert Concerns(events[i], e.monitor) && Concerns(events[|front|], e.monitor);
    }
  }

  /** Over every run, maintenance, suppression and deletions included: each monitor's rows chain
      without gaps, only the last is open, neighbours differ in status, and downtime marks exactly the
      DOWN rows and the FAILING rows that led straight to DOWN. */
  lemma {:induction false} TimelineInvariant(events: seq<Event>, m: MonitorId)
    requires ClockForward(events, m)
    ensures Chain(History(Run(events).intervals, m))
  {
    if events != [] {
      var n := |events| - 1;
      var front, e := events[..n], events[n];
      assert events == front + [e];
      TimelineInvariant(front, m);
      RowsStartAtProbes(front);
      StepOnTimeline(Run(front), e);
      var rows := Run(front).intervals;
      if Run(events).intervals != rows {
        var status :| Run(events).intervals == SaveStatusInterval(rows, e.monitor, status, e.input.at);
        SaveExtendsChain(rows, e.monitor, status, e.input.at, m);
        if e.monitor == m {
          StartedNoLater(front, e, rows);
          ExtendKeepsChain(History(rows, m), m, status, e.input.at);
        }
      }
    }
  }

  // ----- reading the chain -----

  predicate Covers(row: IntervalRow, t: Time) {
    row.startedAt <= t && (row.endedAt.None? || t < row.endedAt.value)
  }

  /** The instant lies in a row flagged as downtime. */
  ghost predicate Flagged(c: seq<IntervalRow>, t: Time) {
    exists k :: 0 <= k < |c| && c[k].downtime && Covers(c[k], t)
  }

  /** The outage a row stands for, an open one lasting until now. */
  function RowOutage(row: IntervalRow, now: Time): seq<Interval> {
    if row.downtime then [Interval(row.startedAt, if row.endedAt.Some? then row.endedAt.value else now)] else []
  }

  function OutagesOf(c: seq<IntervalRow>, now: Time): seq<Interval> {
    if c == [] then [] else OutagesOf(c[..|c| - 1], now) + RowOutage(c[|c| - 1], now)
  }

  lemma OutagesPush(rows: seq<IntervalRow>, row: IntervalRow, m: MonitorId, now: Time)
    ensures OutagesOf(History(rows + [row], m), now)
            == OutagesOf(History(rows, m), now) + if row.monitor == m then RowOutage(row, now) else []
  {
    SelectPush(OfMonitor(m), rows, row);
    assert (History(rows, m) + [row])[..|History(rows, m)|] == History(rows, m);
  }

  ghost predicate Listed(outages: map<MonitorId, seq<Interval>>, rows: seq<IntervalRow>, now: Time) {
    forall m :: Lookup(outages, m) == OutagesOf(History(rows, m), now)
  }

  lemma ListOneMore(outages: map<MonitorId, seq<Interval>>, rows: seq<IntervalRow>, row: IntervalRow, now: Time)
    requires Listed(outages, rows, now)
    ensures var more := Lookup(outages, row.monitor) + RowOutage(row, now);
      Listed(if row.downtime then outages[row.monitor := more] else outages, rows + [row], now)
  {
    forall m { OutagesPush(rows, row, m, now); }
  }

  method ListDowntimeIntervals(rows: seq<IntervalRow>, now: Time) returns (outages: map<MonitorId, seq<Interval>>)
    ensures forall m :: Lookup(outages, m) == OutagesOf(History(rows, m), now)
  {
    outages := map[];
    for k := 0 to |rows|
      invariant Listed(outages, rows[..k], now)
    {
      var row := rows[k];
      assert rows[..k + 1] == rows[..k] + [row];
      ListOneMore(outages, rows[..k], row, now);
      if row.downtime {
        outages := outages[row.monitor := Lookup(outages, row.monitor) + RowOutage(row, now)];
      }
    }
    assert rows[..|rows|] == rows;
    assert Listed(outages, rows, now);
  }

  lemma {:induction false} OutagesEndBy(c: seq<IntervalRow>, now: Time, bound: Time)
    requires forall k :: 0 <= k < |c| ==> c[k].endedAt.Some? && c[k].endedAt.value <= bound
    ensures forall i :: i in OutagesOf(c, now) ==> i.end <= bound
  {
    if c != [] {
      OutagesEndBy(c[..|c| - 1], now, bound);
    }
  }

  lemma ChainFront(c: seq<IntervalRow>, n: nat)
    requires Chain(c) && n < |c|
    ensures forall k :: 0 <= k < n ==> c[k].endedAt.Some? && c[k].endedAt.value <= c[n].startedAt
  {
    forall k | 0 <= k < n ensures c[k].endedAt.Some? && c[k].endedAt.value <= c[n].startedAt {
      ChainOrdered(c, k, n);
    }
  }

  /** The outages of a chain never overlap, so accounting on them is exact. */
  lemma {:induction false} OutagesDisjoint(c: seq<IntervalRow>, n: nat, now: Time)
    requires Chain(c) && n <= |c|
    ensures Disjoint(OutagesOf(c[..n], now))
  {
    if n > 0 {
      OutagesDisjoint(c, n - 1, now);
      assert c[..n][..n - 1] == c[..n - 1];
      ChainFront(c, n - 1);
      OutagesEndBy(c[..n - 1], now, c[n - 1].startedAt);
      var before, all := OutagesOf(c[..n - 1], now), OutagesOf(c[..n], now);
      forall i, j | 0 <= i < j < |all| ensures Span(all[i]) !! Span(all[j]) {
        if j < |before| {
          assert Span(before[i]) !! Span(before[j]);
        } else {
          assert all[i] == before[i] && before[i] in before;
        }
      }
    }
  }

  /** Below now they cover exactly the flagged instants. */
  lemma {:induction false} OutagesAreFlagged(c: seq<IntervalRow>, now: Time, t: Time)
    requires t < now
    ensures t in UnionOf(OutagesOf(c, now)) <==> Flagged(c, t)
  {
    if c != [] {
      var n := |c| - 1;
      var front, row := c[..n], c[n];
      OutagesAreFlagged(front, now, t);
      if row.downtime {
        UnionOfPush(OutagesOf(front, now), Interval(row.startedAt, if row.endedAt.Some? then row.endedAt.value
            else now));
      } else {
        assert OutagesOf(c, now) == OutagesOf(front, now);
      }
      if Flagged(front, t) {
        var k :| 0 <= k < n && front[k].downtime && Covers(front[k], t);
        assert c[k] == front[k];
      }
      if Flagged(c, t) && !(row.downtime && Covers(row, t)) {
        var k :| 0 <= k < |c| && c[k].downtime && Covers(c[k], t);
        assert k < n && front[k] == c[k];
      }
    }
  }
}
