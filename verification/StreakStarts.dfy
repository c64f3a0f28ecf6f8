/** Since when a monitor has been free of failures and of downtime, read from its timeline. */
module StreakStarts {
  import opened Basics
  import opened Sequences
  import opened Monitor
  import opened Storage
  import opened Timeline

  // ----- the aggregates of the query -----

  /** MAX(started_at) over open UP rows. */
  function OpenUpStart(c: seq<IntervalRow>): Option<Time> {
    if c == [] then None
    else
      var row := c[|c| - 1];
      Latest(OpenUpStart(c[..|c| - 1]), if row.status == Up && row.endedAt.None? then Some(row.startedAt) else None)
  }

  /** MAX(ended_at) over closed DOWN rows. */
  function ClosedDownEnd(c: seq<IntervalRow>): Option<Time> {
    if c == [] then None
    else
      var row := c[|c| - 1];
      Latest(ClosedDownEnd(c[..|c| - 1]), if row.status == Down then row.endedAt else None)
  }

  /** MIN(started_at). */
  function FirstStart(c: seq<IntervalRow>): Option<Time> {
    if c == [] then None else Earliest(FirstStart(c[..|c| - 1]), Some(c[|c| - 1].startedAt))
  }

  function FailureFreeSince(c: seq<IntervalRow>): Option<Time> {
    OpenUpStart(c)
  }

  function DowntimeFreeSince(c: seq<IntervalRow>): Option<Time> {
    if OpenUpStart(c).None? then None
    else if ClosedDownEnd(c).Some? then ClosedDownEnd(c) else FirstStart(c)
  }

  // ----- what they mean -----

  lemma {:induction false} NoOpenUp(c: seq<IntervalRow>)
    requires forall k :: 0 <= k < |c| ==> c[k].endedAt.Some?
    ensures OpenUpStart(c).None?
  {
    if c != [] {
      NoOpenUp(c[..|c| - 1]);
    }
  }

  lemma {:induction false} ClosedDownEndIsLatest(c: seq<IntervalRow>)
    ensures forall k :: 0 <= k < |c| && c[k].status == Down && c[k].endedAt.Some?
              ==> ClosedDownEnd(c).Some? && c[k].endedAt.value <= ClosedDownEnd(c).value
    ensures ClosedDownEnd(c).Some? ==>
      exists k :: 0 <= k < |c| && c[k].status == Down && c[k].endedAt == ClosedDownEnd(c)
  {
    if c != [] {
      var n := |c| - 1;
      ClosedDownEndIsLatest(c[..n]);
      if ClosedDownEnd(c).Some? && ClosedDownEnd(c) == ClosedDownEnd(c[..n]) {
        var k :| 0 <= k < n && c[..n][k].status == Down && c[..n][k].endedAt == ClosedDownEnd(c[..n]);
        assert c[k] == c[..n][k];
      }
    }
  }

  lemma {:induction false} FirstStartIsFirst(c: seq<IntervalRow>)
    ensures c != [] ==> FirstStart(c).Some? && forall k :: 0 <= k < |c| ==> FirstStart(c).value <= c[k].startedAt
  {
    if c != [] {
      FirstStartIsFirst(c[..|c| - 1]);
    }
  }

  ghost predicate UpSince(c: seq<IntervalRow>, since: Time) {
    forall t :: since <= t ==> UpAt(c, t)
  }

  ghost predicate UpAt(c: seq<IntervalRow>, t: Time) {
    exists k :: 0 <= k < |c| && c[k].status == Up && Covers(c[k], t)
  }

  /** A nonempty UP row ends exactly where the open one starts: only empty rows lie between. */
  ghost predicate UpJoinsAt(c: seq<IntervalRow>, t: Time) {
    exists k :: 0 <= k < |c| && c[k].status == Up && c[k].startedAt < t && c[k].endedAt == Some(t)
  }

  ghost predicate EndsUp(c: seq<IntervalRow>) {
    Chain(c) && c != [] && c[|c| - 1].status == Up
  }

  lemma FailureFreeIsOpenStart(c: seq<IntervalRow>)
    requires Chain(c)
    ensures FailureFreeSince(c) == if c != [] && c[|c| - 1].status == Up then Some(c[|c| - 1].startedAt) else None
  {
    if c != [] {
      ChainFront(c, |c| - 1);
      NoOpenUp(c[..|c| - 1]);
    }
  }

  /** A monitor that is not UP has neither. */
  lemma NotUpHasNone(c: seq<IntervalRow>)
    requires Chain(c) && (c == [] || c[|c| - 1].status != Up)
    ensures FailureFreeSince(c).None? && DowntimeFreeSince(c).None?
  {
    FailureFreeIsOpenStart(c);
  }

  /** Every downtime row is closed, and no later than some DOWN row. */
  lemma DowntimeEndsBy(c: seq<IntervalRow>, k: nat)
    requires EndsUp(c) && k < |c| && c[k].downtime
    ensures ClosedDownEnd(c).Some? && c[k].endedAt.Some? && c[k].endedAt.value <= ClosedDownEnd(c).value
  {
    ClosedDownEndIsLatest(c);
    assert Link(c[k], c[k + 1]);
    if c[k].status == Failing {
      assert Link(c[k + 1], c[k + 2]);
    }
  }

  /** On a timeline that ends UP: downtime-free-since is no later than failure-free-since, and no
      instant from then on is flagged as downtime. */
  lemma DowntimeFree(c: seq<IntervalRow>)
    requires EndsUp(c)
    ensures FailureFreeSince(c).Some? && DowntimeFreeSince(c).Some?
    ensures DowntimeFreeSince(c).value <= FailureFreeSince(c).value
    ensures forall t :: DowntimeFreeSince(c).value <= t ==> !Flagged(c, t)
  {
    var n := |c| - 1;
    FailureFreeIsOpenStart(c);
    ClosedDownEndIsLatest(c);
    FirstStartIsFirst(c);
    ChainFront(c, n);
    forall t | DowntimeFreeSince(c).value <= t ensures !Flagged(c, t) {
      if Flagged(c, t) {
        var k :| 0 <= k < |c| && c[k].downtime && Covers(c[k], t);
        DowntimeEndsBy(c, k);
        assert false;
      }
    }
  }

  /** The monitor is UP throughout from failure-free-since, and that is the earliest such time
      exactly when no nonempty UP row ends there. */
  lemma FailureFreeEarliest(c: seq<IntervalRow>)
    requires EndsUp(c)
    ensures FailureFreeSince(c).Some? && UpSince(c, FailureFreeSince(c).value)
    ensures var since := FailureFreeSince(c).value;
      (forall s :: UpSince(c, s) ==> since <= s) <==> !UpJoinsAt(c, c[|c| - 1].startedAt)
  {
    FailureFreeIsOpenStart(c);
    var n := |c| - 1;
    var since := c[n].startedAt;
    forall t | since <= t ensures UpAt(c, t) {
      assert Covers(c[n], t);
    }
    ChainFront(c, n);
    forall s | UpSince(c, s) && s < since ensures UpJoinsAt(c, since) {
      assert UpAt(c, since - 1);
      var k :| 0 <= k < |c| && c[k].status == Up && Covers(c[k], since - 1);
      assert k < n && c[k].endedAt == Some(since);
    }
    if UpJoinsAt(c, since) {
      var k :| 0 <= k < |c| && c[k].status == Up && c[k].startedAt < since && c[k].endedAt == Some(since);
      forall t | since - 1 <= t ensures UpAt(c, t) {
        assert Covers(c[k], t) || Covers(c[n], t);
      }
      assert UpSince(c, since - 1);
    }
  }

  /** When a monitor's saves have strictly increasing times no row is empty, and the time is earliest. */
  lemma FailureFreeEarliestWhenStrict(c: seq<IntervalRow>, s: Time)
    requires EndsUp(c) && UpSince(c, s)
    requires StartsIncrease(c)
    ensures FailureFreeSince(c).Some? && FailureFreeSince(c).value <= s
  {
    FailureFreeEarliest(c);
    FailureFreeIsOpenStart(c);
    var n := |c| - 1;
    if UpJoinsAt(c, c[n].startedAt) {
      var k :| 0 <= k < |c| && c[k].status == Up && c[k].startedAt < c[n].startedAt
               && c[k].endedAt == Some(c[n].startedAt);
      assert Link(c[k], c[k + 1]);
      if k + 1 < n {
        assert Link(c[k + 1], c[k + 2]);
        ChainFront(c, n);
      }
      assert false;
    }
  }

  // ----- how early downtime-free-since is -----

  /** The last DOWN row. */
  ghost predicate LastDown(c: seq<IntervalRow>, k: int) {
    0 <= k < |c| && c[k].status == Down && forall j :: k < j < |c| ==> c[j].status != Down
  }

  lemma StartsNoEarlier(c: seq<IntervalRow>, k: nat)
    requires Chain(c) && k < |c|
    ensures c[0].startedAt <= c[k].startedAt
    ensures k < |c| - 1 ==> c[k].endedAt.Some? && c[k].startedAt <= c[k].endedAt.value
  {
    if k < |c| - 1 { assert Link(c[k], c[k + 1]); }
    if k > 0 {
      ChainOrdered(c, 0, k);
      assert Link(c[0], c[1]);
    }
  }

  lemma {:induction false} FirstStartIs(c: seq<IntervalRow>)
    requires c != [] && forall k :: 0 <= k < |c| ==> c[0].startedAt <= c[k].startedAt
    ensures FirstStart(c) == Some(c[0].startedAt)
  {
    if |c| > 1 {
      FirstStartIs(c[..|c| - 1]);
    }
  }

  /** On a timeline that ends UP, downtime-free-since is the end of the last DOWN row, or else the start of
      the first row. */
  lemma DowntimeFreeIs(c: seq<IntervalRow>)
    requires EndsUp(c)
    ensures (forall k :: 0 <= k < |c| ==> c[k].status != Down) ==> DowntimeFreeSince(c) == Some(c[0].startedAt)
    ensures forall k :: LastDown(c, k) ==> DowntimeFreeSince(c) == c[k].endedAt && c[k].endedAt.Some?
  {
    FailureFreeIsOpenStart(c);
    ClosedDownEndIsLatest(c);
    forall k: nat | k < |c| ensures c[0].startedAt <= c[k].startedAt { StartsNoEarlier(c, k); }
    FirstStartIs(c);
    forall k | LastDown(c, k) ensures ClosedDownEnd(c) == c[k].endedAt && c[k].endedAt.Some? {
      StartsNoEarlier(c, k);
      var j :| 0 <= j < |c| && c[j].status == Down && c[j].endedAt == ClosedDownEnd(c);
      if j < k { ChainOrdered(c, j, k); }
    }
  }

  /** Nothing is flagged as downtime from s on. */
  ghost predicate Quiet(c: seq<IntervalRow>, s: Time) {
    forall t :: s <= t ==> !Flagged(c, t)
  }

  /** A nonempty row flagged as downtime ends there. */
  ghost predicate FlaggedUntil(c: seq<IntervalRow>, at: Time) {
    exists k :: 0 <= k < |c| && c[k].downtime && c[k].startedAt < at && c[k].endedAt == Some(at)
  }

  /** A flagged row reaches no further than downtime-free-since, and covers the instant before it only when
      it ends there. */
  lemma FlaggedRowEnds(c: seq<IntervalRow>, since: Time, k: nat, t: Time)
    requires EndsUp(c) && DowntimeFreeSince(c) == Some(since)
    requires k < |c| && c[k].downtime && Covers(c[k], t) && since - 1 <= t
    ensures c[k].startedAt < since && c[k].endedAt == Some(since)
  {
    DowntimeEndsBy(c, k);
    FailureFreeIsOpenStart(c);
    hide Chain, EndsUp;
  }

  lemma QuietOneEarlier(c: seq<IntervalRow>, since: Time)
    requires EndsUp(c) && DowntimeFreeSince(c) == Some(since)
    ensures Quiet(c, since - 1) || FlaggedUntil(c, since)
  {
    hide EndsUp, DowntimeFreeSince;
    if t :| since - 1 <= t && Flagged(c, t) {
      var k: nat :| k < |c| && c[k].downtime && Covers(c[k], t);
      FlaggedRowEnds(c, since, k, t);
    }
  }

  lemma FlaggedNotEarlier(c: seq<IntervalRow>, since: Time, s: Time)
    requires FlaggedUntil(c, since) && Quiet(c, s)
    ensures since <= s
  {
    var k :| 0 <= k < |c| && c[k].downtime && c[k].startedAt < since && c[k].endedAt == Some(since);
    var t := if s < c[k].startedAt then c[k].startedAt else s;
    assert Covers(c[k], t) <==> t < since;
    assert Flagged(c, t) <== t < since;
  }

  /** It is the earliest time, within the timeline, from which nothing is flagged, exactly when it is the
      start of the timeline or a nonempty flagged row ends there: an outage whose DOWN row is empty and
      follows no FAILING row flags nothing. */
  lemma DowntimeFreeEarliest(c: seq<IntervalRow>)
    requires EndsUp(c)
    ensures DowntimeFreeSince(c).Some? && Quiet(c, DowntimeFreeSince(c).value)
    ensures c[0].startedAt <= DowntimeFreeSince(c).value
    ensures var since := DowntimeFreeSince(c).value;
      (forall s :: c[0].startedAt <= s && Quiet(c, s) ==> since <= s)
      <==> since == c[0].startedAt || FlaggedUntil(c, since)
  {
    DowntimeFree(c);
    var since := DowntimeFreeSince(c).value;
    FirstNotAfter(c);
    hide DowntimeFreeSince, Flagged, EndsUp, FlaggedUntil;
    assert Quiet(c, since);
    if since == c[0].startedAt {
    } else if FlaggedUntil(c, since) {
      forall s | c[0].startedAt <= s && Quiet(c, s) ensures since <= s { FlaggedNotEarlier(c, since, s); }
    } else {
      QuietOneEarlier(c, since);
      assert c[0].startedAt <= since - 1 && Quiet(c, since - 1);
    }
  }

  lemma FirstNotAfter(c: seq<IntervalRow>)
    requires EndsUp(c)
    ensures DowntimeFreeSince(c).Some? && c[0].startedAt <= DowntimeFreeSince(c).value
  {
    DowntimeFree(c);
    ClosedDownEndIsLatest(c);
    FirstStartIsFirst(c);
    forall k: nat | k < |c| ensures c[0].startedAt <= c[k].startedAt { StartsNoEarlier(c, k); }
    FirstStartIs(c);
    if ClosedDownEnd(c).Some? {
      var j: nat :| j < |c| && c[j].status == Down && c[j].endedAt == ClosedDownEnd(c);
      StartsNoEarlier(c, j);
    }
  }

  /** When saves have strictly increasing times no row is empty, and it is the earliest. */
  lemma DowntimeFreeEarliestWhenStrict(c: seq<IntervalRow>, s: Time)
    requires EndsUp(c) && StartsIncrease(c) && c[0].startedAt <= s && Quiet(c, s)
    ensures DowntimeFreeSince(c).Some? && DowntimeFreeSince(c).value <= s
  {
    DowntimeFreeEarliest(c);
    DowntimeFreeIs(c);
    if k :| 0 <= k < |c| && c[k].status == Down {
      var last := LastDownFrom(c, k);
      assert Link(c[last], c[last + 1]);
      assert FlaggedUntil(c, DowntimeFreeSince(c).value);
    }
  }

  lemma {:induction false} LastDownFrom(c: seq<IntervalRow>, k: nat) returns (last: nat)
    requires k < |c| && c[k].status == Down
    ensures LastDown(c, last)
    decreases |c| - k
  {
    if j: nat :| k < j < |c| && c[j].status == Down {
      last := LastDownFrom(c, j);
    } else {
      last := k;
    }
  }

  // ----- on stored timelines -----

  ghost predicate StartsIncrease(c: seq<IntervalRow>) {
    forall k :: 0 <= k < |c| - 1 ==> c[k].startedAt < c[k + 1].startedAt
  }

  lemma StartedEarlier(front: seq<Event>, e: Event, rows: seq<IntervalRow>)
    requires StartsAtProbes(rows, front) && e.Probed? && ClockAdvances(front + [e], e.monitor)
    ensures forall row :: row in History(rows, e.monitor) ==> row.startedAt < e.input.at
  {
    var events := front + [e];
    forall row | row in History(rows, e.monitor) ensures row.startedAt < e.input.at {
      var k :| 0 <= k < |rows| && rows[k] == row;
      var i :| 0 <= i < |front| && front[i].Probed? && front[i].monitor == rows[k].monitor
               && front[i].input.at == rows[k].startedAt;
      assert Concerns(events[i], e.monitor) && Concerns(events[|front|], e.monitor);
    }
  }

  lemma ExtendIncreases(c: seq<IntervalRow>, m: MonitorId, status: Status, at: Time)
    requires StartsIncrease(c) && forall row :: row in c ==> row.startedAt < at
    ensures StartsIncrease(Extend(c, m, status, at))
  {
    var e := Extend(c, m, status, at);
    forall k | 0 <= k < |e| - 1 ensures e[k].startedAt < e[k + 1].startedAt {
      assert e[k].startedAt == c[k].startedAt && c[k] in c;
    }
  }

  lemma {:induction false} StoredStartsIncrease(events: seq<Event>, m: MonitorId)
    requires ClockAdvances(events, m)
    ensures ClockForward(events, m) && StartsIncrease(History(Run(events).intervals, m))
  {
    if events != [] {
      var n := |events| - 1;
      var front, e := events[..n], events[n];
      assert events == front + [e];
      StoredStartsIncrease(front, m);
      RowsStartAtProbes(front);
      StepOnTimeline(Run(front), e);
      var rows := Run(front).intervals;
      if Run(events).intervals != rows {
        var status :| Run(events).intervals == SaveStatusInterval(rows, e.monitor, status, e.input.at);
        TimelineInvariant(front, m);
        SaveExtendsChain(rows, e.monitor, status, e.input.at, m);
        if e.monitor == m {
          StartedEarlier(front, e, rows);
          ExtendIncreases(History(rows, m), m, status, e.input.at);
        }
      }
    }
  }

  /** On every stored timeline that ends UP: downtime-free-since is no later than failure-free-since, it is
      the end of the last DOWN row or else the start of the first, and no flagged downtime follows it; the
      monitor is UP throughout from failure-free-since; and with advancing clocks no earlier times will do. */
  lemma StoredStreakStarts(events: seq<Event>, m: MonitorId)
    requires ClockForward(events, m)
    requires var c := History(Run(events).intervals, m); c != [] && c[|c| - 1].status == Up
    ensures var c := History(Run(events).intervals, m);
      && FailureFreeSince(c).Some? && DowntimeFreeSince(c).Some?
      && DowntimeFreeSince(c).value <= FailureFreeSince(c).value
      && (forall t :: DowntimeFreeSince(c).value <= t ==> !Flagged(c, t))
      && (forall k :: LastDown(c, k) ==> DowntimeFreeSince(c) == c[k].endedAt)
      && ((forall k :: 0 <= k < |c| ==> c[k].status != Down) ==> DowntimeFreeSince(c).value == c[0].startedAt)
      && UpSince(c, FailureFreeSince(c).value)
      && (ClockAdvances(events, m) ==>
            && (forall s :: UpSince(c, s) ==> FailureFreeSince(c).value <= s)
            && (forall s :: c[0].startedAt <= s && Quiet(c, s) ==> DowntimeFreeSince(c).value <= s))
  {
    TimelineInvariant(events, m);
    var c := History(Run(events).intervals, m);
    hide Run, History, UpSince, Flagged, FailureFreeSince, DowntimeFreeSince, ClockAdvances, ClockForward;
    hide LastDown, Quiet;
    DowntimeFree(c);
    DowntimeFreeIs(c);
    FailureFreeEarliest(c);
    if ClockAdvances(events, m) {
      StoredStartsIncrease(events, m);
      forall s | UpSince(c, s) ensures FailureFreeSince(c).value <= s {
        FailureFreeEarliestWhenStrict(c, s);
      }
      forall s | c[0].startedAt <= s && Quiet(c, s) ensures DowntimeFreeSince(c).value <= s {
        DowntimeFreeEarliestWhenStrict(c, s);
      }
    }
  }

  // ----- timelines on which they are not the earliest -----

  function ProbeAt(at: Time, ok: bool, threshold: int): Event {
    Probed(0, ProbeInput(at, ok, threshold, None, None, false, false), at)
  }

  /** A success, and later a failure and a success that carry one timestamp. */
  function OneTimestamp(threshold: int): seq<Event> {
    [ProbeAt(1, true, threshold), ProbeAt(5, false, threshold), ProbeAt(5, true, threshold)]
  }

  lemma StepStatus(db: Db, e: Event, status: Status)
    requires e.Probed? && e.input.activeMaintenance.None? && e.input.observer.None?
    requires StateOf(db, e.monitor).status in {Unknown, Up, Failing, Down}
    requires if e.input.ok then status == Up else StateOf(db, e.monitor).status != Down
    requires var failures := StateOf(db, e.monitor).consecutiveFailures + 1;
      !e.input.ok ==> status == if failures >= e.input.threshold then Down else Failing
    ensures Step(db, e).intervals == SaveStatusInterval(db.intervals, e.monitor, status, e.input.at)
    ensures StateOf(Step(db, e), e.monitor).status == status
    ensures e.input.ok ==> StateOf(Step(db, e), e.monitor).consecutiveFailures == 0
  {
    hide SaveStatusInterval, CancelPending;
  }

  /** The rows that are stored. */
  function Split(status: Status): seq<IntervalRow> {
    [IntervalRow(0, Up, 1, Some(5), false), IntervalRow(0, status, 5, Some(5), status == Down),
     IntervalRow(0, Up, 5, None, false)]
  }

  lemma {:induction false} RunThree(a: Event, b: Event, c: Event)
    ensures Run([a, b, c]) == Step(Step(Step(EMPTY, a), b), c)
  {
    hide Step;
    var e := [a, b, c];
    assert e[..2] == [a, b] && [a, b][..1] == [a] && [a][..0] == [];
    assert Run([]) == EMPTY;
    assert Run([a]) == Step(EMPTY, a);
    assert Run([a, b]) == Step(Step(EMPTY, a), b);
  }

  lemma OneTimestampRows(threshold: int)
    requires threshold in {1, 2}
    ensures Run(OneTimestamp(threshold)).intervals == Split(if threshold == 1 then Down else Failing)
  {
    hide Step, Run;
    var e, status := OneTimestamp(threshold), if threshold == 1 then Down else Failing;
    RunThree(e[0], e[1], e[2]);
    StepStatus(EMPTY, e[0], Up);
    var db1 := Step(EMPTY, e[0]);
    assert db1.intervals == [IntervalRow(0, Up, 1, None, false)];
    StepStatus(db1, e[1], status);
    var db2 := Step(db1, e[1]);
    assert db2.intervals == [IntervalRow(0, Up, 1, Some(5), false), IntervalRow(0, status, 5, None, status == Down)];
    StepStatus(db2, e[2], Up);
    assert e == [e[0], e[1], e[2]];
  }

  lemma SplitIsUp(status: Status)
    ensures History(Split(status), 0) == Split(status) && UpSince(Split(status), 1) && UpJoinsAt(Split(status), 5)
    ensures Quiet(Split(status), 1)
  {
    var c := Split(status);
    SelectAll(OfMonitor(0), c);
    hide Select;
    assert c[0].status == Up && c[0].endedAt == Some(5);
    forall t | 1 <= t ensures UpAt(c, t) {
      assert Covers(c[0], t) || Covers(c[2], t);
    }
  }

  lemma OneTimestampForward(threshold: int)
    ensures ClockForward(OneTimestamp(threshold), 0)
  {
  }

  /** A failure and a success saved with one timestamp leave an empty row: the stored timeline is UP
      throughout from 1, yet failure-free-since is 5. */
  lemma EqualTimesSplitStreak()
    ensures var events := OneTimestamp(2);
      var c := History(Run(events).intervals, 0);
      && ClockForward(events, 0) && EndsUp(c)
      && FailureFreeSince(c) == Some(5) && UpSince(c, 1) && UpJoinsAt(c, c[|c| - 1].startedAt)
  {
    hide Run, Chain, UpSince, UpJoinsAt, FailureFreeSince, History, ClockForward, Quiet;
    OneTimestampForward(2);
    OneTimestampRows(2);
    SplitIsUp(Failing);
    TimelineInvariant(OneTimestamp(2), 0);
    FailureFreeIsOpenStart(Split(Failing));
  }

  /** With a threshold of one the empty row is DOWN: nothing was ever flagged, yet downtime-free-since
      is 5. */
  lemma EqualTimesHideOutage()
    ensures var events := OneTimestamp(1);
      var c := History(Run(events).intervals, 0);
      && ClockForward(events, 0) && EndsUp(c)
      && DowntimeFreeSince(c) == Some(5) && Quiet(c, 1) && c[0].startedAt == 1
  {
    hide Run, Chain, UpSince, UpJoinsAt, DowntimeFreeSince, History, ClockForward, Quiet;
    OneTimestampForward(1);
    OneTimestampRows(1);
    SplitIsUp(Down);
    TimelineInvariant(OneTimestamp(1), 0);
    DowntimeFreeIs(Split(Down));
    assert LastDown(Split(Down), 1);
  }
}
