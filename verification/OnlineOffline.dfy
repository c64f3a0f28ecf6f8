/** Two algorithms, one downtime: the timeline written probe by probe and the timeline rebuilt from
    outcome runs flag the same instants, those of confirmed outages. */
module OnlineOffline {
  import opened Basics
  import opened Sequences
  import opened Intervals
  import opened Monitor
  import opened Storage
  import opened OutcomeRuns
  import opened Timeline
  import opened Backfill
  import opened Accounting

  // ----- confirmed outages, as documented -----

  ghost predicate AllFail(h: seq<ProbeRow>, a: int, b: int) {
    0 <= a <= b <= |h| && forall i :: a <= i < b ==> !h[i].ok
  }

  /** No success among the probes from a on comes at or before t. */
  ghost predicate NotYetRecovered(h: seq<ProbeRow>, a: nat, t: Time) {
    forall i :: a <= i < |h| && h[i].ok ==> t < h[i].at
  }

  ghost predicate OutageFrom(h: seq<ProbeRow>, k: int, a: nat, b: nat, t: Time) {
    a < b && AllFail(h, a, b) && b - a >= k && h[a].at <= t && NotYetRecovered(h, a, t)
  }

  /** The instant lies in an outage: from the first failure of a streak that reached the threshold k
      until the next success. */
  ghost predicate Confirmed(h: seq<ProbeRow>, k: int, t: Time) {
    exists a: nat, b: nat :: OutageFrom(h, k, a, b, t)
  }

  /** Length of the failure streak the history ends with. */
  function Streak(h: seq<ProbeRow>): (n: nat)
    ensures n <= |h|
  {
    if h == [] || h[|h| - 1].ok then 0 else Streak(h[..|h| - 1]) + 1
  }

  lemma {:induction false} StreakFails(h: seq<ProbeRow>)
    ensures AllFail(h, |h| - Streak(h), |h|)
    ensures Streak(h) < |h| ==> h[|h| - Streak(h) - 1].ok
  {
    if h != [] && !h[|h| - 1].ok {
      StreakFails(h[..|h| - 1]);
    }
  }

  /** Start of the streak a failure p would extend or begin. */
  function StreakStart(h: seq<ProbeRow>, p: ProbeRow): Time {
    if Streak(h) == 0 then p.at else h[|h| - Streak(h)].at
  }

  lemma StreakPush(h: seq<ProbeRow>, p: ProbeRow)
    ensures Streak(h + [p]) == if p.ok then 0 else Streak(h) + 1
  {
    assert (h + [p])[..|h|] == h;
  }

  lemma StreakStartsAt(h: seq<ProbeRow>, p: ProbeRow)
    ensures (h + [p])[|h| - Streak(h)].at == StreakStart(h, p)
  {
    hide Streak;
  }

  /** A success ends every outage. */
  lemma ConfirmedAfterSuccess(h: seq<ProbeRow>, p: ProbeRow, k: int, t: Time)
    requires p.ok
    ensures Confirmed(h + [p], k, t) <==> Confirmed(h, k, t) && t < p.at
  {
    var all := h + [p];
    assert all[|h|] == p && forall i :: 0 <= i < |h| ==> all[i] == h[i];
    if Confirmed(all, k, t) {
      var a: nat, b: nat :| OutageFrom(all, k, a, b, t);
      assert all[|h|].ok;
      assert OutageFrom(h, k, a, b, t);
    }
    if Confirmed(h, k, t) && t < p.at {
      var a: nat, b: nat :| OutageFrom(h, k, a, b, t);
      assert OutageFrom(all, k, a, b, t);
    }
  }

  lemma OutageAfterFailure(h: seq<ProbeRow>, p: ProbeRow, k: int, a: nat, b: nat, t: Time)
    requires !p.ok && SortedBy(ProbeBefore(), h + [p]) && OutageFrom(h + [p], k, a, b, t)
    ensures OutageFrom(h, k, a, b, t) || (Streak(h) + 1 >= k && StreakStart(h, p) <= t)
  {
    var all, s := h + [p], |h| - Streak(h);
    assert all[|h|] == p && forall i :: 0 <= i < |h| ==> all[i] == h[i];
    StreakFails(h);
    StreakStartsAt(h, p);
    hide Streak, StreakStart, SortedBy;
    if b == |all| {
      assert s > 0 ==> all[s - 1].ok;
      if s < a { SortedAt(all, s, a); }
    }
  }

  lemma SortedAt(h: seq<ProbeRow>, i: nat, j: nat)
    requires SortedBy(ProbeBefore(), h) && i < j < |h|
    ensures h[i].at < h[j].at
  {
    assert ProbeBefore()(h[i], h[j]);
  }

  lemma OutagePushed(h: seq<ProbeRow>, p: ProbeRow, k: int, a: nat, b: nat, t: Time)
    requires OutageFrom(h, k, a, b, t) && (p.ok ==> t < p.at)
    ensures OutageFrom(h + [p], k, a, b, t)
  {
    assert forall i :: 0 <= i < |h| ==> (h + [p])[i] == h[i];
  }

  lemma StreakOutage(h: seq<ProbeRow>, p: ProbeRow, k: int, t: Time)
    requires !p.ok && Streak(h) + 1 >= k && StreakStart(h, p) <= t
    ensures OutageFrom(h + [p], k, |h| - Streak(h), |h| + 1, t)
  {
    hide Streak, StreakStart;
    var all := h + [p];
    assert all[|h|] == p && forall i :: 0 <= i < |h| ==> all[i] == h[i];
    StreakFails(h);
    StreakStartsAt(h, p);
  }

  /** A failure adds the time since its streak began, once the streak reaches the threshold. */
  lemma ConfirmedAfterFailure(h: seq<ProbeRow>, p: ProbeRow, k: int, t: Time)
    requires !p.ok && SortedBy(ProbeBefore(), h + [p])
    ensures Confirmed(h + [p], k, t) <==> Confirmed(h, k, t) || (Streak(h) + 1 >= k && StreakStart(h, p) <= t)
  {
    hide Streak, StreakStart, SortedBy, OutageFrom;
    if Confirmed(h + [p], k, t) {
      var a: nat, b: nat :| OutageFrom(h + [p], k, a, b, t);
      OutageAfterFailure(h, p, k, a, b, t);
    }
    if Confirmed(h, k, t) {
      var a: nat, b: nat :| OutageFrom(h, k, a, b, t);
      OutagePushed(h, p, k, a, b, t);
    }
    if Streak(h) + 1 >= k && StreakStart(h, p) <= t {
      StreakOutage(h, p, k, t);
    }
  }

  // ----- one monitor's rows and its history -----

  ghost predicate EndsBy(c: seq<IntervalRow>, bound: Time) {
    forall i :: 0 <= i < |c| ==> c[i].endedAt.Some? && c[i].endedAt.value <= bound
  }

  lemma FlaggedBefore(c: seq<IntervalRow>, bound: Time, t: Time)
    requires EndsBy(c, bound) && Flagged(c, t)
    ensures t < bound
  {
  }

  lemma FlaggedPush(c: seq<IntervalRow>, row: IntervalRow, t: Time)
    ensures Flagged(c + [row], t) <==> Flagged(c, t) || (row.downtime && Covers(row, t))
  {
    var all := c + [row];
    assert all[|c|] == row && forall i :: 0 <= i < |c| ==> all[i] == c[i];
  }

  /** The last row shows the current streak, and every other row is over when it starts. */
  ghost predicate ShowsStreak(c: seq<IntervalRow>, h: seq<ProbeRow>, k: int) {
    && (c == [] <==> h == [])
    && (c != [] ==>
          var last := c[|c| - 1];
          && EndsBy(c[..|c| - 1], last.startedAt)
          && last.startedAt <= h[|h| - 1].at && last.endedAt.None?
          && last.status == (if Streak(h) == 0 then Up else if Streak(h) < k then Failing else Down)
          && last.downtime == (last.status == Down)
          && (last.status == Failing ==> last.startedAt == h[|h| - Streak(h)].at))
  }

  /** The rows agree with the history: they show its streak and flag exactly its confirmed outages. */
  ghost predicate Agrees(c: seq<IntervalRow>, h: seq<ProbeRow>, k: int) {
    ShowsStreak(c, h, k) && forall t :: Flagged(c, t) <==> Confirmed(h, k, t)
  }

  lemma NothingConfirmed(k: int)
    ensures Agrees([], [], k)
  {
  }

  /** While the last row is UP or FAILING every flagged instant is over. */
  lemma FlaggedIsPast(c: seq<IntervalRow>, h: seq<ProbeRow>, k: int, t: Time)
    requires Agrees(c, h, k) && h != [] && Streak(h) < k && Confirmed(h, k, t)
    ensures t < c[|c| - 1].startedAt
  {
    var n := |c| - 1;
    assert c == c[..n] + [c[n]];
    FlaggedPush(c[..n], c[n], t);
    FlaggedBefore(c[..n], c[n].startedAt, t);
  }

  // ----- online -----

  /** What Evaluate and the timeline write make of one more reportable probe of the monitor. */
  ghost function OnlineStatus(h: seq<ProbeRow>, p: ProbeRow, k: int): Status {
    if p.ok then Up else if Streak(h) + 1 >= k then Down else Failing
  }

  lemma ExtendFlags(c: seq<IntervalRow>, m: MonitorId, status: Status, at: Time, t: Time)
    requires c != [] ==> EndsBy(c[..|c| - 1], c[|c| - 1].startedAt) && c[|c| - 1].startedAt <= at
    requires c != [] ==> c[|c| - 1].endedAt.None? && (c[|c| - 1].downtime <==> c[|c| - 1].status == Down)
    requires c != [] ==> c[|c| - 1].status != status
    ensures Flagged(Extend(c, m, status, at), t)
            <==> (Flagged(c, t) && t < at) || (status == Down && at <= t)
                 || (c != [] && c[|c| - 1].status == Failing && status == Down && c[|c| - 1].startedAt <= t < at)
  {
    if c == [] {
      FlaggedPush([], Opened(m, status, at), t);
      assert [] + [Opened(m, status, at)] == [Opened(m, status, at)];
    } else {
      var n := |c| - 1;
      var closed := ClosedBy(c[n], status, at);
      assert c == c[..n] + [c[n]];
      FlaggedPush(c[..n], c[n], t);
      FlaggedPush(c[..n], closed, t);
      FlaggedPush(c[..n] + [closed], Opened(m, status, at), t);
      assert Extend(c, m, status, at) == c[..n] + [closed] + [Opened(m, status, at)];
      if Flagged(c[..n], t) { FlaggedBefore(c[..n], c[n].startedAt, t); }
    }
  }

  lemma ConfirmedStep(c: seq<IntervalRow>, h: seq<ProbeRow>, p: ProbeRow, k: int, m: MonitorId, t: Time)
    requires Agrees(c, h, k) && k >= 1 && SortedBy(ProbeBefore(), h + [p])
    ensures Flagged(Extend(c, m, OnlineStatus(h, p, k), p.at), t) <==> Confirmed(h + [p], k, t)
  {
    var status := OnlineStatus(h, p, k);
    if h != [] { LastBefore(h, p); }
    if p.ok { ConfirmedAfterSuccess(h, p, k, t); } else { ConfirmedAfterFailure(h, p, k, t); }
    StreakFails(h);
    if c == [] || c[|c| - 1].status != status {
      ExtendFlags(c, m, status, p.at, t);
    }
    if h != [] && Streak(h) < k && Confirmed(h, k, t) {
      FlaggedIsPast(c, h, k, t);
    }
    if h != [] && Streak(h) >= k && h[|h| - Streak(h)].at <= t {
      assert OutageFrom(h, k, |h| - Streak(h), |h|, t);
    }
  }

  lemma LastBefore(h: seq<ProbeRow>, p: ProbeRow)
    requires SortedBy(ProbeBefore(), h + [p]) && h != []
    ensures h[|h| - 1].at < p.at
  {
    var all := h + [p];
    assert ProbeBefore()(all[|h| - 1], all[|h|]);
  }

  lemma OnlineShape(c: seq<IntervalRow>, h: seq<ProbeRow>, p: ProbeRow, k: int, m: MonitorId)
    requires ShowsStreak(c, h, k) && k >= 1 && SortedBy(ProbeBefore(), h + [p])
    ensures ShowsStreak(Extend(c, m, OnlineStatus(h, p, k), p.at), h + [p], k)
  {
    var e := Extend(c, m, OnlineStatus(h, p, k), p.at);
    StreakPush(h, p);
    StreakStartsAt(h, p);
    if c != [] {
      LastBefore(h, p);
      var n := |c| - 1;
      if c[n].status != OnlineStatus(h, p, k) {
        assert e[..|e| - 1] == c[..n] + [ClosedBy(c[n], OnlineStatus(h, p, k), p.at)];
      }
    }
  }

  /** One more probe keeps the online rows in agreement. */
  lemma OnlineStep(c: seq<IntervalRow>, h: seq<ProbeRow>, p: ProbeRow, k: int, m: MonitorId)
    requires Agrees(c, h, k) && k >= 1 && SortedBy(ProbeBefore(), h + [p])
    ensures Agrees(Extend(c, m, OnlineStatus(h, p, k), p.at), h + [p], k)
  {
    forall t ensures Flagged(Extend(c, m, OnlineStatus(h, p, k), p.at), t) <==> Confirmed(h + [p], k, t) {
      ConfirmedStep(c, h, p, k, m, t);
    }
    OnlineShape(c, h, p, k, m);
    hide ShowsStreak, Flagged, Confirmed, Extend;
  }

  /** The monitor's reportable probes: suppressed failures are stored but not part of it. */
  function Reported(db: Db, m: MonitorId): seq<ProbeRow> {
    Select(ReportableOf(m), db.probes)
  }

  /** The stored state holds the current streak and the status of the last row. */
  ghost predicate StateAgrees(s: MonitorState, c: seq<IntervalRow>, h: seq<ProbeRow>) {
    && s.consecutiveFailures == Streak(h)
    && s.status == (if c == [] then Unknown else c[|c| - 1].status)
    && s.status != Maintenance
  }

  /** What processing one probe of the monitor does to its reported probes and its rows. */
  lemma ProbeStep(db: Db, m: MonitorId, e: Event, k: int) returns (p: ProbeRow)
    requires e.Probed? && e.monitor == m && e.input.activeMaintenance.None? && e.input.threshold == k && k >= 1
    requires Chain(History(db.intervals, m))
    requires StateAgrees(StateOf(db, m), History(db.intervals, m), Reported(db, m))
    requires Agrees(History(db.intervals, m), Reported(db, m), k)
    ensures p.monitor == m && p.at == e.input.at
    ensures var h, c := Reported(db, m), History(db.intervals, m);
      var after := Step(db, e);
      if Probe(StateOf(db, m), e.input).Evaluated? then
        && Reported(after, m) == h + [p]
        && History(after.intervals, m) == Extend(c, m, OnlineStatus(h, p, k), p.at)
        && StateOf(after, m).status == OnlineStatus(h, p, k)
        && StateOf(after, m).consecutiveFailures == (if p.ok then 0 else Streak(h) + 1)
      else
        Reported(after, m) == h && History(after.intervals, m) == c && StateOf(after, m) == StateOf(db, m)
  {
    hide Select, Streak, Agrees, Chain, SaveStatusInterval;
    var r := Probe(StateOf(db, m), e.input);
    StepState(db, e, m);
    p := ProbeRow(m, e.input.at, e.input.ok, None, false, false);
    match r {
      case Evaluated(next, _) =>
        SelectPush(ReportableOf(m), db.probes, p);
        SaveExtendsChain(db.intervals, m, next.status, p.at, m);
        OnlineStatusHere(db, m, e, p, k);
      case ObserverSuppressed =>
        SelectPush(ReportableOf(m), db.probes, p.(observerSuppressed := true));
      case ConnectivitySuppressed =>
        SelectPush(ReportableOf(m), db.probes, p.(connectivitySuppressed := true));
    }
  }

  lemma OnlineStatusHere(db: Db, m: MonitorId, e: Event, p: ProbeRow, k: int)
    requires e.Probed? && e.monitor == m && e.input.threshold == k && k >= 1 && p.ok == e.input.ok
    requires Probe(StateOf(db, m), e.input).Evaluated?
    requires StateAgrees(StateOf(db, m), History(db.intervals, m), Reported(db, m))
    requires Agrees(History(db.intervals, m), Reported(db, m), k)
    ensures var next := Probe(StateOf(db, m), e.input).next;
      && next.status == OnlineStatus(Reported(db, m), p, k)
      && next.consecutiveFailures == (if p.ok then 0 else Streak(Reported(db, m)) + 1)
  {
    hide Select, Streak, Confirmed, Flagged;
    var h := Reported(db, m);
    assert h == [] ==> Streak(h) == 0 by { StreakFails(h); }
  }

  /** Steps that do not concern the monitor, deletions that keep it included. */
  lemma OtherStep(db: Db, m: MonitorId, e: Event)
    requires !Concerns(e, m) && !Drops(e, m)
    ensures var after := Step(db, e);
      && Reported(after, m) == Reported(db, m)
      && History(after.intervals, m) == History(db.intervals, m)
      && StateOf(after, m) == StateOf(db, m)
  {
    hide SaveStatusInterval, Chain, Select;
    StepState(db, e, m);
    if e.Probed? {
      hide Step;
      StepOnTimeline(db, e);
      if Step(db, e).intervals != db.intervals {
        var status :| Step(db, e).intervals == SaveStatusInterval(db.intervals, e.monitor, status, e.input.at);
        SaveExtendsChain(db.intervals, e.monitor, status, e.input.at, m);
      }
      OneProbeRow(db, e);
      SelectPush(ReportableOf(m), db.probes, Step(db, e).probes[|db.probes|]);
    }
  }

  lemma OneProbeRow(db: Db, e: Event)
    requires e.Probed?
    ensures |Step(db, e).probes| == |db.probes| + 1
    ensures var p := Step(db, e).probes[|db.probes|];
      Step(db, e).probes == db.probes + [p] && p.monitor == e.monitor && p.at == e.input.at
  {
  }

  lemma OwnStepAgrees(db: Db, m: MonitorId, e: Event, k: int)
    requires e.Probed? && e.monitor == m && e.input.activeMaintenance.None? && e.input.threshold == k && k >= 1
    requires Chain(History(db.intervals, m))
    requires StateAgrees(StateOf(db, m), History(db.intervals, m), Reported(db, m))
    requires Agrees(History(db.intervals, m), Reported(db, m), k)
    requires SortedBy(ProbeBefore(), Reported(Step(db, e), m))
    ensures var after := Step(db, e);
      && Agrees(History(after.intervals, m), Reported(after, m), k)
      && StateAgrees(StateOf(after, m), History(after.intervals, m), Reported(after, m))
  {
    hide Agrees, Chain, Select, Streak, SortedBy, Step, Extend, Probe;
    var p := ProbeStep(db, m, e, k);
    if Probe(StateOf(db, m), e.input).Evaluated? {
      OnlineStep(History(db.intervals, m), Reported(db, m), p, k, m);
      StreakPush(Reported(db, m), p);
      ExtendEnds(History(db.intervals, m), m, OnlineStatus(Reported(db, m), p, k), p.at);
    }
  }

  // ----- plain steps and runs -----

  /** The monitor is neither dropped nor in maintenance, and its threshold and clock behave; nothing is
      assumed of other monitors. */
  ghost predicate PlainStep(db: Db, e: Event, m: MonitorId, k: int) {
    && !Drops(e, m)
    && (Concerns(e, m) ==>
          && e.input.activeMaintenance.None? && e.input.threshold == k
          && forall q :: q in Reported(db, m) ==> q.at < e.input.at)
  }

  /** Everything a plain step relies on and keeps. */
  ghost predicate Current(db: Db, m: MonitorId, k: int) {
    var c, h := History(db.intervals, m), Reported(db, m);
    Chain(c) && Agrees(c, h, k) && StateAgrees(StateOf(db, m), c, h) && SortedBy(ProbeBefore(), h)
  }

  lemma ReportedStaysOrdered(db: Db, m: MonitorId, e: Event, k: int)
    requires Concerns(e, m) && PlainStep(db, e, m, k) && SortedBy(ProbeBefore(), Reported(db, m))
    ensures SortedBy(ProbeBefore(), Reported(Step(db, e), m))
  {
    hide Step, Select, SortedBy;
    OneProbeRow(db, e);
    var p := Step(db, e).probes[|db.probes|];
    SelectPush(ReportableOf(m), db.probes, p);
    if ReportableOf(m)(p) {
      forall q | q in Reported(db, m) ensures ProbeBefore()(q, p) { }
      SortedPush(ProbeBefore(), Reported(db, m), p);
    }
  }

  lemma OwnStepChain(db: Db, m: MonitorId, e: Event, k: int)
    requires Concerns(e, m) && PlainStep(db, e, m, k) && k >= 1
    requires Current(db, m, k)
    ensures Chain(History(Step(db, e).intervals, m))
  {
    hide Chain, Select, Streak, SortedBy, Step, Extend, Probe, Flagged, Confirmed, SaveStatusInterval;
    var c, h := History(db.intervals, m), Reported(db, m);
    assert c != [] ==> h[|h| - 1] in h && c[|c| - 1].startedAt <= e.input.at;
    StepOnTimeline(db, e);
    if Step(db, e).intervals != db.intervals {
      var status :| Step(db, e).intervals == SaveStatusInterval(db.intervals, e.monitor, status, e.input.at);
      SaveExtendsChain(db.intervals, m, status, e.input.at, m);
      ExtendKeepsChain(c, m, status, e.input.at);
    }
  }

  lemma StepCurrent(db: Db, e: Event, m: MonitorId, k: int)
    requires Current(db, m, k) && PlainStep(db, e, m, k) && k >= 1
    ensures Current(Step(db, e), m, k)
  {
    hide Agrees, StateAgrees, Chain, Select, SortedBy, Step, Probe, History, Reported, StateOf;
    if Concerns(e, m) {
      ReportedStaysOrdered(db, m, e, k);
      OwnStepAgrees(db, m, e, k);
      OwnStepChain(db, m, e, k);
    } else {
      OtherStep(db, m, e);
    }
  }

  /** A run without maintenance or deletion of m, its clock advancing and its threshold never changing. */
  ghost predicate PlainRun(events: seq<Event>, m: MonitorId, k: int) {
    && ClockAdvances(events, m)
    && (forall i :: 0 <= i < |events| ==> !Drops(events[i], m))
    && (forall i :: 0 <= i < |events| && Concerns(events[i], m) ==>
          events[i].input.activeMaintenance.None? && events[i].input.threshold == k)
  }

  ghost predicate FromEvent(events: seq<Event>, p: ProbeRow) {
    exists i :: 0 <= i < |events| && Concerns(events[i], p.monitor) && events[i].input.at == p.at
  }

  lemma FromEventStays(front: seq<Event>, e: Event, p: ProbeRow)
    requires FromEvent(front, p)
    ensures FromEvent(front + [e], p)
  {
    var i :| 0 <= i < |front| && Concerns(front[i], p.monitor) && front[i].input.at == p.at;
    assert (front + [e])[i] == front[i];
  }

  lemma FromLastEvent(front: seq<Event>, e: Event, p: ProbeRow)
    requires Concerns(e, p.monitor) && p.at == e.input.at
    ensures FromEvent(front + [e], p)
  {
    assert (front + [e])[|front|] == e;
  }

  lemma {:induction false} ProbesFromEvents(events: seq<Event>)
    ensures forall p :: p in Run(events).probes ==> FromEvent(events, p)
  {
    if events != [] {
      var n := |events| - 1;
      var front, e := events[..n], events[n];
      assert events == front + [e];
      ProbesFromEvents(front);
      if e.Probed? { OneProbeRow(Run(front), e); }
      assert e.Deleted? ==> Run(events).probes == Run(front).probes;
      hide FromEvent, Step;
      forall p | p in Run(events).probes ensures FromEvent(events, p) {
        if p in Run(front).probes { FromEventStays(front, e, p); } else { FromLastEvent(front, e, p); }
      }
    }
  }

  lemma PlainLast(events: seq<Event>, m: MonitorId, k: int)
    requires PlainRun(events, m, k) && events != []
    ensures PlainRun(events[..|events| - 1], m, k)
    ensures PlainStep(Run(events[..|events| - 1]), events[|events| - 1], m, k)
  {
    var n := |events| - 1;
    var front, e := events[..n], events[n];
    ProbesFromEvents(front);
    hide Run, Select;
    if Concerns(e, m) {
      forall q | q in Reported(Run(front), m) ensures q.at < e.input.at {
        assert q in Run(front).probes && ReportableOf(m)(q);
        var i :| 0 <= i < |front| && Concerns(front[i], q.monitor) && front[i].input.at == q.at;
        assert events[i] == front[i] && Concerns(events[i], m) && Concerns(events[n], m);
      }
    }
  }

  /** Online, over every plain run: the stored rows flag exactly the confirmed outages. */
  lemma {:induction false} OnlineFlagsConfirmed(events: seq<Event>, m: MonitorId, k: int)
    requires PlainRun(events, m, k) && k >= 1
    ensures Current(Run(events), m, k)
  {
    if events == [] {
      NothingConfirmed(k);
    } else {
      var n := |events| - 1;
      PlainLast(events, m, k);
      hide PlainRun, PlainStep, Current, Step;
      OnlineFlagsConfirmed(events[..n], m, k);
      StepCurrent(Run(events[..n]), events[n], m, k);
    }
  }

  lemma ExtendEnds(c: seq<IntervalRow>, m: MonitorId, status: Status, at: Time)
    ensures var e := Extend(c, m, status, at); e != [] && e[|e| - 1].status == status
  {
  }

  // ----- offline -----

  /** The last run of the encoding shows the current streak. */
  ghost predicate RunMatches(runs: seq<RunRow>, h: seq<ProbeRow>) {
    && (runs == [] <==> h == [])
    && (h != [] ==>
          var last := runs[|runs| - 1];
          && last.ok == h[|h| - 1].ok && last.monitor == h[|h| - 1].monitor
          && (!last.ok ==> last.probeCount == Streak(h) && last.startedAt == h[|h| - Streak(h)].at))
  }

  lemma MergeMatches(runs: seq<RunRow>, h: seq<ProbeRow>, p: ProbeRow)
    requires RunMatches(runs, h) && (h != [] ==> h[|h| - 1].monitor == p.monitor)
    ensures RunMatches(Merge(runs, Single(p)), h + [p])
  {
    StreakPush(h, p);
    StreakStartsAt(h, p);
    assert h != [] && h[|h| - 1].ok ==> Streak(h) == 0;
    if h != [] && !h[|h| - 1].ok { StreakFails(h); }
  }

  /** Backfilling one more probe: a new run closes the last row, an extended one may turn it DOWN. */
  lemma MergeRows(runs: seq<RunRow>, h: seq<ProbeRow>, p: ProbeRow, thresholds: FailureThresholds)
    requires RunMatches(runs, h) && (h != [] ==> h[|h| - 1].monitor == p.monitor)
    ensures var c, k, last := Backfilled(runs, thresholds), ForMonitor(thresholds, p.monitor), |runs| - 1;
      Backfilled(Merge(runs, Single(p)), thresholds)
      == if h != [] && h[|h| - 1].ok == p.ok then c[last := BackfillRow(Extended(runs[last], Single(p)), None, k)]
         else if h != [] then c[last := c[last].(endedAt := Some(p.at))] + [BackfillRow(Single(p), None, k)]
         else c + [BackfillRow(Single(p), None, k)]
  {
    hide Streak, BackfillRow, ForMonitor;
    var last := |runs| - 1;
    if h != [] && h[|h| - 1].ok == p.ok {
      assert Merge(runs, Single(p)) == runs[last := Extended(runs[last], Single(p))];
    } else {
      BackfillPush(runs, Single(p), thresholds);
    }
  }

  lemma BackfillFlags(
    runs: seq<RunRow>, h: seq<ProbeRow>, p: ProbeRow, thresholds: FailureThresholds, t: Time)
    requires RunMatches(runs, h) && (h != [] ==> h[|h| - 1].monitor == p.monitor)
    requires SortedBy(ProbeBefore(), h + [p])
    requires Agrees(Backfilled(runs, thresholds), h, ForMonitor(thresholds, p.monitor))
    ensures Flagged(Backfilled(Merge(runs, Single(p)), thresholds), t)
            <==> Confirmed(h + [p], ForMonitor(thresholds, p.monitor), t)
  {
    var k, c, last := ForMonitor(thresholds, p.monitor), Backfilled(runs, thresholds), |runs| - 1;
    MergeRows(runs, h, p, thresholds);
    if p.ok { ConfirmedAfterSuccess(h, p, k, t); } else { ConfirmedAfterFailure(h, p, k, t); }
    StreakFails(h);
    hide Confirmed, Flagged, Backfilled, Merge, ForMonitor, SortedBy;
    if h == [] {
      FlaggedPush([], BackfillRow(Single(p), None, k), t);
    } else {
      LastBefore(h, p);
      if Flagged(c[..last], t) { FlaggedBefore(c[..last], c[last].startedAt, t); }
      if h[|h| - 1].ok == p.ok {
        FlaggedReplaced(c, BackfillRow(Extended(runs[last], Single(p)), None, k), t);
      } else {
        FlaggedReplaced(c, c[last].(endedAt := Some(p.at)), t);
        FlaggedPush(c[last := c[last].(endedAt := Some(p.at))], BackfillRow(Single(p), None, k), t);
      }
    }
  }

  lemma FlaggedReplaced(c: seq<IntervalRow>, row: IntervalRow, t: Time)
    requires c != []
    ensures var n := |c| - 1;
      && (Flagged(c, t) <==> Flagged(c[..n], t) || (c[n].downtime && Covers(c[n], t)))
      && (Flagged(c[n := row], t) <==> Flagged(c[..n], t) || (row.downtime && Covers(row, t)))
  {
    var n := |c| - 1;
    assert c == c[..n] + [c[n]] && c[n := row] == c[..n] + [row];
    FlaggedPush(c[..n], c[n], t);
    FlaggedPush(c[..n], row, t);
  }

  /** A row showing the streak that p leaves behind. */
  ghost predicate RowShows(row: IntervalRow, h: seq<ProbeRow>, p: ProbeRow, k: int) {
    && row.endedAt.None? && row.status == OnlineStatus(h, p, k) && row.downtime == (row.status == Down)
    && (row.status == Failing ==> row.startedAt == StreakStart(h, p))
  }

  lemma ShapeReplaced(c: seq<IntervalRow>, h: seq<ProbeRow>, p: ProbeRow, k: int, row: IntervalRow)
    requires ShowsStreak(c, h, k) && h != [] && h[|h| - 1].at < p.at && k >= 1
    requires RowShows(row, h, p, k) && row.startedAt == c[|c| - 1].startedAt
    ensures ShowsStreak(c[|c| - 1 := row], h + [p], k)
  {
    StreakPush(h, p);
    StreakStartsAt(h, p);
    hide Streak, StreakStart;
    assert c[|c| - 1 := row][..|c| - 1] == c[..|c| - 1];
  }

  lemma ShapeAppended(c: seq<IntervalRow>, h: seq<ProbeRow>, p: ProbeRow, k: int, row: IntervalRow)
    requires ShowsStreak(c, h, k) && k >= 1 && (h != [] ==> h[|h| - 1].at < p.at)
    requires RowShows(row, h, p, k) && row.startedAt == p.at
    ensures ShowsStreak((if c == [] then c else c[|c| - 1 := c[|c| - 1].(endedAt := Some(p.at))]) + [row], h + [p], k)
  {
    StreakPush(h, p);
    StreakStartsAt(h, p);
    hide Streak, StreakStart;
    if c != [] {
      var closed := c[|c| - 1].(endedAt := Some(p.at));
      assert (c[|c| - 1 := closed] + [row])[..|c|] == c[..|c| - 1] + [closed];
    }
  }

  lemma RowsShow(runs: seq<RunRow>, h: seq<ProbeRow>, p: ProbeRow, k: int)
    requires RunMatches(runs, h) && k >= 1
    ensures (h == [] || h[|h| - 1].ok != p.ok) ==> RowShows(BackfillRow(Single(p), None, k), h, p, k)
    ensures h != [] && h[|h| - 1].ok == p.ok ==>
      RowShows(BackfillRow(Extended(runs[|runs| - 1], Single(p)), None, k), h, p, k)
  {
    StreakFails(h);
  }

  lemma OfflineShape(runs: seq<RunRow>, h: seq<ProbeRow>, p: ProbeRow, thresholds: FailureThresholds)
    requires RunMatches(runs, h) && (h != [] ==> h[|h| - 1].monitor == p.monitor)
    requires SortedBy(ProbeBefore(), h + [p])
    requires ShowsStreak(Backfilled(runs, thresholds), h, ForMonitor(thresholds, p.monitor))
    ensures ShowsStreak(Backfilled(Merge(runs, Single(p)), thresholds), h + [p], ForMonitor(thresholds, p.monitor))
  {
    var c, k, last := Backfilled(runs, thresholds), ForMonitor(thresholds, p.monitor), |runs| - 1;
    MergeRows(runs, h, p, thresholds);
    RowsShow(runs, h, p, k);
    if h != [] { LastBefore(h, p); }
    hide ShowsStreak, RowShows, Backfilled, Merge, ForMonitor, Streak;
    if h != [] && h[|h| - 1].ok == p.ok {
      ShapeReplaced(c, h, p, k, BackfillRow(Extended(runs[last], Single(p)), None, k));
    } else {
      ShapeAppended(c, h, p, k, BackfillRow(Single(p), None, k));
    }
  }

  /** One more probe keeps the rebuilt rows in agreement. */
  lemma OfflineStep(runs: seq<RunRow>, h: seq<ProbeRow>, p: ProbeRow, thresholds: FailureThresholds)
    requires RunMatches(runs, h) && (h != [] ==> h[|h| - 1].monitor == p.monitor)
    requires SortedBy(ProbeBefore(), h + [p])
    requires Agrees(Backfilled(runs, thresholds), h, ForMonitor(thresholds, p.monitor))
    ensures Agrees(Backfilled(Merge(runs, Single(p)), thresholds), h + [p], ForMonitor(thresholds, p.monitor))
  {
    var e := Backfilled(Merge(runs, Single(p)), thresholds);
    forall t ensures Flagged(e, t) <==> Confirmed(h + [p], ForMonitor(thresholds, p.monitor), t) {
      BackfillFlags(runs, h, p, thresholds, t);
    }
    OfflineShape(runs, h, p, thresholds);
    hide ShowsStreak, Flagged, Confirmed, Backfilled, Merge, ForMonitor;
  }

  /** Offline, over every history of one monitor: the rebuilt rows flag exactly the confirmed outages. */
  lemma {:induction false} OfflineFlagsConfirmed(h: seq<ProbeRow>, m: MonitorId, thresholds: FailureThresholds)
    requires SortedBy(ProbeBefore(), h) && forall i :: 0 <= i < |h| ==> h[i].monitor == m
    ensures RunMatches(Rle(h), h)
    ensures Agrees(Backfilled(Rle(h), thresholds), h, ForMonitor(thresholds, m))
  {
    if h == [] {
      assert Backfilled([], thresholds) == [];
      NothingConfirmed(ForMonitor(thresholds, m));
    } else {
      var n := |h| - 1;
      assert h == h[..n] + [h[n]];
      SortedPart(ProbeBefore(), h, 0, n);
      OfflineFlagsConfirmed(h[..n], m, thresholds);
      RlePush(h[..n], h[n]);
      hide Agrees, RunMatches, Rle, Backfilled;
      MergeMatches(Rle(h[..n]), h[..n], h[n]);
      OfflineStep(Rle(h[..n]), h[..n], h[n], thresholds);
    }
  }

  // ----- both together -----

  lemma ReportedOne(db: Db, m: MonitorId)
    ensures forall i :: 0 <= i < |Reported(db, m)| ==> Reported(db, m)[i].monitor == m
  {
    var h := Reported(db, m);
    forall i | 0 <= i < |h| ensures h[i].monitor == m {
      assert h[i] in h && ReportableOf(m)(h[i]);
    }
  }

  /** For a history of m without maintenance, under a fixed threshold, the timeline its probes wrote and
      the timeline a backfill rebuilds flag the same instants as downtime: those from the first failure of
      a streak that reaches the threshold until the next success. Other monitors may do anything. */
  lemma OnlineEqualsOffline(events: seq<Event>, m: MonitorId, thresholds: FailureThresholds, t: Time)
    requires PlainRun(events, m, ForMonitor(thresholds, m))
    ensures var h := Reported(Run(events), m);
      && (Flagged(History(Run(events).intervals, m), t) <==> Confirmed(h, ForMonitor(thresholds, m), t))
      && (Flagged(Backfilled(Rle(h), thresholds), t) <==> Confirmed(h, ForMonitor(thresholds, m), t))
  {
    var h, k := Reported(Run(events), m), ForMonitor(thresholds, m);
    ReportedOne(Run(events), m);
    hide Confirmed, Flagged, Backfilled, Rle, Run, History, PlainRun, SortedBy, ShowsStreak, RunMatches, ForMonitor,
        Chain,
      StateAgrees, Reported;
    OnlineFlagsConfirmed(events, m, k);
    OfflineFlagsConfirmed(h, m, thresholds);
  }

  /** The availability a plain run reports: downtime in a window is the count of its instants that lie
      in a confirmed outage and in no excluded time, in whole seconds. */
  lemma DowntimeIsConfirmedOutage(
    events: seq<Event>, m: MonitorId, k: int, now: Time, start: Time, excluded: set<Time>, bad: set<Time>)
    requires PlainRun(events, m, k) && k >= 1
    requires forall t :: t in bad <==>
      start <= t < now && Confirmed(Reported(Run(events), m), k, t) && t !in excluded
    ensures var outages := OutagesOf(History(Run(events).intervals, m), now);
      Disjoint(outages) && BadInstants(Instants(start, now), outages, excluded) == bad
  {
    var c := History(Run(events).intervals, m);
    OnlineFlagsConfirmed(events, m, k);
    OutagesDisjoint(c, |c|, now);
    assert c[..|c|] == c;
    hide Confirmed, Flagged, Run, History, PlainRun, ShowsStreak, StateAgrees, Chain;
    var counted := BadInstants(Instants(start, now), OutagesOf(c, now), excluded);
    forall t ensures t in counted <==> t in bad {
      if t < now { OutagesAreFlagged(c, now, t); }
    }
  }
}
