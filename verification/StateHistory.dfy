/** A monitor's stored state against what the other tables remember: the probe log and the timeline. */
module StateHistory {
  import opened Basics
  import opened Monitor
  import opened Storage
  import opened Timeline

  // ----- what the probe log says -----

  /** The last row that qualifies. */
  function LastRow(rows: seq<ProbeRow>, p: ProbeRow -> bool): Option<ProbeRow> {
    if rows == [] then None
    else if p(rows[|rows| - 1]) then Some(rows[|rows| - 1])
    else LastRow(rows[..|rows| - 1], p)
  }

  function TimeOf(row: Option<ProbeRow>): Option<Time> {
    if row.None? then None else Some(row.value.at)
  }

  /** Rows of m that reached its state: suppressed failures do not. */
  function Seen(m: MonitorId): ProbeRow -> bool {
    (r: ProbeRow) => r.monitor == m && !r.observerSuppressed && !r.connectivitySuppressed
  }

  function SeenAs(m: MonitorId, ok: bool): ProbeRow -> bool {
    (r: ProbeRow) => Seen(m)(r) && r.ok == ok
  }

  /** Seen failures since the last seen success or maintenance probe. */
  function FailuresInARow(rows: seq<ProbeRow>, m: MonitorId): nat {
    if rows == [] then 0
    else
      var last := rows[|rows| - 1];
      if !Seen(m)(last) then FailuresInARow(rows[..|rows| - 1], m)
      else if last.ok || last.maintenance.Some? then 0
      else FailuresInARow(rows[..|rows| - 1], m) + 1
  }

  /** The state can be read off the log: its times, its count of failures and the kind of its status. */
  ghost predicate ReadsOff(s: MonitorState, rows: seq<ProbeRow>, m: MonitorId) {
    var last := LastRow(rows, Seen(m));
    && s.lastCheckedAt == TimeOf(last) && s.updatedAt == s.lastCheckedAt
    && s.lastSuccessAt == TimeOf(LastRow(rows, SeenAs(m, true)))
    && s.lastFailureAt == TimeOf(LastRow(rows, SeenAs(m, false)))
    && s.consecutiveFailures == FailuresInARow(rows, m)
    && (s.status == Unknown <==> last.None?)
    && (s.status == Maintenance <==> last.Some? && last.value.maintenance.Some?)
    && (s.status == Up <==> last.Some? && last.value.maintenance.None? && last.value.ok)
    && (s.status in {Failing, Down} <==> last.Some? && last.value.maintenance.None? && !last.value.ok)
  }

  lemma LastRowPush(rows: seq<ProbeRow>, row: ProbeRow, p: ProbeRow -> bool)
    ensures LastRow(rows + [row], p) == if p(row) then Some(row) else LastRow(rows, p)
  {
    assert (rows + [row])[..|rows|] == rows;
  }

  lemma FailuresPush(rows: seq<ProbeRow>, row: ProbeRow, m: MonitorId)
    ensures FailuresInARow(rows + [row], m)
            == if !Seen(m)(row) then FailuresInARow(rows, m)
               else if row.ok || row.maintenance.Some? then 0
               else FailuresInARow(rows, m) + 1
  {
    assert (rows + [row])[..|rows|] == rows;
  }

  /** The row a finished probe leaves: its marks tell how it was processed, and from which input. */
  function RowOf(previous: MonitorState, m: MonitorId, p: ProbeInput): ProbeRow {
    match Probe(previous, p)
    case ObserverSuppressed => ProbeRow(m, p.at, p.ok, None, true, false)
    case ConnectivitySuppressed => ProbeRow(m, p.at, p.ok, None, false, true)
    case InMaintenance(_, window) => ProbeRow(m, p.at, p.ok, Some(window), false, false)
    case Evaluated(_, _) => ProbeRow(m, p.at, p.ok, None, false, false)
  }

  /** Every probe leaves one row, marked by exactly what held it back: a down observer before
      maintenance, maintenance before a slow connection, and no success is ever suppressed. A
      suppressed failure changes nothing else. */
  lemma ProbesAreLogged(db: Db, m: MonitorId, p: ProbeInput, dueAt: Time)
    ensures var row, after := RowOf(StateOf(db, m), m, p), ProbeMonitor(db, m, p, dueAt);
      && after.probes == db.probes + [row]
      && row.monitor == m && row.at == p.at && row.ok == p.ok
      && (row.observerSuppressed <==> !p.ok && p.observer.Some? && p.observer.value.down)
      && row.maintenance == (if row.observerSuppressed then None else p.activeMaintenance)
      && (row.connectivitySuppressed <==>
            !p.ok && p.activeMaintenance.None? && p.transferDegraded && p.connectivitySuppressible
            && p.observer == Some(ObserverView(false, true)))
      && (row.observerSuppressed || row.connectivitySuppressed ==> after == db.(probes := after.probes))
      && (p.ok ==> Seen(m)(row))
  {
    hide SaveStatusInterval, CancelPending, Evaluate, MaintenanceState;
  }

  lemma StepReadsOff(s: MonitorState, rows: seq<ProbeRow>, m: MonitorId, p: ProbeInput)
    requires ReadsOff(s, rows, m)
    ensures ReadsOff(StateAfter(s, Probe(s, p)), rows + [RowOf(s, m, p)], m)
  {
    var row := RowOf(s, m, p);
    LastRowPush(rows, row, Seen(m));
    LastRowPush(rows, row, SeenAs(m, true));
    LastRowPush(rows, row, SeenAs(m, false));
    FailuresPush(rows, row, m);
    hide LastRow, FailuresInARow;
  }

  lemma OthersReadOff(s: MonitorState, rows: seq<ProbeRow>, row: ProbeRow, m: MonitorId)
    requires ReadsOff(s, rows, m) && row.monitor != m
    ensures ReadsOff(s, rows + [row], m)
  {
    LastRowPush(rows, row, Seen(m));
    LastRowPush(rows, row, SeenAs(m, true));
    LastRowPush(rows, row, SeenAs(m, false));
    FailuresPush(rows, row, m);
    hide LastRow, FailuresInARow;
  }

  lemma ProbesGrow(db: Db, e: Event)
    ensures if e.Probed? then Step(db, e).probes == db.probes + [RowOf(StateOf(db, e.monitor), e.monitor, e.input)]
            else Step(db, e).probes == db.probes
  {
    if e.Probed? { ProbesAreLogged(db, e.monitor, e.input, e.dueAt); }
  }

  /** How many probes were stored when the monitor's state was last deleted. */
  function DroppedAt(events: seq<Event>, m: MonitorId): (n: nat)
    ensures n <= |Run(events).probes|
  {
    if events == [] then 0
    else
      var front, e := events[..|events| - 1], events[|events| - 1];
      ProbesGrow(Run(front), e);
      if Drops(e, m) then |Run(front).probes| else DroppedAt(front, m)
  }

  /** The probes stored since. */
  function Recalled(events: seq<Event>, m: MonitorId): seq<ProbeRow> {
    Run(events).probes[DroppedAt(events, m)..]
  }

  lemma RecalledStep(events: seq<Event>, m: MonitorId)
    requires events != []
    ensures var front, e := events[..|events| - 1], events[|events| - 1];
      Recalled(events, m)
      == if e.Probed? then Recalled(front, m) + [RowOf(StateOf(Run(front), e.monitor), e.monitor, e.input)]
         else if Drops(e, m) then []
         else Recalled(front, m)
  {
    var front, e := events[..|events| - 1], events[|events| - 1];
    ProbesGrow(Run(front), e);
    hide Step, RowOf;
  }

  /** Over every run with maintenance, suppression, deletions and changing thresholds, the stored state is
      what the probe log says since the monitor's state was last deleted. */
  lemma {:induction false} StateFromLog(events: seq<Event>, m: MonitorId)
    ensures ReadsOff(StateOf(Run(events), m), Recalled(events, m), m)
  {
    if events == [] {
      assert ReadsOff(UNKNOWN_STATE, [], m);
    } else {
      var n := |events| - 1;
      var front, db, e := events[..n], Run(events[..n]), events[n];
      StateFromLog(front, m);
      StepState(db, e, m);
      RecalledStep(events, m);
      assert ReadsOff(UNKNOWN_STATE, [], m);
      hide ReadsOff, Probe, StateOf, Step, Recalled;
      if Concerns(e, m) {
        StepReadsOff(StateOf(db, m), Recalled(front, m), m, e.input);
      } else if e.Probed? {
        RowMonitor(StateOf(db, e.monitor), e.monitor, e.input);
        OthersReadOff(StateOf(db, m), Recalled(front, m), RowOf(StateOf(db, e.monitor), e.monitor, e.input), m);
      }
    }
  }

  lemma RowMonitor(previous: MonitorState, m: MonitorId, p: ProbeInput)
    ensures RowOf(previous, m, p).monitor == m
  {
  }

  // ----- what the timeline says -----

  /** The state has this status, or had it before maintenance. */
  predicate Underlies(shown: Status, s: MonitorState) {
    && shown in {Unknown, Up, Failing, Down}
    && (s.status == Maintenance ==> s.statusBeforeMaintenance == shown)
    && (s.status != Maintenance ==> s.status == shown && s.statusBeforeMaintenance == Unset)
  }

  function LastStatus(c: seq<IntervalRow>): Status {
    if c == [] then Unknown else c[|c| - 1].status
  }

  /** Rows of m that its status was judged by. */
  function Judged(m: MonitorId): ProbeRow -> bool {
    (r: ProbeRow) => Seen(m)(r) && r.maintenance.None?
  }

  /** What the timeline shows for m: its last status, unless m has not been judged since its state was
      deleted. */
  function Shown(recalled: seq<ProbeRow>, c: seq<IntervalRow>, m: MonitorId): Status {
    if LastRow(recalled, Judged(m)).Some? then LastStatus(c) else Unknown
  }

  /** The status a monitor had before any maintenance is the one shown. */
  ghost predicate ShowsState(db: Db, recalled: seq<ProbeRow>, m: MonitorId) {
    && Underlies(Shown(recalled, History(db.intervals, m), m), StateOf(db, m))
    && (m !in db.states ==> LastRow(recalled, Judged(m)).None?)
  }

  lemma ProbeUnderlies(shown: Status, s: MonitorState, p: ProbeInput)
    requires Underlies(shown, s)
    ensures var r := Probe(s, p);
      Underlies(if r.Evaluated? then r.next.status else shown, StateAfter(s, r))
  {
  }

  lemma StepIntervals(db: Db, e: Event)
    requires e.Probed?
    ensures var r := Probe(StateOf(db, e.monitor), e.input);
      Step(db, e).intervals
      == if r.Evaluated? then SaveStatusInterval(db.intervals, e.monitor, r.next.status, e.input.at) else db.intervals
  {
    hide SaveStatusInterval, CancelPending;
  }

  lemma ExtendShows(c: seq<IntervalRow>, m: MonitorId, status: Status, at: Time)
    ensures var e := Extend(c, m, status, at); e != [] && e[|e| - 1].status == status
  {
  }

  lemma JudgedRow(previous: MonitorState, m: MonitorId, p: ProbeInput)
    ensures Judged(m)(RowOf(previous, m, p)) <==> Probe(previous, p).Evaluated?
  {
    hide Evaluate, MaintenanceState;
    var row := RowOf(previous, m, p);
    assert Judged(m)(row) <==> Seen(m)(row) && row.maintenance.None?;
  }

  lemma OwnStepShows(db: Db, e: Event, recalled: seq<ProbeRow>, m: MonitorId)
    requires Concerns(e, m) && ShowsState(db, recalled, m) && Chain(History(db.intervals, m))
    ensures ShowsState(Step(db, e), recalled + [RowOf(StateOf(db, m), m, e.input)], m)
  {
    hide Step, SaveStatusInterval, Chain, Extend, History, Probe, Underlies, StateAfter, StateOf, LastRow, RowOf;
    var r := Probe(StateOf(db, m), e.input);
    var row := RowOf(StateOf(db, m), m, e.input);
    StepIntervals(db, e);
    StepState(db, e, m);
    StepKnows(db, e, m);
    LastRowPush(recalled, row, Judged(m));
    JudgedRow(StateOf(db, m), m, e.input);
    ProbeUnderlies(Shown(recalled, History(db.intervals, m), m), StateOf(db, m), e.input);
    if r.Evaluated? {
      SaveExtendsChain(db.intervals, m, r.next.status, e.input.at, m);
      ExtendShows(History(db.intervals, m), m, r.next.status, e.input.at);
    }
  }

  lemma OtherStepShows(db: Db, e: Event, recalled: seq<ProbeRow>, m: MonitorId)
    requires e.Probed? && e.monitor != m && ShowsState(db, recalled, m)
    ensures ShowsState(Step(db, e), recalled + [RowOf(StateOf(db, e.monitor), e.monitor, e.input)], m)
  {
    hide Step, SaveStatusInterval, Extend, History, Probe, Underlies, StateOf, LastRow, RowOf;
    var r := Probe(StateOf(db, e.monitor), e.input);
    var row := RowOf(StateOf(db, e.monitor), e.monitor, e.input);
    StepIntervals(db, e);
    StepState(db, e, m);
    StepKnows(db, e, m);
    RowMonitor(StateOf(db, e.monitor), e.monitor, e.input);
    assert row.monitor != m && Judged(m)(row) == (Seen(m)(row) && row.maintenance.None?);
    LastRowPush(recalled, row, Judged(m));
    if r.Evaluated? {
      SaveExtendsChain(db.intervals, e.monitor, r.next.status, e.input.at, m);
    }
  }

  lemma DeletedStepShows(db: Db, e: Event, recalled: seq<ProbeRow>, m: MonitorId)
    requires e.Deleted? && ShowsState(db, recalled, m)
    ensures ShowsState(Step(db, e), if Drops(e, m) then [] else recalled, m)
  {
    hide History, LastRow;
    assert LastRow([], Judged(m)).None? by { EmptyLog(m); }
  }

  lemma EmptyLog(m: MonitorId)
    ensures LastRow([], Judged(m)).None?
  {
  }

  lemma StepKnows(db: Db, e: Event, m: MonitorId)
    requires e.Probed?
    ensures m in db.states ==> m in Step(db, e).states
    ensures e.monitor == m && Probe(StateOf(db, m), e.input).Evaluated? ==> m in Step(db, e).states
  {
    hide SaveStatusInterval, CancelPending, Probe;
  }

  /** Over every run, deletions included, the stored state and the stored timeline agree, so the status
      the first alert of a monitor is compared with is the one shown. */
  lemma {:induction false} StateShowsTimeline(events: seq<Event>, m: MonitorId)
    requires ClockForward(events, m)
    ensures ShowsState(Run(events), Recalled(events, m), m)
    ensures var db := Run(events);
      m in db.states ==>
        PreviousStatus(db.states, m) == Shown(Recalled(events, m), History(db.intervals, m), m)
  {
    if events != [] {
      var n := |events| - 1;
      var front, db, e := events[..n], Run(events[..n]), events[n];
      StateShowsTimeline(front, m);
      TimelineInvariant(front, m);
      RecalledStep(events, m);
      assert Run(events) == Step(db, e);
      hide ShowsState, Step, Recalled, Run, RowOf, StateOf, History;
      if Concerns(e, m) {
        OwnStepShows(db, e, Recalled(front, m), m);
      } else if e.Probed? {
        OtherStepShows(db, e, Recalled(front, m), m);
      } else {
        DeletedStepShows(db, e, Recalled(front, m), m);
      }
    }
    hide Run, ClockForward, Recalled;
    assert ShowsState(Run(events), Recalled(events, m), m);
  }

  lemma QueueCounts(db: Db, m: MonitorId, status: Status, previousStatus: Status, incident: nat, dueAt: Time)
    requires m !in db.lastNotified
    ensures var after := QueueAlert(db, m, status, previousStatus, incident, dueAt);
      var first := if previousStatus == Unset then Unknown else previousStatus;
      && after.lastNotified == db.lastNotified[m := first]
      && |after.alerts| == |db.alerts| + if status != first then 1 else 0
  {
    hide CancelIf;
  }

  /** A monitor's first incident, or the first since its state was deleted, is announced unless it repeats
      what is already shown: a DOWN raised again after maintenance queues nothing. */
  lemma FirstAlert(events: seq<Event>, m: MonitorId, p: ProbeInput, dueAt: Time)
    requires ClockForward(events, m) && m !in Run(events).lastNotified
    requires var r := Probe(StateOf(Run(events), m), p); r.Evaluated? && r.incident.Some?
    ensures var db := Run(events);
      var after, shown := ProbeMonitor(db, m, p, dueAt), Shown(Recalled(events, m), History(db.intervals, m), m);
      && after.lastNotified == db.lastNotified[m := shown]
      && |after.alerts| == |db.alerts| + if StateOf(after, m).status != shown then 1 else 0
  {
    StateShowsTimeline(events, m);
    var db := Run(events);
    hide Run, Recalled, LastRow, History, Probe, SaveStatusInterval, CancelPending, QueueAlert;
    var next, at := Probe(StateOf(db, m), p).next, p.at;
    var raised := db.(
      probes := db.probes + [ProbeRow(m, p.at, p.ok, None, false, false)], states := db.states[m := next],
      intervals := if next.status != Maintenance then SaveStatusInterval(db.intervals, m, next.status, at)
          else db.intervals,
      alerts := CancelPending(db.alerts, m, Some(next.status)),
      incidents := db.incidents + [Incident(m, Probe(StateOf(db, m), p).incident.value, at)]);
    QueueCounts(raised, m, next.status, PreviousStatus(db.states, m), |db.incidents|, dueAt);
    QueueKeepsStates(raised, m, next.status, PreviousStatus(db.states, m), |db.incidents|, dueAt);
    assert ProbeMonitor(db, m, p, dueAt)
      == QueueAlert(raised, m, next.status, PreviousStatus(db.states, m), |db.incidents|, dueAt);
  }

  lemma QueueKeepsStates(db: Db, m: MonitorId, status: Status, previousStatus: Status, incident: nat, dueAt: Time)
    ensures QueueAlert(db, m, status, previousStatus, incident, dueAt).states == db.states
  {
  }
}
