/** The tables of one tenant and the transactions that write them while monitors are probed. A
    row's id is its position in its table: rows of these tables are inserted and updated, never deleted. */
module Storage {
  import opened Basics
  import opened Monitor

  datatype ProbeRow = ProbeRow(
    monitor: MonitorId, at: Time, ok: bool, maintenance: Option<int>,
    observerSuppressed: bool, connectivitySuppressed: bool)

  datatype IntervalRow = IntervalRow(
    monitor: MonitorId, status: Status, startedAt: Time, endedAt: Option<Time>, downtime: bool)

  datatype Incident = Incident(monitor: MonitorId, transition: Status, observedAt: Time)

  datatype AlertStatus = Pending | Sending | Delivered | Cancelled

  datatype AlertRow = AlertRow(
    incident: nat, monitor: MonitorId, transition: Status, dueAt: Time,
    status: AlertStatus, deliveredAt: Option<Time>)

  datatype Notification = Notification(
    incident: nat, monitor: MonitorId, provider: int, attemptedAt: Time, attemptNumber: int,
    success: bool, nextRetryAt: Option<Time>, retryExhausted: bool)

  datatype Db = Db(
    states: map<MonitorId, MonitorState>, probes: seq<ProbeRow>, intervals: seq<IntervalRow>,
    incidents: seq<Incident>, alerts: seq<AlertRow>, lastNotified: map<MonitorId, Status>,
    notifications: seq<Notification>)

  const EMPTY := Db(map[], [], [], [], [], map[], [])

  // ----- the status timeline -----

  function StatusCountsAsDowntime(status: Status): bool { status == Down }

  /** The monitor's open interval, the latest by start and then by id. */
  function LatestOpen(rows: seq<IntervalRow>, m: MonitorId): (r: Option<nat>)
    ensures r.Some? ==> r.value < |rows| && rows[r.value].monitor == m && rows[r.value].endedAt.None?
    ensures forall k :: 0 <= k < |rows| && rows[k].monitor == m && rows[k].endedAt.None? ==>
      r.Some? && (rows[k].startedAt < rows[r.value].startedAt
                  || (rows[k].startedAt == rows[r.value].startedAt && k <= r.value))
  {
    if rows == [] then None
    else
      var n := |rows| - 1;
      var best := LatestOpen(rows[..n], m);
      if rows[n].monitor == m && rows[n].endedAt.None?
         && (best.None? || rows[best.value].startedAt <= rows[n].startedAt)
      then Some(n) else best
  }

  function ClosedBy(row: IntervalRow, status: Status, at: Time): IntervalRow {
    row.(endedAt := Some(at),
         downtime := StatusCountsAsDowntime(row.status) || (row.status == Failing && status == Down))
  }

  function Opened(m: MonitorId, status: Status, at: Time): IntervalRow {
    IntervalRow(m, status, at, None, StatusCountsAsDowntime(status))
  }

  function SaveStatusInterval(rows: seq<IntervalRow>, m: MonitorId, status: Status, at: Time): seq<IntervalRow> {
    var open := LatestOpen(rows, m);
    if open.None? then rows + [Opened(m, status, at)]
    else if rows[open.value].status == status then rows
    else rows[open.value := ClosedBy(rows[open.value], status, at)] + [Opened(m, status, at)]
  }

  // ----- the alert queue -----

  function CancelIf(alert: AlertRow, m: MonitorId, keep: Option<Status>): AlertRow {
    if alert.monitor == m && alert.status == Pending && keep != Some(alert.transition)
    then alert.(status := Cancelled) else alert
  }

  /** UPDATE of the pending alerts of a monitor that no longer match: all of them when keep is absent. */
  function CancelPending(alerts: seq<AlertRow>, m: MonitorId, keep: Option<Status>): (r: seq<AlertRow>)
    ensures |r| == |alerts|
    ensures forall k :: 0 <= k < |alerts| ==> r[k] == CancelIf(alerts[k], m, keep)
  {
    seq(|alerts|, k requires 0 <= k < |alerts| => CancelIf(alerts[k], m, keep))
  }

  function PreviousStatus(states: map<MonitorId, MonitorState>, m: MonitorId): Status {
    if m !in states then Unset
    else if states[m].status == Maintenance && states[m].statusBeforeMaintenance != Unset
    then states[m].statusBeforeMaintenance
    else states[m].status
  }

  function QueueAlert(db: Db, m: MonitorId, status: Status, previousStatus: Status, incident: nat, dueAt: Time): Db {
    var lastNotified :=
      if m in db.lastNotified then db.lastNotified
      else db.lastNotified[m := if previousStatus == Unset then Unknown else previousStatus];
    var alerts := CancelPending(db.alerts, m, None);
    db.(lastNotified := lastNotified,
        alerts := if status != lastNotified[m] then alerts + [AlertRow(incident, m, status, dueAt, Pending, None)]
                  else alerts)
  }

  // ----- saving a probe -----

  /** The whole transaction: probe row, state, timeline, stale alerts, incident and its alert. */
  function SaveProbeAndState(
    db: Db, row: ProbeRow, next: MonitorState, at: Time, incident: Option<Status>, dueAt: Option<Time>): Db
  {
    var m := row.monitor;
    var saved := db.(
      probes := db.probes + [row], states := db.states[m := next],
      intervals := if next.status != Maintenance then SaveStatusInterval(db.intervals, m, next.status, at)
                   else db.intervals,
      alerts := CancelPending(db.alerts, m, Some(next.status)));
    if incident.None? then saved
    else
      var raised := saved.(incidents := db.incidents + [Incident(m, incident.value, at)]);
      if dueAt.None? then raised
      else QueueAlert(raised, m, next.status, PreviousStatus(db.states, m), |db.incidents|, dueAt.value)
  }

  function SaveProbeResult(db: Db, row: ProbeRow): Db {
    db.(probes := db.probes + [row])
  }

  function StateOf(db: Db, m: MonitorId): MonitorState {
    if m in db.states then db.states[m] else UNKNOWN_STATE
  }

  /** A finished probe is processed from the state it has read and then saved. */
  function SaveFrom(db: Db, previous: MonitorState, m: MonitorId, p: ProbeInput, dueAt: Time): Db {
    match Probe(previous, p)
    case ObserverSuppressed => SaveProbeResult(db, ProbeRow(m, p.at, p.ok, None, true, false))
    case ConnectivitySuppressed => SaveProbeResult(db, ProbeRow(m, p.at, p.ok, None, false, true))
    case InMaintenance(next, window) =>
      SaveProbeAndState(db, ProbeRow(m, p.at, p.ok, Some(window), false, false), next, p.at, None, None)
    case Evaluated(next, incident) =>
      SaveProbeAndState(db, ProbeRow(m, p.at, p.ok, None, false, false), next, p.at, incident, Some(dueAt))
  }

  /** A finished probe, nothing else happening between reading the state and the commit. */
  function ProbeMonitor(db: Db, m: MonitorId, p: ProbeInput, dueAt: Time): Db {
    SaveFrom(db, StateOf(db, m), m, p, dueAt)
  }

  /** Monitors dropped from the configuration lose their state, not their timeline. */
  function DeleteStatesExcept(db: Db, keep: set<MonitorId>): Db {
    db.(alerts := seq(|db.alerts|, k requires 0 <= k < |db.alerts| =>
                    if db.alerts[k].status == Pending && db.alerts[k].monitor !in keep
                    then db.alerts[k].(status := Cancelled) else db.alerts[k]),
        lastNotified := map m | m in db.lastNotified && m in keep :: db.lastNotified[m],
        states := map m | m in db.states && m in keep :: db.states[m])
  }

  // ----- claiming an alert and recording its delivery -----

  /** A claim succeeds only on a pending alert whose monitor still has the announced status. */
  predicate Claimable(db: Db, id: nat) {
    && id < |db.alerts| && db.alerts[id].status == Pending
    && db.alerts[id].monitor in db.states && db.states[db.alerts[id].monitor].status == db.alerts[id].transition
  }

  function ClaimAlert(db: Db, id: nat): Db {
    if Claimable(db, id) then db.(alerts := db.alerts[id := db.alerts[id].(status := Sending)]) else db
  }

  /** A notification as stored: an attempt number left at zero is the first attempt. */
  function Stored(n: Notification): Notification {
    if n.attemptNumber == 0 then n.(attemptNumber := 1) else n
  }

  function AllStored(notifications: seq<Notification>): (r: seq<Notification>)
    ensures |r| == |notifications|
    ensures forall k :: 0 <= k < |r| ==> r[k] == Stored(notifications[k])
  {
    seq(|notifications|, k requires 0 <= k < |notifications| => Stored(notifications[k]))
  }

  /** No row, or a row neither claimed nor delivered, is an error; a delivered row is already recorded. */
  function RecordDelivery(db: Db, id: nat, notifications: seq<Notification>, at: Time): Option<Db> {
    if id >= |db.alerts| then None
    else if db.alerts[id].status == Delivered then Some(db)
    else if db.alerts[id].status != Sending then None
    else
      var alert := db.alerts[id];
      Some(db.(alerts := db.alerts[id := alert.(status := Delivered, deliveredAt := Some(at))],
               notifications := db.notifications + AllStored(notifications),
               lastNotified := db.lastNotified[alert.monitor := alert.transition]))
  }

  // ----- the store itself, statement by statement -----

  class Store {
    var states: map<MonitorId, MonitorState>
    var probes: seq<ProbeRow>
    var intervals: seq<IntervalRow>
    var incidents: seq<Incident>
    var alerts: seq<AlertRow>
    var lastNotified: map<MonitorId, Status>
    var notifications: seq<Notification>

    ghost function Contents(): Db
      reads this
    {
      Db(states, probes, intervals, incidents, alerts, lastNotified, notifications)
    }

    constructor ()
      ensures Contents() == EMPTY
    {
      states, probes, intervals, incidents, alerts, lastNotified, notifications := map[], [], [], [], [], map[], [];
    }

    method FindOpen(m: MonitorId) returns (found: Option<nat>)
      ensures found == LatestOpen(intervals, m)
    {
      found := None;
      for k := 0 to |intervals|
        invariant found == LatestOpen(intervals[..k], m)
      {
        assert intervals[..k + 1][..k] == intervals[..k];
        if intervals[k].monitor == m && intervals[k].endedAt.None?
           && (found.None? || intervals[found.value].startedAt <= intervals[k].startedAt) {
          found := Some(k);
        }
      }
      assert intervals[..|intervals|] == intervals;
    }

    method WriteStatusInterval(m: MonitorId, status: Status, at: Time)
      modifies this`intervals
      ensures intervals == SaveStatusInterval(old(intervals), m, status, at)
    {
      var open := FindOpen(m);
      if open.Some? && intervals[open.value].status == status {
        return;
      }
      if open.None? {
        intervals := intervals + [Opened(m, status, at)];
        return;
      }
      intervals := intervals[open.value := ClosedBy(intervals[open.value], status, at)];
      intervals := intervals + [Opened(m, status, at)];
    }

    method CancelAlerts(m: MonitorId, keep: Option<Status>)
      modifies this`alerts
      ensures alerts == CancelPending(old(alerts), m, keep)
    {
      for k := 0 to |alerts|
        invariant |alerts| == |old(alerts)|
        invariant forall i :: k <= i < |alerts| ==> alerts[i] == old(alerts)[i]
        invariant forall i :: 0 <= i < k ==> alerts[i] == CancelIf(old(alerts)[i], m, keep)
      {
        if alerts[k].monitor == m && alerts[k].status == Pending && keep != Some(alerts[k].transition) {
          alerts := alerts[k := alerts[k].(status := Cancelled)];
        }
      }
    }

    method Save(row: ProbeRow, next: MonitorState, at: Time, incident: Option<Status>, dueAt: Option<Time>)
      modifies this
      ensures Contents() == SaveProbeAndState(old(Contents()), row, next, at, incident, dueAt)
    {
      var m := row.monitor;
      var previousStatus := PreviousStatus(states, m);
      probes := probes + [row];
      states := states[m := next];
      if next.status != Maintenance {
        WriteStatusInterval(m, next.status, at);
      }
      CancelAlerts(m, Some(next.status));
      if incident.Some? {
        var id := |incidents|;
        incidents := incidents + [Incident(m, incident.value, at)];
        if dueAt.Some? {
          if m !in lastNotified {
            lastNotified := lastNotified[m := if previousStatus == Unset then Unknown else previousStatus];
          }
          CancelAlerts(m, None);
          if next.status != lastNotified[m] {
            alerts := alerts + [AlertRow(id, m, next.status, dueAt.value, Pending, None)];
          }
        }
      }
    }

    method RunProbe(m: MonitorId, p: ProbeInput, dueAt: Time)
      modifies this
      ensures Contents() == ProbeMonitor(old(Contents()), m, p, dueAt)
    {
      var previous := if m in states then states[m] else UNKNOWN_STATE;
      FinishProbe(previous, m, p, dueAt);
    }

    /** Processing goes on from the state read before, stored still or not. */
    method FinishProbe(previous: MonitorState, m: MonitorId, p: ProbeInput, dueAt: Time)
      modifies this
      ensures Contents() == SaveFrom(old(Contents()), previous, m, p, dueAt)
    {
      match Probe(previous, p) {
        case ObserverSuppressed =>
          probes := probes + [ProbeRow(m, p.at, p.ok, None, true, false)];
        case ConnectivitySuppressed =>
          probes := probes + [ProbeRow(m, p.at, p.ok, None, false, true)];
        case InMaintenance(next, window) =>
          Save(ProbeRow(m, p.at, p.ok, Some(window), false, false), next, p.at, None, None);
        case Evaluated(next, incident) =>
          Save(ProbeRow(m, p.at, p.ok, None, false, false), next, p.at, incident, Some(dueAt));
      }
    }

    method ClaimPendingMonitorAlert(id: nat) returns (claimed: bool)
      modifies this`alerts
      ensures claimed <==> (
        && id < |old(alerts)| && old(alerts)[id].status == Pending && old(alerts)[id].monitor in states
        && states[old(alerts)[id].monitor].status == old(alerts)[id].transition)
      ensures Contents() == ClaimAlert(old(Contents()), id)
    {
      claimed := id < |alerts| && alerts[id].status == Pending
        && alerts[id].monitor in states && states[alerts[id].monitor].status == alerts[id].transition;
      if claimed {
        alerts := alerts[id := alerts[id].(status := Sending)];
      }
    }

    method RecordPendingMonitorAlertDelivery(id: nat, delivered: seq<Notification>, at: Time) returns (ok: bool)
      modifies this
      ensures ok <==> id < |old(alerts)| && old(alerts)[id].status in {Sending, Delivered}
      ensures ok <==> RecordDelivery(old(Contents()), id, delivered, at).Some?
      ensures Contents() == if ok then RecordDelivery(old(Contents()), id, delivered, at).value else old(Contents())
    {
      if id >= |alerts| { return false; }
      var alert := alerts[id];
      if alert.status == Delivered { return true; }
      if alert.status != Sending { return false; }
      alerts := alerts[id := alert.(status := Delivered, deliveredAt := Some(at))];
      for k := 0 to |delivered|
        invariant notifications == old(notifications) + AllStored(delivered)[..k]
        invariant alerts == old(alerts)[id := alert.(status := Delivered, deliveredAt := Some(at))]
        invariant states == old(states) && probes == old(probes) && intervals == old(intervals)
        invariant incidents == old(incidents) && lastNotified == old(lastNotified)
      {
        var attemptNumber := if delivered[k].attemptNumber == 0 then 1 else delivered[k].attemptNumber;
        notifications := notifications + [delivered[k].(attemptNumber := attemptNumber)];
      }
      assert AllStored(delivered)[..|delivered|] == AllStored(delivered);
      lastNotified := lastNotified[alert.monitor := alert.transition];
      return true;
    }

    method DropStatesExcept(keep: set<MonitorId>)
      modifies this
      ensures Contents() == DeleteStatesExcept(old(Contents()), keep)
    {
      for k := 0 to |alerts|
        invariant |alerts| == |old(alerts)| && alerts[k..] == old(alerts)[k..]
        invariant alerts[..k] == DeleteStatesExcept(old(Contents()), keep).alerts[..k]
        invariant states == old(states) && probes == old(probes) && intervals == old(intervals)
        invariant incidents == old(incidents) && lastNotified == old(lastNotified)
        invariant notifications == old(notifications)
      {
        if alerts[k].status == Pending && alerts[k].monitor !in keep {
          alerts := alerts[k := alerts[k].(status := Cancelled)];
        }
      }
      lastNotified := map m | m in lastNotified && m in keep :: lastNotified[m];
      states := map m | m in states && m in keep :: states[m];
    }
  }
}
