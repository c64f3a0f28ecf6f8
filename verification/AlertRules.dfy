/** What a saved probe does to the alerts and incidents of its monitor, row by row: which pending alerts it
    cancels, which incident it stores, and exactly when it queues an alert. */
module AlertRules {
  import opened Basics
  import opened Monitor
  import opened Storage

  /** The pending alerts of m are cancelled, except those with the status to keep; nothing else changes. */
  ghost predicate CancelsPending(before: seq<AlertRow>, after: seq<AlertRow>, m: MonitorId, keep: Option<Status>) {
    && |after| == |before|
    && forall k :: 0 <= k < |before| ==>
         after[k] == if before[k].monitor == m && before[k].status == Pending && keep != Some(before[k].transition)
                     then before[k].(status := Cancelled) else before[k]
  }

  /** What the monitor is known by: the status last announced, or while nothing was announced the stored
      one, that from before maintenance, UNKNOWN when there is none. */
  function KnownAs(db: Db, m: MonitorId): Status {
    if m in db.lastNotified then db.lastNotified[m]
    else if m !in db.states then Unknown
    else
      var s := db.states[m];
      var stored := if s.status == Maintenance && s.statusBeforeMaintenance != Unset
                    then s.statusBeforeMaintenance else s.status;
      if stored == Unset then Unknown else stored
  }

  /** A save without an incident: alerts that no longer match are cancelled. */
  ghost predicate SavesQuietly(db: Db, after: Db, m: MonitorId, next: MonitorState) {
    && after.states == db.states[m := next] && after.incidents == db.incidents
    && after.lastNotified == db.lastNotified
    && CancelsPending(db.alerts, after.alerts, m, Some(next.status))
  }

  /** A save with an incident: it is stored with the probe's time, all pending alerts of m are cancelled,
      and a new one is queued exactly when its status is not what m is known by. */
  ghost predicate SavesIncident(
    db: Db, after: Db, m: MonitorId, next: MonitorState, transition: Status, at: Time, dueAt: Time)
  {
    var n, told := |db.alerts|, KnownAs(db, m);
    && after.states == db.states[m := next]
    && after.incidents == db.incidents + [Incident(m, transition, at)]
    && after.lastNotified == db.lastNotified[m := told]
    && |after.alerts| >= n && CancelsPending(db.alerts, after.alerts[..n], m, None)
    && after.alerts[n..] == if next.status == told then []
                            else [AlertRow(|db.incidents|, m, next.status, dueAt, Pending, None)]
  }

  lemma CancelOnce(alerts: seq<AlertRow>, m: MonitorId, keep: Option<Status>)
    ensures CancelsPending(alerts, CancelPending(alerts, m, keep), m, keep)
  {
  }

  lemma CancelTwice(alerts: seq<AlertRow>, m: MonitorId, keep: Option<Status>)
    ensures CancelsPending(alerts, CancelPending(CancelPending(alerts, m, keep), m, None), m, None)
  {
  }

  lemma QueueExactly(
    db: Db, raised: Db, m: MonitorId, next: MonitorState, transition: Status, at: Time, dueAt: Time)
    requires raised.states == db.states[m := next] && raised.lastNotified == db.lastNotified
    requires raised.incidents == db.incidents + [Incident(m, transition, at)]
    requires raised.alerts == CancelPending(db.alerts, m, Some(next.status))
    ensures SavesIncident(
      db, QueueAlert(raised, m, next.status, PreviousStatus(db.states, m), |db.incidents|, dueAt), m, next,
      transition, at, dueAt)
  {
    CancelTwice(db.alerts, m, Some(next.status));
    var after := QueueAlert(raised, m, next.status, PreviousStatus(db.states, m), |db.incidents|, dueAt);
    var cancelled, n := CancelPending(raised.alerts, m, None), |db.alerts|;
    hide CancelPending, CancelsPending;
    assert after.alerts[..n] == cancelled;
    assert after.lastNotified == db.lastNotified[m := KnownAs(db, m)];
  }

  /** For a probe that goes on from any state it has read, others having replaced it since or not: a
      suppressed failure touches neither alerts nor incidents; a probe in maintenance, or one that raises
      nothing, cancels the alerts that no longer match; an incident queues an alert exactly when its status
      is not what the monitor is known by. */
  lemma AlertsAfterSave(db: Db, previous: MonitorState, m: MonitorId, p: ProbeInput, dueAt: Time)
    ensures var after := SaveFrom(db, previous, m, p, dueAt);
      match Probe(previous, p)
      case InMaintenance(next, _) => SavesQuietly(db, after, m, next)
      case Evaluated(next, None) => SavesQuietly(db, after, m, next)
      case Evaluated(next, Some(transition)) => SavesIncident(db, after, m, next, transition, p.at, dueAt)
      case _ => after == db.(probes := after.probes)
  {
    hide SaveStatusInterval, CancelPending, CancelsPending, Probe, KnownAs, PreviousStatus;
    match Probe(previous, p)
    case InMaintenance(next, _) => CancelOnce(db.alerts, m, Some(next.status));
    case Evaluated(next, None) => CancelOnce(db.alerts, m, Some(next.status));
    case Evaluated(next, Some(transition)) =>
      var row := ProbeRow(m, p.at, p.ok, None, false, false);
      var raised := db.(
        probes := db.probes + [row], states := db.states[m := next],
        intervals := if next.status != Maintenance then SaveStatusInterval(db.intervals, m, next.status, p.at)
                     else db.intervals,
        alerts := CancelPending(db.alerts, m, Some(next.status)),
        incidents := db.incidents + [Incident(m, transition, p.at)]);
      hide SavesIncident;
      QueueExactly(db, raised, m, next, transition, p.at, dueAt);
      hide QueueAlert;
    case _ =>
  }

  /** Deleting the states of dropped monitors: their pending alerts are cancelled and what was last
      announced of them is forgotten, and nothing of the others is. */
  lemma DropsForget(db: Db, keep: set<MonitorId>, m: MonitorId)
    ensures var after := DeleteStatesExcept(db, keep);
      && after == db.(states := after.states, lastNotified := after.lastNotified, alerts := after.alerts)
      && (m in after.states <==> m in db.states && m in keep) && (m in after.states ==> after.states[m] == db.states[m])
      && (m in after.lastNotified <==> m in db.lastNotified && m in keep)
      && (m in after.lastNotified ==> after.lastNotified[m] == db.lastNotified[m])
      && |after.alerts| == |db.alerts|
      && forall k :: 0 <= k < |db.alerts| ==>
           after.alerts[k] == if db.alerts[k].status == Pending && db.alerts[k].monitor !in keep
                              then db.alerts[k].(status := Cancelled) else db.alerts[k]
  {
  }

  /** Recording a delivery fails for a row that is neither claimed nor delivered, changes nothing when it is
      delivered already, and otherwise marks just that row, stores its notifications with attempts counted
      from one, and remembers what was announced. */
  lemma DeliveryRecords(db: Db, id: nat, notifications: seq<Notification>, at: Time)
    ensures var after := RecordDelivery(db, id, notifications, at);
      && (after.None? <==> id >= |db.alerts| || db.alerts[id].status in {Pending, Cancelled})
      && (after.Some? && db.alerts[id].status == Delivered ==> after.value == db)
      && (after.Some? && db.alerts[id].status == Sending ==>
            var alert, n := db.alerts[id], |db.notifications|;
            && after.value == db.(alerts := after.value.alerts, lastNotified := after.value.lastNotified,
                                  notifications := after.value.notifications)
            && after.value.alerts == db.alerts[id := alert.(status := Delivered, deliveredAt := Some(at))]
            && after.value.lastNotified == db.lastNotified[alert.monitor := alert.transition]
            && |after.value.notifications| == n + |notifications|
            && after.value.notifications[..n] == db.notifications
            && forall k :: 0 <= k < |notifications| ==>
                 var note := notifications[k];
                 after.value.notifications[n + k]
                 == note.(attemptNumber := if note.attemptNumber == 0 then 1 else note.attemptNumber))
  {
  }
}
