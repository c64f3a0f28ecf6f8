/** The queue of alerts in the database: what every save, claim, record and deletion keeps, in any
    interleaving. */
module AlertQueue {
  import opened Basics
  import opened Monitor
  import opened Storage

  // ----- the queue in the database -----

  ghost predicate OnePending(alerts: seq<AlertRow>) {
    forall i, j :: 0 <= i < j < |alerts| && alerts[i].status == Pending && alerts[j].status == Pending
      ==> alerts[i].monitor != alerts[j].monitor
  }

  /** Every pending alert announces the stored status of its monitor. */
  ghost predicate PendingCurrent(db: Db) {
    forall i :: 0 <= i < |db.alerts| && db.alerts[i].status == Pending ==> Claimable(db, i)
  }

  /** Alerts are queued with distinct, existing incidents. */
  ghost predicate OwnIncidents(db: Db) {
    && (forall i :: 0 <= i < |db.alerts| ==> db.alerts[i].incident < |db.incidents|)
    && (forall i, j :: 0 <= i < j < |db.alerts| ==> db.alerts[i].incident < db.alerts[j].incident)
  }

  ghost predicate SoundStates(db: Db) {
    && (forall m :: m in db.states ==> db.states[m].consecutiveFailures >= 0)
    && (forall i :: 0 <= i < |db.alerts| ==> db.alerts[i].transition in {Up, Down})
  }

  ghost predicate SafeQueue(db: Db) {
    OnePending(db.alerts) && PendingCurrent(db) && OwnIncidents(db) && SoundStates(db)
  }

  /** The moves a row may make. */
  predicate Moves(from: AlertStatus, to: AlertStatus) {
    || from == to
    || (from == Pending && (to == Cancelled || to == Sending))
    || (from == Sending && to == Delivered)
  }

  predicate RowMoves(before: AlertRow, after: AlertRow) {
    && after.incident == before.incident && after.monitor == before.monitor
    && after.transition == before.transition && Moves(before.status, after.status)
  }

  /** What a row says never changes, its status only moves forward, and rows are never removed. */
  ghost predicate RowsMove(before: seq<AlertRow>, after: seq<AlertRow>) {
    |before| <= |after| && forall k :: 0 <= k < |before| ==> RowMoves(before[k], after[k])
  }

  // ----- what saving a probe does to the queue -----

  predicate KeptOrCancelled(before: AlertRow, after: AlertRow) {
    after == before || (before.status == Pending && after == before.(status := Cancelled))
  }

  /** A row left pending after the save is another monitor's, or announces the new status. */
  predicate StillRight(row: AlertRow, m: MonitorId, status: Status) {
    row.status == Pending && row.monitor == m ==> row.transition == status
  }

  ghost predicate Thinned(before: seq<AlertRow>, after: seq<AlertRow>, m: MonitorId, status: Status) {
    && |before| == |after|
    && forall k :: 0 <= k < |before| ==> KeptOrCancelled(before[k], after[k]) && StillRight(after[k], m, status)
  }

  ghost predicate NonePending(alerts: seq<AlertRow>, m: MonitorId) {
    forall k :: 0 <= k < |alerts| && alerts[k].status == Pending ==> alerts[k].monitor != m
  }

  /** A new alert of m replaces all its pending ones and differs from what was last announced. */
  ghost predicate Queued(db: Db, after: Db, m: MonitorId)
    requires m in after.states
  {
    var n := |db.alerts|;
    && |after.alerts| == n + 1
    && Thinned(db.alerts, after.alerts[..n], m, after.states[m].status) && NonePending(after.alerts[..n], m)
    && after.alerts[n].monitor == m && after.alerts[n].status == Pending && after.alerts[n].incident == |db.incidents|
    && after.alerts[n].transition == after.states[m].status && after.alerts[n].transition in {Up, Down}
    && |after.incidents| == |db.incidents| + 1
    && m in after.lastNotified && after.lastNotified[m] != after.alerts[n].transition
  }

  ghost predicate NoneQueued(db: Db, after: Db, m: MonitorId)
    requires m in after.states
  {
    Thinned(db.alerts, after.alerts, m, after.states[m].status)
  }

  /** The whole effect of a saved probe on the tables the queue reads. */
  ghost predicate Saved(db: Db, after: Db, m: MonitorId) {
    && m in after.states && after.states == db.states[m := after.states[m]]
    && after.states[m].consecutiveFailures >= 0
    && |db.incidents| <= |after.incidents| && |db.alerts| <= |after.alerts|
    && (after.lastNotified == db.lastNotified
        || (m !in db.lastNotified && m in after.lastNotified && NonePending(after.alerts[..|db.alerts|], m)
            && after.lastNotified == db.lastNotified[m := after.lastNotified[m]]))
    && (Queued(db, after, m) || NoneQueued(db, after, m))
  }

  lemma CancelAllThins(alerts: seq<AlertRow>, m: MonitorId, status: Status)
    ensures var once := CancelPending(alerts, m, Some(status));
      && Thinned(alerts, once, m, status)
      && Thinned(alerts, CancelPending(once, m, None), m, status) && NonePending(CancelPending(once, m, None), m)
  {
  }

  lemma QueueEffect(db: Db, raised: Db, m: MonitorId, status: Status, previousStatus: Status, dueAt: Time)
    requires m in raised.states && raised.states == db.states[m := raised.states[m]]
    requires raised.states[m].status == status && status in {Up, Down}
    requires raised.states[m].consecutiveFailures >= 0
    requires |raised.incidents| == |db.incidents| + 1 && raised.lastNotified == db.lastNotified
    requires raised.alerts == CancelPending(db.alerts, m, Some(status))
    ensures Saved(db, QueueAlert(raised, m, status, previousStatus, |db.incidents|, dueAt), m)
  {
    var after := QueueAlert(raised, m, status, previousStatus, |db.incidents|, dueAt);
    var n := |db.alerts|;
    assert after.alerts[..n] == CancelPending(raised.alerts, m, None);
    CancelAllThins(db.alerts, m, status);
    hide Thinned, NonePending, CancelPending;
    if |after.alerts| > n {
      assert Queued(db, after, m);
    } else {
      assert after.alerts[..n] == after.alerts;
      assert NoneQueued(db, after, m);
    }
  }

  lemma SaveEffect(db: Db, row: ProbeRow, next: MonitorState, at: Time, incident: Option<Status>, dueAt: Option<Time>)
    requires next.consecutiveFailures >= 0
    requires incident.Some? ==> dueAt.Some? && next.status in {Up, Down}
    ensures Saved(db, SaveProbeAndState(db, row, next, at, incident, dueAt), row.monitor)
    ensures SaveProbeAndState(db, row, next, at, incident, dueAt).notifications == db.notifications
  {
    hide SaveStatusInterval, CancelPending, Thinned, NonePending, PreviousStatus;
    var m := row.monitor;
    CancelAllThins(db.alerts, m, next.status);
    if incident.Some? {
      var raised := db.(
        probes := db.probes + [row], states := db.states[m := next],
        intervals := if next.status != Maintenance then SaveStatusInterval(db.intervals, m, next.status, at)
                     else db.intervals,
        alerts := CancelPending(db.alerts, m, Some(next.status)),
        incidents := db.incidents + [Incident(m, incident.value, at)]);
      hide Saved;
      QueueEffect(db, raised, m, next.status, PreviousStatus(db.states, m), dueAt.value);
    }
  }

  /** Only the probe row is written. */
  ghost predicate OnlyLogged(db: Db, after: Db) {
    after == db.(probes := after.probes)
  }

  /** A state that was once stored, or the state of a monitor never stored. */
  predicate Readable(s: MonitorState) {
    s.consecutiveFailures >= 0
  }

  /** Whatever state the probe has read, overtaken by other saves or deletions or not. */
  lemma ProbeEffect(db: Db, previous: MonitorState, m: MonitorId, p: ProbeInput, dueAt: Time)
    requires Readable(previous)
    ensures var after := SaveFrom(db, previous, m, p, dueAt);
      && (Saved(db, after, m) || OnlyLogged(db, after))
      && after.notifications == db.notifications
  {
    hide Saved, SaveProbeAndState;
    match Probe(previous, p)
    case InMaintenance(next, window) =>
      SaveEffect(db, ProbeRow(m, p.at, p.ok, Some(window), false, false), next, p.at, None, None);
    case Evaluated(next, incident) =>
      IncidentsFollowState(previous, p);
      SaveEffect(db, ProbeRow(m, p.at, p.ok, None, false, false), next, p.at, incident, Some(dueAt));
    case _ =>
  }

  // ----- safety of the queue -----

  lemma ThinnedSafe(db: Db, after: Db, m: MonitorId)
    requires SafeQueue(db) && m in after.states && after.states == db.states[m := after.states[m]]
    requires after.states[m].consecutiveFailures >= 0 && |db.incidents| <= |after.incidents|
    requires NoneQueued(db, after, m)
    ensures SafeQueue(after) && RowsMove(db.alerts, after.alerts)
  {
    forall i | 0 <= i < |after.alerts| && after.alerts[i].status == Pending ensures Claimable(after, i) {
      assert Claimable(db, i) && StillRight(after.alerts[i], m, after.states[m].status);
    }
  }

  lemma PushSafe(before: Db, after: Db, row: AlertRow)
    requires SafeQueue(before) && NonePending(before.alerts, row.monitor)
    requires after.alerts == before.alerts + [row] && after.states == before.states
    requires |before.incidents| == row.incident < |after.incidents| && row.status == Pending
    requires row.monitor in after.states && after.states[row.monitor].status == row.transition
    requires row.transition in {Up, Down}
    ensures SafeQueue(after) && RowsMove(before.alerts, after.alerts)
  {
    forall i | 0 <= i < |after.alerts| && after.alerts[i].status == Pending ensures Claimable(after, i) {
      if i < |before.alerts| { assert Claimable(before, i); }
    }
  }

  lemma RowsMoveThrough(a: seq<AlertRow>, b: seq<AlertRow>, c: seq<AlertRow>)
    requires RowsMove(a, b) && RowsMove(b, c)
    requires forall k :: 0 <= k < |b| ==> c[k] == b[k]
    ensures RowsMove(a, c)
  {
    forall k | 0 <= k < |a| ensures RowMoves(a[k], c[k]) {
      assert RowMoves(a[k], b[k]);
    }
  }

  lemma SavedSafe(db: Db, after: Db, m: MonitorId)
    requires SafeQueue(db) && Saved(db, after, m)
    ensures SafeQueue(after) && RowsMove(db.alerts, after.alerts)
  {
    if Queued(db, after, m) {
      var n := |db.alerts|;
      var middle := after.(alerts := after.alerts[..n], incidents := db.incidents);
      var row := after.alerts[n];
      assert after.alerts == middle.alerts + [row];
      hide SafeQueue, Thinned, NonePending, RowsMove;
      ThinnedSafe(db, middle, m);
      PushSafe(middle, after, row);
      RowsMoveThrough(db.alerts, middle.alerts, after.alerts);
    } else {
      hide SafeQueue, Thinned, Queued, RowsMove;
      ThinnedSafe(db, after, m);
    }
  }

  lemma ClaimSafe(db: Db, id: nat)
    requires SafeQueue(db)
    ensures SafeQueue(ClaimAlert(db, id)) && RowsMove(db.alerts, ClaimAlert(db, id).alerts)
  {
    var after := ClaimAlert(db, id);
    forall i | 0 <= i < |after.alerts| && after.alerts[i].status == Pending ensures Claimable(after, i) {
      assert Claimable(db, i);
    }
  }

  lemma RecordSafe(db: Db, id: nat, notifications: seq<Notification>, at: Time)
    requires SafeQueue(db) && RecordDelivery(db, id, notifications, at).Some?
    ensures var after := RecordDelivery(db, id, notifications, at).value;
      SafeQueue(after) && RowsMove(db.alerts, after.alerts)
  {
    var after := RecordDelivery(db, id, notifications, at).value;
    hide AllStored;
    forall i | 0 <= i < |after.alerts| && after.alerts[i].status == Pending ensures Claimable(after, i) {
      assert Claimable(db, i);
    }
  }

  lemma DeleteSafe(db: Db, keep: set<MonitorId>)
    requires SafeQueue(db)
    ensures SafeQueue(DeleteStatesExcept(db, keep)) && RowsMove(db.alerts, DeleteStatesExcept(db, keep).alerts)
  {
    var after := DeleteStatesExcept(db, keep);
    forall i | 0 <= i < |after.alerts| && after.alerts[i].status == Pending ensures Claimable(after, i) {
      assert Claimable(db, i);
    }
  }

  // ----- claimed and delivered rows are out of a save's reach -----

  ghost predicate Requeued(before: seq<AlertRow>, after: seq<AlertRow>) {
    && |before| <= |after|
    && (forall k :: 0 <= k < |before| ==> KeptOrCancelled(before[k], after[k]))
    && (forall k :: |before| <= k < |after| ==> after[k].status == Pending)
  }

  lemma SavedRequeues(db: Db, after: Db, m: MonitorId)
    requires Saved(db, after, m)
    ensures Requeued(db.alerts, after.alerts)
  {
    hide NonePending;
    if Queued(db, after, m) {
      var n := |db.alerts|;
      forall k | 0 <= k < n ensures KeptOrCancelled(db.alerts[k], after.alerts[k]) {
        assert after.alerts[..n][k] == after.alerts[k];
      }
    }
  }

  lemma ProbeRequeues(db: Db, previous: MonitorState, m: MonitorId, p: ProbeInput, dueAt: Time)
    requires SafeQueue(db) && Readable(previous)
    ensures var after := SaveFrom(db, previous, m, p, dueAt);
      && SafeQueue(after) && RowsMove(db.alerts, after.alerts) && Requeued(db.alerts, after.alerts)
      && after.notifications == db.notifications
  {
    var after := SaveFrom(db, previous, m, p, dueAt);
    ProbeEffect(db, previous, m, p, dueAt);
    if Saved(db, after, m) {
      hide Saved, SafeQueue, RowsMove, Requeued;
      SavedSafe(db, after, m);
      SavedRequeues(db, after, m);
    }
  }

  lemma DeleteRequeues(db: Db, keep: set<MonitorId>)
    requires SafeQueue(db)
    ensures Requeued(db.alerts, DeleteStatesExcept(db, keep).alerts)
  {
  }
}
