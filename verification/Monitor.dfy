/** One monitor: the transition function, maintenance, and what a finished probe leads to. */
module Monitor {
  import opened Basics

  datatype MonitorState = MonitorState(
    status: Status, statusBeforeMaintenance: Status, consecutiveFailures: int,
    lastCheckedAt: Option<Time>, lastSuccessAt: Option<Time>, lastFailureAt: Option<Time>, updatedAt: Option<Time>)

  const UNKNOWN_STATE := MonitorState(Unknown, Unset, 0, None, None, None, None)

  datatype Evaluation = Evaluation(next: MonitorState, incident: Option<Status>)

  function Evaluate(previous: MonitorState, ok: bool, threshold: int, now: Time): Evaluation {
    var checked := previous.(lastCheckedAt := Some(now));
    if ok then
      Evaluation(checked.(consecutiveFailures := 0, lastSuccessAt := Some(now), status := Up),
                 if previous.status == Down then Some(Up) else None)
    else
      var next := checked.(consecutiveFailures := checked.consecutiveFailures + 1, lastFailureAt := Some(now));
      if previous.status != Down && next.consecutiveFailures >= threshold then
        Evaluation(next.(status := Down), Some(Down))
      else if previous.status != Down then
        Evaluation(next.(status := Failing), None)
      else
        Evaluation(next, None)
  }

  function MaintenanceState(previous: MonitorState, ok: bool, now: Time): MonitorState {
    var next := previous.(
      statusBeforeMaintenance :=
        if previous.status == Maintenance then previous.statusBeforeMaintenance else previous.status,
      status := Maintenance, consecutiveFailures := 0, lastCheckedAt := Some(now), updatedAt := Some(now));
    if ok then next.(lastSuccessAt := Some(now)) else next.(lastFailureAt := Some(now))
  }

  /** The stored observer state as a probe reads it: whether it is down and whether its last error is empty. */
  datatype ObserverView = ObserverView(down: bool, errorEmpty: bool)

  /** A finished probe and everything else its processing reads. */
  datatype ProbeInput = ProbeInput(
    at: Time, ok: bool, threshold: int, activeMaintenance: Option<int>, observer: Option<ObserverView>,
    connectivitySuppressible: bool, transferDegraded: bool)

  datatype Outcome =
    | ObserverSuppressed
    | ConnectivitySuppressed
    | InMaintenance(next: MonitorState, window: int)
    | Evaluated(next: MonitorState, incident: Option<Status>)

  function Probe(previous: MonitorState, p: ProbeInput): Outcome {
    if p.observer.Some? && p.observer.value.down && !p.ok then
      ObserverSuppressed
    else if p.activeMaintenance.Some? then
      InMaintenance(MaintenanceState(previous, p.ok, p.at), p.activeMaintenance.value)
    else if !p.ok && p.observer.Some? && !p.observer.value.down && p.observer.value.errorEmpty
            && p.connectivitySuppressible && p.transferDegraded then
      ConnectivitySuppressed
    else
      var evaluationPrevious :=
        if previous.status == Maintenance && p.ok && previous.statusBeforeMaintenance == Down
        then previous.(status := Down) else previous;
      var threshold := if previous.status == Maintenance && !p.ok then 1 else p.threshold;
      var e := Evaluate(evaluationPrevious, p.ok, threshold, p.at);
      Evaluated(e.next.(statusBeforeMaintenance := Unset, updatedAt := Some(p.at)), e.incident)
  }

  /** The stored state after the probe; a suppressed failure leaves it as it was. */
  function StateAfter(previous: MonitorState, r: Outcome): MonitorState {
    match r
    case InMaintenance(next, _) => next
    case Evaluated(next, _) => next
    case _ => previous
  }

  /** The stored state says the monitor is down, directly or from before maintenance. */
  predicate ConfirmedDown(s: MonitorState) {
    s.status == Down || (s.status == Maintenance && s.statusBeforeMaintenance == Down)
  }

  /** Incidents against the state: UP is raised exactly on the success that ends a confirmed outage;
      DOWN is raised on entering DOWN and again by the first failure after maintenance; and a failure
      enters DOWN exactly when it is the threshold's in a row or the first after maintenance. */
  lemma IncidentsFollowState(previous: MonitorState, p: ProbeInput)
    requires Probe(previous, p).Evaluated?
    requires previous.status == Maintenance ==> previous.consecutiveFailures >= 0
    ensures var r := Probe(previous, p);
      && r.next.status in {Up, Down, Failing}
      && (r.incident == Some(Up) <==> p.ok && ConfirmedDown(previous))
      && (r.incident == Some(Down) <==> !p.ok && previous.status != Down && r.next.status == Down)
      && (r.incident.Some? ==> r.incident.value == r.next.status && r.incident.value in {Up, Down})
      && (previous.status == Maintenance && !p.ok ==> r.incident == Some(Down))
      && (r.next.status == Down <==>
            !p.ok && (previous.status in {Down, Maintenance} || previous.consecutiveFailures + 1 >= p.threshold))
      && (ConfirmedDown(r.next) <==> !p.ok && (ConfirmedDown(previous) || r.incident == Some(Down)))
  {
  }
}
