/** The order in which one monitor's incidents are raised, over every run. */
module IncidentOrder {
  import opened Basics
  import opened Monitor
  import opened Storage
  import opened Timeline
  import AlertRules

  /** Dropped: the monitor left the configuration and its state was deleted. */
  datatype Mark = DownIncident | UpIncident | MaintenanceProbe | Dropped

  function OutcomeMarks(r: Outcome): seq<Mark> {
    match r
    case InMaintenance(_, _) => [MaintenanceProbe]
    case Evaluated(_, Some(Up)) => [UpIncident]
    case Evaluated(_, Some(Down)) => [DownIncident]
    case _ => []
  }

  /** What one event leaves in the monitor's log. */
  function StepMarks(db: Db, e: Event, m: MonitorId): seq<Mark> {
    if Concerns(e, m) then OutcomeMarks(Probe(StateOf(db, m), e.input))
    else if Drops(e, m) then [Dropped]
    else []
  }

  function Marks(events: seq<Event>, m: MonitorId): seq<Mark> {
    if events == [] then []
    else Marks(events[..|events| - 1], m) + StepMarks(Run(events[..|events| - 1]), events[|events| - 1], m)
  }

  // ----- the log is the incident table -----

  function Transitions(incidents: seq<Incident>, m: MonitorId): seq<Status> {
    if incidents == [] then []
    else
      var last := incidents[|incidents| - 1];
      Transitions(incidents[..|incidents| - 1], m) + if last.monitor == m then [last.transition] else []
  }

  function RaisedBy(mark: Mark): seq<Status> {
    match mark
    case DownIncident => [Down]
    case UpIncident => [Up]
    case _ => []
  }

  function Raised(marks: seq<Mark>): seq<Status> {
    if marks == [] then [] else Raised(marks[..|marks| - 1]) + RaisedBy(marks[|marks| - 1])
  }

  lemma RaisedConcat(marks: seq<Mark>, step: seq<Mark>)
    requires |step| <= 1
    ensures Raised(marks + step) == Raised(marks) + Raised(step)
  {
    if step == [] {
      assert marks + step == marks;
    } else {
      assert (marks + step)[..|marks|] == marks && Raised(step[..0]) == [];
    }
  }

  lemma TransitionsConcat(incidents: seq<Incident>, raised: seq<Incident>, m: MonitorId)
    requires |raised| <= 1
    ensures Transitions(incidents + raised, m)
            == Transitions(incidents, m)
               + if raised != [] && raised[0].monitor == m then [raised[0].transition] else []
  {
    if raised == [] {
      assert incidents + raised == incidents;
    } else {
      assert (incidents + raised)[..|incidents|] == incidents;
    }
  }

  /** The incident a probe raises is the one row its transaction adds. */
  lemma StepRaises(db: Db, e: Event) returns (raised: seq<Incident>)
    ensures |raised| <= 1 && Step(db, e).incidents == db.incidents + raised
    ensures forall m :: Raised(StepMarks(db, e, m))
                        == if raised != [] && raised[0].monitor == m then [raised[0].transition] else []
  {
    raised := [];
    if e.Probed? {
      var r := Probe(StateOf(db, e.monitor), e.input);
      if r.Evaluated? && r.incident.Some? {
        raised := [Incident(e.monitor, r.incident.value, e.input.at)];
      }
    }
    assert db.incidents + [] == db.incidents;
  }

  lemma ShortStep(db: Db, e: Event, m: MonitorId)
    ensures |StepMarks(db, e, m)| <= 1
  {
  }

  lemma StepKeepsLog(db: Db, e: Event, m: MonitorId, marks: seq<Mark>)
    requires Transitions(db.incidents, m) == Raised(marks)
    ensures Transitions(Step(db, e).incidents, m) == Raised(marks + StepMarks(db, e, m))
  {
    hide Step, StepMarks, Raised, Transitions;
    var raised := StepRaises(db, e);
    ShortStep(db, e, m);
    RaisedConcat(marks, StepMarks(db, e, m));
    TransitionsConcat(db.incidents, raised, m);
  }

  lemma {:induction false} MarksAreIncidents(events: seq<Event>, m: MonitorId)
    ensures Transitions(Run(events).incidents, m) == Raised(Marks(events, m))
  {
    if events != [] {
      var n := |events| - 1;
      MarksAreIncidents(events[..n], m);
      StepKeepsLog(Run(events[..n]), events[n], m, Marks(events[..n], m));
    }
  }

  // ----- order -----

  predicate EndsDown(mark: Mark) {
    mark == UpIncident || mark == Dropped
  }

  ghost predicate NoEndBetween(marks: seq<Mark>, j: int, k: int)
    requires -1 <= j && k <= |marks|
  {
    forall i :: j < i < k ==> !EndsDown(marks[i])
  }

  /** A DOWN before position k that nothing has ended. */
  ghost predicate DownOpenAt(marks: seq<Mark>, k: nat)
    requires k <= |marks|
  {
    exists j :: 0 <= j < k && marks[j] == DownIncident && NoEndBetween(marks, j, k)
  }

  ghost predicate UpsAnswer(marks: seq<Mark>) {
    forall k :: 0 <= k < |marks| && marks[k] == UpIncident ==> DownOpenAt(marks, k)
  }

  ghost predicate RepeatedDown(marks: seq<Mark>, j: nat, k: nat) {
    j < k < |marks| && marks[j] == DownIncident && marks[k] == DownIncident && NoEndBetween(marks, j, k)
  }

  ghost predicate MaintenanceBetween(marks: seq<Mark>, j: nat, k: nat)
    requires k <= |marks|
  {
    exists i :: j < i < k && marks[i] == MaintenanceProbe
  }

  ghost predicate DownsSeparated(marks: seq<Mark>) {
    forall j: nat, k: nat :: RepeatedDown(marks, j, k) ==> MaintenanceBetween(marks, j, k)
  }

  ghost predicate Ordered(marks: seq<Mark>) {
    UpsAnswer(marks) && DownsSeparated(marks)
  }

  /** The stored state remembers what the log says: an open DOWN, and maintenance still in force. */
  ghost predicate Remembers(s: MonitorState, marks: seq<Mark>) {
    && s.consecutiveFailures >= 0
    && (ConfirmedDown(s) <==> DownOpenAt(marks, |marks|))
    && (s.status == Maintenance ==> marks != [] && marks[|marks| - 1] == MaintenanceProbe)
  }

  lemma DownOpenPush(marks: seq<Mark>, x: Mark)
    ensures DownOpenAt(marks + [x], |marks| + 1)
            <==> x == DownIncident || (!EndsDown(x) && DownOpenAt(marks, |marks|))
    ensures forall k :: 0 <= k <= |marks| ==> (DownOpenAt(marks + [x], k) <==> DownOpenAt(marks, k))
  {
    var all, n := marks + [x], |marks|;
    assert all[n] == x;
    forall k | 0 <= k <= n ensures DownOpenAt(all, k) <==> DownOpenAt(marks, k) {
      forall j | 0 <= j < k ensures NoEndBetween(all, j, k) == NoEndBetween(marks, j, k) && all[j] == marks[j] {
        assert forall i :: j < i < k ==> all[i] == marks[i];
      }
    }
    if x == DownIncident {
      assert NoEndBetween(all, n, n + 1);
    }
    if !EndsDown(x) && DownOpenAt(marks, n) {
      var j :| 0 <= j < n && marks[j] == DownIncident && NoEndBetween(marks, j, n);
      assert forall i :: j < i < n ==> all[i] == marks[i];
      assert NoEndBetween(all, j, n + 1);
    }
    if x != DownIncident && DownOpenAt(all, n + 1) {
      var j :| 0 <= j < n + 1 && all[j] == DownIncident && NoEndBetween(all, j, n + 1);
      assert j < n && NoEndBetween(all, j, n);
    }
  }

  lemma OrderedPush(marks: seq<Mark>, x: Mark)
    requires Ordered(marks)
    requires x == UpIncident ==> DownOpenAt(marks, |marks|)
    requires x == DownIncident && DownOpenAt(marks, |marks|) ==> marks[|marks| - 1] == MaintenanceProbe
    ensures Ordered(marks + [x])
  {
    var all := marks + [x];
    DownOpenPush(marks, x);
    forall j: nat, k: nat | RepeatedDown(all, j, k) ensures MaintenanceBetween(all, j, k) {
      SeparatedPush(marks, x, j, k);
    }
  }

  lemma SeparatedPush(marks: seq<Mark>, x: Mark, j: nat, k: nat)
    requires DownsSeparated(marks) && RepeatedDown(marks + [x], j, k)
    requires x == DownIncident && DownOpenAt(marks, |marks|) ==> marks[|marks| - 1] == MaintenanceProbe
    ensures MaintenanceBetween(marks + [x], j, k)
  {
    var all, n := marks + [x], |marks|;
    assert forall i :: 0 <= i < n ==> all[i] == marks[i];
    assert NoEndBetween(marks, j, k);
    if k < n {
      assert RepeatedDown(marks, j, k);
      var i :| j < i < k && marks[i] == MaintenanceProbe;
      assert all[i] == MaintenanceProbe;
    } else {
      assert marks[j] == DownIncident && DownOpenAt(marks, n);
      assert all[n - 1] == MaintenanceProbe;
    }
  }

  /** The state after one more probe, in the terms the log is kept in. */
  lemma ProbeRemembers(s: MonitorState, p: ProbeInput, marks: seq<Mark>)
    requires Remembers(s, marks) && Ordered(marks)
    ensures var step := OutcomeMarks(Probe(s, p));
      Remembers(StateAfter(s, Probe(s, p)), marks + step) && Ordered(marks + step)
  {
    var r := Probe(s, p);
    var step := OutcomeMarks(r);
    if r.Evaluated? {
      IncidentsFollowState(s, p);
    }
    if step == [] {
      assert marks + step == marks;
    } else {
      assert step == [step[0]];
      DownOpenPush(marks, step[0]);
      OrderedPush(marks, step[0]);
    }
  }

  lemma DropRemembers(marks: seq<Mark>)
    requires Ordered(marks)
    ensures Remembers(UNKNOWN_STATE, marks + [Dropped]) && Ordered(marks + [Dropped])
  {
    DownOpenPush(marks, Dropped);
    OrderedPush(marks, Dropped);
  }

  lemma {:induction false} LogRemembered(events: seq<Event>, m: MonitorId)
    ensures Remembers(StateOf(Run(events), m), Marks(events, m)) && Ordered(Marks(events, m))
  {
    if events != [] {
      var n := |events| - 1;
      LogRemembered(events[..n], m);
      var db, e, marks := Run(events[..n]), events[n], Marks(events[..n], m);
      StepState(db, e, m);
      hide Remembers, Ordered, Step, Probe;
      if Concerns(e, m) {
        ProbeRemembers(StateOf(db, m), e.input, marks);
      } else if Drops(e, m) {
        DropRemembers(marks);
      } else {
        assert marks + [] == marks;
      }
    } else {
      assert Remembers(UNKNOWN_STATE, []);
    }
  }

  /** Over every run with maintenance, suppression and deletions, under any thresholds: an UP incident
      answers a DOWN with no UP and no deletion between, and a DOWN repeated without either follows a
      maintenance probe. The incident table holds exactly these incidents in this order. */
  lemma IncidentsOrdered(events: seq<Event>, m: MonitorId)
    ensures var marks := Marks(events, m);
      Ordered(marks) && Transitions(Run(events).incidents, m) == Raised(marks)
  {
    LogRemembered(events, m);
    MarksAreIncidents(events, m);
  }

  // ----- what is remembered as last announced -----

  /** An incident was raised since the monitor's state was last deleted. */
  predicate RaisedSinceDrop(marks: seq<Mark>) {
    if marks == [] then false
    else
      match marks[|marks| - 1]
      case Dropped => false
      case MaintenanceProbe => RaisedSinceDrop(marks[..|marks| - 1])
      case _ => true
  }

  lemma RaisedPush(marks: seq<Mark>, step: seq<Mark>)
    requires |step| <= 1
    ensures RaisedSinceDrop(marks + step)
            <==> if step == [] || step[0] == MaintenanceProbe then RaisedSinceDrop(marks) else step[0] != Dropped
  {
    if step == [] {
      assert marks + step == marks;
    } else {
      assert (marks + step)[..|marks|] == marks;
    }
  }

  lemma StepNotified(db: Db, e: Event, m: MonitorId)
    ensures var step := StepMarks(db, e, m);
      && |step| <= 1
      && (m in Step(db, e).lastNotified
          <==> if step == [] || step[0] == MaintenanceProbe then m in db.lastNotified else step[0] != Dropped)
  {
    hide SaveFrom, Probe, DeleteStatesExcept, AlertRules.CancelsPending, AlertRules.KnownAs;
    match e
    case Probed(other, p, dueAt) =>
      var previous := StateOf(db, other);
      AlertRules.AlertsAfterSave(db, previous, other, p, dueAt);
      if Probe(previous, p).Evaluated? { RaisesUpOrDown(previous, p); }
    case Deleted(keep) => AlertRules.DropsForget(db, keep, m);
  }

  lemma RaisesUpOrDown(previous: MonitorState, p: ProbeInput)
    requires Probe(previous, p).Evaluated?
    ensures var i := Probe(previous, p).incident; i.Some? ==> i.value in {Up, Down}
  {
  }

  /** A monitor is remembered as announced exactly when an incident of it was raised since its state was
      last deleted: deleting it forgets. */
  lemma {:induction false} RememberedSinceDrop(events: seq<Event>, m: MonitorId)
    ensures m in Run(events).lastNotified <==> RaisedSinceDrop(Marks(events, m))
  {
    if events != [] {
      var n := |events| - 1;
      hide Step, StepMarks, RaisedSinceDrop;
      RememberedSinceDrop(events[..n], m);
      StepNotified(Run(events[..n]), events[n], m);
      RaisedPush(Marks(events[..n], m), StepMarks(Run(events[..n]), events[n], m));
    }
  }
}
