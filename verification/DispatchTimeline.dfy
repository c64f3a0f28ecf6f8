/** The stored timeline while probes are saved from states that others have replaced since, and alerts are
    claimed and recorded between them. */
module DispatchTimeline {
  import opened Basics
  import opened Storage
  import opened Timeline
  import Dispatch

  predicate Saves(a: Dispatch.Action, m: MonitorId) {
    a.Probed? && a.monitor == m
  }

  /** Saves of the monitor come in order of their probes' times. */
  ghost predicate InOrder(actions: seq<Dispatch.Action>, m: MonitorId) {
    forall i, j :: 0 <= i < j < |actions| && Saves(actions[i], m) && Saves(actions[j], m) ==>
      actions[i].input.at <= actions[j].input.at
  }

  ghost predicate StartsAtSave(row: IntervalRow, actions: seq<Dispatch.Action>, m: MonitorId) {
    exists i :: 0 <= i < |actions| && Saves(actions[i], m) && actions[i].input.at == row.startedAt
  }

  ghost predicate AllStart(c: seq<IntervalRow>, actions: seq<Dispatch.Action>, m: MonitorId) {
    forall k :: 0 <= k < |c| ==> StartsAtSave(c[k], actions, m)
  }

  lemma StepTimeline(sys: Dispatch.System, a: Dispatch.Action)
    ensures var after := Dispatch.Step(sys, a).db.intervals;
      after == sys.db.intervals
      || (a.Probed? && exists status :: after == SaveStatusInterval(sys.db.intervals, a.monitor, status, a.input.at))
  {
    hide SaveFrom, SaveStatusInterval, AllStored, Dispatch.About;
    if a.Probed? {
      SaveOnTimeline(sys.db, a.previous, a.monitor, a.input, a.dueAt);
    }
  }

  lemma StartStays(row: IntervalRow, front: seq<Dispatch.Action>, a: Dispatch.Action, m: MonitorId)
    requires StartsAtSave(row, front, m)
    ensures StartsAtSave(row, front + [a], m)
  {
    var i :| 0 <= i < |front| && Saves(front[i], m) && front[i].input.at == row.startedAt;
    assert (front + [a])[i] == front[i];
  }

  lemma AllStay(c: seq<IntervalRow>, front: seq<Dispatch.Action>, a: Dispatch.Action, m: MonitorId)
    requires AllStart(c, front, m)
    ensures AllStart(c, front + [a], m)
  {
    hide StartsAtSave;
    forall k | 0 <= k < |c| ensures StartsAtSave(c[k], front + [a], m) {
      StartStays(c[k], front, a, m);
    }
  }

  /** Saves of m are no earlier than the rows they find. */
  lemma NoEarlier(row: IntervalRow, front: seq<Dispatch.Action>, a: Dispatch.Action, m: MonitorId)
    requires StartsAtSave(row, front, m) && InOrder(front + [a], m) && Saves(a, m)
    ensures row.startedAt <= a.input.at
  {
    var all := front + [a];
    var i :| 0 <= i < |front| && Saves(front[i], m) && front[i].input.at == row.startedAt;
    assert all[i] == front[i] && all[|front|] == a;
  }

  lemma ExtendStarts(
    c: seq<IntervalRow>, front: seq<Dispatch.Action>, a: Dispatch.Action, m: MonitorId, status: Status)
    requires AllStart(c, front, m) && Saves(a, m)
    ensures AllStart(Extend(c, m, status, a.input.at), front + [a], m)
  {
    AllStay(c, front, a, m);
    var e, all := Extend(c, m, status, a.input.at), front + [a];
    forall k | 0 <= k < |e| ensures StartsAtSave(e[k], all, m) {
      if k < |c| {
        assert StartsAtSave(c[k], all, m) && e[k].startedAt == c[k].startedAt;
      } else {
        assert all[|front|] == a;
      }
    }
  }

  /** The timeline keeps its chain under any interleaving, saves from outdated states included, as long as
      the monitor's saves come in order of time. */
  lemma {:induction false} TimelineThroughout(actions: seq<Dispatch.Action>, m: MonitorId)
    requires InOrder(actions, m)
    ensures var c := History(Dispatch.After(Dispatch.START, actions).db.intervals, m);
      Chain(c) && AllStart(c, actions, m)
  {
    if actions != [] {
      var n := |actions| - 1;
      var front, a := actions[..n], actions[n];
      assert actions == front + [a];
      TimelineThroughout(front, m);
      var sys := Dispatch.After(Dispatch.START, front);
      var rows := sys.db.intervals;
      var after := Dispatch.After(Dispatch.START, actions).db.intervals;
      hide Dispatch.Step, Chain, History, StartsAtSave, SaveStatusInterval, Extend, AllStart, InOrder;
      StepTimeline(sys, a);
      AllStay(History(rows, m), front, a, m);
      if after != rows {
        var status :| after == SaveStatusInterval(rows, a.monitor, status, a.input.at);
        SaveExtendsChain(rows, a.monitor, status, a.input.at, m);
        if a.monitor == m {
          LastNoEarlier(History(rows, m), front, a, m);
          ExtendKeepsChain(History(rows, m), m, status, a.input.at);
          ExtendStarts(History(rows, m), front, a, m, status);
        }
      }
    }
  }

  lemma LastNoEarlier(c: seq<IntervalRow>, front: seq<Dispatch.Action>, a: Dispatch.Action, m: MonitorId)
    requires AllStart(c, front, m) && InOrder(front + [a], m) && Saves(a, m)
    ensures c != [] ==> c[|c| - 1].startedAt <= a.input.at
  {
    hide StartsAtSave, InOrder;
    if c != [] {
      NoEarlier(c[|c| - 1], front, a, m);
    }
  }
}
