/** Probes, retention passes and backfills in one run: passes compact the probes, a backfill replaces the whole
    timeline from what is left of them, and the next probe goes on from the rows it has written. */
module LiveBackfill {
  import opened Basics
  import opened Sequences
  import opened Monitor
  import opened Storage
  import opened OutcomeRuns
  import opened Timeline
  import opened Backfill
  import opened OnlineOffline
  import Compaction

  /** The tables probes are saved to, with all probes ever saved kept in the first for comparison, and those
      that retention works on. */
  datatype Tables = Tables(db: Db, kept: Compaction.Tables)

  datatype LiveEvent =
    | Live(event: Event)
    | Retained(policy: Compaction.Policy, now: Time)
    | Rebuilt(rows: seq<IntervalRow>)

  /** The probe rows a step has added. */
  function Added(before: Db, after: Db): seq<ProbeRow> {
    if |before.probes| <= |after.probes| then after.probes[|before.probes|..] else []
  }

  function LiveStep(t: Tables, e: LiveEvent): Tables {
    match e
    case Live(event) =>
      var after := Step(t.db, event);
      Tables(after, t.kept.(raw := t.kept.raw + Added(t.db, after)))
    case Retained(policy, now) => t.(kept := Compaction.RollupAndPrune(t.kept, policy, now))
    case Rebuilt(rows) => t.(db := t.db.(intervals := rows))
  }

  function LiveRun(events: seq<LiveEvent>): Tables {
    if events == [] then Tables(EMPTY, Compaction.NO_PROBES)
    else LiveStep(LiveRun(events[..|events| - 1]), events[|events| - 1])
  }

  /** Probes are plain, daily rollups and with them outcome runs are kept, and a backfill writes what
      BackfillTimeline makes of the run's own tables at that time. */
  ghost predicate PlainLiveStep(t: Tables, e: LiveEvent, m: MonitorId, thresholds: FailureThresholds) {
    match e
    case Live(event) => PlainStep(t.db, event, m, ForMonitor(thresholds, m))
    case Retained(policy, _) => policy.dailyRollups.forever
    case Rebuilt(rows) => BackfillOf(rows, t.kept.runs, t.kept.raw, thresholds)
  }

  ghost predicate PlainLiveRun(events: seq<LiveEvent>, m: MonitorId, thresholds: FailureThresholds) {
    forall k :: 0 <= k < |events| ==> PlainLiveStep(LiveRun(events[..k]), events[k], m, thresholds)
  }

  // ----- the rows a backfill writes form a chain -----

  lemma {:induction false} RleMonitors(h: seq<ProbeRow>, m: MonitorId)
    requires forall i :: 0 <= i < |h| ==> h[i].monitor == m
    ensures forall k :: 0 <= k < |Rle(h)| ==> Rle(h)[k].monitor == m
  {
    if h != [] {
      var n := |h| - 1;
      assert h == h[..n] + [h[n]];
      RleMonitors(h[..n], m);
      RlePush(h[..n], h[n]);
    }
  }

  lemma BackfilledChain(h: seq<ProbeRow>, m: MonitorId, thresholds: FailureThresholds)
    requires SortedBy(ProbeBefore(), h) && forall i :: 0 <= i < |h| ==> h[i].monitor == m
    ensures Chain(Backfilled(Rle(h), thresholds))
  {
    var runs := Rle(h);
    RleMonitors(h, m);
    RleAlternates(h);
    RleStarts(h);
    hide Rle, ForMonitor, SortedBy, Link, Backfilled;
    var c := Backfilled(runs, thresholds);
    forall i | 0 <= i < |c| - 1 ensures Link(c[i], c[i + 1]) {
      assert StartsBefore()(runs[i], runs[i + 1]) && runs[(i + 1) - 1].ok != runs[i + 1].ok;
      BackfilledLink(runs, i, thresholds);
    }
  }

  lemma BackfilledLink(runs: seq<RunRow>, i: nat, thresholds: FailureThresholds)
    requires i + 1 < |runs| && runs[i].monitor == runs[i + 1].monitor
    requires runs[i].ok != runs[i + 1].ok && runs[i].startedAt < runs[i + 1].startedAt
    ensures Link(Backfilled(runs, thresholds)[i], Backfilled(runs, thresholds)[i + 1])
  {
    hide ForMonitor;
  }

  /** Both shapes show the same streak, so the stored state agrees with either. */
  lemma StateStillAgrees(s: MonitorState, c: seq<IntervalRow>, d: seq<IntervalRow>, h: seq<ProbeRow>, k: int)
    requires StateAgrees(s, c, h) && ShowsStreak(c, h, k) && ShowsStreak(d, h, k)
    ensures StateAgrees(s, d, h)
  {
  }

  lemma RebuildCurrent(db: Db, rows: seq<IntervalRow>, m: MonitorId, thresholds: FailureThresholds)
    requires Current(db, m, ForMonitor(thresholds, m))
    requires History(rows, m) == Backfilled(Rle(Reported(db, m)), thresholds)
    ensures Current(db.(intervals := rows), m, ForMonitor(thresholds, m))
  {
    var k, h := ForMonitor(thresholds, m), Reported(db, m);
    ReportedOne(db, m);
    assert Reported(db.(intervals := rows), m) == h && StateOf(db.(intervals := rows), m) == StateOf(db, m);
    hide Reported, StateOf, Flagged, Confirmed, Backfilled, Rle, Chain, StateAgrees, ShowsStreak, ForMonitor,
        History, SortedBy;
    OfflineFlagsConfirmed(h, m, thresholds);
    BackfilledChain(h, m, thresholds);
    StateStillAgrees(StateOf(db, m), History(db.intervals, m), History(rows, m), h, k);
  }

  // ----- every step -----

  /** The timeline is current, and the tables still hold the history it is rebuilt from. */
  ghost predicate Held(t: Tables, m: MonitorId, k: int) {
    Current(t.db, m, k) && Tracks(t.kept.runs, t.kept.raw, m, Reported(t.db, m))
  }

  lemma ReportedSorted(db: Db, m: MonitorId, k: int)
    requires Current(db, m, k)
    ensures SortedBy(ProbeBefore(), Reported(db, m))
  {
  }

  lemma LiveHeld(t: Tables, event: Event, m: MonitorId, k: int)
    requires Held(t, m, k) && PlainStep(t.db, event, m, k) && k >= 1
    ensures Held(LiveStep(t, Live(event)), m, k)
  {
    hide Current, PlainStep, Tracks, Select, Step;
    StepCurrent(t.db, event, m, k);
    if event.Probed? {
      OneProbeRow(t.db, event);
      var after := Step(t.db, event);
      var p := after.probes[|t.db.probes|];
      assert Added(t.db, after) == [p];
      SelectPush(ReportableOf(m), t.db.probes, p);
      Compaction.SaveTracks(t.kept, p, m, Reported(t.db, m));
    } else {
      DeletedKeepsProbes(t.db, event);
      assert t.kept.raw + [] == t.kept.raw;
    }
  }

  lemma DeletedKeepsProbes(db: Db, event: Event)
    requires event.Deleted?
    ensures Step(db, event).probes == db.probes && Added(db, Step(db, event)) == []
  {
  }

  lemma RetainedHeld(t: Tables, policy: Compaction.Policy, now: Time, m: MonitorId, k: int)
    requires Held(t, m, k) && policy.dailyRollups.forever
    ensures Held(LiveStep(t, Retained(policy, now)), m, k)
  {
    ReportedSorted(t.db, m, k);
    StrictlyNoLater(Reported(t.db, m));
    hide Current, Tracks, SortedBy, Compaction.RollupAndPrune, Reported;
    Compaction.PassTracks(t.kept, policy, now, m, Reported(t.db, m));
  }

  lemma RebuiltHeld(t: Tables, rows: seq<IntervalRow>, m: MonitorId, thresholds: FailureThresholds)
    requires Held(t, m, ForMonitor(thresholds, m)) && BackfillOf(rows, t.kept.runs, t.kept.raw, thresholds)
    ensures Held(LiveStep(t, Rebuilt(rows)), m, ForMonitor(thresholds, m))
  {
    ReportedSorted(t.db, m, ForMonitor(thresholds, m));
    assert History(rows, m) == Backfilled(Rle(Reported(t.db, m)), thresholds) by {
      hide Current, Tracks, Backfilled, Rle;
    }
    hide Current, Tracks, ForMonitor, Backfilled, Rle, BackfillOf;
    RebuildCurrent(t.db, rows, m, thresholds);
  }

  lemma StartHeld(m: MonitorId, k: int)
    ensures Held(Tables(EMPTY, Compaction.NO_PROBES), m, k)
  {
    NothingConfirmed(k);
    assert TracksAt([], [], m, [], 0);
  }

  lemma FrontPlain(events: seq<LiveEvent>, m: MonitorId, thresholds: FailureThresholds)
    requires PlainLiveRun(events, m, thresholds) && events != []
    ensures PlainLiveRun(events[..|events| - 1], m, thresholds)
  {
    hide PlainLiveStep, LiveRun;
    var n := |events| - 1;
    forall k | 0 <= k < n ensures PlainLiveStep(LiveRun(events[..n][..k]), events[..n][k], m, thresholds) {
      assert events[..n][..k] == events[..k];
    }
  }

  lemma {:induction false} RunHeld(events: seq<LiveEvent>, m: MonitorId, thresholds: FailureThresholds)
    requires PlainLiveRun(events, m, thresholds)
    ensures Held(LiveRun(events), m, ForMonitor(thresholds, m))
  {
    if events == [] {
      StartHeld(m, ForMonitor(thresholds, m));
    } else {
      var n := |events| - 1;
      var front, e := events[..n], events[n];
      assert PlainLiveStep(LiveRun(front), e, m, thresholds);
      FrontPlain(events, m, thresholds);
      hide PlainLiveRun, PlainStep, Held, LiveStep, ForMonitor, BackfillOf;
      RunHeld(front, m, thresholds);
      match e
      case Live(event) => LiveHeld(LiveRun(front), event, m, ForMonitor(thresholds, m));
      case Retained(policy, now) => RetainedHeld(LiveRun(front), policy, now, m, ForMonitor(thresholds, m));
      case Rebuilt(rows) => RebuiltHeld(LiveRun(front), rows, m, thresholds);
    }
  }

  lemma CurrentFlags(db: Db, m: MonitorId, k: int)
    requires Current(db, m, k)
    ensures forall t :: Flagged(History(db.intervals, m), t) <==> Confirmed(Reported(db, m), k, t)
  {
  }

  /** Wherever retention passes and backfills fall among the probes, the timeline keeps flagging exactly the
      confirmed outages of all probes ever saved: a backfill of the compacted tables loses none, and the
      writer carries on from rebuilt rows as it would have from its own. */
  lemma BackfillsGoUnnoticed(events: seq<LiveEvent>, m: MonitorId, thresholds: FailureThresholds)
    requires PlainLiveRun(events, m, thresholds)
    ensures var db := LiveRun(events).db;
      forall t ::
        Flagged(History(db.intervals, m), t) <==> Confirmed(Reported(db, m), ForMonitor(thresholds, m), t)
  {
    RunHeld(events, m, thresholds);
    hide LiveRun, PlainLiveRun;
    CurrentFlags(LiveRun(events).db, m, ForMonitor(thresholds, m));
  }
}
