/** What the uptime query reports, said of the saved probes themselves: how many of them there are. */
module WindowCounts {
  import opened Basics
  import opened Sequences
  import opened Storage
  import opened Rollups
  import opened Compaction

  /** The positions of rows that qualify. */
  ghost function Where(rows: seq<ProbeRow>, p: ProbeRow -> bool): set<int> {
    set k | 0 <= k < |rows| && p(rows[k])
  }

  lemma WherePush(rows: seq<ProbeRow>, row: ProbeRow, p: ProbeRow -> bool)
    ensures |Where(rows + [row], p)| == |Where(rows, p)| + if p(row) then 1 else 0
  {
    var all := rows + [row];
    assert forall k :: 0 <= k < |rows| ==> all[k] == rows[k];
    assert Where(all, p) == Where(rows, p) + if p(row) then {|rows|} else {};
  }

  lemma WhereNone(p: ProbeRow -> bool)
    ensures |Where([], p)| == 0
  {
    assert Where([], p) == {};
  }

  predicate Within(p: ProbeRow, m: MonitorId, cutoff: Option<Time>) {
    p.monitor == m && (cutoff.None? || p.at >= cutoff.value)
  }

  /** Neither in maintenance nor suppressed. */
  function Checks(m: MonitorId, cutoff: Option<Time>): ProbeRow -> bool {
    (p: ProbeRow) =>
      Within(p, m, cutoff) && p.maintenance == None && !p.observerSuppressed && !p.connectivitySuppressed
  }

  function Successes(m: MonitorId, cutoff: Option<Time>): ProbeRow -> bool {
    (p: ProbeRow) => Checks(m, cutoff)(p) && p.ok
  }

  function InMaintenance(m: MonitorId, cutoff: Option<Time>): ProbeRow -> bool {
    (p: ProbeRow) => Within(p, m, cutoff) && p.maintenance != None
  }

  function FailedInMaintenance(m: MonitorId, cutoff: Option<Time>): ProbeRow -> bool {
    (p: ProbeRow) => InMaintenance(m, cutoff)(p) && !p.ok
  }

  function ObserverDown(m: MonitorId, cutoff: Option<Time>): ProbeRow -> bool {
    (p: ProbeRow) => Within(p, m, cutoff) && p.observerSuppressed
  }

  /** Each count is the number of such probes. */
  ghost predicate CountsThem(c: Counts, probes: seq<ProbeRow>, m: MonitorId, cutoff: Option<Time>) {
    && c.total == |Where(probes, Checks(m, cutoff))|
    && c.successful == |Where(probes, Successes(m, cutoff))|
    && c.maintenance == |Where(probes, InMaintenance(m, cutoff))|
    && c.maintenanceFailed == |Where(probes, FailedInMaintenance(m, cutoff))|
    && c.observerSuppressed == |Where(probes, ObserverDown(m, cutoff))|
  }

  /** The least time of a qualifying probe, nothing when there is none. */
  ghost predicate FirstOf(first: Option<Time>, probes: seq<ProbeRow>, p: ProbeRow -> bool) {
    && (forall k :: 0 <= k < |probes| && p(probes[k]) ==> first.Some? && first.value <= probes[k].at)
    && (first.Some? ==> exists k :: 0 <= k < |probes| && p(probes[k]) && probes[k].at == first.value)
  }

  ghost predicate LastOf(last: Option<Time>, probes: seq<ProbeRow>, p: ProbeRow -> bool) {
    && (forall k :: 0 <= k < |probes| && p(probes[k]) ==> last.Some? && probes[k].at <= last.value)
    && (last.Some? ==> exists k :: 0 <= k < |probes| && p(probes[k]) && probes[k].at == last.value)
  }

  /** The first and the last time of a check. */
  ghost predicate SpansThem(c: Counts, probes: seq<ProbeRow>, m: MonitorId, cutoff: Option<Time>) {
    && FirstOf(c.firstReportable, probes, Checks(m, cutoff))
    && LastOf(c.lastReportable, probes, Checks(m, cutoff))
  }

  lemma ExactPush(probes: seq<ProbeRow>, p: ProbeRow, m: MonitorId, cutoff: Option<Time>)
    ensures Exact(probes + [p], m, cutoff) == Add(Exact(probes, m, cutoff), Share(AsRow(p), m, cutoff))
  {
    hide Sum, Share, AsRow, AsRows, Add;
    AsRowsPush(probes, p);
    SumPush(AsRows(probes), AsRow(p), m, cutoff);
  }

  lemma CountsPush(c: Counts, probes: seq<ProbeRow>, p: ProbeRow, m: MonitorId, cutoff: Option<Time>)
    requires CountsThem(c, probes, m, cutoff)
    ensures CountsThem(Add(c, Share(AsRow(p), m, cutoff)), probes + [p], m, cutoff)
  {
    hide Where;
    WherePush(probes, p, Checks(m, cutoff));
    WherePush(probes, p, Successes(m, cutoff));
    WherePush(probes, p, InMaintenance(m, cutoff));
    WherePush(probes, p, FailedInMaintenance(m, cutoff));
    WherePush(probes, p, ObserverDown(m, cutoff));
  }

  lemma FirstPush(first: Option<Time>, probes: seq<ProbeRow>, row: ProbeRow, p: ProbeRow -> bool)
    requires FirstOf(first, probes, p)
    ensures FirstOf(Earliest(first, if p(row) then Some(row.at) else None), probes + [row], p)
  {
    var all, n := probes + [row], |probes|;
    assert all[n] == row && forall k :: 0 <= k < n ==> all[k] == probes[k];
  }

  lemma LastPush(last: Option<Time>, probes: seq<ProbeRow>, row: ProbeRow, p: ProbeRow -> bool)
    requires LastOf(last, probes, p)
    ensures LastOf(Latest(last, if p(row) then Some(row.at) else None), probes + [row], p)
  {
    var all, n := probes + [row], |probes|;
    assert all[n] == row && forall k :: 0 <= k < n ==> all[k] == probes[k];
  }

  lemma SpanPush(c: Counts, probes: seq<ProbeRow>, p: ProbeRow, m: MonitorId, cutoff: Option<Time>)
    requires SpansThem(c, probes, m, cutoff)
    ensures SpansThem(Add(c, Share(AsRow(p), m, cutoff)), probes + [p], m, cutoff)
  {
    var share := Share(AsRow(p), m, cutoff);
    assert share.firstReportable == share.lastReportable == if Checks(m, cutoff)(p) then Some(p.at) else None;
    hide Share, FirstOf, LastOf;
    FirstPush(c.firstReportable, probes, p, Checks(m, cutoff));
    LastPush(c.lastReportable, probes, p, Checks(m, cutoff));
  }

  lemma {:induction false} ExactCounts(probes: seq<ProbeRow>, m: MonitorId, cutoff: Option<Time>)
    ensures CountsThem(Exact(probes, m, cutoff), probes, m, cutoff)
    ensures SpansThem(Exact(probes, m, cutoff), probes, m, cutoff)
  {
    if probes == [] {
      WhereNone(Checks(m, cutoff));
      WhereNone(Successes(m, cutoff));
      WhereNone(InMaintenance(m, cutoff));
      WhereNone(FailedInMaintenance(m, cutoff));
      WhereNone(ObserverDown(m, cutoff));
      assert AsRows(probes) == [];
    } else {
      var n := |probes| - 1;
      assert probes == probes[..n] + [probes[n]];
      hide CountsThem, SpansThem, Exact, Add, Share;
      ExactCounts(probes[..n], m, cutoff);
      ExactPush(probes[..n], probes[n], m, cutoff);
      CountsPush(Exact(probes[..n], m, cutoff), probes[..n], probes[n], m, cutoff);
      SpanPush(Exact(probes[..n], m, cutoff), probes[..n], probes[n], m, cutoff);
    }
  }

  /** No pass has pruned daily rollups from the cutoff on. */
  ghost predicate NothingPruned(ops: seq<Op>, cutoff: Option<Time>) {
    forall k :: 0 <= k < |ops| && ops[k].Retained? && !ops[k].policy.dailyRollups.forever ==>
      cutoff.Some? && cutoff.value >= ops[k].now - ops[k].policy.dailyRollups.duration
  }

  lemma {:induction false} NothingPrunedBeyond(ops: seq<Op>, cutoff: Option<Time>)
    requires NothingPruned(ops, cutoff)
    ensures Beyond(cutoff, PrunedBefore(ops))
  {
    if ops != [] {
      var n := |ops| - 1;
      assert NothingPruned(ops[..n], cutoff);
      NothingPrunedBeyond(ops[..n], cutoff);
      assert ops[n] == ops[|ops| - 1];
    }
  }

  /** After any probes and any retention passes, a window that starts at a midnight, or nowhere, and from
      where nothing was pruned reports how many saved probes were checks, successes, in maintenance and
      failed there, and when the first and the last check was made. */
  lemma WindowReportsProbes(ops: seq<Op>, m: MonitorId, cutoff: Option<Time>)
    requires (cutoff.Some? ==> cutoff.value % DAY == 0) && NothingPruned(ops, cutoff)
    ensures CountsThem(Window(Run(ops), m, cutoff), Saved(ops), m, cutoff)
    ensures SpansThem(Window(Run(ops), m, cutoff), Saved(ops), m, cutoff)
  {
    assert Aligned(cutoff);
    NothingPrunedBeyond(ops, cutoff);
    WindowsConserved(ops, m, cutoff);
    ExactCounts(Saved(ops), m, cutoff);
    hide *;
  }

  /** A window from any moment reports no fewer checks and successes than there were from the next UTC
      midnight and no more than there were from that moment. */
  lemma WindowReportsBetween(ops: seq<Op>, m: MonitorId, c: Time, midnight: Time)
    requires midnight % DAY == 0 && c <= midnight < c + DAY && NothingPruned(ops, Some(midnight))
    ensures var late, early, w := Some(midnight), Some(c), Window(Run(ops), m, Some(c));
      && |Where(Saved(ops), Checks(m, late))| <= w.total <= |Where(Saved(ops), Checks(m, early))|
      && |Where(Saved(ops), Successes(m, late))| <= w.successful <= |Where(Saved(ops), Successes(m, early))|
      && |Where(Saved(ops), InMaintenance(m, late))| <= w.maintenance <= |Where(Saved(ops), InMaintenance(m, early))|
      && |Where(Saved(ops), FailedInMaintenance(m, late))| <= w.maintenanceFailed
      && w.maintenanceFailed <= |Where(Saved(ops), FailedInMaintenance(m, early))|
  {
    OneMidnight(c, midnight);
    NothingPrunedBeyond(ops, Some(midnight));
    WindowBetweenMidnights(ops, m, c);
    ExactCounts(Saved(ops), m, Some(c));
    ExactCounts(Saved(ops), m, Some(midnight));
    hide Where, Window, Exact, Saved, Run, NextMidnight, SpansThem, NothingPruned;
  }

  lemma OneMidnight(c: Time, midnight: Time)
    requires midnight % DAY == 0 && c <= midnight < c + DAY
    ensures midnight == NextMidnight(c)
  {
  }
}
