/** Runs of equal outcomes: compacted step by step into a table, and listed back as one history. */
module OutcomeRuns {
  import opened Basics
  import opened Sequences
  import opened Storage
  import opened Rollups

  datatype RunRow = RunRow(monitor: MonitorId, startedAt: Time, endedAt: Time, ok: bool, probeCount: int)

  function Single(p: ProbeRow): RunRow {
    RunRow(p.monitor, p.at, p.at, p.ok, 1)
  }

  function Singles(probes: seq<ProbeRow>): (runs: seq<RunRow>)
    ensures |runs| == |probes|
    ensures forall k :: 0 <= k < |probes| ==> runs[k] == Single(probes[k])
  {
    seq(|probes|, k requires 0 <= k < |probes| => Single(probes[k]))
  }

  // ----- run-length encoding of one monitor's history -----

  function Extended(run: RunRow, more: RunRow): RunRow {
    run.(endedAt := more.endedAt, probeCount := run.probeCount + more.probeCount)
  }

  function Merge(runs: seq<RunRow>, run: RunRow): seq<RunRow> {
    var last := |runs| - 1;
    if runs != [] && runs[last].ok == run.ok then runs[last := Extended(runs[last], run)] else runs + [run]
  }

  function Collapse(start: seq<RunRow>, runs: seq<RunRow>): seq<RunRow> {
    if runs == [] then start else Merge(Collapse(start, runs[..|runs| - 1]), runs[|runs| - 1])
  }

  function Rle(history: seq<ProbeRow>): seq<RunRow> {
    Collapse([], Singles(history))
  }

  /** The maximal run-length encoding, said without computing it: consecutive blocks of one outcome
      that cover the history, and neighbours that differ. */
  ghost predicate Encodes(runs: seq<RunRow>, h: seq<ProbeRow>) {
    if runs == [] then h == []
    else
      var last := runs[|runs| - 1];
      && 0 < last.probeCount <= |h|
      && var n := |h| - last.probeCount;
         && Encodes(runs[..|runs| - 1], h[..n])
         && (forall k :: n <= k < |h| ==> h[k].ok == last.ok && h[k].monitor == last.monitor)
         && last.startedAt == h[n].at && last.endedAt == h[|h| - 1].at
         && (|runs| > 1 ==> runs[|runs| - 2].ok != last.ok)
  }

  lemma RlePush(h: seq<ProbeRow>, p: ProbeRow)
    ensures Rle(h + [p]) == Merge(Rle(h), Single(p))
  {
    assert Singles(h + [p])[..|h|] == Singles(h);
  }

  lemma {:induction false} RleEncodes(h: seq<ProbeRow>)
    requires forall i, j :: 0 <= i < j < |h| ==> h[i].monitor == h[j].monitor
    ensures Encodes(Rle(h), h)
  {
    if h != [] {
      var n := |h| - 1;
      assert h == h[..n] + [h[n]];
      RleEncodes(h[..n]);
      RlePush(h[..n], h[n]);
      MergeEncodes(Rle(h[..n]), h[..n], h[n]);
    }
  }

  lemma ExtendEncodes(runs: seq<RunRow>, h: seq<ProbeRow>, p: ProbeRow)
    requires Encodes(runs, h) && h != [] && h[|h| - 1].monitor == p.monitor
    requires runs != [] && runs[|runs| - 1].ok == p.ok
    ensures Encodes(runs[|runs| - 1 := Extended(runs[|runs| - 1], Single(p))], h + [p])
  {
    var last, all := |runs| - 1, h + [p];
    var n := |h| - runs[last].probeCount;
    assert runs[last := Extended(runs[last], Single(p))][..last] == runs[..last];
    assert all[..n] == h[..n];
  }

  lemma PushEncodes(runs: seq<RunRow>, h: seq<ProbeRow>, p: ProbeRow)
    requires Encodes(runs, h) && (runs == [] || runs[|runs| - 1].ok != p.ok)
    ensures Encodes(runs + [Single(p)], h + [p])
  {
    assert (runs + [Single(p)])[..|runs|] == runs && (h + [p])[..|h|] == h;
  }

  lemma MergeEncodes(runs: seq<RunRow>, h: seq<ProbeRow>, p: ProbeRow)
    requires Encodes(runs, h) && (h != [] ==> h[|h| - 1].monitor == p.monitor)
    ensures Encodes(Merge(runs, Single(p)), h + [p])
  {
    assert runs != [] ==> h != [];
    hide Encodes;
    if runs != [] && runs[|runs| - 1].ok == p.ok {
      ExtendEncodes(runs, h, p);
    } else {
      PushEncodes(runs, h, p);
    }
  }

  /** There is only one such encoding. */
  lemma {:induction false} EncodingUnique(a: seq<RunRow>, b: seq<RunRow>, h: seq<ProbeRow>)
    requires Encodes(a, h) && Encodes(b, h)
    ensures a == b
    decreases |a|
  {
    if a != [] && b != [] {
      var x, y := a[|a| - 1], b[|b| - 1];
      LastBlockLongest(a, b, h);
      LastBlockLongest(b, a, h);
      assert x.ok == h[|h| - 1].ok == y.ok && x.monitor == h[|h| - 1].monitor == y.monitor;
      EncodingUnique(a[..|a| - 1], b[..|b| - 1], h[..|h| - x.probeCount]);
      FrontAndLast(a, b);
    }
  }

  lemma {:induction false} LastBlockLongest(a: seq<RunRow>, b: seq<RunRow>, h: seq<ProbeRow>)
    requires Encodes(a, h) && Encodes(b, h) && a != [] && b != []
    ensures b[|b| - 1].probeCount <= a[|a| - 1].probeCount
  {
    var x, y := a[|a| - 1], b[|b| - 1];
    var n := |h| - x.probeCount;
    assert x.ok == h[|h| - 1].ok == y.ok;
    if n > 0 {
      var front := a[..|a| - 1];
      assert Encodes(front, h[..n]);
      assert front != [];
      assert h[..n][n - 1].ok == front[|front| - 1].ok;
      assert h[n - 1].ok != y.ok;
    }
  }

  // ----- times of a history and of its runs -----

  function ProbeBefore(): (ProbeRow, ProbeRow) -> bool {
    (a: ProbeRow, b: ProbeRow) => a.at < b.at
  }

  function StartsBefore(): (RunRow, RunRow) -> bool {
    (a: RunRow, b: RunRow) => a.startedAt < b.startedAt
  }

  /** The same, equal times allowed. */
  function ProbeNoLater(): (ProbeRow, ProbeRow) -> bool {
    (a: ProbeRow, b: ProbeRow) => a.at <= b.at
  }

  function StartsNoLater(): (RunRow, RunRow) -> bool {
    (a: RunRow, b: RunRow) => a.startedAt <= b.startedAt
  }

  lemma StrictlyNoLater(h: seq<ProbeRow>)
    requires SortedBy(ProbeBefore(), h)
    ensures SortedBy(ProbeNoLater(), h)
  {
    forall i, j | 0 <= i < j < |h| ensures ProbeNoLater()(h[i], h[j]) {
      assert ProbeBefore()(h[i], h[j]);
    }
  }

  /** Runs of a strictly ordered history start at its probes, in strict order. */
  lemma {:induction false} RleStarts(h: seq<ProbeRow>)
    requires SortedBy(ProbeBefore(), h)
    ensures SortedBy(StartsBefore(), Rle(h))
    ensures h != [] ==> forall r :: r in Rle(h) ==> r.startedAt <= h[|h| - 1].at
    ensures Rle(h) == [] <==> h == []
  {
    if h != [] {
      var n := |h| - 1;
      var before, p := Rle(h[..n]), h[n];
      assert h == h[..n] + [p];
      RleStarts(h[..n]);
      RlePush(h[..n], p);
      assert n > 0 ==> ProbeBefore()(h[n - 1], p);
      forall r | r in before ensures r.startedAt < p.at { }
    }
  }

  lemma {:induction false} RleStartsInOrder(h: seq<ProbeRow>)
    requires SortedBy(ProbeNoLater(), h)
    ensures SortedBy(StartsNoLater(), Rle(h))
    ensures h != [] ==> forall r :: r in Rle(h) ==> r.startedAt <= h[|h| - 1].at
  {
    if h != [] {
      var n := |h| - 1;
      var before, p := Rle(h[..n]), h[n];
      assert h == h[..n] + [p];
      RleStartsInOrder(h[..n]);
      RlePush(h[..n], p);
      assert n > 0 ==> ProbeNoLater()(h[n - 1], p);
      assert n == 0 ==> before == [];
      forall r | r in before ensures r.startedAt <= p.at { }
    }
  }

  // ----- the table of compacted runs -----

  function RunOf(m: MonitorId): RunRow -> bool {
    (r: RunRow) => r.monitor == m
  }

  function RunsOf(runs: seq<RunRow>, m: MonitorId): seq<RunRow> {
    Select(RunOf(m), runs)
  }

  /** The monitor's last run, by start and then by id. */
  function LatestRun(runs: seq<RunRow>, m: MonitorId): (r: Option<nat>)
    ensures r.Some? ==> r.value < |runs| && runs[r.value].monitor == m
    ensures forall k :: 0 <= k < |runs| && runs[k].monitor == m ==>
      r.Some? && (runs[k].startedAt < runs[r.value].startedAt
                  || (runs[k].startedAt == runs[r.value].startedAt && k <= r.value))
  {
    if runs == [] then None
    else
      var n := |runs| - 1;
      var best := LatestRun(runs[..n], m);
      if runs[n].monitor == m && (best.None? || runs[best.value].startedAt <= runs[n].startedAt) then Some(n) else best
  }

  function AppendOutcomeRun(runs: seq<RunRow>, p: ProbeRow): seq<RunRow> {
    var last := LatestRun(runs, p.monitor);
    if last.Some? && runs[last.value].ok == p.ok then
      runs[last.value := runs[last.value].(endedAt := p.at, probeCount := runs[last.value].probeCount + 1)]
    else runs + [Single(p)]
  }

  function AppendAll(runs: seq<RunRow>, probes: seq<ProbeRow>): seq<RunRow> {
    if probes == [] then runs
    else AppendOutcomeRun(AppendAll(runs, probes[..|probes| - 1]), probes[|probes| - 1])
  }

  lemma LatestRunIsLast(runs: seq<RunRow>, m: MonitorId)
    requires SortedBy(StartsNoLater(), RunsOf(runs, m))
    ensures LatestRun(runs, m).None? ==> RunsOf(runs, m) == []
    ensures LatestRun(runs, m).Some? ==>
      var i := LatestRun(runs, m).value;
      RunsOf(runs, m) == RunsOf(runs[..i], m) + [runs[i]] && RunsOf(runs[i + 1..], m) == []
  {
    hide Select, LatestRun, SortedBy;
    var last := LatestRun(runs, m);
    if last.None? {
      SelectNone(RunOf(m), runs);
    } else {
      var i := last.value;
      forall k | i < k < |runs| ensures runs[k].monitor != m {
        if runs[k].monitor == m {
          SelectedInOrder(RunOf(m), StartsNoLater(), runs, i, k);
        }
      }
      SelectNone(RunOf(m), runs[i + 1..]);
      SelectSplit(RunOf(m), runs, i);
    }
  }

  lemma ExtendSeen(runs: seq<RunRow>, i: nat, p: ProbeRow, m: MonitorId)
    requires i < |runs| && runs[i].monitor == p.monitor
    requires m == p.monitor ==>
      RunsOf(runs, m) == RunsOf(runs[..i], m) + [runs[i]] && RunsOf(runs[i + 1..], m) == []
    ensures RunsOf(runs[i := Extended(runs[i], Single(p))], m)
            == if m == p.monitor then RunsOf(runs[..i], m) + [Extended(runs[i], Single(p))] else RunsOf(runs, m)
  {
    hide Select;
    SelectUpdate(RunOf(m), runs, i, Extended(runs[i], Single(p)));
    SelectUpdate(RunOf(m), runs, i, runs[i]);
    assert runs[i := runs[i]] == runs;
  }

  lemma MergeLast(before: seq<RunRow>, run: RunRow, more: RunRow)
    requires run.ok == more.ok
    ensures Merge(before + [run], more) == before + [Extended(run, more)]
  {
  }

  /** One appended probe, seen by each monitor: a merge into its own runs, nothing to others'. */
  lemma AppendMerges(runs: seq<RunRow>, p: ProbeRow, m: MonitorId)
    requires m == p.monitor ==> SortedBy(StartsNoLater(), RunsOf(runs, m))
    ensures RunsOf(AppendOutcomeRun(runs, p), m)
            == if m == p.monitor then Merge(RunsOf(runs, m), Single(p)) else RunsOf(runs, m)
  {
    hide Select, LatestRun, SortedBy;
    var last := LatestRun(runs, p.monitor);
    if m == p.monitor { LatestRunIsLast(runs, m); }
    if last.Some? && runs[last.value].ok == p.ok {
      var i := last.value;
      ExtendSeen(runs, i, p, m);
      if m == p.monitor {
        MergeLast(RunsOf(runs[..i], m), runs[i], Single(p));
      }
    } else {
      SelectPush(RunOf(m), runs, Single(p));
    }
  }

  function ProbeOf(m: MonitorId): ProbeRow -> bool {
    (p: ProbeRow) => p.monitor == m
  }

  lemma AppendOne(runs: seq<RunRow>, p: ProbeRow, m: MonitorId, done: seq<ProbeRow>)
    requires RunsOf(runs, m) == Rle(done) && SortedBy(ProbeNoLater(), done)
    ensures RunsOf(AppendOutcomeRun(runs, p), m) == Rle(if p.monitor == m then done + [p] else done)
  {
    hide Rle, RunsOf, AppendOutcomeRun, SortedBy;
    RleStartsInOrder(done);
    AppendMerges(runs, p, m);
    RlePush(done, p);
  }

  /** Compacting more probes of a history continues its encoding. */
  lemma {:induction false} AppendContinues(runs: seq<RunRow>, probes: seq<ProbeRow>, m: MonitorId, done: seq<ProbeRow>)
    requires RunsOf(runs, m) == Rle(done)
    requires SortedBy(ProbeNoLater(), done + Select(ProbeOf(m), probes))
    ensures RunsOf(AppendAll(runs, probes), m) == Rle(done + Select(ProbeOf(m), probes))
  {
    hide Rle, RunsOf, Select, AppendOutcomeRun, SortedBy;
    if probes == [] {
      SelectNone(ProbeOf(m), probes);
      assert done + [] == done;
    } else {
      var n := |probes| - 1;
      var front, p := probes[..n], probes[n];
      var soFar, all := done + Select(ProbeOf(m), front), done + Select(ProbeOf(m), probes);
      assert probes == front + [p];
      SelectPush(ProbeOf(m), front, p);
      assert all == if p.monitor == m then soFar + [p] else soFar;
      SortedPart(ProbeNoLater(), all, 0, |soFar|);
      assert all[..|soFar|] == soFar;
      AppendContinues(runs, front, m, done);
      AppendOne(AppendAll(runs, front), p, m, soFar);
    }
  }

  // ----- compaction of the raw table -----

  function Compactable(cutoff: Time): ProbeRow -> bool {
    (p: ProbeRow) => p.at < cutoff && Reportable(p)
  }

  function KeptRaw(cutoff: Time): ProbeRow -> bool {
    (p: ProbeRow) => p.at >= cutoff
  }

  function RawOrder(): (ProbeRow, ProbeRow) -> bool {
    (a: ProbeRow, b: ProbeRow) => a.monitor < b.monitor || (a.monitor == b.monitor && a.at <= b.at)
  }

  function CompactRawOutcomeRuns(runs: seq<RunRow>, raw: seq<ProbeRow>, cutoff: Time): seq<RunRow> {
    AppendAll(runs, Sorted(RawOrder(), Select(Compactable(cutoff), raw)))
  }

  function ReportableOf(m: MonitorId): ProbeRow -> bool {
    (p: ProbeRow) => p.monitor == m && Reportable(p)
  }

  ghost predicate TracksAt(runs: seq<RunRow>, raw: seq<ProbeRow>, m: MonitorId, h: seq<ProbeRow>, n: nat) {
    n <= |h| && RunsOf(runs, m) == Rle(h[..n]) && Select(ReportableOf(m), raw) == h[n..]
  }

  /** A monitor's reportable history, the first part of it compacted and the rest still raw. */
  ghost predicate Tracks(runs: seq<RunRow>, raw: seq<ProbeRow>, m: MonitorId, h: seq<ProbeRow>) {
    exists n: nat :: TracksAt(runs, raw, m, h, n)
  }

  lemma {:induction false} SplitAtCutoff(h: seq<ProbeRow>, cutoff: Time)
    requires SortedBy(ProbeNoLater(), h)
    ensures Select(Earlier(cutoff), h) + Select(KeptRaw(cutoff), h) == h
  {
    if h != [] {
      var n := |h| - 1;
      var front, p := h[..n], h[n];
      assert h == front + [p];
      SelectPush(Earlier(cutoff), front, p);
      SelectPush(KeptRaw(cutoff), front, p);
      if p.at < cutoff {
        forall k | 0 <= k < n ensures front[k].at < cutoff { assert ProbeNoLater()(h[k], h[n]); }
        SelectAll(Earlier(cutoff), front);
        SelectNone(KeptRaw(cutoff), front);
      } else {
        SplitAtCutoff(front, cutoff);
      }
    }
  }

  function Earlier(cutoff: Time): ProbeRow -> bool {
    (p: ProbeRow) => p.at < cutoff
  }

  function ReportableEarlier(m: MonitorId, cutoff: Time): ProbeRow -> bool {
    (p: ProbeRow) => p.monitor == m && Reportable(p) && p.at < cutoff
  }

  function ReportableKept(m: MonitorId, cutoff: Time): ProbeRow -> bool {
    (p: ProbeRow) => p.monitor == m && Reportable(p) && p.at >= cutoff
  }

  /** What one compaction takes from a monitor and what it leaves. */
  lemma CompactedAndKept(raw: seq<ProbeRow>, m: MonitorId, cutoff: Time)
    requires SortedBy(ProbeNoLater(), Select(ReportableOf(m), raw))
    ensures var mine := Select(ReportableOf(m), raw);
      && Select(ProbeOf(m), Sorted(RawOrder(), Select(Compactable(cutoff), raw))) == Select(Earlier(cutoff), mine)
      && Select(ReportableOf(m), Select(KeptRaw(cutoff), raw)) == Select(KeptRaw(cutoff), mine)
  {
    var taken := Select(Compactable(cutoff), raw);
    forall i, j | 0 <= i < j < |raw| && Compactable(cutoff)(raw[i]) && Compactable(cutoff)(raw[j])
      ensures InOrder(m)(raw[i], raw[j])
    {
      if raw[i].monitor == m && raw[j].monitor == m {
        SelectedInOrder(ReportableOf(m), ProbeNoLater(), raw, i, j);
        assert ProbeNoLater()(raw[i], raw[j]);
      }
    }
    SelectKeepsOrder(Compactable(cutoff), InOrder(m), raw);
    forall i, j | 0 <= i < j < |taken| && ProbeOf(m)(taken[i]) && ProbeOf(m)(taken[j])
      ensures RawOrder()(taken[i], taken[j])
    {
      assert InOrder(m)(taken[i], taken[j]);
    }
    SelectSorted(ProbeOf(m), RawOrder(), taken);
    SelectTwice(ProbeOf(m), Compactable(cutoff), ReportableEarlier(m, cutoff), raw);
    SelectTwice(Earlier(cutoff), ReportableOf(m), ReportableEarlier(m, cutoff), raw);
    SelectTwice(ReportableOf(m), KeptRaw(cutoff), ReportableKept(m, cutoff), raw);
    SelectTwice(KeptRaw(cutoff), ReportableOf(m), ReportableKept(m, cutoff), raw);
  }

  function InOrder(m: MonitorId): (ProbeRow, ProbeRow) -> bool {
    (a: ProbeRow, b: ProbeRow) => a.monitor == m && b.monitor == m ==> a.at <= b.at
  }

  lemma Resplit<T>(h: seq<T>, n: nat, taken: seq<T>, kept: seq<T>)
    requires n <= |h| && h[n..] == taken + kept
    ensures n + |taken| <= |h| && h[..n + |taken|] == h[..n] + taken && h[n + |taken|..] == kept
  {
    assert h == h[..n] + taken + kept;
  }

  lemma CompactionTracksAt(
    runs: seq<RunRow>, raw: seq<ProbeRow>, m: MonitorId, h: seq<ProbeRow>, cutoff: Time, n: nat) returns (k: nat)
    requires SortedBy(ProbeNoLater(), h) && TracksAt(runs, raw, m, h, n)
    ensures TracksAt(CompactRawOutcomeRuns(runs, raw, cutoff), Select(KeptRaw(cutoff), raw), m, h, k)
  {
    hide Rle, Select, AppendAll, SortedBy;
    SortedPart(ProbeNoLater(), h, n, |h|);
    CompactedAndKept(raw, m, cutoff);
    SplitAtCutoff(h[n..], cutoff);
    var taken, kept := Select(Earlier(cutoff), h[n..]), Select(KeptRaw(cutoff), h[n..]);
    k := n + |taken|;
    Resplit(h, n, taken, kept);
    SortedPart(ProbeNoLater(), h, 0, k);
    AppendContinues(runs, Sorted(RawOrder(), Select(Compactable(cutoff), raw)), m, h[..n]);
  }

  /** Compaction and the DELETE after it keep every monitor's history tracked. */
  lemma CompactionTracks(runs: seq<RunRow>, raw: seq<ProbeRow>, m: MonitorId, h: seq<ProbeRow>, cutoff: Time)
    requires SortedBy(ProbeNoLater(), h) && Tracks(runs, raw, m, h)
    ensures Tracks(CompactRawOutcomeRuns(runs, raw, cutoff), Select(KeptRaw(cutoff), raw), m, h)
  {
    var n: nat :| TracksAt(runs, raw, m, h, n);
    var k := CompactionTracksAt(runs, raw, m, h, cutoff, n);
  }
}
