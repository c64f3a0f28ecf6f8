/** Retention: raw probes into outcome runs and minute rollups, those into hours, those into days. */
module Compaction {
  import opened Basics
  import opened Sequences
  import opened Storage
  import opened Rollups
  import opened OutcomeRuns

  datatype Tables = Tables(
    raw: seq<ProbeRow>, runs: seq<RunRow>,
    minute: seq<RollupRow>, hourly: seq<RollupRow>, daily: seq<RollupRow>)

  const NO_PROBES := Tables([], [], [], [], [])

  datatype Retention = Retention(forever: bool, duration: int)

  datatype Policy = Policy(probeResults: Retention, minuteRollups: Retention, hourlyRollups: Retention,
      dailyRollups: Retention)

  // ----- the four steps of one retention pass -----

  function PruneRaw(t: Tables, cutoff: Time): Tables {
    t.(runs := CompactRawOutcomeRuns(t.runs, t.raw, cutoff),
       minute := RollupInto(t.minute, AsRows(t.raw), MinuteBucket(), cutoff),
       raw := Select(KeptRaw(cutoff), t.raw))
  }

  function PruneMinute(t: Tables, cutoff: Time): Tables {
    t.(hourly := RollupInto(t.hourly, t.minute, HourlyBucket(), cutoff), minute := Select(NotBefore(cutoff), t.minute))
  }

  function PruneHourly(t: Tables, cutoff: Time): Tables {
    t.(daily := RollupInto(t.daily, t.hourly, DailyBucket(), cutoff), hourly := Select(NotBefore(cutoff), t.hourly))
  }

  function EndsNotBefore(cutoff: Time): RunRow -> bool {
    (r: RunRow) => r.endedAt >= cutoff
  }

  function PruneDaily(t: Tables, cutoff: Time): Tables {
    t.(daily := Select(NotBefore(cutoff), t.daily), runs := Select(EndsNotBefore(cutoff), t.runs))
  }

  function RollupAndPrune(t: Tables, policy: Policy, now: Time): Tables {
    var t1 := if policy.probeResults.forever then t else PruneRaw(t, now - policy.probeResults.duration);
    var t2 := if policy.minuteRollups.forever then t1 else PruneMinute(t1, now - policy.minuteRollups.duration);
    var t3 := if policy.hourlyRollups.forever then t2 else PruneHourly(t2, now - policy.hourlyRollups.duration);
    if policy.dailyRollups.forever then t3 else PruneDaily(t3, now - policy.dailyRollups.duration)
  }

  // ----- the store, with the loops its queries stand for -----

  class ProbeStore {
    var raw: seq<ProbeRow>
    var runs: seq<RunRow>
    var minute: seq<RollupRow>
    var hourly: seq<RollupRow>
    var daily: seq<RollupRow>

    ghost function Contents(): Tables
      reads this
    {
      Tables(raw, runs, minute, hourly, daily)
    }

    constructor ()
      ensures Contents() == NO_PROBES
    {
      raw, runs, minute, hourly, daily := [], [], [], [], [];
    }

    method SaveProbeResult(p: ProbeRow)
      modifies this`raw
      ensures raw == old(raw) + [p]
    {
      raw := raw + [p];
    }

    method AppendRun(p: ProbeRow)
      modifies this`runs
      ensures runs == AppendOutcomeRun(old(runs), p)
    {
      var last := LatestRun(runs, p.monitor);
      if last.Some? && runs[last.value].ok == p.ok {
        runs := runs[last.value := runs[last.value].(endedAt := p.at, probeCount := runs[last.value].probeCount + 1)];
      } else {
        runs := runs + [Single(p)];
      }
    }

    method CompactRaw(cutoff: Time)
      modifies this`runs
      ensures runs == CompactRawOutcomeRuns(old(runs), raw, cutoff)
    {
      var rows := Sorted(RawOrder(), Select(Compactable(cutoff), raw));
      for k := 0 to |rows|
        invariant runs == AppendAll(old(runs), rows[..k])
      {
        assert rows[..k + 1][..k] == rows[..k];
        AppendRun(rows[k]);
      }
      assert rows[..|rows|] == rows;
    }

    method RollupTable(target: seq<RollupRow>, source: seq<RollupRow>, bucketOf: Time -> Time, cutoff: Time)
      returns (r: seq<RollupRow>)
      ensures r == RollupInto(target, source, bucketOf, cutoff)
    {
      r := target;
      for k := 0 to |source|
        invariant r == RollupInto(target, source[..k], bucketOf, cutoff)
      {
        assert source[..k + 1][..k] == source[..k];
        if source[k].bucket < cutoff {
          r := Upsert(r, Rebucketed(source[k], bucketOf));
        }
      }
      assert source[..|source|] == source;
    }

    method CompactAndRollRaw(cutoff: Time)
      modifies this
      ensures Contents() == PruneRaw(old(Contents()), cutoff)
    {
      CompactRaw(cutoff);
      minute := RollupTable(minute, AsRows(raw), MinuteBucket(), cutoff);
      raw := Select(KeptRaw(cutoff), raw);
    }

    method RollMinutes(cutoff: Time)
      modifies this
      ensures Contents() == PruneMinute(old(Contents()), cutoff)
    {
      hourly := RollupTable(hourly, minute, HourlyBucket(), cutoff);
      minute := Select(NotBefore(cutoff), minute);
    }

    method RollHours(cutoff: Time)
      modifies this
      ensures Contents() == PruneHourly(old(Contents()), cutoff)
    {
      daily := RollupTable(daily, hourly, DailyBucket(), cutoff);
      hourly := Select(NotBefore(cutoff), hourly);
    }

    method RollupAndPruneProbeResults(policy: Policy, now: Time)
      modifies this
      ensures Contents() == RollupAndPrune(old(Contents()), policy, now)
    {
      hide PruneRaw, PruneMinute, PruneHourly, Select;
      if !policy.probeResults.forever {
        CompactAndRollRaw(now - policy.probeResults.duration);
      }
      if !policy.minuteRollups.forever {
        RollMinutes(now - policy.minuteRollups.duration);
      }
      if !policy.hourlyRollups.forever {
        RollHours(now - policy.hourlyRollups.duration);
      }
      if !policy.dailyRollups.forever {
        var cutoff := now - policy.dailyRollups.duration;
        daily := Select(NotBefore(cutoff), daily);
        runs := Select(EndsNotBefore(cutoff), runs);
      }
    }
  }

  // ----- runs of probes and retention passes -----

  datatype Op = Probed(row: ProbeRow) | Retained(policy: Policy, now: Time)

  function Apply(t: Tables, op: Op): Tables {
    match op
    case Probed(p) => t.(raw := t.raw + [p])
    case Retained(policy, now) => RollupAndPrune(t, policy, now)
  }

  function Run(ops: seq<Op>): Tables {
    if ops == [] then NO_PROBES else Apply(Run(ops[..|ops| - 1]), ops[|ops| - 1])
  }

  /** Every probe ever saved. */
  function Saved(ops: seq<Op>): seq<ProbeRow> {
    if ops == [] then []
    else Saved(ops[..|ops| - 1]) + match ops[|ops| - 1] case Probed(p) => [p] case Retained(_, _) => []
  }

  /** The latest time daily rollups were pruned up to; nothing when they are kept forever. */
  function PrunedBefore(ops: seq<Op>): Option<Time> {
    if ops == [] then None
    else
      Latest(PrunedBefore(ops[..|ops| - 1]),
             match ops[|ops| - 1]
             case Probed(_) => None
             case Retained(policy, now) =>
               if policy.dailyRollups.forever then None else Some(now - policy.dailyRollups.duration))
  }

  // ----- window counts -----

  function Four(a: Counts, b: Counts, c: Counts, d: Counts): Counts {
    Add(Add(a, b), Add(c, d))
  }

  /** What the uptime query reports for a monitor: the union of the four tables, from the cutoff on. */
  function Window(t: Tables, m: MonitorId, cutoff: Option<Time>): Counts {
    Four(Sum(AsRows(t.raw), m, cutoff), Sum(t.minute, m, cutoff), Sum(t.hourly, m, cutoff), Sum(t.daily, m, cutoff))
  }

  /** The same counts taken from the probes themselves. */
  function Exact(probes: seq<ProbeRow>, m: MonitorId, cutoff: Option<Time>): Counts {
    Sum(AsRows(probes), m, cutoff)
  }

  ghost predicate SoundCounts(t: Tables) {
    AllNonNegative(t.minute) && AllNonNegative(t.hourly) && AllNonNegative(t.daily)
  }

  /** No count grows, and at aligned boundaries no count changes. */
  ghost predicate Conserves(after: Counts, before: Counts, cutoff: Option<Time>) {
    AtMost(after, before) && (Aligned(cutoff) ==> after == before)
  }

  lemma FourFirst(a: Counts, b: Counts, c: Counts, d: Counts, a': Counts, b': Counts, cutoff: Option<Time>)
    requires Conserves(Add(b', a'), Add(b, a), cutoff)
    ensures Conserves(Four(a', b', c, d), Four(a, b, c, d), cutoff)
  {
    AddCommutes(a, b);
    AddCommutes(a', b');
    hide Add;
    AtMostSelf(Add(c, d));
    AtMostAdds(Add(a', b'), Add(a, b), Add(c, d), Add(c, d));
  }

  lemma FourMiddle(a: Counts, b: Counts, c: Counts, d: Counts, b': Counts, c': Counts, cutoff: Option<Time>)
    requires Conserves(Add(c', b'), Add(c, b), cutoff)
    ensures Conserves(Four(a, b', c', d), Four(a, b, c, d), cutoff)
  {
    Rotate(a, b, c, d);
    Rotate(a, b', c', d);
    hide Add;
    AtMostSelf(Add(a, d));
    AtMostAdds(Add(c', b'), Add(c, b), Add(a, d), Add(a, d));
  }

  lemma FourLast(a: Counts, b: Counts, c: Counts, d: Counts, c': Counts, d': Counts, cutoff: Option<Time>)
    requires Conserves(Add(d', c'), Add(d, c), cutoff)
    ensures Conserves(Four(a, b, c', d'), Four(a, b, c, d), cutoff)
  {
    AddCommutes(c, d);
    AddCommutes(c', d');
    hide Add;
    AtMostSelf(Add(a, b));
    AtMostAdds(Add(a, b), Add(a, b), Add(c', d'), Add(c, d));
  }

  lemma AddCommutes(a: Counts, b: Counts)
    ensures Add(a, b) == Add(b, a)
  {
  }

  lemma Rotate(a: Counts, b: Counts, c: Counts, d: Counts)
    ensures Four(a, b, c, d) == Add(Add(c, b), Add(a, d))
  {
    AddCommutes(a, b);
    AddCommutes(b, c);
    hide Add;
    Regroup(Add(b, a), c, d);
    Regroup(b, a, c);
    Regroup(Add(b, c), a, d);
  }

  lemma AsRowsPush(raw: seq<ProbeRow>, p: ProbeRow)
    ensures AsRows(raw + [p]) == AsRows(raw) + [AsRow(p)]
  {
  }

  lemma {:induction false} KeptRawRows(raw: seq<ProbeRow>, cutoff: Time)
    ensures AsRows(Select(KeptRaw(cutoff), raw)) == Select(NotBefore(cutoff), AsRows(raw))
  {
    if raw == [] {
      assert AsRows(raw) == [];
    } else {
      var n := |raw| - 1;
      var front, p := raw[..n], raw[n];
      assert raw == front + [p];
      KeptRawRows(front, cutoff);
      assert KeptRaw(cutoff)(p) <==> NotBefore(cutoff)(AsRow(p));
      AsRowsPush(front, p);
      hide Select, AsRow, AsRows;
      SelectPush(KeptRaw(cutoff), front, p);
      SelectPush(NotBefore(cutoff), AsRows(front), AsRow(p));
      AsRowsPush(Select(KeptRaw(cutoff), front), p);
    }
  }

  lemma SelectNonNegative(rows: seq<RollupRow>, cutoff: Time)
    requires AllNonNegative(rows)
    ensures AllNonNegative(Select(NotBefore(cutoff), rows))
  {
    var kept := Select(NotBefore(cutoff), rows);
    forall k | 0 <= k < |kept| ensures NonNegative(kept[k].counts) {
      assert kept[k] in rows;
    }
  }

  lemma PruneRawWindow(t: Tables, before: Time, m: MonitorId, cutoff: Option<Time>)
    requires SoundCounts(t)
    ensures SoundCounts(PruneRaw(t, before))
    ensures Conserves(Window(PruneRaw(t, before), m, cutoff), Window(t, m, cutoff), cutoff)
  {
    hide Add, AtMost, Sum, RollupInto;
    assert AllNonNegative(AsRows(t.raw));
    RollupNonNegative(t.minute, AsRows(t.raw), MinuteBucket(), before);
    MidnightSplitsBuckets(cutoff);
    RollupConserves(t.minute, AsRows(t.raw), MinuteBucket(), before, m, cutoff);
    KeptRawRows(t.raw, before);
    var after := PruneRaw(t, before);
    FourFirst(Sum(AsRows(t.raw), m, cutoff), Sum(t.minute, m, cutoff), Sum(t.hourly, m, cutoff), Sum(t.daily, m,
        cutoff),
              Sum(AsRows(after.raw), m, cutoff), Sum(after.minute, m, cutoff), cutoff);
  }

  lemma PruneMinuteWindow(t: Tables, before: Time, m: MonitorId, cutoff: Option<Time>)
    requires SoundCounts(t)
    ensures SoundCounts(PruneMinute(t, before))
    ensures Conserves(Window(PruneMinute(t, before), m, cutoff), Window(t, m, cutoff), cutoff)
  {
    hide Add, AtMost, Sum, RollupInto;
    RollupNonNegative(t.hourly, t.minute, HourlyBucket(), before);
    SelectNonNegative(t.minute, before);
    MidnightSplitsBuckets(cutoff);
    RollupConserves(t.hourly, t.minute, HourlyBucket(), before, m, cutoff);
    var after := PruneMinute(t, before);
    FourMiddle(Sum(AsRows(t.raw), m, cutoff), Sum(t.minute, m, cutoff), Sum(t.hourly, m, cutoff), Sum(t.daily, m,
        cutoff),
               Sum(after.minute, m, cutoff), Sum(after.hourly, m, cutoff), cutoff);
  }

  lemma PruneHourlyWindow(t: Tables, before: Time, m: MonitorId, cutoff: Option<Time>)
    requires SoundCounts(t)
    ensures SoundCounts(PruneHourly(t, before))
    ensures Conserves(Window(PruneHourly(t, before), m, cutoff), Window(t, m, cutoff), cutoff)
  {
    hide Add, AtMost, Sum, RollupInto;
    RollupNonNegative(t.daily, t.hourly, DailyBucket(), before);
    SelectNonNegative(t.hourly, before);
    MidnightSplitsBuckets(cutoff);
    RollupConserves(t.daily, t.hourly, DailyBucket(), before, m, cutoff);
    var after := PruneHourly(t, before);
    FourLast(Sum(AsRows(t.raw), m, cutoff), Sum(t.minute, m, cutoff), Sum(t.hourly, m, cutoff), Sum(t.daily, m, cutoff),
             Sum(after.hourly, m, cutoff), Sum(after.daily, m, cutoff), cutoff);
  }

  lemma PruneDailyWindow(t: Tables, before: Time, m: MonitorId, cutoff: Option<Time>)
    requires SoundCounts(t)
    ensures SoundCounts(PruneDaily(t, before))
    ensures var after, was := Window(PruneDaily(t, before), m, cutoff), Window(t, m, cutoff);
      AtMost(after, was) && (cutoff.Some? && cutoff.value >= before ==> after == was)
  {
    hide Add, AtMost, Sum;
    SelectNonNegative(t.daily, before);
    PruneSum(t.daily, before, m, cutoff);
    var kept := Sum(PruneDaily(t, before).daily, m, cutoff);
    var front := Add(Sum(AsRows(t.raw), m, cutoff), Sum(t.minute, m, cutoff));
    AtMostSelf(front);
    AtMostSelf(Sum(t.hourly, m, cutoff));
    AtMostAdds(Sum(t.hourly, m, cutoff), Sum(t.hourly, m, cutoff), kept, Sum(t.daily, m, cutoff));
    AtMostAdds(front, front, Add(Sum(t.hourly, m, cutoff), kept), Add(Sum(t.hourly, m, cutoff), Sum(t.daily, m,
        cutoff)));
  }

  /** A window that starts no earlier than anything pruned. */
  ghost predicate Beyond(cutoff: Option<Time>, pruned: Option<Time>) {
    pruned.Some? ==> cutoff.Some? && cutoff.value >= pruned.value
  }

  lemma AtMostTrans(a: Counts, b: Counts, c: Counts)
    requires AtMost(a, b) && AtMost(b, c)
    ensures AtMost(a, c)
  {
  }

  /** One whole pass under any policy. */
  lemma PassWindow(t: Tables, policy: Policy, now: Time, m: MonitorId, cutoff: Option<Time>)
    requires SoundCounts(t)
    ensures SoundCounts(RollupAndPrune(t, policy, now))
    ensures var after, was := Window(RollupAndPrune(t, policy, now), m, cutoff), Window(t, m, cutoff);
      && AtMost(after, was)
      && (Aligned(cutoff)
          && (policy.dailyRollups.forever || (cutoff.Some? && cutoff.value >= now - policy.dailyRollups.duration))
          ==> after == was)
  {
    hide Window, PruneRaw, PruneMinute, PruneHourly, PruneDaily, SoundCounts, AtMost;
    var t1 := if policy.probeResults.forever then t else PruneRaw(t, now - policy.probeResults.duration);
    var t2 := if policy.minuteRollups.forever then t1 else PruneMinute(t1, now - policy.minuteRollups.duration);
    var t3 := if policy.hourlyRollups.forever then t2 else PruneHourly(t2, now - policy.hourlyRollups.duration);
    var w := Window(t, m, cutoff);
    AtMostSelf(w);
    if !policy.probeResults.forever { PruneRawWindow(t, now - policy.probeResults.duration, m, cutoff); }
    if !policy.minuteRollups.forever {
      PruneMinuteWindow(t1, now - policy.minuteRollups.duration, m, cutoff);
      AtMostTrans(Window(t2, m, cutoff), Window(t1, m, cutoff), w);
    }
    if !policy.hourlyRollups.forever {
      PruneHourlyWindow(t2, now - policy.hourlyRollups.duration, m, cutoff);
      AtMostTrans(Window(t3, m, cutoff), Window(t2, m, cutoff), w);
    }
    if !policy.dailyRollups.forever {
      PruneDailyWindow(t3, now - policy.dailyRollups.duration, m, cutoff);
      AtMostTrans(Window(RollupAndPrune(t, policy, now), m, cutoff), Window(t3, m, cutoff), w);
    }
  }

  lemma SaveWindow(t: Tables, p: ProbeRow, m: MonitorId, cutoff: Option<Time>)
    ensures Window(Apply(t, Probed(p)), m, cutoff) == Add(Window(t, m, cutoff), Share(AsRow(p), m, cutoff))
  {
    hide Add;
    assert AsRows(t.raw + [p]) == AsRows(t.raw) + [AsRow(p)];
    SumPush(AsRows(t.raw), AsRow(p), m, cutoff);
    var a, b, share := Sum(AsRows(t.raw), m, cutoff), Sum(t.minute, m, cutoff), Share(AsRow(p), m, cutoff);
    Regroup(a, b, share);
    Regroup(Add(a, b), Add(Sum(t.hourly, m, cutoff), Sum(t.daily, m, cutoff)), share);
  }

  /** One more probe counts alike in the tables and in the record of all probes. */
  lemma SaveCountsAlike(t: Tables, saved: seq<ProbeRow>, p: ProbeRow, m: MonitorId, cutoff: Option<Time>)
    requires SoundCounts(t)
    ensures SoundCounts(Apply(t, Probed(p)))
    ensures AtMost(Window(t, m, cutoff), Exact(saved, m, cutoff))
            ==> AtMost(Window(Apply(t, Probed(p)), m, cutoff), Exact(saved + [p], m, cutoff))
    ensures Window(t, m, cutoff) == Exact(saved, m, cutoff)
            ==> Window(Apply(t, Probed(p)), m, cutoff) == Exact(saved + [p], m, cutoff)
  {
    hide Window, AtMost, Add, Sum, Share, AsRow;
    SaveWindow(t, p, m, cutoff);
    assert AsRows(saved + [p]) == AsRows(saved) + [AsRow(p)];
    SumPush(AsRows(saved), AsRow(p), m, cutoff);
    var share := Share(AsRow(p), m, cutoff);
    AtMostSelf(share);
    if AtMost(Window(t, m, cutoff), Exact(saved, m, cutoff)) {
      AtMostAdds(Window(t, m, cutoff), Exact(saved, m, cutoff), share, share);
    }
  }

  lemma NothingSaved(m: MonitorId, cutoff: Option<Time>)
    ensures SoundCounts(NO_PROBES) && AtMost(Window(NO_PROBES, m, cutoff), Exact([], m, cutoff))
    ensures Window(NO_PROBES, m, cutoff) == Exact([], m, cutoff)
  {
    assert AsRows([]) == [];
    Regroup(ZERO, ZERO, ZERO);
    AtMostSelf(ZERO);
    hide Add, AtMost;
  }

  /** After any probes and any retention passes, no window counts more than the probes of that window;
      and a window that starts at a midnight, or nowhere, and beyond what was pruned counts exactly
      them, with their first and last reportable times. */
  lemma {:induction false} WindowsConserved(ops: seq<Op>, m: MonitorId, cutoff: Option<Time>)
    ensures SoundCounts(Run(ops))
    ensures AtMost(Window(Run(ops), m, cutoff), Exact(Saved(ops), m, cutoff))
    ensures Aligned(cutoff) && Beyond(cutoff, PrunedBefore(ops))
            ==> Window(Run(ops), m, cutoff) == Exact(Saved(ops), m, cutoff)
  {
    hide Window, SoundCounts, AtMost, Exact, RollupAndPrune, Aligned;
    if ops == [] {
      NothingSaved(m, cutoff);
    } else {
      var n := |ops| - 1;
      var front, op := ops[..n], ops[n];
      WindowsConserved(front, m, cutoff);
      match op {
        case Probed(p) =>
          SaveCountsAlike(Run(front), Saved(front), p, m, cutoff);
        case Retained(policy, now) =>
          assert Saved(ops) == Saved(front);
          PassWindow(Run(front), policy, now, m, cutoff);
          AtMostTrans(Window(Run(ops), m, cutoff), Window(Run(front), m, cutoff), Exact(Saved(front), m, cutoff));
      }
    }
  }

  function NextMidnight(t: Time): Time {
    if t % DAY == 0 then t else t - t % DAY + DAY
  }

  /** With daily rollups kept forever, retention under any policies changes no retained total. */
  lemma RetainedCountsConserved(ops: seq<Op>, m: MonitorId)
    requires PrunedBefore(ops).None?
    ensures Window(Run(ops), m, None) == Exact(Saved(ops), m, None)
  {
    WindowsConserved(ops, m, None);
  }

  /** A window from any moment counts at least the probes from the next UTC midnight and at most those
      from that moment. */
  lemma WindowBetweenMidnights(ops: seq<Op>, m: MonitorId, c: Time)
    requires Beyond(Some(NextMidnight(c)), PrunedBefore(ops))
    ensures AtMost(Exact(Saved(ops), m, Some(NextMidnight(c))), Window(Run(ops), m, Some(c)))
    ensures AtMost(Window(Run(ops), m, Some(c)), Exact(Saved(ops), m, Some(c)))
  {
    var mid, t := NextMidnight(c), Run(ops);
    assert mid % DAY == 0 && mid >= c by { assert DAY == 86_400_000_000_000; }
    WindowsConserved(ops, m, Some(mid));
    WindowsConserved(ops, m, Some(c));
    WindowShrinks(t, m, c, mid);
  }

  lemma WindowShrinks(t: Tables, m: MonitorId, early: Time, late: Time)
    requires SoundCounts(t) && early <= late
    ensures AtMost(Window(t, m, Some(late)), Window(t, m, Some(early)))
  {
    assert AllNonNegative(AsRows(t.raw));
    LaterCutoffCountsLess(AsRows(t.raw), m, early, late);
    LaterCutoffCountsLess(t.minute, m, early, late);
    LaterCutoffCountsLess(t.hourly, m, early, late);
    LaterCutoffCountsLess(t.daily, m, early, late);
    hide Sum;
    AtMostAdds(Sum(AsRows(t.raw), m, Some(late)), Sum(AsRows(t.raw), m, Some(early)),
               Sum(t.minute, m, Some(late)), Sum(t.minute, m, Some(early)));
    AtMostAdds(Sum(t.hourly, m, Some(late)), Sum(t.hourly, m, Some(early)),
               Sum(t.daily, m, Some(late)), Sum(t.daily, m, Some(early)));
  }

  // ----- outcome runs -----

  function History(ops: seq<Op>, m: MonitorId): seq<ProbeRow> {
    Select(ReportableOf(m), Saved(ops))
  }

  lemma SaveTracks(t: Tables, p: ProbeRow, m: MonitorId, h: seq<ProbeRow>)
    requires Tracks(t.runs, t.raw, m, h)
    ensures Tracks(t.runs, t.raw + [p], m, if ReportableOf(m)(p) then h + [p] else h)
  {
    var n: nat :| TracksAt(t.runs, t.raw, m, h, n);
    SelectPush(ReportableOf(m), t.raw, p);
    hide Rle, RunsOf, Select;
    if ReportableOf(m)(p) {
      assert (h + [p])[..n] == h[..n] && (h + [p])[n..] == h[n..] + [p];
      assert TracksAt(t.runs, t.raw + [p], m, h + [p], n);
    } else {
      assert TracksAt(t.runs, t.raw + [p], m, h, n);
    }
  }

  lemma PassOnRuns(t: Tables, policy: Policy, now: Time)
    requires policy.dailyRollups.forever
    ensures var cutoff := now - policy.probeResults.duration;
      var after := RollupAndPrune(t, policy, now);
      && after.raw == (if policy.probeResults.forever then t.raw else Select(KeptRaw(cutoff), t.raw))
      && after.runs == (if policy.probeResults.forever then t.runs else CompactRawOutcomeRuns(t.runs, t.raw, cutoff))
  {
    hide Select, RollupInto, CompactRawOutcomeRuns;
  }

  lemma PassTracks(t: Tables, policy: Policy, now: Time, m: MonitorId, h: seq<ProbeRow>)
    requires policy.dailyRollups.forever
    requires SortedBy(ProbeNoLater(), h) && Tracks(t.runs, t.raw, m, h)
    ensures var after := RollupAndPrune(t, policy, now); Tracks(after.runs, after.raw, m, h)
  {
    hide *;
    PassOnRuns(t, policy, now);
    if !policy.probeResults.forever {
      CompactionTracks(t.runs, t.raw, m, h, now - policy.probeResults.duration);
    }
  }

  lemma HistoryFront(saved: seq<ProbeRow>, p: ProbeRow, m: MonitorId)
    requires SortedBy(ProbeNoLater(), Select(ReportableOf(m), saved + [p]))
    ensures SortedBy(ProbeNoLater(), Select(ReportableOf(m), saved))
  {
    SelectPush(ReportableOf(m), saved, p);
    var h, all := Select(ReportableOf(m), saved), Select(ReportableOf(m), saved + [p]);
    assert forall i :: 0 <= i < |h| ==> h[i] == all[i];
  }

  /** However often and wherever the history was compacted, the run table and the raw table still
      hold it: a prefix encoded, the rest as saved. Only the monitor's own reportable probes have to be
      saved in order of time, and equal times are kept in the order they were saved. */
  lemma {:induction false} HistoryTracked(ops: seq<Op>, m: MonitorId)
    requires PrunedBefore(ops).None? && SortedBy(ProbeNoLater(), History(ops, m))
    ensures Tracks(Run(ops).runs, Run(ops).raw, m, History(ops, m))
  {
    if ops == [] {
      assert TracksAt([], [], m, [], 0);
    } else {
      var n := |ops| - 1;
      var front, op := ops[..n], ops[n];
      hide RollupAndPrune, Tracks, Select, SortedBy;
      match op {
        case Probed(p) =>
          HistoryFront(Saved(front), p, m);
          HistoryTracked(front, m);
          SaveTracks(Run(front), p, m, History(front, m));
          SelectPush(ReportableOf(m), Saved(front), p);
        case Retained(policy, now) =>
          assert Saved(ops) == Saved(front);
          HistoryTracked(front, m);
          PassTracks(Run(front), policy, now, m, History(front, m));
      }
    }
  }
}
