/** The transfer guard: fed live by transfer samples, rebuilt after a restart from the samples stored
    recently enough. */
module TransferGuard {
  import opened Basics
  import opened Sequences

  datatype Sample = Sample(at: Time, ok: bool, slow: bool, observedStatus: int, expectedStatus: int)

  datatype Config = Config(enabled: bool, interval: Time, incidentInterval: Time, consecutiveSlowResults: int)

  datatype Guard = Guard(slowStreak: nat, degraded: bool, lastSample: Option<Time>)

  const IDLE := Guard(0, false, None)

  /** A save commits and says so, commits but reports failure, or does not commit. */
  datatype Write = Stored | StoredUnreported | NotStored

  function Limit(cfg: Config): nat {
    if cfg.consecutiveSlowResults <= 0 then 2 else cfg.consecutiveSlowResults
  }

  function MaxStreakGap(cfg: Config): Time {
    if cfg.interval <= 0 then 15 * MINUTE else cfg.interval
  }

  function FreshnessWindow(cfg: Config): Time {
    var interval := if cfg.interval <= 0 then 15 * MINUTE else cfg.interval;
    2 * interval
  }

  function MinimumInterval(cfg: Config, scheduled: bool): Time {
    var minimum := if scheduled then cfg.interval else cfg.incidentInterval;
    if minimum <= 0 then 30 * SECOND else minimum
  }

  predicate IsSlow(s: Sample) {
    s.slow && (s.observedStatus == 0 || s.observedStatus == s.expectedStatus)
  }

  /** The sample confirms that transfers are fast again. */
  predicate IsFast(s: Sample) {
    !IsSlow(s) && s.ok
  }

  /** What one sample does to the guard. */
  function Apply(cfg: Config, g: Guard, s: Sample): Guard {
    var streak := if g.lastSample.Some? && s.at - g.lastSample.value > MaxStreakGap(cfg) then 0 else g.slowStreak;
    if IsSlow(s) then Guard(streak + 1, g.degraded || streak + 1 >= Limit(cfg), Some(s.at))
    else if s.ok then Guard(0, false, Some(s.at))
    else Guard(0, g.degraded, Some(s.at))
  }

  function Fold(cfg: Config, samples: seq<Sample>): Guard {
    if samples == [] then IDLE else Apply(cfg, Fold(cfg, samples[..|samples| - 1]), samples[|samples| - 1])
  }

  lemma FoldPush(cfg: Config, samples: seq<Sample>, s: Sample)
    ensures Fold(cfg, samples + [s]) == Apply(cfg, Fold(cfg, samples), s)
  {
    assert (samples + [s])[..|samples|] == samples;
  }

  lemma EmptyFold(cfg: Config)
    ensures Fold(cfg, []) == IDLE
  {
  }

  lemma FoldNext(cfg: Config, samples: seq<Sample>, k: nat)
    requires k < |samples|
    ensures Fold(cfg, samples[..k + 1]) == Apply(cfg, Fold(cfg, samples[..k]), samples[k])
  {
    assert samples[..k + 1][..k] == samples[..k];
  }

  // ----- the stored samples a restart reads -----

  function NoOlder(since: Time): Sample -> bool { (s: Sample) => s.at >= since }

  function Earlier(): (Sample, Sample) -> bool { (a: Sample, b: Sample) => a.at <= b.at }

  /** The newest thousand samples since the given time, oldest first; rows of equal time keep their order. */
  function Recent(samples: seq<Sample>, since: Time): seq<Sample> {
    var kept := Sorted(Earlier(), Select(NoOlder(since), samples));
    if |kept| <= 1000 then kept else kept[|kept| - 1000..]
  }

  lemma RecentNoOlder(samples: seq<Sample>, since: Time)
    ensures forall s :: s in Recent(samples, since) ==> s.at >= since
  {
    var selected := Select(NoOlder(since), samples);
    var kept := Sorted(Earlier(), selected);
    forall s | s in kept ensures s.at >= since {
      assert s in multiset(kept) && s in multiset(selected);
      assert s in selected && NoOlder(since)(s);
    }
  }

  /** A restart replays what it reads, unless all of that has gone stale. */
  function Restored(cfg: Config, recent: seq<Sample>, now: Time): Guard {
    if recent != [] && now - recent[|recent| - 1].at > FreshnessWindow(cfg)
    then Guard(0, false, Some(recent[|recent| - 1].at))
    else Fold(cfg, recent)
  }

  /** What the query returns is never stale. */
  lemma RestoredIsFold(cfg: Config, samples: seq<Sample>, now: Time)
    ensures var recent := Recent(samples, now - FreshnessWindow(cfg));
      Restored(cfg, recent, now) == Fold(cfg, recent)
  {
    var recent := Recent(samples, now - FreshnessWindow(cfg));
    RecentNoOlder(samples, now - FreshnessWindow(cfg));
    hide Recent, Fold;
    if recent != [] {
      assert recent[|recent| - 1] in recent;
    }
  }

  ghost predicate InTimeOrder(samples: seq<Sample>) {
    forall i, j :: 0 <= i < j < |samples| ==> samples[i].at <= samples[j].at
  }

  lemma {:induction false} SinceIsSuffix(samples: seq<Sample>, since: Time) returns (k: nat)
    requires InTimeOrder(samples)
    ensures k <= |samples| && Select(NoOlder(since), samples) == samples[k..]
  {
    if samples == [] || samples[|samples| - 1].at < since {
      k := |samples|;
      SelectNone(NoOlder(since), samples);
    } else {
      var n := |samples| - 1;
      k := SinceIsSuffix(samples[..n], since);
      SelectPush(NoOlder(since), samples[..n], samples[n]);
      assert samples == samples[..n] + [samples[n]];
      assert samples[k..] == samples[..n][k..] + [samples[n]];
    }
  }

  lemma InsertLast(samples: seq<Sample>, s: Sample)
    requires samples == [] || samples[|samples| - 1].at <= s.at
    ensures Insert(Earlier(), samples, s) == samples + [s]
  {
  }

  lemma {:induction false} SortedAlready(samples: seq<Sample>)
    requires InTimeOrder(samples)
    ensures Sorted(Earlier(), samples) == samples
  {
    if samples != [] {
      var n := |samples| - 1;
      hide Insert;
      SortedAlready(samples[..n]);
      assert samples == samples[..n] + [samples[n]];
      InsertLast(samples[..n], samples[n]);
    }
  }

  /** While the clock does not run backwards, a restart reads a suffix of what was stored. */
  lemma RecentIsSuffix(samples: seq<Sample>, since: Time) returns (k: nat)
    requires InTimeOrder(samples)
    ensures k <= |samples| && Recent(samples, since) == samples[k..]
  {
    k := SinceIsSuffix(samples, since);
    SortedAlready(samples[k..]);
    if |samples| - k > 1000 {
      assert samples[k..][|samples| - k - 1000..] == samples[|samples| - 1000..];
      k := |samples| - 1000;
    }
  }

  // ----- the guard itself -----

  class Runner {
    var samples: seq<Sample>
    var transferSlowStreak: nat
    var transferDegraded: bool
    var transferLastSample: Option<Time>

    function State(): Guard
      reads this
    {
      Guard(transferSlowStreak, transferDegraded, transferLastSample)
    }

    constructor ()
      ensures State() == IDLE && samples == []
    {
      samples, transferSlowStreak, transferDegraded, transferLastSample := [], 0, false, None;
    }

    /** One stored sample, read after the one of the given time. */
    method ReplaySample(cfg: Config, previousAt: Option<Time>, sample: Sample)
      modifies this`transferSlowStreak, this`transferDegraded
      ensures Guard(transferSlowStreak, transferDegraded, Some(sample.at))
              == Apply(cfg, Guard(old(transferSlowStreak), old(transferDegraded), previousAt), sample)
    {
      if previousAt.Some? && sample.at - previousAt.value > MaxStreakGap(cfg) {
        transferSlowStreak := 0;
      }
      if IsSlow(sample) {
        transferSlowStreak := transferSlowStreak + 1;
        if transferSlowStreak >= Limit(cfg) {
          transferDegraded := true;
        }
      } else if sample.ok {
        transferSlowStreak, transferDegraded := 0, false;
      } else {
        transferSlowStreak := 0;
      }
    }

    method ReplayAll(cfg: Config, newestFirst: seq<Sample>, ghost oldestFirst: seq<Sample>)
      requires |newestFirst| == |oldestFirst| > 0 && transferSlowStreak == 0 && !transferDegraded
      requires forall i :: 0 <= i < |newestFirst| ==> newestFirst[i] == oldestFirst[|newestFirst| - 1 - i]
      modifies this`transferSlowStreak, this`transferDegraded
      ensures Guard(transferSlowStreak, transferDegraded, Some(newestFirst[0].at)) == Fold(cfg, oldestFirst)
    {
      hide Fold, Apply;
      EmptyFold(cfg);
      var n := |newestFirst|;
      assert oldestFirst[..0] == [] && oldestFirst[..n] == oldestFirst;
      var previousAt: Option<Time> := None;
      var i := n - 1;
      while i >= 0
        invariant -1 <= i < n
        invariant Guard(transferSlowStreak, transferDegraded, previousAt) == Fold(cfg, oldestFirst[..n - 1 - i])
        invariant i < n - 1 ==> previousAt == Some(newestFirst[i + 1].at)
      {
        FoldNext(cfg, oldestFirst, n - 1 - i);
        ReplaySample(cfg, previousAt, newestFirst[i]);
        previousAt := Some(newestFirst[i].at);
        i := i - 1;
      }
    }

    /** The restart replays what the query returns, newest first, from the far end. */
    method RestoreTransferGuard(cfg: Config, now: Time)
      modifies this`transferSlowStreak, this`transferDegraded, this`transferLastSample
      ensures State() == if cfg.enabled then Restored(cfg, Recent(samples, now - FreshnessWindow(cfg)), now)
          else old(State())
    {
      hide Recent, Fold, Apply;
      if !cfg.enabled {
        return;
      }
      var freshness := FreshnessWindow(cfg);
      var oldestFirst := Recent(samples, now - freshness);
      var n := |oldestFirst|;
      var newestFirst := seq(n, i requires 0 <= i < n => oldestFirst[n - 1 - i]);
      EmptyFold(cfg);
      transferSlowStreak, transferDegraded, transferLastSample := 0, false, None;
      if n > 0 {
        transferLastSample := Some(newestFirst[0].at);
        if now - newestFirst[0].at <= freshness {
          ReplayAll(cfg, newestFirst, oldestFirst);
        }
      } else {
        assert oldestFirst == [];
      }
    }

    method PruneConnectivitySamples(cutoff: Time)
      modifies this`samples
      ensures samples == Select(NoOlder(cutoff), old(samples))
    {
      var kept: seq<Sample> := [];
      for k := 0 to |samples|
        invariant samples == old(samples) && kept == Select(NoOlder(cutoff), samples[..k])
      {
        assert samples[..k + 1] == samples[..k] + [samples[k]];
        SelectPush(NoOlder(cutoff), samples[..k], samples[k]);
        if samples[k].at >= cutoff {
          kept := kept + [samples[k]];
        }
      }
      assert samples[..|samples|] == samples;
      samples := kept;
    }

    /** A sample is taken unless one was taken too recently; it counts once its save has reported success,
        and a save that reports failure may yet have stored it. */
    method SampleTransfer(cfg: Config, scheduled: bool, now: Time, measured: Sample, cancelled: bool, write: Write)
      returns (degraded: bool)
      requires measured.at == now
      modifies this
      ensures degraded <==> cfg.enabled && transferDegraded
      ensures var interval := if scheduled then cfg.interval else cfg.incidentInterval;
        var due := cfg.enabled && (old(transferLastSample).None?
          || now - old(transferLastSample).value >= if interval > 0 then interval else 30 * SECOND);
        && samples == (if due && !cancelled && write != NotStored then old(samples) + [measured] else old(samples))
        && State() == (if due && !cancelled && write == Stored then Apply(cfg, old(State()), measured)
            else old(State()))
    {
      if !cfg.enabled {
        return false;
      }
      var minimum := MinimumInterval(cfg, scheduled);
      if transferLastSample.Some? && now - transferLastSample.value < minimum {
        return transferDegraded;
      }
      var limit := Limit(cfg);
      if cancelled {
        return transferDegraded;
      }
      if write != NotStored {
        samples := samples + [measured];
      }
      if write != Stored {
        return transferDegraded;
      }
      if transferLastSample.Some? && measured.at - transferLastSample.value > MaxStreakGap(cfg) {
        transferSlowStreak := 0;
      }
      transferLastSample := Some(measured.at);
      if IsSlow(measured) {
        transferSlowStreak := transferSlowStreak + 1;
        if transferSlowStreak >= limit {
          transferDegraded := true;
        }
      } else if measured.ok {
        transferSlowStreak, transferDegraded := 0, false;
      } else {
        transferSlowStreak := 0;
      }
      return transferDegraded;
    }
  }

  // ----- what degraded means -----

  /** Consecutive slow samples, none too long after the one before. */
  ghost predicate SlowBlock(cfg: Config, samples: seq<Sample>, i: int, j: int) {
    && 0 <= i <= j <= |samples|
    && (forall k :: i <= k < j ==> IsSlow(samples[k]))
    && (forall k :: i < k < j ==> samples[k].at - samples[k - 1].at <= MaxStreakGap(cfg))
  }

  ghost predicate NoneFastFrom(samples: seq<Sample>, i: int) {
    forall k :: 0 <= i <= k < |samples| ==> !IsFast(samples[k])
  }

  /** Since the last fast sample there was a block of at least the limit. */
  ghost predicate Slowed(cfg: Config, samples: seq<Sample>) {
    exists i, j :: SlowBlock(cfg, samples, i, j) && j - i >= Limit(cfg) && NoneFastFrom(samples, i)
  }

  /** The last samples form the longest slow block ending here, of this length. */
  ghost predicate Trails(cfg: Config, samples: seq<Sample>, streak: nat) {
    && streak <= |samples|
    && SlowBlock(cfg, samples, |samples| - streak, |samples|)
    && !SlowBlock(cfg, samples, |samples| - streak - 1, |samples|)
  }

  lemma BlockFront(cfg: Config, samples: seq<Sample>, s: Sample, i: int, j: int)
    requires j <= |samples|
    ensures SlowBlock(cfg, samples + [s], i, j) <==> SlowBlock(cfg, samples, i, j)
  {
    var all := samples + [s];
    assert forall k :: 0 <= k < |samples| ==> all[k] == samples[k];
    if SlowBlock(cfg, samples, i, j) {
      forall k | i < k < j ensures all[k].at - all[k - 1].at <= MaxStreakGap(cfg) {
        assert all[k - 1] == samples[k - 1];
      }
    }
    if SlowBlock(cfg, all, i, j) {
      forall k | i < k < j ensures samples[k].at - samples[k - 1].at <= MaxStreakGap(cfg) {
        assert all[k - 1] == samples[k - 1] && all[k] == samples[k];
      }
    }
  }

  /** A slow sample joins the block before it unless the gap is too long. */
  lemma BlockJoin(cfg: Config, samples: seq<Sample>, s: Sample, i: int)
    requires i <= |samples|
    ensures SlowBlock(cfg, samples + [s], i, |samples| + 1)
      <==> SlowBlock(cfg, samples, i, |samples|) && IsSlow(s)
           && (i == |samples| || s.at - samples[|samples| - 1].at <= MaxStreakGap(cfg))
  {
    BlockFront(cfg, samples, s, i, |samples|);
    var all, n := samples + [s], |samples|;
    assert all[n] == s && (n > 0 ==> all[n - 1] == samples[n - 1]);
  }

  lemma TrailsPush(cfg: Config, samples: seq<Sample>, s: Sample, streak: nat)
    requires Trails(cfg, samples, streak)
    ensures var joins := samples == [] || s.at - samples[|samples| - 1].at <= MaxStreakGap(cfg);
      Trails(cfg, samples + [s], if IsSlow(s) then (if joins then streak + 1 else 1) else 0)
  {
    var n := |samples|;
    BlockJoin(cfg, samples, s, n);
    if n > 0 { BlockJoin(cfg, samples, s, n - 1); }
    if n >= streak { BlockJoin(cfg, samples, s, n - streak); }
    if n >= streak + 1 { BlockJoin(cfg, samples, s, n - streak - 1); }
    assert SlowBlock(cfg, samples + [s], n + 1, n + 1);
    hide SlowBlock;
  }

  lemma LastOf(cfg: Config, samples: seq<Sample>)
    ensures Fold(cfg, samples).lastSample == if samples == [] then None else Some(samples[|samples| - 1].at)
    ensures samples == [] ==> Fold(cfg, samples).slowStreak == 0
  {
  }

  /** What one sample makes of the streak. */
  lemma StreakStep(cfg: Config, samples: seq<Sample>, s: Sample)
    ensures var joins := samples == [] || s.at - samples[|samples| - 1].at <= MaxStreakGap(cfg);
      var streak := Fold(cfg, samples).slowStreak;
      Fold(cfg, samples + [s]).slowStreak == if IsSlow(s) then (if joins then streak + 1 else 1) else 0
  {
    LastOf(cfg, samples);
    FoldPush(cfg, samples, s);
    hide Fold, IsSlow;
  }

  /** The streak is the length of the longest slow block at the end. */
  lemma {:induction false} StreakTrails(cfg: Config, samples: seq<Sample>)
    ensures Trails(cfg, samples, Fold(cfg, samples).slowStreak)
  {
    if samples != [] {
      hide Trails, Fold;
      var n := |samples| - 1;
      assert samples == samples[..n] + [samples[n]];
      StreakTrails(cfg, samples[..n]);
      TrailsPush(cfg, samples[..n], samples[n], Fold(cfg, samples[..n]).slowStreak);
      StreakStep(cfg, samples[..n], samples[n]);
    }
  }

  /** A block that reaches the end is no longer than the trailing one. */
  lemma {:induction false} BlockWithin(cfg: Config, samples: seq<Sample>, streak: nat, i: int)
    requires Trails(cfg, samples, streak) && SlowBlock(cfg, samples, i, |samples|)
    ensures |samples| - i <= streak
  {
    if |samples| - i > streak {
      assert SlowBlock(cfg, samples, |samples| - streak - 1, |samples|);
    }
  }

  lemma NoneFastPush(samples: seq<Sample>, s: Sample, i: int)
    requires 0 <= i <= |samples|
    ensures NoneFastFrom(samples + [s], i) <==> NoneFastFrom(samples, i) && !IsFast(s)
  {
    var all := samples + [s];
    assert all[|samples|] == s && forall k :: 0 <= k < |samples| ==> all[k] == samples[k];
  }

  lemma SlowedPush(cfg: Config, samples: seq<Sample>, s: Sample, streak: nat)
    requires Trails(cfg, samples + [s], streak)
    ensures Slowed(cfg, samples + [s]) <==> !IsFast(s) && (Slowed(cfg, samples) || streak >= Limit(cfg))
  {
    var all, n := samples + [s], |samples|;
    if Slowed(cfg, all) {
      var i, j :| SlowBlock(cfg, all, i, j) && j - i >= Limit(cfg) && NoneFastFrom(all, i);
      NoneFastPush(samples, s, i);
      if j <= n {
        BlockFront(cfg, samples, s, i, j);
      } else {
        BlockWithin(cfg, all, streak, i);
      }
    }
    if !IsFast(s) && Slowed(cfg, samples) {
      var i, j :| SlowBlock(cfg, samples, i, j) && j - i >= Limit(cfg) && NoneFastFrom(samples, i);
      BlockFront(cfg, samples, s, i, j);
      NoneFastPush(samples, s, i);
    }
    if streak >= Limit(cfg) {
      var i := n + 1 - streak;
      assert SlowBlock(cfg, all, i, n + 1);
      assert NoneFastFrom(all, i);
    }
  }

  /** The guard is degraded exactly when, since the last fast sample, some block of at least the limit
      consecutive slow samples had no gap beyond the maximum. */
  lemma {:induction false} DegradedExactly(cfg: Config, samples: seq<Sample>)
    ensures Fold(cfg, samples).degraded <==> Slowed(cfg, samples)
  {
    if samples == [] {
      assert forall i, j :: SlowBlock(cfg, samples, i, j) ==> j - i < Limit(cfg);
    } else {
      var n := |samples| - 1;
      assert samples == samples[..n] + [samples[n]];
      DegradedExactly(cfg, samples[..n]);
      StreakTrails(cfg, samples);
      hide Slowed, Trails;
      SlowedPush(cfg, samples[..n], samples[n], Fold(cfg, samples).slowStreak);
    }
  }

  // ----- restarts -----

  /** Remembering less: no longer streak, no degradation of its own. */
  predicate AtMost(a: Guard, b: Guard) {
    && a.slowStreak <= b.slowStreak && (a.degraded ==> b.degraded)
    && (a.lastSample == b.lastSample || (a.lastSample.None? && a.slowStreak == 0))
  }

  lemma ApplyMonotone(cfg: Config, a: Guard, b: Guard, s: Sample)
    requires AtMost(a, b)
    ensures AtMost(Apply(cfg, a, s), Apply(cfg, b, s))
    ensures IsFast(s) ==> Apply(cfg, a, s) == Apply(cfg, b, s)
  {
  }

  /** Replaying any suffix of the stored samples never overstates the live guard, and equals it once the
      suffix holds a fast sample or is everything. */
  lemma {:induction false} SuffixSound(cfg: Config, samples: seq<Sample>, k: nat)
    requires k <= |samples|
    ensures AtMost(Fold(cfg, samples[k..]), Fold(cfg, samples))
    ensures k == 0 || (exists i :: k <= i < |samples| && IsFast(samples[i])) ==>
      Fold(cfg, samples[k..]) == Fold(cfg, samples)
  {
    if k == |samples| {
      assert samples[k..] == [];
    } else {
      var n := |samples| - 1;
      SuffixSound(cfg, samples[..n], k);
      assert samples[k..] == samples[..n][k..] + [samples[n]];
      FoldPush(cfg, samples[..n][k..], samples[n]);
      ApplyMonotone(cfg, Fold(cfg, samples[..n][k..]), Fold(cfg, samples[..n]), samples[n]);
      hide AtMost, Apply;
      if i :| k <= i < |samples| && IsFast(samples[i]) {
        if i < n { assert samples[..n][i] == samples[i]; }
      }
    }
  }

  /** Missed: stored without reaching the live guard, its save having reported failure. Pruned: samples
      before the cutoff are deleted. */
  datatype Event = Took(sample: Sample) | Missed(sample: Sample) | Restarted(now: Time) | Pruned(cutoff: Time)

  /** The guard beside the samples ever stored and those still stored. */
  datatype Life = Life(guard: Guard, samples: seq<Sample>, stored: seq<Sample>)

  function Step(cfg: Config, life: Life, e: Event): Life {
    match e
    case Took(s) => Life(Apply(cfg, life.guard, s), life.samples + [s], life.stored + [s])
    case Missed(s) => life.(samples := life.samples + [s], stored := life.stored + [s])
    case Restarted(now) => life.(guard := Restored(cfg, Recent(life.stored, now - FreshnessWindow(cfg)), now))
    case Pruned(cutoff) => life.(stored := Select(NoOlder(cutoff), life.stored))
  }

  function Run(cfg: Config, events: seq<Event>): Life {
    if events == [] then Life(IDLE, [], []) else Step(cfg, Run(cfg, events[..|events| - 1]), events[|events| - 1])
  }

  /** No sample was missed since the last restart or fast sample. */
  predicate NoneMissed(events: seq<Event>) {
    if events == [] then true
    else
      var front := events[..|events| - 1];
      match events[|events| - 1]
      case Took(s) => IsFast(s) || NoneMissed(front)
      case Missed(_) => false
      case Restarted(_) => true
      case Pruned(_) => NoneMissed(front)
  }

  // ----- what is still stored -----

  lemma StillOrdered(samples: seq<Sample>, s: Sample)
    requires InTimeOrder(samples + [s])
    ensures InTimeOrder(samples) && (samples != [] ==> samples[|samples| - 1].at <= s.at)
  {
    var all := samples + [s];
    assert all[|samples|] == s && forall i :: 0 <= i < |samples| ==> all[i] == samples[i];
  }

  lemma StepOrdered(cfg: Config, life: Life, e: Event)
    requires InTimeOrder(Step(cfg, life, e).samples)
    ensures InTimeOrder(life.samples)
    ensures e.Took? || e.Missed? ==>
      && InTimeOrder(life.samples + [e.sample])
      && (life.samples != [] ==> life.samples[|life.samples| - 1].at <= e.sample.at)
  {
    hide InTimeOrder, Apply, Recent, Restored;
    if e.Took? || e.Missed? { StillOrdered(life.samples, e.sample); }
  }

  lemma SuffixOrdered(samples: seq<Sample>, k: nat)
    requires InTimeOrder(samples) && k <= |samples|
    ensures InTimeOrder(samples[k..])
  {
  }

  lemma SuffixPush(samples: seq<Sample>, k: nat, s: Sample)
    requires k <= |samples|
    ensures (samples + [s])[k..] == samples[k..] + [s]
  {
  }

  lemma PrunedSuffix(samples: seq<Sample>, k: nat, cutoff: Time) returns (j: nat)
    requires InTimeOrder(samples) && k <= |samples|
    ensures j <= |samples| && Select(NoOlder(cutoff), samples[k..]) == samples[j..]
  {
    SuffixOrdered(samples, k);
    var i := SinceIsSuffix(samples[k..], cutoff);
    j := k + i;
    assert samples[k..][i..] == samples[j..];
  }

  /** Pruning leaves a suffix of what was ever stored. */
  lemma {:induction false} StoredSuffix(cfg: Config, events: seq<Event>) returns (k: nat)
    requires InTimeOrder(Run(cfg, events).samples)
    ensures k <= |Run(cfg, events).samples| && Run(cfg, events).stored == Run(cfg, events).samples[k..]
  {
    if events == [] {
      k := 0;
    } else {
      var n := |events| - 1;
      var before, after := Run(cfg, events[..n]), Run(cfg, events);
      assert after == Step(cfg, before, events[n]);
      hide InTimeOrder, Apply, Recent, Restored, Select, Run;
      StepOrdered(cfg, before, events[n]);
      k := StoredSuffix(cfg, events[..n]);
      match events[n] {
        case Pruned(cutoff) => k := PrunedSuffix(before.samples, k, cutoff);
        case Took(s) => SuffixPush(before.samples, k, s);
        case Missed(s) => SuffixPush(before.samples, k, s);
        case Restarted(_) =>
      }
    }
  }

  // ----- nothing missed -----

  lemma FastForgets(cfg: Config, a: Guard, b: Guard, s: Sample)
    requires IsFast(s)
    ensures Apply(cfg, a, s) == Apply(cfg, b, s) && AtMost(Apply(cfg, a, s), Apply(cfg, b, s))
  {
  }

  /** A restart replays a suffix of the samples ever stored. */
  lemma RestoredAtMost(cfg: Config, samples: seq<Sample>, k: nat, now: Time)
    requires InTimeOrder(samples) && k <= |samples|
    ensures AtMost(Restored(cfg, Recent(samples[k..], now - FreshnessWindow(cfg)), now), Fold(cfg, samples))
  {
    hide Fold, Apply, Recent, Restored, AtMost, InTimeOrder, FreshnessWindow;
    var stored := samples[k..];
    SuffixOrdered(samples, k);
    RestoredIsFold(cfg, stored, now);
    var j := RecentIsSuffix(stored, now - FreshnessWindow(cfg));
    assert stored[j..] == samples[k + j..];
    SuffixSound(cfg, samples, k + j);
  }

  lemma TookAtMost(cfg: Config, life: Life, s: Sample)
    requires IsFast(s) || AtMost(life.guard, Fold(cfg, life.samples))
    ensures AtMost(Apply(cfg, life.guard, s), Fold(cfg, life.samples + [s]))
  {
    hide Fold, Apply, AtMost;
    FoldPush(cfg, life.samples, s);
    if IsFast(s) {
      FastForgets(cfg, life.guard, Fold(cfg, life.samples), s);
    } else {
      ApplyMonotone(cfg, life.guard, Fold(cfg, life.samples), s);
    }
  }

  lemma StepAtMost(cfg: Config, life: Life, k: nat, e: Event)
    requires InTimeOrder(life.samples) && k <= |life.samples| && life.stored == life.samples[k..] && !e.Missed?
    requires e.Restarted? || (e.Took? && IsFast(e.sample)) || AtMost(life.guard, Fold(cfg, life.samples))
    ensures AtMost(Step(cfg, life, e).guard, Fold(cfg, Step(cfg, life, e).samples))
  {
    hide Fold, Apply, AtMost, InTimeOrder, Recent, Restored, IsFast, Select;
    match e
    case Took(s) => TookAtMost(cfg, life, s);
    case Restarted(now) => RestoredAtMost(cfg, life.samples, k, now);
    case Pruned(_) =>
  }

  /** However often it restarts and the samples are pruned, the guard never claims more than one that saw
      every sample ever stored, as long as none was missed since the last restart or fast sample. */
  lemma {:induction false} RestartsSound(cfg: Config, events: seq<Event>)
    requires InTimeOrder(Run(cfg, events).samples) && NoneMissed(events)
    ensures AtMost(Run(cfg, events).guard, Fold(cfg, Run(cfg, events).samples))
  {
    if events == [] {
      NothingYet(cfg);
    } else {
      hide Step, Fold, AtMost, InTimeOrder, IsFast;
      var n := |events| - 1;
      var e := events[n];
      StepOrdered(cfg, Run(cfg, events[..n]), e);
      var k := StoredSuffix(cfg, events[..n]);
      if e.Pruned? || (e.Took? && !IsFast(e.sample)) { RestartsSound(cfg, events[..n]); }
      StepAtMost(cfg, Run(cfg, events[..n]), k, e);
    }
  }

  lemma NothingYet(cfg: Config)
    ensures AtMost(IDLE, Fold(cfg, [])) && Behind(cfg, IDLE, Fold(cfg, []))
  {
  }

  // ----- samples missed -----

  /** Degraded at most when the other is, now and after any further samples: the other stays degraded until
      both see a fast sample, or the streak is no longer, or the next sample cannot join it. */
  predicate Behind(cfg: Config, a: Guard, b: Guard) {
    && (a.degraded ==> b.degraded)
    && (b.degraded || a.slowStreak == 0
        || (a.lastSample.Some? && b.lastSample.Some? && a.lastSample.value <= b.lastSample.value
            && (a.slowStreak <= b.slowStreak || b.lastSample.value - a.lastSample.value > MaxStreakGap(cfg))))
  }

  /** No sample from this time on can join the streak. */
  predicate Spent(cfg: Config, g: Guard, at: Time) {
    g.slowStreak == 0 || (g.lastSample.Some? && at - g.lastSample.value > MaxStreakGap(cfg))
  }

  /** Whether a guard can do without a sample, by its own fields: without a slow one always, without a fast
      one when it has nothing to forget, and without any other when it has no streak to break or is
      degraded anyway. */
  predicate Harmless(cfg: Config, g: Guard, s: Sample) {
    || IsSlow(s)
    || (IsFast(s) && Spent(cfg, g, s.at) && !g.degraded)
    || (!IsFast(s) && (Spent(cfg, g, s.at) || g.degraded))
  }

  /** Every sample missed since the last restart or fast sample was harmless to the guard it missed. */
  predicate HarmlessMisses(cfg: Config, events: seq<Event>) {
    if events == [] then true
    else
      var front := events[..|events| - 1];
      match events[|events| - 1]
      case Took(s) => IsFast(s) || HarmlessMisses(cfg, front)
      case Missed(s) => Harmless(cfg, Run(cfg, front).guard, s) && HarmlessMisses(cfg, front)
      case Restarted(_) => true
      case Pruned(_) => HarmlessMisses(cfg, front)
  }

  lemma AtMostBehind(cfg: Config, a: Guard, b: Guard)
    requires AtMost(a, b) && (a.lastSample.None? ==> a.slowStreak == 0)
    ensures Behind(cfg, a, b)
  {
  }

  lemma BothApply(cfg: Config, a: Guard, b: Guard, s: Sample)
    requires Behind(cfg, a, b) && (b.lastSample.Some? ==> b.lastSample.value <= s.at)
    ensures Behind(cfg, Apply(cfg, a, s), Apply(cfg, b, s))
  {
  }

  lemma OneApplies(cfg: Config, a: Guard, b: Guard, s: Sample)
    requires Behind(cfg, a, b) && Harmless(cfg, a, s)
    requires (b.lastSample.Some? ==> b.lastSample.value <= s.at) && (a.lastSample.Some? ==> a.lastSample.value <= s.at)
    ensures Behind(cfg, a, Apply(cfg, b, s))
  {
  }

  /** What holds of every guard that is run: a full streak degrades it, and it has not seen the future. */
  predicate Sane(cfg: Config, g: Guard, samples: seq<Sample>) {
    && (g.slowStreak >= Limit(cfg) ==> g.degraded)
    && (g.lastSample.None? ==> g.slowStreak == 0)
    && (g.lastSample.Some? ==> samples != [] && g.lastSample.value <= samples[|samples| - 1].at)
  }

  lemma {:induction false} FoldSane(cfg: Config, samples: seq<Sample>)
    ensures Fold(cfg, samples).slowStreak >= Limit(cfg) ==> Fold(cfg, samples).degraded
  {
    if samples != [] { FoldSane(cfg, samples[..|samples| - 1]); }
  }

  lemma RestoredSane(cfg: Config, samples: seq<Sample>, k: nat, now: Time)
    requires InTimeOrder(samples) && k <= |samples|
    ensures Sane(cfg, Restored(cfg, Recent(samples[k..], now - FreshnessWindow(cfg)), now), samples)
  {
    hide Fold, Recent, Restored, InTimeOrder, FreshnessWindow;
    var recent := Recent(samples[k..], now - FreshnessWindow(cfg));
    RestoredIsFold(cfg, samples[k..], now);
    SuffixOrdered(samples, k);
    FoldSane(cfg, recent);
    LastOf(cfg, recent);
    var j := RecentIsSuffix(samples[k..], now - FreshnessWindow(cfg));
  }

  lemma TookSane(cfg: Config, life: Life, s: Sample)
    requires Sane(cfg, life.guard, life.samples) && (life.samples != [] ==> life.samples[|life.samples| - 1].at <= s.at)
    ensures Sane(cfg, Apply(cfg, life.guard, s), life.samples + [s]) && Sane(cfg, life.guard, life.samples + [s])
  {
  }

  lemma StepSane(cfg: Config, life: Life, k: nat, e: Event)
    requires InTimeOrder(life.samples) && k <= |life.samples| && life.stored == life.samples[k..]
    requires e.Took? || e.Missed? ==> life.samples != [] ==> life.samples[|life.samples| - 1].at <= e.sample.at
    requires Sane(cfg, life.guard, life.samples)
    ensures Sane(cfg, Step(cfg, life, e).guard, Step(cfg, life, e).samples)
  {
    hide Sane, Apply, Recent, Restored, InTimeOrder, Select, FreshnessWindow;
    match e
    case Took(s) => TookSane(cfg, life, s);
    case Missed(s) => TookSane(cfg, life, s);
    case Restarted(now) => RestoredSane(cfg, life.samples, k, now);
    case Pruned(_) =>
  }

  lemma {:induction false} RunSane(cfg: Config, events: seq<Event>)
    requires InTimeOrder(Run(cfg, events).samples)
    ensures Sane(cfg, Run(cfg, events).guard, Run(cfg, events).samples)
  {
    if events != [] {
      hide Sane, Step, InTimeOrder;
      var n := |events| - 1;
      StepOrdered(cfg, Run(cfg, events[..n]), events[n]);
      RunSane(cfg, events[..n]);
      var k := StoredSuffix(cfg, events[..n]);
      StepSane(cfg, Run(cfg, events[..n]), k, events[n]);
    }
  }

  lemma SampleBehind(cfg: Config, life: Life, s: Sample)
    requires InTimeOrder(life.samples + [s]) && (IsFast(s) || Behind(cfg, life.guard, Fold(cfg, life.samples)))
    ensures Behind(cfg, Apply(cfg, life.guard, s), Fold(cfg, life.samples + [s]))
  {
    var full := Fold(cfg, life.samples);
    LastOf(cfg, life.samples);
    StillOrdered(life.samples, s);
    FoldPush(cfg, life.samples, s);
    hide Fold, Behind, Apply, InTimeOrder;
    if IsFast(s) {
      FastForgets(cfg, life.guard, full, s);
      BehindItself(cfg, Apply(cfg, full, s));
    } else {
      BothApply(cfg, life.guard, full, s);
    }
  }

  lemma MissBehind(cfg: Config, life: Life, s: Sample)
    requires InTimeOrder(life.samples + [s]) && Sane(cfg, life.guard, life.samples)
    requires Behind(cfg, life.guard, Fold(cfg, life.samples)) && Harmless(cfg, life.guard, s)
    ensures Behind(cfg, life.guard, Fold(cfg, life.samples + [s]))
  {
    LastOf(cfg, life.samples);
    StillOrdered(life.samples, s);
    FoldPush(cfg, life.samples, s);
    hide Fold, Behind, Apply, InTimeOrder, Harmless;
    OneApplies(cfg, life.guard, Fold(cfg, life.samples), s);
  }

  lemma BehindItself(cfg: Config, a: Guard)
    requires a.lastSample.None? ==> a.slowStreak == 0
    ensures Behind(cfg, a, a)
  {
  }

  lemma RestoredBehind(cfg: Config, samples: seq<Sample>, k: nat, now: Time)
    requires InTimeOrder(samples) && k <= |samples|
    ensures Behind(cfg, Restored(cfg, Recent(samples[k..], now - FreshnessWindow(cfg)), now), Fold(cfg, samples))
  {
    RestoredAtMost(cfg, samples, k, now);
    RestoredSane(cfg, samples, k, now);
    hide Fold, Recent, Restored, AtMost, Behind, InTimeOrder;
    AtMostBehind(cfg, Restored(cfg, Recent(samples[k..], now - FreshnessWindow(cfg)), now), Fold(cfg, samples));
  }

  lemma StepBehind(cfg: Config, life: Life, k: nat, e: Event)
    requires InTimeOrder(life.samples) && k <= |life.samples| && life.stored == life.samples[k..]
    requires e.Took? || e.Missed? ==> InTimeOrder(life.samples + [e.sample])
    requires e.Missed? ==> Sane(cfg, life.guard, life.samples) && Harmless(cfg, life.guard, e.sample)
    requires e.Restarted? || (e.Took? && IsFast(e.sample)) || Behind(cfg, life.guard, Fold(cfg, life.samples))
    ensures Behind(cfg, Step(cfg, life, e).guard, Fold(cfg, Step(cfg, life, e).samples))
  {
    hide Fold, Behind, InTimeOrder, IsFast, Harmless, Apply, Recent, Restored, Select, Sane, FreshnessWindow;
    match e
    case Took(s) => SampleBehind(cfg, life, s);
    case Missed(s) => MissBehind(cfg, life, s);
    case Restarted(now) => RestoredBehind(cfg, life.samples, k, now);
    case Pruned(_) =>
  }

  lemma {:induction false} RunBehind(cfg: Config, events: seq<Event>)
    requires InTimeOrder(Run(cfg, events).samples) && HarmlessMisses(cfg, events)
    ensures Behind(cfg, Run(cfg, events).guard, Fold(cfg, Run(cfg, events).samples))
  {
    if events == [] {
      NothingYet(cfg);
    } else {
      hide Fold, Behind, InTimeOrder, IsFast, Harmless, Step, Sane;
      var n := |events| - 1;
      var front, e := events[..n], events[n];
      StepOrdered(cfg, Run(cfg, front), e);
      var k := StoredSuffix(cfg, front);
      RunSane(cfg, front);
      if e.Pruned? || e.Missed? || (e.Took? && !IsFast(e.sample)) { RunBehind(cfg, front); }
      StepBehind(cfg, Run(cfg, front), k, e);
    }
  }

  /** A guard that restarts and misses saves suppresses nothing that one with every sample ever stored
      would not, as long as what it missed since the last restart or fast sample was harmless to it. */
  lemma MissesSound(cfg: Config, events: seq<Event>)
    requires InTimeOrder(Run(cfg, events).samples) && HarmlessMisses(cfg, events)
    ensures Run(cfg, events).guard.degraded ==> Slowed(cfg, Run(cfg, events).samples)
  {
    RunBehind(cfg, events);
    DegradedExactly(cfg, Run(cfg, events).samples);
    hide Run, Fold, Slowed, HarmlessMisses, InTimeOrder;
  }

  // ----- exactly when missing a sample is harmless -----

  /** The guard after further samples. */
  function Follow(cfg: Config, g: Guard, more: seq<Sample>): Guard {
    if more == [] then g else Apply(cfg, Follow(cfg, g, more[..|more| - 1]), more[|more| - 1])
  }

  lemma {:induction false} FoldFollow(cfg: Config, samples: seq<Sample>, more: seq<Sample>)
    ensures Fold(cfg, samples + more) == Follow(cfg, Fold(cfg, samples), more)
  {
    if more == [] {
      assert samples + more == samples;
    } else {
      var n := |more| - 1;
      hide Apply;
      assert samples + more == (samples + more[..n]) + [more[n]];
      FoldFollow(cfg, samples, more[..n]);
      FoldPush(cfg, samples + more[..n], more[n]);
    }
  }

  /** Whatever samples follow, the guard is degraded only if one with every sample ever stored is. */
  ghost predicate StaysSound(cfg: Config, guard: Guard, samples: seq<Sample>) {
    forall more :: InTimeOrder(samples + more) ==>
      Follow(cfg, guard, more).degraded ==> Fold(cfg, samples + more).degraded
  }

  lemma OrderedFront(samples: seq<Sample>, more: seq<Sample>)
    requires more != [] && InTimeOrder(samples + more)
    ensures var n := |more| - 1;
      InTimeOrder(samples + more[..n]) && InTimeOrder((samples + more[..n]) + [more[n]])
  {
    var n := |more| - 1;
    assert samples + more == (samples + more[..n]) + [more[n]];
    StillOrdered(samples + more[..n], more[n]);
  }

  lemma {:induction false} BehindFollows(cfg: Config, guard: Guard, samples: seq<Sample>, more: seq<Sample>)
    requires Behind(cfg, guard, Fold(cfg, samples)) && InTimeOrder(samples + more)
    ensures Behind(cfg, Follow(cfg, guard, more), Fold(cfg, samples + more))
  {
    if more == [] {
      assert samples + more == samples;
    } else {
      hide Fold, Apply, Behind, InTimeOrder;
      var n := |more| - 1;
      var front, s := samples + more[..n], more[n];
      assert samples + more == front + [s];
      OrderedFront(samples, more);
      BehindFollows(cfg, guard, samples, more[..n]);
      SampleBehind(cfg, Life(Follow(cfg, guard, more[..n]), front, front), s);
    }
  }

  /** Slow samples, all at one time. */
  function SlowAt(at: Time, n: nat): seq<Sample> {
    seq(n, _ => Sample(at, false, true, 0, 200))
  }

  lemma {:induction false} SlowFollow(cfg: Config, g: Guard, at: Time, n: nat)
    requires g.lastSample.Some? && at - g.lastSample.value <= MaxStreakGap(cfg)
    ensures var after := Follow(cfg, g, SlowAt(at, n));
      && after.slowStreak == g.slowStreak + n
      && (n > 0 ==> after.lastSample == Some(at))
      && (after.degraded <==> g.degraded || (n > 0 && g.slowStreak + n >= Limit(cfg)))
  {
    if n > 0 {
      SlowFollow(cfg, g, at, n - 1);
      assert SlowAt(at, n)[..n - 1] == SlowAt(at, n - 1);
    }
  }

  lemma SlowOrdered(samples: seq<Sample>, n: nat)
    requires InTimeOrder(samples) && samples != []
    ensures InTimeOrder(samples + SlowAt(samples[|samples| - 1].at, n))
  {
  }

  /** A guard that is not behind can be led to overstate: by nothing more, or by as many slow samples as
      its streak still needs. */
  lemma AheadOverstates(cfg: Config, guard: Guard, samples: seq<Sample>)
    requires InTimeOrder(samples) && Sane(cfg, guard, samples) && !Behind(cfg, guard, Fold(cfg, samples))
    ensures !StaysSound(cfg, guard, samples)
  {
    var full := Fold(cfg, samples);
    LastOf(cfg, samples);
    FoldSane(cfg, samples);
    if guard.degraded && !full.degraded {
      assert samples + [] == samples && Follow(cfg, guard, []) == guard;
    } else {
      hide Fold, Follow, InTimeOrder;
      var at := samples[|samples| - 1].at;
      var more := SlowAt(at, Limit(cfg) - guard.slowStreak);
      SlowOrdered(samples, |more|);
      SlowFollow(cfg, guard, at, |more|);
      SlowFollow(cfg, full, at, |more|);
      FoldFollow(cfg, samples, more);
    }
  }

  /** For every run, misses, restarts and pruning included: the guard stays sound whatever follows if and
      only if it is behind one that saw every sample ever stored. */
  lemma StaysSoundExactly(cfg: Config, events: seq<Event>)
    requires InTimeOrder(Run(cfg, events).samples)
    ensures var life := Run(cfg, events);
      StaysSound(cfg, life.guard, life.samples) <==> Behind(cfg, life.guard, Fold(cfg, life.samples))
  {
    var life := Run(cfg, events);
    RunSane(cfg, events);
    hide Run, Fold, Follow, InTimeOrder, Sane;
    if Behind(cfg, life.guard, Fold(cfg, life.samples)) {
      forall more | InTimeOrder(life.samples + more)
        ensures Follow(cfg, life.guard, more).degraded ==> Fold(cfg, life.samples + more).degraded
      {
        BehindFollows(cfg, life.guard, life.samples, more);
      }
    } else {
      AheadOverstates(cfg, life.guard, life.samples);
    }
  }

  lemma HarmlessBehind(cfg: Config, g: Guard, s: Sample)
    requires (g.lastSample.None? ==> g.slowStreak == 0) && (g.lastSample.Some? ==> g.lastSample.value <= s.at)
    ensures Behind(cfg, g, Apply(cfg, g, s)) <==> Harmless(cfg, g, s)
  {
  }

  /** A guard that has missed nothing so far and now misses a sample stays sound whatever follows if and
      only if the sample was harmless to it, which its own fields tell. */
  lemma HarmlessExactly(cfg: Config, events: seq<Event>, s: Sample)
    requires InTimeOrder(Run(cfg, events).samples + [s])
    requires Run(cfg, events).guard == Fold(cfg, Run(cfg, events).samples)
    ensures var after := Run(cfg, events + [Missed(s)]);
      StaysSound(cfg, after.guard, after.samples) <==> Harmless(cfg, Run(cfg, events).guard, s)
  {
    var before, all := Run(cfg, events), events + [Missed(s)];
    assert all[..|events|] == events;
    assert Run(cfg, all) == Step(cfg, before, Missed(s));
    StillOrdered(before.samples, s);
    RunSane(cfg, events);
    FoldPush(cfg, before.samples, s);
    hide Run, Fold, StaysSound, InTimeOrder, Harmless, Behind, Apply;
    HarmlessBehind(cfg, before.guard, s);
    StaysSoundExactly(cfg, all);
  }

  // ----- where it fails -----

  const TWO_SLOW := Config(true, 15 * MINUTE, 30 * SECOND, 2)

  function SlowOne(at: Time): Sample { Sample(at, false, true, 0, 200) }
  function FastOne(at: Time): Sample { Sample(at, true, false, 200, 200) }
  function Unavailable(at: Time): Sample { Sample(at, false, false, 503, 200) }

  const FAST_MISSED: seq<Event> := [Took(SlowOne(0)), Took(SlowOne(30 * SECOND)), Missed(FastOne(60 * SECOND))]

  const STATUS_MISSED: seq<Event> := [Took(SlowOne(0)), Missed(Unavailable(30 * SECOND)), Took(SlowOne(60 * SECOND))]

  lemma RunThree(cfg: Config, e: seq<Event>)
    requires |e| == 3
    ensures Run(cfg, e) == Step(cfg, Step(cfg, Step(cfg, Life(IDLE, [], []), e[0]), e[1]), e[2])
  {
    hide Step;
    assert e[..2][..1] == e[..1] && e[..1][..0] == [];
    assert Run(cfg, e[..1]) == Step(cfg, Run(cfg, e[..1][..0]), e[0]);
    assert Run(cfg, e[..2]) == Step(cfg, Run(cfg, e[..2][..1]), e[1]);
  }

  lemma FoldThree(cfg: Config, a: Sample, b: Sample, c: Sample)
    ensures Fold(cfg, [a, b, c]) == Apply(cfg, Apply(cfg, Apply(cfg, IDLE, a), b), c)
  {
    hide Apply;
    FoldPush(cfg, [], a);
    FoldPush(cfg, [a], b);
    FoldPush(cfg, [a, b], c);
    assert [] + [a] == [a] && [a] + [b] == [a, b] && [a, b] + [c] == [a, b, c];
  }

  /** A recovery that is stored and not reported leaves the guard degraded. */
  lemma MissedRecovery()
    ensures var life := Run(TWO_SLOW, FAST_MISSED);
      InTimeOrder(life.samples) && life.guard.degraded && !Slowed(TWO_SLOW, life.samples)
  {
    RunThree(TWO_SLOW, FAST_MISSED);
    var life := Run(TWO_SLOW, FAST_MISSED);
    assert life.samples == [SlowOne(0), SlowOne(30 * SECOND), FastOne(60 * SECOND)];
    FoldThree(TWO_SLOW, SlowOne(0), SlowOne(30 * SECOND), FastOne(60 * SECOND));
    hide Run, Fold, Slowed;
    DegradedExactly(TWO_SLOW, life.samples);
  }

  /** An unexpected status that is stored and not reported leaves a streak unbroken. */
  lemma MissedStatus()
    ensures var life := Run(TWO_SLOW, STATUS_MISSED);
      InTimeOrder(life.samples) && life.guard.degraded && !Slowed(TWO_SLOW, life.samples)
  {
    RunThree(TWO_SLOW, STATUS_MISSED);
    var life := Run(TWO_SLOW, STATUS_MISSED);
    assert life.samples == [SlowOne(0), Unavailable(30 * SECOND), SlowOne(60 * SECOND)];
    FoldThree(TWO_SLOW, SlowOne(0), Unavailable(30 * SECOND), SlowOne(60 * SECOND));
    hide Run, Fold, Slowed;
    DegradedExactly(TWO_SLOW, life.samples);
  }
}
