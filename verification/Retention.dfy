/** What a retention pass leaves in each table, in terms of the times themselves. */
module Retention {
  import opened Basics
  import opened Sequences
  import opened Storage
  import opened Rollups
  import opened OutcomeRuns
  import opened Compaction

  lemma MinuteHolds(t: Time)
    ensures MinuteBucket()(t) <= t < MinuteBucket()(t) + MINUTE && MinuteBucket()(t) % MINUTE == 0
  {
    assert MINUTE == 60_000_000_000;
  }

  lemma HourHolds(t: Time)
    ensures HourlyBucket()(t) <= t < HourlyBucket()(t) + HOUR && HourlyBucket()(t) % HOUR == 0
  {
    assert HOUR == 3_600_000_000_000;
  }

  lemma DayHolds(t: Time)
    ensures DailyBucket()(t) <= t < DailyBucket()(t) + DAY && DailyBucket()(t) % DAY == 0
  {
    assert DAY == 86_400_000_000_000;
  }

  /** A bucket is the UTC minute, hour or day that holds the time. */
  lemma BucketsHold(t: Time)
    ensures MinuteBucket()(t) <= t < MinuteBucket()(t) + MINUTE && MinuteBucket()(t) % MINUTE == 0
    ensures HourlyBucket()(t) <= t < HourlyBucket()(t) + HOUR && HourlyBucket()(t) % HOUR == 0
    ensures DailyBucket()(t) <= t < DailyBucket()(t) + DAY && DailyBucket()(t) % DAY == 0
  {
    hide MinuteBucket, HourlyBucket, DailyBucket;
    MinuteHolds(t);
    HourHolds(t);
    DayHolds(t);
  }

  ghost predicate HasBucket(table: seq<RollupRow>, m: MonitorId, bucket: Time) {
    exists k :: 0 <= k < |table| && table[k].monitor == m && table[k].bucket == bucket
  }

  /** Some row of the monitor is older than the cutoff and falls into the bucket. */
  ghost predicate Falls(source: seq<RollupRow>, bucketOf: Time -> Time, cutoff: Time, m: MonitorId, bucket: Time) {
    exists k :: 0 <= k < |source| && source[k].monitor == m && source[k].bucket < cutoff
                && bucketOf(source[k].bucket) == bucket
  }

  lemma UpsertBuckets(table: seq<RollupRow>, row: RollupRow, m: MonitorId, bucket: Time)
    ensures HasBucket(Upsert(table, row), m, bucket)
            <==> HasBucket(table, m, bucket) || (row.monitor == m && row.bucket == bucket)
  {
    hide Add;
    var after := Upsert(table, row);
    assert forall k :: 0 <= k < |table| ==> after[k].monitor == table[k].monitor && after[k].bucket == table[k].bucket;
    if |after| > |table| { assert after[|table|] == row; }
  }

  lemma FallsPush(
    source: seq<RollupRow>, row: RollupRow, bucketOf: Time -> Time, cutoff: Time, m: MonitorId, bucket: Time)
    ensures Falls(source + [row], bucketOf, cutoff, m, bucket)
            <==> Falls(source, bucketOf, cutoff, m, bucket)
                 || (row.monitor == m && row.bucket < cutoff && bucketOf(row.bucket) == bucket)
  {
    var all := source + [row];
    assert all[|source|] == row && forall k :: 0 <= k < |source| ==> all[k] == source[k];
  }

  lemma {:induction false} RollupBuckets(
    target: seq<RollupRow>, source: seq<RollupRow>, bucketOf: Time -> Time, cutoff: Time, m: MonitorId, bucket: Time)
    ensures HasBucket(RollupInto(target, source, bucketOf, cutoff), m, bucket)
            <==> HasBucket(target, m, bucket) || Falls(source, bucketOf, cutoff, m, bucket)
  {
    if source != [] {
      var n := |source| - 1;
      assert source == source[..n] + [source[n]];
      hide Upsert, HasBucket, Falls;
      RollupBuckets(target, source[..n], bucketOf, cutoff, m, bucket);
      FallsPush(source[..n], source[n], bucketOf, cutoff, m, bucket);
      UpsertBuckets(RollupInto(target, source[..n], bucketOf, cutoff), Rebucketed(source[n], bucketOf), m, bucket);
    } else {
      assert !Falls(source, bucketOf, cutoff, m, bucket);
    }
  }

  lemma KeptBuckets(table: seq<RollupRow>, cutoff: Time, m: MonitorId, bucket: Time)
    ensures HasBucket(Select(NotBefore(cutoff), table), m, bucket) <==> HasBucket(table, m, bucket) && bucket >= cutoff
  {
    var kept := Select(NotBefore(cutoff), table);
    if HasBucket(kept, m, bucket) {
      var k :| 0 <= k < |kept| && kept[k].monitor == m && kept[k].bucket == bucket;
      assert kept[k] in table && NotBefore(cutoff)(kept[k]);
      var i :| 0 <= i < |table| && table[i] == kept[k];
    }
    if HasBucket(table, m, bucket) && bucket >= cutoff {
      var i :| 0 <= i < |table| && table[i].monitor == m && table[i].bucket == bucket;
      assert NotBefore(cutoff)(table[i]) && table[i] in kept;
      var k :| 0 <= k < |kept| && kept[k] == table[i];
    }
  }

  // ----- a whole pass -----

  /** Something older than its retention, by its own time, falls into the bucket of this size. */
  ghost predicate Moves(older: Time -> bool, r: Compaction.Retention, now: Time, size: Time, bucket: Time)
    requires size != 0
  {
    !r.forever && exists t :: older(t) && t < now - r.duration && t - t % size == bucket
  }

  ghost predicate RawAt(t: Tables, m: MonitorId, at: Time) {
    exists k :: 0 <= k < |t.raw| && t.raw[k].monitor == m && t.raw[k].at == at
  }

  ghost predicate MinuteBefore(t: Tables, policy: Policy, now: Time, m: MonitorId, bucket: Time) {
    HasBucket(t.minute, m, bucket) || Moves(at => RawAt(t, m, at), policy.probeResults, now, MINUTE, bucket)
  }

  ghost predicate HourBefore(t: Tables, policy: Policy, now: Time, m: MonitorId, bucket: Time) {
    || HasBucket(t.hourly, m, bucket)
    || Moves(b => MinuteBefore(t, policy, now, m, b), policy.minuteRollups, now, HOUR, bucket)
  }

  ghost predicate DayBefore(t: Tables, policy: Policy, now: Time, m: MonitorId, bucket: Time) {
    || HasBucket(t.daily, m, bucket)
    || Moves(b => HourBefore(t, policy, now, m, b), policy.hourlyRollups, now, DAY, bucket)
  }

  predicate Recent(r: Compaction.Retention, now: Time, at: Time) {
    r.forever || at >= now - r.duration
  }

  /** Rows of a table as the times they fall from. */
  lemma FallsMoves(
    source: seq<RollupRow>, bucketOf: Time -> Time, size: Time, older: Time -> bool, r: Compaction.Retention,
    now: Time, m: MonitorId, bucket: Time)
    requires size != 0 && !r.forever && forall t :: bucketOf(t) == t - t % size
    requires forall t :: older(t) <==> HasBucket(source, m, t)
    ensures Falls(source, bucketOf, now - r.duration, m, bucket) <==> Moves(older, r, now, size, bucket)
  {
    if Falls(source, bucketOf, now - r.duration, m, bucket) {
      var k :| 0 <= k < |source| && source[k].monitor == m && source[k].bucket < now - r.duration
               && bucketOf(source[k].bucket) == bucket;
      assert older(source[k].bucket);
    }
    if Moves(older, r, now, size, bucket) {
      var t :| older(t) && t < now - r.duration && t - t % size == bucket;
      var k :| 0 <= k < |source| && source[k].monitor == m && source[k].bucket == t;
      assert bucketOf(source[k].bucket) == bucket;
    }
  }

  lemma RawBuckets(t: Tables, m: MonitorId, at: Time)
    ensures HasBucket(AsRows(t.raw), m, at) <==> RawAt(t, m, at)
  {
    var rows := AsRows(t.raw);
    assert forall k :: 0 <= k < |rows| ==> rows[k].monitor == t.raw[k].monitor && rows[k].bucket == t.raw[k].at;
  }

  /** The tables after the first, the first two and the first three steps. */
  function Step1(t: Tables, policy: Policy, now: Time): Tables {
    if policy.probeResults.forever then t else PruneRaw(t, now - policy.probeResults.duration)
  }

  function Step2(t: Tables, policy: Policy, now: Time): Tables {
    var t1 := Step1(t, policy, now);
    if policy.minuteRollups.forever then t1 else PruneMinute(t1, now - policy.minuteRollups.duration)
  }

  function Step3(t: Tables, policy: Policy, now: Time): Tables {
    var t2 := Step2(t, policy, now);
    if policy.hourlyRollups.forever then t2 else PruneHourly(t2, now - policy.hourlyRollups.duration)
  }

  lemma FirstStep(t: Tables, policy: Policy, now: Time, m: MonitorId, bucket: Time)
    ensures HasBucket(Step1(t, policy, now).minute, m, bucket) <==> MinuteBefore(t, policy, now, m, bucket)
    ensures Step1(t, policy, now).hourly == t.hourly && Step1(t, policy, now).daily == t.daily
  {
    var r := policy.probeResults;
    if !r.forever {
      forall at ensures RawAt(t, m, at) <==> HasBucket(AsRows(t.raw), m, at) { RawBuckets(t, m, at); }
      hide HasBucket, Falls, Moves, RawAt, RollupInto, AsRows, Select, CompactRawOutcomeRuns;
      RollupBuckets(t.minute, AsRows(t.raw), MinuteBucket(), now - r.duration, m, bucket);
      FallsMoves(AsRows(t.raw), MinuteBucket(), MINUTE, at => RawAt(t, m, at), r, now, m, bucket);
    }
  }

  lemma SecondStep(t: Tables, policy: Policy, now: Time, m: MonitorId, bucket: Time)
    ensures var t2 := Step2(t, policy, now);
      && (HasBucket(t2.minute, m, bucket)
          <==> MinuteBefore(t, policy, now, m, bucket) && Recent(policy.minuteRollups, now, bucket))
      && (HasBucket(t2.hourly, m, bucket) <==> HourBefore(t, policy, now, m, bucket))
      && t2.daily == t.daily
  {
    var r, t1 := policy.minuteRollups, Step1(t, policy, now);
    forall b ensures HasBucket(t1.minute, m, b) <==> MinuteBefore(t, policy, now, m, b) {
      FirstStep(t, policy, now, m, b);
    }
    FirstStep(t, policy, now, m, bucket);
    hide HasBucket, Falls, RollupInto, Select, Step1, MinuteBefore;
    if !r.forever {
      KeptBuckets(t1.minute, now - r.duration, m, bucket);
      RollupBuckets(t1.hourly, t1.minute, HourlyBucket(), now - r.duration, m, bucket);
      FallsMoves(t1.minute, HourlyBucket(), HOUR, b => MinuteBefore(t, policy, now, m, b), r, now, m, bucket);
    }
  }

  lemma ThirdStep(t: Tables, policy: Policy, now: Time, m: MonitorId, bucket: Time)
    ensures var t3 := Step3(t, policy, now);
      && t3.minute == Step2(t, policy, now).minute
      && (HasBucket(t3.hourly, m, bucket)
          <==> HourBefore(t, policy, now, m, bucket) && Recent(policy.hourlyRollups, now, bucket))
      && (HasBucket(t3.daily, m, bucket) <==> DayBefore(t, policy, now, m, bucket))
  {
    var r, t2 := policy.hourlyRollups, Step2(t, policy, now);
    forall b ensures HasBucket(t2.hourly, m, b) <==> HourBefore(t, policy, now, m, b) {
      SecondStep(t, policy, now, m, b);
    }
    SecondStep(t, policy, now, m, bucket);
    hide HasBucket, Falls, RollupInto, Select, Step2, HourBefore;
    if !r.forever {
      KeptBuckets(t2.hourly, now - r.duration, m, bucket);
      RollupBuckets(t2.daily, t2.hourly, DailyBucket(), now - r.duration, m, bucket);
      FallsMoves(t2.hourly, DailyBucket(), DAY, b => HourBefore(t, policy, now, m, b), r, now, m, bucket);
    }
  }

  lemma RawLeft(t: Tables, policy: Policy, now: Time, p: ProbeRow)
    ensures p in RollupAndPrune(t, policy, now).raw <==> p in t.raw && Recent(policy.probeResults, now, p.at)
  {
    hide RollupInto, CompactRawOutcomeRuns;
    assert KeptRaw(now - policy.probeResults.duration)(p) <==> p.at >= now - policy.probeResults.duration;
  }

  lemma RunsLeft(t: Tables, policy: Policy, now: Time, r: RunRow)
    ensures r in RollupAndPrune(t, policy, now).runs
            <==> && Recent(policy.dailyRollups, now, r.endedAt)
                 && r in (if policy.probeResults.forever then t.runs
                          else CompactRawOutcomeRuns(t.runs, t.raw, now - policy.probeResults.duration))
  {
    hide RollupInto, CompactRawOutcomeRuns;
    assert EndsNotBefore(now - policy.dailyRollups.duration)(r) <==> r.endedAt >= now - policy.dailyRollups.duration;
  }

  lemma LastPrune(t: Tables, policy: Policy, now: Time)
    ensures RollupAndPrune(t, policy, now)
            == if policy.dailyRollups.forever then Step3(t, policy, now)
               else PruneDaily(Step3(t, policy, now), now - policy.dailyRollups.duration)
  {
    hide PruneRaw, PruneMinute, PruneHourly, PruneDaily;
  }

  lemma FourthStep(t: Tables, policy: Policy, now: Time, m: MonitorId, bucket: Time)
    ensures var after := RollupAndPrune(t, policy, now);
      && (HasBucket(after.minute, m, bucket)
          <==> MinuteBefore(t, policy, now, m, bucket) && Recent(policy.minuteRollups, now, bucket))
      && (HasBucket(after.hourly, m, bucket)
          <==> HourBefore(t, policy, now, m, bucket) && Recent(policy.hourlyRollups, now, bucket))
      && (HasBucket(after.daily, m, bucket)
          <==> DayBefore(t, policy, now, m, bucket) && Recent(policy.dailyRollups, now, bucket))
  {
    LastPrune(t, policy, now);
    hide RollupAndPrune, Step3, Step2, HasBucket, DayBefore, HourBefore, MinuteBefore, Select;
    SecondStep(t, policy, now, m, bucket);
    ThirdStep(t, policy, now, m, bucket);
    if !policy.dailyRollups.forever {
      KeptBuckets(Step3(t, policy, now).daily, now - policy.dailyRollups.duration, m, bucket);
    }
  }

  /** After a pass each table holds just what is no older than its own retention, what was too old for it
      having moved to the next: probes to their minute, minutes to their hour, hours to their day. */
  lemma PassLeaves(t: Tables, policy: Policy, now: Time, m: MonitorId, bucket: Time)
    ensures var after := RollupAndPrune(t, policy, now);
      && (forall p :: p in after.raw <==> p in t.raw && Recent(policy.probeResults, now, p.at))
      && (HasBucket(after.minute, m, bucket)
          <==> MinuteBefore(t, policy, now, m, bucket) && Recent(policy.minuteRollups, now, bucket))
      && (HasBucket(after.hourly, m, bucket)
          <==> HourBefore(t, policy, now, m, bucket) && Recent(policy.hourlyRollups, now, bucket))
      && (HasBucket(after.daily, m, bucket)
          <==> DayBefore(t, policy, now, m, bucket) && Recent(policy.dailyRollups, now, bucket))
      && (forall r :: r in after.runs ==> Recent(policy.dailyRollups, now, r.endedAt))
  {
    hide *;
    forall p ensures p in RollupAndPrune(t, policy, now).raw <==> p in t.raw && Recent(policy.probeResults, now, p.at) {
      RawLeft(t, policy, now, p);
    }
    forall r | r in RollupAndPrune(t, policy, now).runs ensures Recent(policy.dailyRollups, now, r.endedAt) {
      RunsLeft(t, policy, now, r);
    }
    FourthStep(t, policy, now, m, bucket);
  }
}
