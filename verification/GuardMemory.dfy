/** How often transfers are sampled, what a restart remembers, and what degradation says of the stored
    samples, in terms of the configured numbers. */
module GuardMemory {
  import opened Basics
  import opened Sequences
  import opened TransferGuard

  // ----- what a restart remembers -----

  /** The samples from the k-th on are those since that time that are among the newest thousand. */
  ghost predicate AreRecent(samples: seq<Sample>, since: Time, k: nat) {
    && k <= |samples|
    && forall i :: 0 <= i < |samples| ==> (i >= k <==> samples[i].at >= since && |samples| - i <= 1000)
  }

  lemma SuffixMembers(samples: seq<Sample>, since: Time, k: nat)
    requires InTimeOrder(samples) && k <= |samples| && Select(NoOlder(since), samples) == samples[k..]
    ensures forall i :: 0 <= i < |samples| ==> (i >= k <==> samples[i].at >= since)
  {
    hide Select, InTimeOrder;
    forall i | 0 <= i < |samples| ensures i >= k <==> samples[i].at >= since {
      if i >= k {
        assert samples[k..][i - k] == samples[i];
        assert samples[i] in Select(NoOlder(since), samples) && NoOlder(since)(samples[i]);
      }
      if samples[i].at >= since {
        MoreSelected(samples, since, i);
      }
    }
  }

  lemma LateSelected(early: seq<Sample>, late: seq<Sample>, since: Time)
    requires forall j :: 0 <= j < |late| ==> NoOlder(since)(late[j])
    ensures |Select(NoOlder(since), early + late)| >= |late|
  {
    SelectAll(NoOlder(since), late);
    hide Select;
    SelectConcat(NoOlder(since), early, late);
  }

  lemma MoreSelected(samples: seq<Sample>, since: Time, i: nat)
    requires InTimeOrder(samples) && i < |samples| && samples[i].at >= since
    ensures |Select(NoOlder(since), samples)| >= |samples| - i
  {
    var late := samples[i..];
    forall j | 0 <= j < |late| ensures NoOlder(since)(late[j]) {
      assert late[j] == samples[i + j];
    }
    LateSelected(samples[..i], late, since);
    assert samples == samples[..i] + late;
  }

  lemma NewestThousand(samples: seq<Sample>, since: Time, k: nat) returns (j: nat)
    requires InTimeOrder(samples) && k <= |samples| && Select(NoOlder(since), samples) == samples[k..]
    ensures j == (if |samples| - k > 1000 then |samples| - 1000 else k)
    ensures Recent(samples, since) == samples[j..]
  {
    j := k;
    SuffixOrdered(samples, k);
    hide Select, InTimeOrder, Sorted;
    SortedAlready(samples[k..]);
    if |samples| - k > 1000 {
      j := |samples| - 1000;
      assert samples[k..][|samples| - k - 1000..] == samples[|samples| - 1000..];
    }
  }

  lemma RecentHolds(samples: seq<Sample>, since: Time) returns (k: nat)
    requires InTimeOrder(samples)
    ensures AreRecent(samples, since, k) && Recent(samples, since) == samples[k..]
  {
    var j := SinceIsSuffix(samples, since);
    hide InTimeOrder, Select, Recent;
    SuffixMembers(samples, since, j);
    k := NewestThousand(samples, since, j);
  }

  lemma TwoIntervals(cfg: Config)
    ensures FreshnessWindow(cfg) == 2 * if cfg.interval > 0 then cfg.interval else 15 * MINUTE
  {
  }

  /** A restart has the guard of exactly those samples that are no older than two intervals, or half an hour
      when none is configured, and among the newest thousand. */
  lemma RestartRemembers(cfg: Config, samples: seq<Sample>, now: Time) returns (k: nat)
    requires InTimeOrder(samples)
    ensures AreRecent(samples, now - 2 * (if cfg.interval > 0 then cfg.interval else 15 * MINUTE), k)
    ensures Restored(cfg, Recent(samples, now - FreshnessWindow(cfg)), now) == Fold(cfg, samples[k..])
  {
    hide *;
    TwoIntervals(cfg);
    k := RecentHolds(samples, now - FreshnessWindow(cfg));
    RestoredIsFold(cfg, samples, now);
  }

  // ----- what degradation says -----

  /** The sample counts as slow: a slow transfer that was not answered by an unexpected status. */
  ghost predicate CountsSlow(s: Sample) {
    s.slow && (s.observedStatus != 0 ==> s.observedStatus == s.expectedStatus)
  }

  /** Some samples in a row, as many as configured or else two, all slow and none later after the one before
      than the interval or else a quarter of an hour, with no successful other sample from the first of
      them on. */
  ghost predicate SlowInARow(cfg: Config, samples: seq<Sample>, i: int, j: int) {
    && 0 <= i < j <= |samples|
    && j - i == (if cfg.consecutiveSlowResults > 0 then cfg.consecutiveSlowResults else 2)
    && (forall k :: i <= k < j ==> CountsSlow(samples[k]))
    && (forall k :: i < k < j ==>
          samples[k].at - samples[k - 1].at <= if cfg.interval > 0 then cfg.interval else 15 * MINUTE)
    && (forall k :: i <= k < |samples| && samples[k].ok ==> CountsSlow(samples[k]))
  }

  /** The replayed guard is degraded exactly when the samples hold such a row. */
  lemma DegradedReads(cfg: Config, samples: seq<Sample>)
    ensures Fold(cfg, samples).degraded <==> exists i, j :: SlowInARow(cfg, samples, i, j)
  {
    DegradedExactly(cfg, samples);
    hide Fold;
    if Slowed(cfg, samples) {
      var i, j :| SlowBlock(cfg, samples, i, j) && j - i >= Limit(cfg) && NoneFastFrom(samples, i);
      assert SlowInARow(cfg, samples, i, i + Limit(cfg));
    }
    if i, j :| SlowInARow(cfg, samples, i, j) {
      assert SlowBlock(cfg, samples, i, j);
      assert NoneFastFrom(samples, i);
    }
  }

  /** So a restart suppresses exactly when the samples it can remember hold such a row. */
  lemma RestartDegraded(cfg: Config, samples: seq<Sample>, now: Time) returns (k: nat)
    requires InTimeOrder(samples)
    ensures AreRecent(samples, now - 2 * (if cfg.interval > 0 then cfg.interval else 15 * MINUTE), k)
    ensures Restored(cfg, Recent(samples, now - FreshnessWindow(cfg)), now).degraded
            <==> exists i, j :: SlowInARow(cfg, samples[k..], i, j)
  {
    k := RestartRemembers(cfg, samples, now);
    DegradedReads(cfg, samples[k..]);
    hide Fold, Restored, Recent, SlowInARow, AreRecent;
  }

  // ----- how often samples are taken -----

  /** A call that may take a sample. */
  datatype Call = Call(scheduled: bool, measured: Sample, cancelled: bool, write: Write)

  /** The guard and the calls whose samples it has seen. */
  datatype Log = Log(guard: Guard, seen: seq<Call>)

  predicate Refused(cfg: Config, g: Guard, c: Call) {
    g.lastSample.Some? && c.measured.at - g.lastSample.value < MinimumInterval(cfg, c.scheduled)
  }

  predicate Finished(c: Call) {
    !c.cancelled && c.write == Write.Stored
  }

  function AfterCalls(cfg: Config, calls: seq<Call>): Log {
    if calls == [] then Log(IDLE, [])
    else
      var before, c := AfterCalls(cfg, calls[..|calls| - 1]), calls[|calls| - 1];
      if Refused(cfg, before.guard, c) || !Finished(c) then before
      else Log(Apply(cfg, before.guard, c.measured), before.seen + [c])
  }

  /** The least time from the sample before to one taken by this call. */
  ghost predicate Apart(cfg: Config, earlier: Call, c: Call) {
    c.measured.at - earlier.measured.at
    >= if c.scheduled then (if cfg.interval > 0 then cfg.interval else 30 * SECOND)
       else (if cfg.incidentInterval > 0 then cfg.incidentInterval else 30 * SECOND)
  }

  lemma {:induction false} LastSeen(cfg: Config, calls: seq<Call>)
    ensures var log := AfterCalls(cfg, calls);
      log.guard.lastSample == if log.seen == [] then None else Some(log.seen[|log.seen| - 1].measured.at)
  {
    if calls != [] {
      LastSeen(cfg, calls[..|calls| - 1]);
    }
  }

  /** Samples the guard sees are apart by what is configured for the later one's kind, and a finished call is
      passed over only when it comes too soon after the last one seen. */
  lemma {:induction false} SamplesApart(cfg: Config, calls: seq<Call>)
    ensures var seen := AfterCalls(cfg, calls).seen;
      forall k :: 0 < k < |seen| ==> Apart(cfg, seen[k - 1], seen[k])
    ensures calls != [] ==>
      var before, after := AfterCalls(cfg, calls[..|calls| - 1]).seen, AfterCalls(cfg, calls).seen;
      var c := calls[|calls| - 1];
      after == if Finished(c) && (before == [] || Apart(cfg, before[|before| - 1], c)) then before + [c] else before
  {
    if calls != [] {
      SamplesApart(cfg, calls[..|calls| - 1]);
      LastSeen(cfg, calls[..|calls| - 1]);
      hide Apply, Finished;
    }
  }
}
