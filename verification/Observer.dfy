/** The observer up/down machine, and the down intervals read back from the transitions it emits. */
module Observer {
  import opened Basics
  import opened Intervals

  /** NoStatus is the empty status of an observer never checked. */
  datatype ObserverStatus = NoStatus | ObserverUp | ObserverDown

  datatype ObserverState = ObserverState(
    status: ObserverStatus, consecutiveFailures: int, consecutiveSuccesses: int,
    lastCheckedAt: Option<Time>, lastSuccessAt: Option<Time>, lastFailureAt: Option<Time>)

  const NO_STATE := ObserverState(NoStatus, 0, 0, None, None, None)

  datatype Transition = Transition(status: ObserverStatus, at: Time)

  /** One stored check, with the thresholds configured when it was made. */
  datatype Check = Check(healthy: bool, at: Time, failureThreshold: int, recoveryThreshold: int)

  // ----- one check -----

  method Quorum(results: seq<bool>, requiredSuccesses: int) returns (healthy: bool)
    ensures healthy <==> multiset(results)[true] >= requiredSuccesses
  {
    var successes := 0;
    for k := 0 to |results|
      invariant successes == multiset(results[..k])[true]
    {
      assert results[..k + 1] == results[..k] + [results[k]];
      if results[k] {
        successes := successes + 1;
      }
    }
    assert results[..|results|] == results;
    healthy := successes >= requiredSuccesses;
  }

  function Evaluate(previous: ObserverState, previousKnown: bool, c: Check): (ObserverState, Option<ObserverStatus>) {
    var failureThreshold := if c.failureThreshold <= 0 then 1 else c.failureThreshold;
    var recoveryThreshold := if c.recoveryThreshold <= 0 then 1 else c.recoveryThreshold;
    var started := if previous.status == NoStatus then previous.(status := ObserverUp) else previous;
    if c.healthy then
      var next := started.(lastCheckedAt := Some(c.at), lastSuccessAt := Some(c.at), consecutiveFailures := 0,
                           consecutiveSuccesses := started.consecutiveSuccesses + 1);
      if next.status == ObserverDown && next.consecutiveSuccesses >= recoveryThreshold then
        (next.(status := ObserverUp), Some(ObserverUp))
      else if !previousKnown && next.consecutiveSuccesses >= recoveryThreshold then
        (next.(status := ObserverUp), None)
      else
        (next, None)
    else
      var next := started.(lastCheckedAt := Some(c.at), lastFailureAt := Some(c.at), consecutiveSuccesses := 0,
                           consecutiveFailures := started.consecutiveFailures + 1);
      if next.status != ObserverDown && next.consecutiveFailures >= failureThreshold then
        (next.(status := ObserverDown), Some(ObserverDown))
      else
        (next, None)
  }

  // ----- a run of checks -----

  function StateAfter(checks: seq<Check>): ObserverState {
    if checks == [] then NO_STATE
    else Evaluate(StateAfter(checks[..|checks| - 1]), |checks| > 1, checks[|checks| - 1]).0
  }

  function Emitted(checks: seq<Check>): seq<Transition> {
    if checks == [] then []
    else
      var n := |checks| - 1;
      var emitted := Evaluate(StateAfter(checks[..n]), n > 0, checks[n]).1;
      Emitted(checks[..n]) + if emitted.Some? then [Transition(emitted.value, checks[n].at)] else []
  }

  /** The status the last check at or before t left behind; NoStatus before the first check. */
  function StatusAt(checks: seq<Check>, t: Time): ObserverStatus {
    if checks == [] then NoStatus
    else if checks[|checks| - 1].at <= t then StateAfter(checks).status
    else StatusAt(checks[..|checks| - 1], t)
  }

  ghost predicate Chronological(checks: seq<Check>) {
    forall i, j :: 0 <= i < j < |checks| ==> checks[i].at <= checks[j].at
  }

  /** Emitted transitions alternate, starting with DOWN; the status tells how many there were. */
  lemma {:induction false} TransitionsAlternate(checks: seq<Check>)
    ensures StateAfter(checks).status == ObserverDown <==> |Emitted(checks)| % 2 == 1
    ensures forall k :: 0 <= k < |Emitted(checks)| ==>
      Emitted(checks)[k].status == if k % 2 == 0 then ObserverDown else ObserverUp
  {
    if checks != [] {
      TransitionsAlternate(checks[..|checks| - 1]);
    }
  }

  // ----- when it changes, counted on the checks themselves -----

  /** Checks of this outcome since the last one of the other. */
  function InARow(checks: seq<Check>, healthy: bool): nat {
    if checks == [] || checks[|checks| - 1].healthy != healthy then 0
    else InARow(checks[..|checks| - 1], healthy) + 1
  }

  /** The last check of this outcome. */
  function LastAt(checks: seq<Check>, healthy: bool): Option<Time> {
    if checks == [] then None
    else if checks[|checks| - 1].healthy == healthy then Some(checks[|checks| - 1].at)
    else LastAt(checks[..|checks| - 1], healthy)
  }

  /** A threshold below one reads as one. */
  predicate Reaches(count: int, threshold: int) {
    count >= threshold && count >= 1
  }

  /** Counters and times of the state, read off the checks. */
  lemma {:induction false} StateReadsOff(checks: seq<Check>)
    ensures var s := StateAfter(checks);
      && s.consecutiveFailures == InARow(checks, false) && s.consecutiveSuccesses == InARow(checks, true)
      && s.lastCheckedAt == (if checks == [] then None else Some(checks[|checks| - 1].at))
      && s.lastFailureAt == LastAt(checks, false) && s.lastSuccessAt == LastAt(checks, true)
      && (s.status == NoStatus <==> checks == [])
  {
    if checks != [] {
      StateReadsOff(checks[..|checks| - 1]);
    }
  }

  /** The check takes the observer down: it was not, the check is unhealthy, and so were enough before. */
  ghost predicate GoesDown(checks: seq<Check>, n: nat)
    requires n < |checks|
  {
    && StateAfter(checks[..n]).status != ObserverDown && !checks[n].healthy
    && Reaches(InARow(checks[..n + 1], false), checks[n].failureThreshold)
  }

  ghost predicate ComesUp(checks: seq<Check>, n: nat)
    requires n < |checks|
  {
    && StateAfter(checks[..n]).status == ObserverDown && checks[n].healthy
    && Reaches(InARow(checks[..n + 1], true), checks[n].recoveryThreshold)
  }

  /** Over every list of checks, whatever their thresholds: a check emits DOWN exactly when the observer was
      not down and the unhealthy checks since the last healthy one reach its failure threshold, and UP
      exactly when it was down and the healthy ones since the last unhealthy one reach its recovery
      threshold; the status changes with what is emitted and not otherwise. */
  lemma EmitsExactly(checks: seq<Check>, n: nat)
    requires n < |checks|
    ensures var before, after := checks[..n], checks[..n + 1];
      && (GoesDown(checks, n) ==> Emitted(after) == Emitted(before) + [Transition(ObserverDown, checks[n].at)])
      && (ComesUp(checks, n) ==> Emitted(after) == Emitted(before) + [Transition(ObserverUp, checks[n].at)])
      && (!GoesDown(checks, n) && !ComesUp(checks, n) ==> Emitted(after) == Emitted(before))
      && (StateAfter(after).status == ObserverDown
          <==> GoesDown(checks, n) || (StateAfter(before).status == ObserverDown && !ComesUp(checks, n)))
  {
    StateReadsOff(checks[..n]);
    assert checks[..n + 1][..n] == checks[..n];
  }

  // ----- reading the transitions back -----

  datatype Replay = Replay(closed: seq<Interval>, downSince: Option<Time>)

  ghost function ReplayStep(r: Replay, transition: Transition): Replay {
    if transition.status == ObserverDown && r.downSince.None? then r.(downSince := Some(transition.at))
    else if transition.status == ObserverUp && r.downSince.Some? then
      Replay(r.closed + [Interval(r.downSince.value, transition.at)], None)
    else r
  }

  ghost function ReplayOf(transitions: seq<Transition>): Replay {
    if transitions == [] then Replay([], None)
    else ReplayStep(ReplayOf(transitions[..|transitions| - 1]), transitions[|transitions| - 1])
  }

  /** A transition still unpaired stays down through now. */
  ghost function DownIntervals(transitions: seq<Transition>, now: Time): seq<Interval> {
    var r := ReplayOf(transitions);
    r.closed + if r.downSince.Some? then [Interval(r.downSince.value, now)] else []
  }

  method ObserverDownIntervals(transitions: seq<Transition>, now: Time) returns (intervals: seq<Interval>)
    ensures intervals == DownIntervals(transitions, now)
  {
    intervals := [];
    var downSince: Option<Time> := None;
    for k := 0 to |transitions|
      invariant Replay(intervals, downSince) == ReplayOf(transitions[..k])
    {
      assert transitions[..k + 1][..k] == transitions[..k];
      var transition := transitions[k];
      if transition.status == ObserverDown && downSince.None? {
        downSince := Some(transition.at);
      } else if transition.status == ObserverUp && downSince.Some? {
        intervals := intervals + [Interval(downSince.value, transition.at)];
        downSince := None;
      }
    }
    assert transitions[..|transitions|] == transitions;
    if downSince.Some? {
      intervals := intervals + [Interval(downSince.value, now)];
    }
  }

  ghost predicate DownAt(r: Replay, t: Time) {
    t in UnionOf(r.closed) || (r.downSince.Some? && r.downSince.value <= t)
  }

  /** What one more check does to the run and to its replay, in terms of what it emits. */
  lemma OneMoreCheck(front: seq<Check>, c: Check) returns (emitted: Option<ObserverStatus>)
    ensures var was, becomes := StateAfter(front).status, StateAfter(front + [c]).status;
      match emitted
      case None => was == ObserverDown <==> becomes == ObserverDown
      case Some(s) => becomes == s != NoStatus && (s == ObserverDown <==> was != ObserverDown)
    ensures var r := ReplayOf(Emitted(front));
      ReplayOf(Emitted(front + [c])) == if emitted.Some? then ReplayStep(r, Transition(emitted.value, c.at)) else r
  {
    assert (front + [c])[..|front|] == front;
    emitted := Evaluate(StateAfter(front), front != [], c).1;
    if emitted.Some? {
      var transition := Transition(emitted.value, c.at);
      assert Emitted(front + [c]) == Emitted(front) + [transition];
      assert (Emitted(front) + [transition])[..|Emitted(front)|] == Emitted(front);
    } else {
      assert Emitted(front + [c]) == Emitted(front);
    }
  }

  lemma StatusAtPush(front: seq<Check>, c: Check, t: Time)
    ensures StatusAt(front + [c], t) == if c.at <= t then StateAfter(front + [c]).status else StatusAt(front, t)
  {
    assert (front + [c])[..|front|] == front;
  }

  /** Everything replayed happened by the given time. */
  ghost predicate ReplayedBy(r: Replay, bound: Time) {
    && (r.downSince.Some? ==> r.downSince.value <= bound)
    && forall k :: 0 <= k < |r.closed| ==> r.closed[k].end <= bound
  }

  lemma ReplayStepDownAt(r: Replay, transition: Transition, t: Time)
    requires ReplayedBy(r, transition.at)
    requires transition.status == ObserverDown <==> r.downSince.None?
    requires transition.status != NoStatus
    ensures ReplayedBy(ReplayStep(r, transition), transition.at)
    ensures DownAt(ReplayStep(r, transition), t)
            <==> if transition.at <= t then transition.status == ObserverDown else DownAt(r, t)
  {
    UnionOfMember(r.closed, t);
    if r.downSince.Some? {
      UnionOfPush(r.closed, Interval(r.downSince.value, transition.at));
    }
  }

  lemma StillDownAt(r: Replay, bound: Time, t: Time)
    requires ReplayedBy(r, bound) && bound <= t
    ensures DownAt(r, t) <==> r.downSince.Some?
  {
    UnionOfMember(r.closed, t);
  }

  /** Replaying what was emitted recovers the status history, instant by instant. */
  lemma {:induction false} ReplayMatchesStatus(checks: seq<Check>, t: Time)
    requires Chronological(checks)
    ensures var r := ReplayOf(Emitted(checks));
      && (r.downSince.Some? <==> StateAfter(checks).status == ObserverDown)
      && (checks == [] ==> r == Replay([], None))
      && (checks != [] ==> ReplayedBy(r, checks[|checks| - 1].at))
      && (DownAt(r, t) <==> StatusAt(checks, t) == ObserverDown)
  {
    if checks != [] {
      var n := |checks| - 1;
      var front, c := checks[..n], checks[n];
      assert checks == front + [c];
      ReplayMatchesStatus(front, t);
      var emitted := OneMoreCheck(front, c);
      StatusAtPush(front, c, t);
      var r := ReplayOf(Emitted(front));
      assert ReplayedBy(r, c.at) by { if n > 0 { assert front[n - 1].at <= c.at; } }
      if emitted.Some? {
        ReplayStepDownAt(r, Transition(emitted.value, c.at), t);
      } else if c.at <= t {
        StillDownAt(r, c.at, t);
      }
    }
  }

  /** Observer-down time, as accounting sees it, against the machine that was run: an instant below
      now is in it iff the last check at or before that instant left the observer down. */
  lemma ObserverReplay(checks: seq<Check>, now: Time, t: Time)
    requires Chronological(checks) && t < now
    ensures t in UnionOf(DownIntervals(Emitted(checks), now)) <==> StatusAt(checks, t) == ObserverDown
  {
    var r := ReplayOf(Emitted(checks));
    ReplayMatchesStatus(checks, t);
    if r.downSince.Some? {
      UnionOfPush(r.closed, Interval(r.downSince.value, now));
    } else {
      assert r.closed + [] == r.closed;
    }
  }
}
