/** What the rows of a retry chain say of the sends they stand for, and that enough passes end every chain. */
module RetryOutcomes {
  import opened Basics
  import opened Sequences
  import opened Storage
  import opened RetryChain

  // ----- the sends behind the rows -----

  /** A send that was stored. */
  datatype Send = Send(
    incident: nat, monitor: MonitorId, provider: int, at: Time, configured: bool, failed: bool)

  /** The sends an event stores: the first ones of an incident, or one retry. */
  function Stored(s: Retrier, e: Event): seq<Send> {
    if !Enabled(s, e) then []
    else
      match e
      case Recorded(incident, m, at, results) =>
        seq(|results|, k requires 0 <= k < |results| =>
          Send(incident, m, results[k].provider, at, true, results[k].failed))
      case Attempted(a) =>
        var row := s.rows[s.listed[0]];
        if a.saved
        then [Send(row.incident, row.monitor, row.provider, a.at, a.configured, !a.configured || a.fails)]
        else []
      case _ => []
  }

  function Sends(policy: Policy, events: seq<Event>): seq<Send> {
    if events == [] then []
    else
      var front := events[..|events| - 1];
      Sends(policy, front) + Stored(After(policy, IDLE, front), events[|events| - 1])
  }

  /** The wait after attempt n: the n-th delay of the list, its last one from then on, none if it is empty. */
  ghost predicate WaitIs(backoff: seq<Time>, n: int, wait: Time) {
    && (backoff == [] ==> wait == 0)
    && (1 <= n <= |backoff| ==> wait == backoff[n - 1])
    && (n > |backoff| > 0 ==> wait == backoff[|backoff| - 1])
  }

  /** The n-th attempt of a chain, as it is stored: retryable exactly when it failed, is not the last allowed
      and its provider is still configured. */
  ghost predicate Tells(policy: Policy, row: Notification, n: int, send: Send) {
    && row.incident == send.incident && row.monitor == send.monitor && row.provider == send.provider
    && row.attemptedAt == send.at && row.attemptNumber == n
    && (row.success <==> !send.failed)
    && (row.retryExhausted <==> send.failed && (n >= policy.maxAttempts || !send.configured))
    && (row.nextRetryAt.Some? <==> send.failed && n < policy.maxAttempts && send.configured)
    && (row.nextRetryAt.Some? ==> WaitIs(policy.backoff, n, row.nextRetryAt.value - send.at))
  }

  /** The rows of the same incident and provider up to and with this one. */
  function Position(rows: seq<Notification>, id: nat): nat
    requires id < |rows|
  {
    |Attempts(rows[..id], rows[id].incident, rows[id].provider)| + 1
  }

  lemma NumberedByPosition(policy: Policy, rows: seq<Notification>, id: nat)
    requires AllChained(policy, rows) && id < |rows|
    ensures rows[id].attemptNumber == Position(rows, id)
  {
    var row := rows[id];
    var c := Attempts(rows, row.incident, row.provider);
    SelectSplit(OfKey(row.incident, row.provider), rows, id);
    assert c[Position(rows, id) - 1] == row;
    assert Chained(policy, c) && Scheduled(policy, c[Position(rows, id) - 1], Position(rows, id));
  }

  ghost predicate TellsAll(policy: Policy, rows: seq<Notification>, sends: seq<Send>) {
    |rows| == |sends| && forall id: nat :: id < |rows| ==> Tells(policy, rows[id], rows[id].attemptNumber, sends[id])
  }

  lemma FirstTells(policy: Policy, incident: nat, m: MonitorId, at: Time, result: SendResult)
    ensures Tells(policy, AlertNotification(incident, m, at, 1, policy, result), 1,
                  Send(incident, m, result.provider, at, true, result.failed))
  {
  }

  lemma RetryTells(policy: Policy, row: Notification, a: Attempt)
    requires row.attemptNumber >= 1
    ensures Tells(policy, RetryRecord(row, policy, a), row.attemptNumber + 1,
                  Send(row.incident, row.monitor, row.provider, a.at, a.configured, !a.configured || a.fails))
  {
  }

  lemma TellsPush(
    policy: Policy, rows: seq<Notification>, sends: seq<Send>, more: seq<Notification>, moreSends: seq<Send>)
    requires TellsAll(policy, rows, sends) && TellsAll(policy, more, moreSends)
    ensures TellsAll(policy, rows + more, sends + moreSends)
  {
    hide Tells;
  }

  lemma StepTells(policy: Policy, s: Retrier, e: Event, sends: seq<Send>)
    requires Sound(policy, s) && TellsAll(policy, s.rows, sends)
    ensures TellsAll(policy, Step(policy, s, e).rows, sends + Stored(s, e))
  {
    hide Sound, ListDueAlertNotificationRetries, Tells, AlertNotification, RetryRecord, TellsAll;
    var next, stored := Step(policy, s, e).rows, Stored(s, e);
    if Enabled(s, e) && e.Recorded? {
      var more := AlertNotifications(e.incident, e.monitor, e.at, 1, policy, e.results);
      forall k: nat | k < |more| ensures Tells(policy, more[k], more[k].attemptNumber, stored[k]) {
        FirstTells(policy, e.incident, e.monitor, e.at, e.results[k]);
      }
      TellsAllIf(policy, more, stored);
      TellsPush(policy, s.rows, sends, more, stored);
    } else if Enabled(s, e) && e.Attempted? && e.attempt.saved {
      ListedFirst(policy, s);
      var row := s.rows[s.listed[0]];
      RetryTells(policy, row, e.attempt);
      RetryScheduled(policy, row, e.attempt);
      TellsAllIf(policy, [RetryRecord(row, policy, e.attempt)], stored);
      TellsPush(policy, s.rows, sends, [RetryRecord(row, policy, e.attempt)], stored);
    } else {
      assert next == s.rows && sends + stored == sends;
    }
  }

  lemma TellsAllIf(policy: Policy, rows: seq<Notification>, sends: seq<Send>)
    requires |rows| == |sends|
    requires forall id: nat :: id < |rows| ==> Tells(policy, rows[id], rows[id].attemptNumber, sends[id])
    ensures TellsAll(policy, rows, sends)
  {
  }

  lemma ListedFirst(policy: Policy, s: Retrier)
    requires Sound(policy, s) && s.listed != []
    ensures s.listed[0] < |s.rows| && s.rows[s.listed[0]].attemptNumber >= 1
  {
    assert Due(s.rows, s.now, s.listed[0]);
    NumberedByPosition(policy, s.rows, s.listed[0]);
  }

  lemma {:induction false} RunTells(policy: Policy, events: seq<Event>)
    ensures TellsAll(policy, After(policy, IDLE, events).rows, Sends(policy, events))
  {
    if events != [] {
      var front := events[..|events| - 1];
      hide Step, Stored, Sound, Tells;
      RunTells(policy, front);
      RunSound(policy, front);
      StepTells(policy, After(policy, IDLE, front), events[|events| - 1], Sends(policy, front));
    }
  }

  /** Over every run: the rows are the stored sends in order, each numbered by its place in its chain and
      saying of its send whether it succeeded, and whether and when another may follow. */
  lemma RowsTellSends(policy: Policy, events: seq<Event>)
    ensures var rows, sends := After(policy, IDLE, events).rows, Sends(policy, events);
      |rows| == |sends| && forall id: nat :: id < |rows| ==> Tells(policy, rows[id], Position(rows, id), sends[id])
  {
    RunTells(policy, events);
    RunSound(policy, events);
    var rows := After(policy, IDLE, events).rows;
    hide After, Sends, Tells, Position;
    forall id: nat | id < |rows| ensures rows[id].attemptNumber == Position(rows, id) {
      NumberedByPosition(policy, rows, id);
    }
  }

  /** A row is due exactly when its send failed with the provider configured and attempts left, none of the
      same incident and provider follows it, and the wait from that send is over. */
  lemma DueWhenWaited(policy: Policy, events: seq<Event>, now: Time, id: nat)
    requires id < |After(policy, IDLE, events).rows|
    ensures var rows, sends := After(policy, IDLE, events).rows, Sends(policy, events);
      && id < |sends|
      && (Due(rows, now, id) <==>
        && (forall k :: id < k < |sends| ==> sends[k].incident != sends[id].incident
                                             || sends[k].provider != sends[id].provider)
        && sends[id].failed && sends[id].configured && Position(rows, id) < policy.maxAttempts
        && exists wait :: WaitIs(policy.backoff, Position(rows, id), wait) && sends[id].at + wait <= now)
  {
    RowsTellSends(policy, events);
    var rows, sends := After(policy, IDLE, events).rows, Sends(policy, events);
    hide After, Sends, WaitIs;
    assert Tells(policy, rows[id], Position(rows, id), sends[id]);
    NewestBySends(policy, rows, sends, id);
    DueIff(policy, rows, now, id, sends[id]);
  }

  lemma NewestBySends(policy: Policy, rows: seq<Notification>, sends: seq<Send>, id: nat)
    requires |rows| == |sends| && id < |rows|
    requires forall k: nat :: k < |rows| ==> Tells(policy, rows[k], Position(rows, k), sends[k])
    ensures Newest(rows, id) <==> forall k :: id < k < |sends| ==>
              sends[k].incident != sends[id].incident || sends[k].provider != sends[id].provider
  {
    hide Position, WaitIs;
    assert Tells(policy, rows[id], Position(rows, id), sends[id]);
    forall k: nat | id < k < |rows|
      ensures SameKey(rows[k], rows[id]) <==>
              sends[k].incident == sends[id].incident && sends[k].provider == sends[id].provider
    {
      assert Tells(policy, rows[k], Position(rows, k), sends[k]);
    }
  }

  lemma DueIff(policy: Policy, rows: seq<Notification>, now: Time, id: nat, send: Send)
    requires id < |rows| && Tells(policy, rows[id], Position(rows, id), send)
    ensures Due(rows, now, id) <==>
              && Newest(rows, id)
              && send.failed && send.configured && Position(rows, id) < policy.maxAttempts
              && exists wait :: WaitIs(policy.backoff, Position(rows, id), wait) && send.at + wait <= now
  {
    var n := Position(rows, id);
    hide Position, Newest;
    if send.failed && send.configured && n < policy.maxAttempts {
      var wait := rows[id].nextRetryAt.value - send.at;
      assert WaitIs(policy.backoff, n, wait);
      forall w | WaitIs(policy.backoff, n, w) ensures w == wait { }
    }
  }

  // ----- enough passes end every chain -----

  predicate Open(rows: seq<Notification>, id: nat) {
    id < |rows| && Newest(rows, id) && Retryable(rows[id])
  }

  /** The attempts the open chains among the first n rows have left. */
  function Left(policy: Policy, rows: seq<Notification>, n: nat): int
    requires n <= |rows|
  {
    if n == 0 then 0
    else Left(policy, rows, n - 1) + if Open(rows, n - 1) then policy.maxAttempts - rows[n - 1].attemptNumber else 0
  }

  lemma OpenNumbered(policy: Policy, rows: seq<Notification>, id: nat)
    requires AllChained(policy, rows) && Open(rows, id)
    ensures 1 <= rows[id].attemptNumber < policy.maxAttempts && rows[id].nextRetryAt.Some?
  {
    var c := Attempts(rows, rows[id].incident, rows[id].provider);
    NewestIsLast(rows, id);
    assert Chained(policy, c) && Scheduled(policy, c[|c| - 1], |c|);
  }

  lemma {:induction false} LeftBounds(policy: Policy, rows: seq<Notification>, n: nat)
    requires AllChained(policy, rows) && n <= |rows| && policy.maxAttempts >= 1
    ensures 0 <= Left(policy, rows, n) <= policy.maxAttempts * n
    ensures Left(policy, rows, n) == 0 ==> forall id: nat :: id < n ==> !Open(rows, id)
  {
    hide AllChained, Open;
    if n > 0 {
      LeftBounds(policy, rows, n - 1);
      assert policy.maxAttempts * n == policy.maxAttempts * (n - 1) + policy.maxAttempts;
      if Open(rows, n - 1) {
        OpenNumbered(policy, rows, n - 1);
      }
    }
  }

  lemma OpenAfter(rows: seq<Notification>, id: nat, row: Notification, j: nat)
    requires Open(rows, id) && SameKey(row, rows[id]) && j < |rows|
    ensures Open(rows + [row], j) <==> Open(rows, j) && j != id
  {
    var all := rows + [row];
    assert all[|rows|] == row && all[j] == rows[j];
    assert Newest(all, j) ==> Newest(rows, j) by {
      assert forall k :: j < k < |rows| ==> all[k] == rows[k];
    }
    assert SameKey(row, rows[j]) ==> !Newest(all, j);
    if Newest(rows, j) && j != id {
      assert if j < id then !SameKey(rows[id], rows[j]) else !SameKey(rows[j], rows[id]);
      assert Newest(all, j);
    }
  }

  lemma {:induction false} LeftPush(policy: Policy, rows: seq<Notification>, id: nat, row: Notification, n: nat)
    requires Open(rows, id) && SameKey(row, rows[id]) && n <= |rows|
    ensures Left(policy, rows + [row], n)
            == Left(policy, rows, n) - if id < n then policy.maxAttempts - rows[id].attemptNumber else 0
  {
    if n > 0 {
      LeftPush(policy, rows, id, row, n - 1);
      OpenAfter(rows, id, row, n - 1);
    }
  }

  function AllLeft(policy: Policy, rows: seq<Notification>): int {
    Left(policy, rows, |rows|)
  }

  /** A stored retry uses up an attempt. */
  lemma RetryUsesOne(policy: Policy, rows: seq<Notification>, now: Time, id: nat, a: Attempt)
    requires AllChained(policy, rows) && Due(rows, now, id)
    ensures AllLeft(policy, rows + [RetryRecord(rows[id], policy, a)]) <= AllLeft(policy, rows) - 1
  {
    var row := RetryRecord(rows[id], policy, a);
    RetryScheduled(policy, rows[id], a);
    assert Open(rows, id);
    OpenNumbered(policy, rows, id);
    hide AllChained, Open, RetryRecord;
    LeftPush(policy, rows, id, row, |rows|);
    assert (rows + [row])[|rows|] == row;
  }

  /** An undisturbed pass whose retries are all stored. */
  datatype Pass = Pass(now: Time, limit: int, attempts: seq<Attempt>)

  ghost predicate Whole(s: Retrier, p: Pass) {
    && s.listed == []
    && |p.attempts| == |ListDueAlertNotificationRetries(s.rows, p.now, p.limit)|
    && forall k :: 0 <= k < |p.attempts| ==> p.attempts[k].saved && p.now <= p.attempts[k].at
  }

  /** It does not start before the first retry that is waited for. */
  ghost predicate OnTime(s: Retrier, p: Pass) {
    (exists id :: Open(s.rows, id)) ==> exists id :: Due(s.rows, p.now, id)
  }

  function Events(passes: seq<Pass>): seq<Event> {
    if passes == [] then []
    else
      var p := passes[|passes| - 1];
      Events(passes[..|passes| - 1]) + RetryChain.Pass(p.now, p.limit, p.attempts)
  }

  ghost predicate AllWhole(policy: Policy, s: Retrier, passes: seq<Pass>) {
    passes != [] ==>
      var front, p := passes[..|passes| - 1], passes[|passes| - 1];
      var before := After(policy, s, Events(front));
      AllWhole(policy, s, front) && Whole(before, p) && OnTime(before, p)
  }

  lemma {:induction false} PassUses(policy: Policy, s: Retrier, p: Pass, k: nat)
    requires Sound(policy, s) && Whole(s, p) && k <= |p.attempts|
    ensures var next := After(policy, s, RetryChain.Pass(p.now, p.limit, p.attempts[..k]));
      && Sound(policy, next)
      && next.listed == ListDueAlertNotificationRetries(s.rows, p.now, p.limit)[k..] && next.now == p.now
      && AllLeft(policy, next.rows) <= AllLeft(policy, s.rows) - k
  {
    hide Step, Sound, AllLeft, ListDueAlertNotificationRetries;
    if k == 0 {
      assert p.attempts[..0] == [];
      var list := Listed(p.now, p.limit);
      assert [list][..0] == [];
      assert After(policy, s, [list]) == Step(policy, After(policy, s, []), list);
      StepSound(policy, s, list);
      ListStep(policy, s, list);
    } else {
      PassUses(policy, s, p, k - 1);
      PassNext(policy, s, p.now, p.limit, p.attempts, k - 1);
      var before := After(policy, s, RetryChain.Pass(p.now, p.limit, p.attempts[..k - 1]));
      hide After;
      StepSound(policy, before, Attempted(p.attempts[k - 1]));
      AttemptStep(policy, before, p.attempts[k - 1]);
    }
  }

  lemma ListStep(policy: Policy, s: Retrier, list: Event)
    requires list.Listed? && s.listed == []
    ensures Step(policy, s, list)
            == s.(listed := ListDueAlertNotificationRetries(s.rows, list.now, list.limit), now := list.now)
  {
  }

  lemma AttemptStep(policy: Policy, s: Retrier, a: Attempt)
    requires Sound(policy, s) && s.listed != [] && s.now <= a.at && a.saved
    ensures var next := Step(policy, s, Attempted(a));
      && next.listed == s.listed[1..] && next.now == s.now
      && AllLeft(policy, next.rows) <= AllLeft(policy, s.rows) - 1
  {
    hide AllLeft, RetryRecord, AllChained;
    assert Due(s.rows, s.now, s.listed[0]);
    RetryUsesOne(policy, s.rows, s.now, s.listed[0], a);
  }

  /** A pass on time retries something while a chain is open. */
  lemma OnTimeLists(s: Retrier, p: Pass)
    requires Whole(s, p) && OnTime(s, p) && exists id :: Open(s.rows, id)
    ensures |p.attempts| >= 1
  {
    hide ListDueAlertNotificationRetries, EarlierRetry;
    DueListed(s.rows, p.now, p.limit);
    var id :| Due(s.rows, p.now, id);
  }

  lemma {:induction false} PassesUse(policy: Policy, s: Retrier, passes: seq<Pass>)
    requires Sound(policy, s) && AllWhole(policy, s, passes) && s.listed == [] && policy.maxAttempts >= 1
    ensures var end := After(policy, s, Events(passes));
      && Sound(policy, end) && end.listed == []
      && ((exists id :: Open(end.rows, id)) ==> AllLeft(policy, end.rows) <= AllLeft(policy, s.rows) - |passes|)
  {
    hide Sound, AllLeft, Open, Whole, OnTime;
    if passes != [] {
      var front, p := passes[..|passes| - 1], passes[|passes| - 1];
      PassesUse(policy, s, front);
      var before, end := After(policy, s, Events(front)), After(policy, s, Events(passes));
      MoreEvents(policy, s, Events(front), RetryChain.Pass(p.now, p.limit, p.attempts));
      hide After;
      PassEnds(policy, before, p);
      if id :| Open(end.rows, id) {
        if forall j :: !Open(before.rows, j) {
          StaysClosed(policy, before, p);
        } else {
          OnTimeLists(before, p);
        }
      }
    }
  }

  lemma PassEnds(policy: Policy, s: Retrier, p: Pass)
    requires Sound(policy, s) && Whole(s, p)
    ensures var end := After(policy, s, RetryChain.Pass(p.now, p.limit, p.attempts));
      && Sound(policy, end) && end.listed == []
      && AllLeft(policy, end.rows) <= AllLeft(policy, s.rows) - |p.attempts|
  {
    PassUses(policy, s, p, |p.attempts|);
    assert p.attempts[..|p.attempts|] == p.attempts;
  }

  lemma OnlyOpenListed(rows: seq<Notification>, now: Time, limit: int)
    ensures ListDueAlertNotificationRetries(rows, now, limit) == [] || exists id :: Open(rows, id)
  {
    hide ListDueAlertNotificationRetries, EarlierRetry;
    DueListed(rows, now, limit);
    var listed := ListDueAlertNotificationRetries(rows, now, limit);
    if listed != [] {
      assert listed[0] in listed && Open(rows, listed[0]);
    }
  }

  /** When nothing is open a pass finds nothing to do. */
  lemma StaysClosed(policy: Policy, s: Retrier, p: Pass)
    requires Whole(s, p) && forall id :: !Open(s.rows, id)
    ensures After(policy, s, RetryChain.Pass(p.now, p.limit, p.attempts)).rows == s.rows
  {
    OnlyOpenListed(s.rows, p.now, p.limit);
    var list := Listed(p.now, p.limit);
    assert p.attempts == [] && [list][..0] == [];
    assert After(policy, s, [list]) == Step(policy, After(policy, s, []), list);
  }

  ghost predicate AllFailed(sends: seq<Send>, incident: nat, provider: int) {
    forall id :: 0 <= id < |sends| && sends[id].incident == incident && sends[id].provider == provider ==>
      sends[id].failed && sends[id].configured
  }

  /** Whatever was stored before: after as many passes, none before its time, as the rows could have attempts,
      every chain is at its end; and one whose sends all failed with the provider configured has exactly as
      many rows as the policy allows, the last of them exhausted. */
  lemma EnoughPasses(policy: Policy, events: seq<Event>, passes: seq<Pass>, incident: nat, provider: int)
    requires policy.maxAttempts >= 1
    requires var s := After(policy, IDLE, events);
      && s.listed == [] && AllWhole(policy, s, passes)
      && |passes| >= policy.maxAttempts * |s.rows|
    ensures var all := events + Events(passes);
      var rows, sends := After(policy, IDLE, all).rows, Sends(policy, all);
      var c := Attempts(rows, incident, provider);
      && (forall id: nat :: id < |rows| && Newest(rows, id) ==> rows[id].success || rows[id].retryExhausted)
      && |rows| == |sends|
      && (c != [] && AllFailed(sends, incident, provider)
          ==> |c| == policy.maxAttempts && c[|c| - 1].retryExhausted)
  {
    var s, all := After(policy, IDLE, events), events + Events(passes);
    var rows, sends := After(policy, IDLE, all).rows, Sends(policy, all);
    RunSound(policy, events);
    RunSound(policy, all);
    RowsTellSends(policy, all);
    MoreEvents(policy, IDLE, events, Events(passes));
    hide After, Sends, Tells, AllWhole, AllChained;
    PassesUse(policy, s, passes);
    LeftBounds(policy, s.rows, |s.rows|);
    LeftBounds(policy, rows, |rows|);
    forall id: nat | id < |rows| && Newest(rows, id) ensures rows[id].success || rows[id].retryExhausted {
      assert !Open(rows, id);
    }
    if Attempts(rows, incident, provider) != [] {
      ClosedFull(policy, rows, sends, incident, provider);
    }
  }

  /** The last row of a nonempty chain. */
  lemma LastOfChain(rows: seq<Notification>, incident: nat, provider: int) returns (id: nat)
    requires Attempts(rows, incident, provider) != []
    ensures id < |rows| && Newest(rows, id) && rows[id].incident == incident && rows[id].provider == provider
  {
    var c := Attempts(rows, incident, provider);
    assert c[0] in c && c[0] in rows && OfKey(incident, provider)(c[0]);
    var k: nat :| k < |rows| && rows[k] == c[0];
    id := NewestFrom(rows, k);
  }

  lemma {:induction false} NewestFrom(rows: seq<Notification>, k: nat) returns (id: nat)
    requires k < |rows|
    ensures id < |rows| && Newest(rows, id) && SameKey(rows[id], rows[k])
    decreases |rows| - k
  {
    if j: nat :| k < j < |rows| && SameKey(rows[j], rows[k]) {
      id := NewestFrom(rows, j);
    } else {
      id := k;
    }
  }

  lemma ClosedFull(policy: Policy, rows: seq<Notification>, sends: seq<Send>, incident: nat, provider: int)
    requires AllChained(policy, rows) && |rows| == |sends|
    requires forall id: nat :: id < |rows| ==> Tells(policy, rows[id], Position(rows, id), sends[id])
    requires forall id: nat :: id < |rows| && Newest(rows, id) ==> rows[id].success || rows[id].retryExhausted
    requires Attempts(rows, incident, provider) != [] && policy.maxAttempts >= 1
    ensures var c := Attempts(rows, incident, provider);
      AllFailed(sends, incident, provider) ==> |c| == policy.maxAttempts && c[|c| - 1].retryExhausted
  {
    var c := Attempts(rows, incident, provider);
    var id := LastOfChain(rows, incident, provider);
    NewestIsLast(rows, id);
    assert Chained(policy, c) && Scheduled(policy, c[|c| - 1], |c|);
    assert |c| > 1 ==> Scheduled(policy, c[|c| - 2], |c| - 1) && Retryable(c[|c| - 2]);
    hide AllChained, Attempts, WaitIs, Newest, Position;
    assert Tells(policy, rows[id], Position(rows, id), sends[id]);
  }
}
