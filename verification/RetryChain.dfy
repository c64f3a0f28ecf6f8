/** Retrying failed notifications: which rows are due, what an attempt records, and the chain of
    attempts that grows for one incident and provider. */
module RetryChain {
  import opened Basics
  import opened Sequences
  import opened Storage

  datatype Policy = Policy(maxAttempts: int, backoff: seq<Time>)

  datatype SendResult = SendResult(provider: int, failed: bool)

  function RetryBackoff(policy: Policy, attemptNumber: int): Time {
    if policy.backoff == [] then 0
    else
      var index := if attemptNumber - 1 < 0 then 0 else attemptNumber - 1;
      policy.backoff[if index >= |policy.backoff| then |policy.backoff| - 1 else index]
  }

  function AlertNotification(
    incident: nat, m: MonitorId, at: Time, attemptNumber: int, policy: Policy, result: SendResult): Notification
  {
    var exhausted := result.failed && attemptNumber >= policy.maxAttempts;
    Notification(incident, m, result.provider, at, attemptNumber, !result.failed,
                 if result.failed && !exhausted then Some(at + RetryBackoff(policy, attemptNumber)) else None,
                 exhausted)
  }

  function AlertNotifications(
    incident: nat, m: MonitorId, at: Time, attemptNumber: int, policy: Policy, results: seq<SendResult>)
    : (r: seq<Notification>)
    ensures |r| == |results|
    ensures forall k :: 0 <= k < |r| ==>
      r[k].incident == incident && r[k].monitor == m && r[k].attemptNumber == attemptNumber
  {
    seq(|results|, k requires 0 <= k < |results| =>
      AlertNotification(incident, m, at, attemptNumber, policy, results[k]))
  }

  // ----- the due query -----

  predicate SameKey(a: Notification, b: Notification) {
    a.incident == b.incident && a.provider == b.provider
  }

  predicate Newest(rows: seq<Notification>, id: nat)
    requires id < |rows|
  {
    forall k :: id < k < |rows| ==> !SameKey(rows[k], rows[id])
  }

  predicate Due(rows: seq<Notification>, now: Time, id: nat) {
    && id < |rows| && !rows[id].success && !rows[id].retryExhausted
    && rows[id].nextRetryAt.Some? && rows[id].nextRetryAt.value <= now
    && Newest(rows, id)
  }

  function DueIds(rows: seq<Notification>, now: Time, n: nat): (r: seq<nat>)
    ensures forall id: nat :: id in r <==> id < n && Due(rows, now, id)
    ensures forall id :: multiset(r)[id] <= 1
  {
    if n == 0 then []
    else
      var rest := DueIds(rows, now, n - 1);
      if Due(rows, now, n - 1) then rest + [n - 1] else rest
  }

  function RetryAt(rows: seq<Notification>, id: nat): Time {
    if id < |rows| && rows[id].nextRetryAt.Some? then rows[id].nextRetryAt.value else 0
  }

  function EarlierRetry(rows: seq<Notification>): (nat, nat) -> bool {
    (a: nat, b: nat) => RetryAt(rows, a) < RetryAt(rows, b) || (RetryAt(rows, a) == RetryAt(rows, b) && a <= b)
  }

  function ListDueAlertNotificationRetries(rows: seq<Notification>, now: Time, limit: int): seq<nat> {
    var due := Sorted(EarlierRetry(rows), DueIds(rows, now, |rows|));
    var most := if limit <= 0 then 50 else limit;
    if |due| <= most then due else due[..most]
  }

  ghost predicate Distinct(ids: seq<nat>) {
    forall i, j :: 0 <= i < j < |ids| ==> ids[i] != ids[j]
  }

  lemma {:induction false} OnceEach(ids: seq<nat>)
    requires forall id :: multiset(ids)[id] <= 1
    ensures Distinct(ids)
  {
    if ids != [] {
      var n := |ids| - 1;
      assert ids == ids[..n] + [ids[n]];
      forall id ensures multiset(ids[..n])[id] <= 1 {
        assert multiset(ids)[id] <= 1;
      }
      OnceEach(ids[..n]);
      assert multiset(ids)[ids[n]] <= 1;
      assert ids[n] !in ids[..n];
    }
  }

  lemma {:induction false} SortedOrder(rows: seq<Notification>, ids: seq<nat>)
    ensures SortedBy(EarlierRetry(rows), Sorted(EarlierRetry(rows), ids))
  {
    if ids != [] {
      var n := |ids| - 1;
      SortedOrder(rows, ids[..n]);
      InsertSorted(EarlierRetry(rows), Sorted(EarlierRetry(rows), ids[..n]), ids[n]);
    }
  }

  /** The one is retried before the other: its retry is for an earlier time, or its row is the older one. */
  ghost predicate Sooner(rows: seq<Notification>, a: nat, b: nat) {
    && a < |rows| && b < |rows| && rows[a].nextRetryAt.Some? && rows[b].nextRetryAt.Some?
    && (rows[a].nextRetryAt.value < rows[b].nextRetryAt.value
        || (rows[a].nextRetryAt == rows[b].nextRetryAt && a < b))
  }

  lemma SoonerIf(rows: seq<Notification>, now: Time, a: nat, b: nat)
    requires Due(rows, now, a) && Due(rows, now, b) && a != b && EarlierRetry(rows)(a, b)
    ensures Sooner(rows, a, b)
  {
    hide Newest;
  }

  /** Only due rows are listed, each once, earliest retry first; a due row is left out only when the
      limit is reached, and then everything listed is sooner. */
  lemma DueListed(rows: seq<Notification>, now: Time, limit: int)
    ensures var r := ListDueAlertNotificationRetries(rows, now, limit);
      && Distinct(r) && (forall j, k :: 0 <= j < k < |r| ==> Sooner(rows, r[j], r[k]))
      && (forall id: nat :: id in r ==> Due(rows, now, id))
      && |r| <= (if limit <= 0 then 50 else limit)
      && forall id: nat :: Due(rows, now, id) && id !in r ==>
           |r| == (if limit <= 0 then 50 else limit) && forall k :: 0 <= k < |r| ==> Sooner(rows, r[k], id)
  {
    var ids := DueIds(rows, now, |rows|);
    var due := Sorted(EarlierRetry(rows), ids);
    SortedOrder(rows, ids);
    OnceEach(due);
    forall id: nat ensures id in due <==> Due(rows, now, id) {
      assert id in multiset(due) <==> id in multiset(ids);
    }
    hide Due, DueIds, Sorted, Sooner, EarlierRetry;
    AllSooner(rows, now, due);
  }

  lemma AllSooner(rows: seq<Notification>, now: Time, due: seq<nat>)
    requires SortedBy(EarlierRetry(rows), due) && Distinct(due) && forall id: nat :: id in due ==> Due(rows, now, id)
    ensures forall j, k :: 0 <= j < k < |due| ==> Sooner(rows, due[j], due[k])
  {
    hide Due, Sooner, EarlierRetry;
    forall j, k | 0 <= j < k < |due| ensures Sooner(rows, due[j], due[k]) {
      SoonerIf(rows, now, due[j], due[k]);
    }
  }

  // ----- the retry loop, step by step -----

  /** The rows, and the rows a running pass has listed but not yet attempted. */
  datatype Retrier = Retrier(rows: seq<Notification>, listed: seq<nat>, now: Time)

  const IDLE := Retrier([], [], 0)

  /** One attempt: whether the provider is still configured, whether the send fails, and whether the
      row is written. */
  datatype Attempt = Attempt(at: Time, configured: bool, fails: bool, saved: bool)

  datatype Event =
    | Recorded(incident: nat, monitor: MonitorId, at: Time, results: seq<SendResult>)
    | Listed(now: Time, limit: int)
    | Attempted(attempt: Attempt)
    | Restarted

  /** The record of a retry; a provider no longer configured fails for good. */
  function RetryRecord(row: Notification, policy: Policy, a: Attempt): Notification {
    var result := SendResult(row.provider, !a.configured || a.fails);
    var n := AlertNotification(row.incident, row.monitor, a.at, row.attemptNumber + 1, policy, result);
    if a.configured then n else n.(retryExhausted := true, nextRetryAt := None)
  }

  /** The first attempts of an incident are recorded once, one to a provider. A pass starts when the
      previous one has ended, and its clock does not run backwards. */
  predicate Enabled(s: Retrier, e: Event) {
    match e
    case Recorded(incident, _, _, results) =>
      && (forall k :: 0 <= k < |s.rows| ==> s.rows[k].incident != incident)
      && (forall i, j :: 0 <= i < j < |results| ==> results[i].provider != results[j].provider)
    case Listed(_, _) => s.listed == []
    case Attempted(a) => s.listed != [] && s.listed[0] < |s.rows| && s.now <= a.at
    case Restarted => true
  }

  function Step(policy: Policy, s: Retrier, e: Event): Retrier {
    if !Enabled(s, e) then s
    else
      match e
      case Recorded(incident, m, at, results) =>
        s.(rows := s.rows + AlertNotifications(incident, m, at, 1, policy, results))
      case Listed(now, limit) => s.(listed := ListDueAlertNotificationRetries(s.rows, now, limit), now := now)
      case Attempted(a) =>
        s.(rows := if a.saved then s.rows + [RetryRecord(s.rows[s.listed[0]], policy, a)] else s.rows,
           listed := s.listed[1..])
      case Restarted => s.(listed := [])
  }

  function After(policy: Policy, s: Retrier, events: seq<Event>): Retrier {
    if events == [] then s else Step(policy, After(policy, s, events[..|events| - 1]), events[|events| - 1])
  }

  lemma {:induction false} MoreEvents(policy: Policy, s: Retrier, a: seq<Event>, b: seq<Event>)
    ensures After(policy, s, a + b) == After(policy, After(policy, s, a), b)
  {
    if b == [] {
      assert a + b == a;
    } else {
      var n := |b| - 1;
      hide Step;
      assert (a + b)[..|a + b| - 1] == a + b[..n];
      MoreEvents(policy, s, a, b[..n]);
    }
  }

  /** The events of one undisturbed pass. */
  function Pass(now: Time, limit: int, attempts: seq<Attempt>): seq<Event> {
    if attempts == [] then [Listed(now, limit)]
    else Pass(now, limit, attempts[..|attempts| - 1]) + [Attempted(attempts[|attempts| - 1])]
  }

  lemma PassNext(policy: Policy, s: Retrier, now: Time, limit: int, attempts: seq<Attempt>, k: nat)
    requires k < |attempts|
    ensures After(policy, s, Pass(now, limit, attempts[..k + 1]))
            == Step(policy, After(policy, s, Pass(now, limit, attempts[..k])), Attempted(attempts[k]))
  {
    assert attempts[..k + 1][..k] == attempts[..k];
    var front := Pass(now, limit, attempts[..k]);
    assert (front + [Attempted(attempts[k])])[..|front|] == front;
  }

  class NotificationLog {
    var rows: seq<Notification>

    /** One attempt, for a row as it was listed. */
    method RetryNotification(policy: Policy, retry: Notification, a: Attempt)
      modifies this
      ensures rows == if a.saved then old(rows) + [RetryRecord(retry, policy, a)] else old(rows)
    {
      var result := SendResult(retry.provider, if a.configured then a.fails else true);
      var attemptNumber := retry.attemptNumber + 1;
      var notification := AlertNotification(retry.incident, retry.monitor, a.at, attemptNumber, policy, result);
      if !a.configured {
        notification := notification.(retryExhausted := true, nextRetryAt := None);
      }
      if a.saved {
        rows := rows + [notification];
      }
    }

    /** One pass of the retry loop over the rows due at its start. */
    method RetryAlertNotifications(policy: Policy, now: Time, limit: int, attempts: seq<Attempt>)
      requires |attempts| == |ListDueAlertNotificationRetries(rows, now, limit)|
      requires forall k :: 0 <= k < |attempts| ==> now <= attempts[k].at
      modifies this
      ensures Retrier(rows, [], now) == After(policy, Retrier(old(rows), [], now), Pass(now, limit, attempts))
    {
      var due := ListDueAlertNotificationRetries(rows, now, limit);
      ghost var start := Retrier(rows, [], now);
      DueListed(rows, now, limit);
      hide AlertNotification, RetryBackoff, ListDueAlertNotificationRetries, EarlierRetry, Sorted, SortedBy;
      assert attempts[..0] == [];
      assert After(policy, start, Pass(now, limit, [])) == Step(policy, After(policy, start, []), Listed(now, limit));
      for k := 0 to |due|
        invariant |rows| >= |old(rows)| && rows[..|old(rows)|] == old(rows)
        invariant After(policy, start, Pass(now, limit, attempts[..k])) == Retrier(rows, due[k..], now)
      {
        PassNext(policy, start, now, limit, attempts, k);
        assert Due(old(rows), now, due[k]);
        hide After, RetryRecord;
        RetryNotification(policy, rows[due[k]], attempts[k]);
      }
      assert attempts[..|due|] == attempts;
    }
  }

  // ----- the attempts made for one incident and provider -----

  function OfKey(incident: nat, provider: int): Notification -> bool {
    (n: Notification) => n.incident == incident && n.provider == provider
  }

  function Attempts(rows: seq<Notification>, incident: nat, provider: int): seq<Notification> {
    Select(OfKey(incident, provider), rows)
  }

  /** Another attempt may follow. */
  predicate Retryable(n: Notification) {
    !n.success && !n.retryExhausted
  }

  /** A retryable attempt names its time, and is not the last one allowed. */
  predicate Scheduled(policy: Policy, n: Notification, number: int) {
    && n.attemptNumber == number
    && (Retryable(n) ==>
      n.nextRetryAt == Some(n.attemptedAt + RetryBackoff(policy, number)) && number < policy.maxAttempts)
  }

  ghost predicate Chained(policy: Policy, c: seq<Notification>) {
    && (forall k :: 0 <= k < |c| ==> Scheduled(policy, c[k], k + 1))
    && (forall k :: 0 <= k < |c| - 1 ==>
          Retryable(c[k]) && c[k + 1].attemptedAt >= c[k].attemptedAt + RetryBackoff(policy, k + 1))
  }

  lemma ChainedPush(policy: Policy, c: seq<Notification>, n: Notification)
    requires Chained(policy, c) && Scheduled(policy, n, |c| + 1)
    requires c == [] || (Retryable(c[|c| - 1])
      && n.attemptedAt >= c[|c| - 1].attemptedAt + RetryBackoff(policy, |c|))
    ensures Chained(policy, c + [n])
  {
    hide Scheduled, RetryBackoff;
    var all := c + [n];
    forall k | 0 <= k < |all| ensures Scheduled(policy, all[k], k + 1) {
      if k < |c| { assert all[k] == c[k]; }
    }
  }

  ghost predicate AllChained(policy: Policy, rows: seq<Notification>) {
    forall i: nat, p: int :: Chained(policy, Attempts(rows, i, p))
  }

  lemma NewestIsLast(rows: seq<Notification>, id: nat)
    requires id < |rows| && Newest(rows, id)
    ensures var c := Attempts(rows, rows[id].incident, rows[id].provider);
      c != [] && c[|c| - 1] == rows[id]
  {
    var p := OfKey(rows[id].incident, rows[id].provider);
    assert rows == rows[..id] + [rows[id]] + rows[id + 1..];
    SelectPush(p, rows[..id], rows[id]);
    SelectConcat(p, rows[..id] + [rows[id]], rows[id + 1..]);
    SelectNone(p, rows[id + 1..]);
  }

  lemma AttemptsPush(rows: seq<Notification>, n: Notification, incident: nat, provider: int)
    ensures Attempts(rows + [n], incident, provider)
            == Attempts(rows, incident, provider) + if n.incident == incident && n.provider == provider then [n] else []
  {
    SelectPush(OfKey(incident, provider), rows, n);
  }

  lemma PushChained(policy: Policy, rows: seq<Notification>, n: Notification)
    requires AllChained(policy, rows)
    requires Chained(policy, Attempts(rows, n.incident, n.provider) + [n])
    ensures AllChained(policy, rows + [n])
  {
    hide Attempts, Chained;
    forall i: nat, p: int ensures Chained(policy, Attempts(rows + [n], i, p)) {
      AttemptsPush(rows, n, i, p);
      assert Attempts(rows, i, p) + [] == Attempts(rows, i, p);
    }
  }

  lemma {:induction false} RecordedChained(
    policy: Policy, rows: seq<Notification>, incident: nat, m: MonitorId, at: Time, results: seq<SendResult>)
    requires AllChained(policy, rows)
    requires forall k :: 0 <= k < |rows| ==> rows[k].incident != incident
    requires forall i, j :: 0 <= i < j < |results| ==> results[i].provider != results[j].provider
    ensures AllChained(policy, rows + AlertNotifications(incident, m, at, 1, policy, results))
  {
    var notes := AlertNotifications(incident, m, at, 1, policy, results);
    if results == [] {
      assert rows + notes == rows;
    } else {
      var n := |results| - 1;
      var front := AlertNotifications(incident, m, at, 1, policy, results[..n]);
      RecordedChained(policy, rows, incident, m, at, results[..n]);
      assert rows + notes == (rows + front) + [notes[n]];
      SelectNone(OfKey(incident, results[n].provider), rows + front);
      hide AllChained, Attempts;
      ChainedPush(policy, [], notes[n]);
      PushChained(policy, rows + front, notes[n]);
    }
  }

  lemma RetryScheduled(policy: Policy, row: Notification, a: Attempt)
    ensures var n := RetryRecord(row, policy, a);
      && n.incident == row.incident && n.provider == row.provider && n.attemptedAt == a.at
      && Scheduled(policy, n, row.attemptNumber + 1)
  {
  }

  lemma AttemptChained(policy: Policy, rows: seq<Notification>, now: Time, id: nat, a: Attempt)
    requires AllChained(policy, rows) && Due(rows, now, id) && now <= a.at
    ensures AllChained(policy, rows + [RetryRecord(rows[id], policy, a)])
  {
    var row := rows[id];
    var n := RetryRecord(row, policy, a);
    var c := Attempts(rows, row.incident, row.provider);
    NewestIsLast(rows, id);
    RetryScheduled(policy, row, a);
    assert Chained(policy, c) && Scheduled(policy, c[|c| - 1], |c|);
    hide AllChained, Attempts, RetryRecord, Chained;
    ChainedPush(policy, c, n);
    PushChained(policy, rows, n);
  }

  // ----- a pass keeps what it has listed due -----

  ghost predicate AllDue(rows: seq<Notification>, now: Time, listed: seq<nat>) {
    Distinct(listed) && forall k :: 0 <= k < |listed| ==> Due(rows, now, listed[k])
  }

  lemma StillDue(rows: seq<Notification>, more: seq<Notification>, now: Time, id: nat)
    requires Due(rows, now, id)
    requires forall k :: 0 <= k < |more| ==> !SameKey(more[k], rows[id])
    ensures Due(rows + more, now, id)
  {
  }

  lemma OthersStillDue(rows: seq<Notification>, now: Time, listed: seq<nat>, n: Notification)
    requires AllDue(rows, now, listed) && listed != [] && SameKey(n, rows[listed[0]])
    ensures AllDue(rows + [n], now, listed[1..])
  {
    forall k | 0 < k < |listed| ensures Due(rows + [n], now, listed[k]) {
      assert listed[0] != listed[k] && Due(rows, now, listed[0]) && Due(rows, now, listed[k]);
      assert !SameKey(rows[listed[0]], rows[listed[k]]);
      StillDue(rows, [n], now, listed[k]);
    }
  }

  ghost predicate Sound(policy: Policy, s: Retrier) {
    AllChained(policy, s.rows) && AllDue(s.rows, s.now, s.listed)
  }

  lemma StepSound(policy: Policy, s: Retrier, e: Event)
    requires Sound(policy, s)
    ensures Sound(policy, Step(policy, s, e))
  {
    hide AllChained, RetryBackoff, Sorted, DueIds, ListDueAlertNotificationRetries, Newest;
    if Enabled(s, e) {
      match e
      case Recorded(incident, m, at, results) =>
        RecordedChained(policy, s.rows, incident, m, at, results);
        var notes := AlertNotifications(incident, m, at, 1, policy, results);
        forall k | 0 <= k < |s.listed| ensures Due(s.rows + notes, s.now, s.listed[k]) {
          StillDue(s.rows, notes, s.now, s.listed[k]);
        }
      case Listed(now, limit) => DueListed(s.rows, now, limit);
      case Attempted(a) =>
        var id := s.listed[0];
        assert Due(s.rows, s.now, id);
        AttemptChained(policy, s.rows, s.now, id, a);
        RetryScheduled(policy, s.rows[id], a);
        OthersStillDue(s.rows, s.now, s.listed, RetryRecord(s.rows[id], policy, a));
      case Restarted =>
    }
  }

  lemma {:induction false} RunSound(policy: Policy, events: seq<Event>)
    ensures Sound(policy, After(policy, IDLE, events))
  {
    if events != [] {
      hide Step, Sound;
      RunSound(policy, events[..|events| - 1]);
      StepSound(policy, After(policy, IDLE, events[..|events| - 1]), events[|events| - 1]);
    } else {
      assert forall i: nat, p: int :: Attempts([], i, p) == [];
    }
  }

  // ----- the guarantees -----

  /** The delays a chain of k attempts has waited for: the first k - 1 of the list, its last one repeated. */
  function BackoffSum(backoff: seq<Time>, k: int): Time {
    if k <= 1 || backoff == [] then 0
    else BackoffSum(backoff, k - 1) + backoff[if k - 1 <= |backoff| then k - 2 else |backoff| - 1]
  }

  lemma {:induction false} AttemptNotBefore(policy: Policy, c: seq<Notification>, k: nat)
    requires Chained(policy, c) && k < |c|
    ensures c[k].attemptedAt >= c[0].attemptedAt + BackoffSum(policy.backoff, k + 1)
  {
    if k > 0 {
      AttemptNotBefore(policy, c, k - 1);
      assert Retryable(c[k - 1]);
    }
  }

  /** Under a fixed policy, over any interleaving of first attempts, passes, attempts whose row is lost
      and restarts: the attempts for an incident and provider are numbered from one, never more than
      the policy allows, all but the last failed and were not final, and the k-th waits for at least
      the sum of the delays before it. */
  lemma RetryChainsTerminate(policy: Policy, events: seq<Event>, incident: nat, provider: int)
    requires policy.maxAttempts >= 1
    ensures var c := Attempts(After(policy, IDLE, events).rows, incident, provider);
      && |c| <= policy.maxAttempts
      && (forall k :: 0 <= k < |c| ==> c[k].attemptNumber == k + 1)
      && (forall k :: 0 <= k < |c| - 1 ==> !c[k].success && !c[k].retryExhausted)
      && (forall k :: 0 <= k < |c| ==> c[k].attemptedAt >= c[0].attemptedAt + BackoffSum(policy.backoff, k + 1))
  {
    RunSound(policy, events);
    var c := Attempts(After(policy, IDLE, events).rows, incident, provider);
    hide Attempts, After;
    assert Chained(policy, c);
    if |c| > 1 {
      assert Retryable(c[|c| - 2]) && Scheduled(policy, c[|c| - 2], |c| - 1);
    }
    forall k | 0 <= k < |c| ensures c[k].attemptNumber == k + 1 {
      assert Scheduled(policy, c[k], k + 1);
    }
    forall k | 0 <= k < |c| ensures c[k].attemptedAt >= c[0].attemptedAt + BackoffSum(policy.backoff, k + 1) {
      AttemptNotBefore(policy, c, k);
    }
  }

  /** A row is due exactly when it ends its chain, that chain is neither successful nor exhausted, and
      the wait after its last attempt is over. */
  lemma DueExactly(policy: Policy, events: seq<Event>, now: Time, id: nat)
    requires id < |After(policy, IDLE, events).rows|
    ensures var rows := After(policy, IDLE, events).rows;
      var c := Attempts(rows, rows[id].incident, rows[id].provider);
      Due(rows, now, id) <==>
        && Newest(rows, id) && c != [] && c[|c| - 1] == rows[id] && Retryable(rows[id])
        && rows[id].attemptedAt + RetryBackoff(policy, |c|) <= now
  {
    RunSound(policy, events);
    var rows := After(policy, IDLE, events).rows;
    hide After;
    var c := Attempts(rows, rows[id].incident, rows[id].provider);
    if Newest(rows, id) {
      NewestIsLast(rows, id);
      hide Attempts;
      assert Chained(policy, c) && Scheduled(policy, c[|c| - 1], |c|);
    }
  }
}
