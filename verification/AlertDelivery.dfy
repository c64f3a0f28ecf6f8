/** The alert queue and the retries of its notifications together: they write one notification table, and
    each is what the other assumes. */
module AlertDelivery {
  import opened Basics
  import opened Storage
  import opened AlertQueue
  import Dispatch
  import RetryChain

  /** The dispatcher's system, and the rows a running retry pass has listed and not yet attempted. */
  datatype System = System(queue: Dispatch.System, listed: seq<nat>, now: Time)

  const START := System(Dispatch.START, [], 0)

  datatype Event =
    | Queue(action: Dispatch.Action)
    | Sent(id: nat, at: Time, deliveredAt: Time, results: seq<RetryChain.SendResult>)
    | Listed(now: Time, limit: int)
    | Attempted(attempt: RetryChain.Attempt)

  /** One sender is configured to a provider. */
  predicate OnePerProvider(results: seq<RetryChain.SendResult>) {
    forall i, j :: 0 <= i < j < |results| ==> results[i].provider != results[j].provider
  }

  function FirstAttempts(
    policy: RetryChain.Policy, alert: AlertRow, at: Time, deliveredAt: Time, results: seq<RetryChain.SendResult>)
    : Dispatch.Delivery
  {
    Dispatch.Delivery(RetryChain.AlertNotifications(alert.incident, alert.monitor, at, 1, policy, results), deliveredAt)
  }

  /** Sends and retry attempts go through their own events; all else is the dispatcher's. */
  function Step(policy: RetryChain.Policy, s: System, e: Event): System {
    var notes := s.queue.db.notifications;
    match e
    case Queue(a) =>
      if a.Send? || a.Noted? then s
      else s.(queue := Dispatch.Step(s.queue, a), listed := if a.Restart? then [] else s.listed)
    case Sent(id, at, deliveredAt, results) =>
      if id < |s.queue.db.alerts| && OnePerProvider(results)
      then
        var d := FirstAttempts(policy, s.queue.db.alerts[id], at, deliveredAt, results);
        s.(queue := Dispatch.Step(s.queue, Dispatch.Send(id, d)))
      else s
    case Listed(now, limit) =>
      if s.listed == [] then s.(listed := RetryChain.ListDueAlertNotificationRetries(notes, now, limit), now := now)
          else s
    case Attempted(a) =>
      if s.listed != [] && s.listed[0] < |notes| && s.now <= a.at
      then s.(queue := if a.saved then Dispatch.Step(s.queue,
          Dispatch.Noted(RetryChain.RetryRecord(notes[s.listed[0]], policy, a)))
                       else s.queue,
              listed := s.listed[1..])
      else s
  }

  function Run(policy: RetryChain.Policy, events: seq<Event>): System {
    if events == [] then START else Step(policy, Run(policy, events[..|events| - 1]), events[|events| - 1])
  }

  // ----- both halves of the system are runs of their own -----

  /** What the retry chains see of the system. */
  function Retrier(s: System): RetryChain.Retrier {
    RetryChain.Retrier(s.queue.db.notifications, s.listed, s.now)
  }

  ghost predicate MadeBy(policy: RetryChain.Policy, alert: AlertRow, d: Dispatch.Delivery) {
    exists at, deliveredAt, results ::
      OnePerProvider(results) && d == FirstAttempts(policy, alert, at, deliveredAt, results)
  }

  /** Every delivery holds the first attempts of its alert. */
  ghost predicate FirstMade(policy: RetryChain.Policy, q: Dispatch.System) {
    forall id :: id in q.deliveries ==> id < |q.db.alerts| && MadeBy(policy, q.db.alerts[id], q.deliveries[id])
  }

  ghost predicate Refines(
    policy: RetryChain.Policy, s: System, actions: seq<Dispatch.Action>, retries: seq<RetryChain.Event>)
  {
    && s.queue == Dispatch.After(Dispatch.START, actions)
    && Retrier(s) == RetryChain.After(policy, RetryChain.IDLE, retries)
    && FirstMade(policy, s.queue)
  }

  lemma SameAlert(policy: RetryChain.Policy, a: AlertRow, b: AlertRow, d: Dispatch.Delivery)
    requires MadeBy(policy, a, d) && a.incident == b.incident && a.monitor == b.monitor
    ensures MadeBy(policy, b, d)
  {
    var at, deliveredAt, results :| OnePerProvider(results) && d == FirstAttempts(policy, a, at, deliveredAt, results);
    assert d == FirstAttempts(policy, b, at, deliveredAt, results);
  }

  lemma StillMade(policy: RetryChain.Policy, q: Dispatch.System, next: Dispatch.System)
    requires FirstMade(policy, q) && next.deliveries == q.deliveries && RowsMove(q.db.alerts, next.db.alerts)
    ensures FirstMade(policy, next)
  {
    hide MadeBy;
    forall id | id in next.deliveries
      ensures id < |next.db.alerts| && MadeBy(policy, next.db.alerts[id], next.deliveries[id])
    {
      assert RowMoves(q.db.alerts[id], next.db.alerts[id]);
      SameAlert(policy, q.db.alerts[id], next.db.alerts[id], q.deliveries[id]);
    }
  }

  lemma StoredFirstAttempts(
    policy: RetryChain.Policy, alert: AlertRow, at: Time, deliveredAt: Time, results: seq<RetryChain.SendResult>)
    ensures AllStored(FirstAttempts(policy, alert, at, deliveredAt, results).notifications)
            == RetryChain.AlertNotifications(alert.incident, alert.monitor, at, 1, policy, results)
    ensures Dispatch.About(FirstAttempts(policy, alert, at, deliveredAt, results), alert.incident)
  {
  }

  lemma OneOf<T>(s: seq<T>, x: T)
    requires x in s
    ensures s != []
  {
  }

  /** While an alert is not delivered, no notification of its incident is stored: a chain starts with a
      first attempt, and first attempts come with the delivery. */
  lemma NothingStored(policy: RetryChain.Policy, q: Dispatch.System, id: nat, n: Notification)
    requires Dispatch.Sound(q) && RetryChain.AllChained(policy, q.db.notifications)
    requires id < |q.db.alerts| && q.db.alerts[id].status != Delivered && n in q.db.notifications
    ensures n.incident != q.db.alerts[id].incident
  {
    var incident := q.db.alerts[id].incident;
    if n.incident == incident {
      var notes := q.db.notifications;
      var c := RetryChain.Attempts(notes, incident, n.provider);
      assert RetryChain.OfKey(incident, n.provider)(n) && n in c;
      OneOf(c, n);
      assert RetryChain.Chained(policy, c) && RetryChain.Scheduled(policy, c[0], 1);
      assert c[0] in c && c[0] in notes && RetryChain.OfKey(incident, n.provider)(c[0]);
      NotFirst(q, id, c[0]);
    }
  }

  lemma FirstNoteListed(notes: seq<Notification>, n: Notification)
    requires n in notes && Dispatch.FirstTry(n)
    ensures n in Dispatch.NotesOf(Dispatch.FirstTries(notes), n.incident)
  {
    assert n in Dispatch.FirstTries(notes);
  }

  lemma NotFirst(q: Dispatch.System, id: nat, n: Notification)
    requires Dispatch.Sound(q) && id < |q.db.alerts| && q.db.alerts[id].status != Delivered
    requires n in q.db.notifications && n.incident == q.db.alerts[id].incident
    ensures !Dispatch.FirstTry(n)
  {
    hide AllStored, Dispatch.NotesOf, Dispatch.Rows, Dispatch.About, Dispatch.FirstTries;
    Dispatch.DeliveredLogged(q, id);
    Dispatch.RowsOfIncident(q.delivered, q.deliveries, q.db.alerts, id);
    if Dispatch.FirstTry(n) {
      FirstNoteListed(q.db.notifications, n);
    }
  }

  /** Actions that leave notifications and deliveries alone. */
  predicate Silent(a: Dispatch.Action) {
    a.Probed? || a.Deleted? || a.Claim?
  }

  lemma SilentStep(q: Dispatch.System, a: Dispatch.Action)
    requires Silent(a) && Dispatch.Sound(q)
    ensures Dispatch.Step(q, a).db.notifications == q.db.notifications && Dispatch.Step(q, a).deliveries == q.deliveries
  {
    if a.Probed? && Readable(a.previous) {
      hide Dispatch.Tracked, SaveFrom, SafeQueue;
      ProbeRequeues(q.db, a.previous, a.monitor, a.input, a.dueAt);
    }
  }

  /** Recording a delivery that its alert has not had yet stores its first attempts, for the first time. */
  lemma RecordedFirst(
    policy: RetryChain.Policy, q: Dispatch.System, id: nat, answer: Dispatch.Answer, r: RetryChain.Retrier)
    returns (retries: seq<RetryChain.Event>)
    requires Dispatch.Sound(q) && FirstMade(policy, q) && RetryChain.AllChained(policy, q.db.notifications)
    requires id in q.deliveries && r.rows == q.db.notifications
    ensures var next := Dispatch.Recorded(q, id, q.deliveries[id], answer);
      |retries| <= 1 && RetryChain.After(policy, r, retries) == r.(rows := next.db.notifications)
  {
    var d := q.deliveries[id];
    var next := Dispatch.Recorded(q, id, d, answer);
    if next == q {
      retries := [];
    } else {
      var alert := q.db.alerts[id];
      assert alert.status != Delivered && next.db.notifications == q.db.notifications + AllStored(d.notifications);
      var at, deliveredAt, results :|
        OnePerProvider(results) && d == FirstAttempts(policy, alert, at, deliveredAt, results);
      var event := RetryChain.Recorded(alert.incident, alert.monitor, at, results);
      hide Dispatch.Recorded, FirstAttempts, RetryChain.AlertNotifications, AllStored;
      StoredFirstAttempts(policy, alert, at, deliveredAt, results);
      retries := [event];
      forall k | 0 <= k < |r.rows| ensures r.rows[k].incident != alert.incident {
        NothingStored(policy, q, id, r.rows[k]);
      }
      OneEvent(policy, r, event);
    }
  }

  lemma OneEvent(policy: RetryChain.Policy, r: RetryChain.Retrier, e: RetryChain.Event)
    ensures RetryChain.After(policy, r, [e]) == RetryChain.Step(policy, r, e)
  {
    hide RetryChain.Step;
    assert [e][..0] == [];
  }

  ghost predicate Good(policy: RetryChain.Policy, s: System) {
    Dispatch.Sound(s.queue) && RetryChain.Sound(policy, Retrier(s)) && FirstMade(policy, s.queue)
  }

  /** A step of the system is at most one step of the queue and at most one of the retry chains. */
  ghost predicate Advances(
    policy: RetryChain.Policy, s: System, next: System, acts: seq<Dispatch.Action>, rets: seq<RetryChain.Event>)
  {
    && |acts| <= 1 && |rets| <= 1
    && next.queue == (if acts == [] then s.queue else Dispatch.Step(s.queue, acts[0]))
    && Retrier(next) == RetryChain.After(policy, Retrier(s), rets)
    && FirstMade(policy, next.queue)
  }

  /** What a record call leaves beside the database and the log of deliveries. */
  lemma RecordNotes(q: Dispatch.System, a: Dispatch.Action, id: nat, answer: Dispatch.Answer)
    requires Dispatch.Sound(q)
    requires || (a == Dispatch.Record(id, answer) && id in q.unrecorded)
             || (a == Dispatch.Retry(id, answer) && id in q.retrying)
    ensures id in q.deliveries
    ensures Dispatch.Step(q, a).db.notifications == Dispatch.Recorded(q, id, q.deliveries[id], answer).db.notifications
    ensures Dispatch.Step(q, a).deliveries == q.deliveries
  {
    assert id in q.deliveries && q.deliveries[id] == if a.Record? then q.unrecorded[id] else q.retrying[id];
    Dispatch.RecordedHolds(q, id, q.deliveries[id], answer);
    hide Dispatch.Recorded, Dispatch.RecordSucceeds, Dispatch.Tracked, SafeQueue;
  }

  lemma IdleRecord(q: Dispatch.System, a: Dispatch.Action)
    requires || (a.Record? && a.id !in q.unrecorded)
             || (a.Retry? && a.id !in q.retrying)
    ensures Dispatch.Step(q, a) == q
  {
  }

  lemma RecordAdvances(policy: RetryChain.Policy, s: System, a: Dispatch.Action) returns (rets: seq<RetryChain.Event>)
    requires Good(policy, s) && (a.Record? || a.Retry?)
    ensures Advances(policy, s, s.(queue := Dispatch.Step(s.queue, a)), [a], rets)
  {
    hide RowsMove, FirstMade, RetryChain.After, Dispatch.Recorded, Dispatch.Step, Dispatch.Sound, RetryChain.AllDue;
    var q := s.queue;
    var next := Dispatch.Step(q, a);
    if (a.Record? && a.id in q.unrecorded) || (a.Retry? && a.id in q.retrying) {
      Dispatch.StepSound(q, a);
      RecordNotes(q, a, a.id, a.answer);
      rets := RecordedFirst(policy, q, a.id, a.answer, Retrier(s));
      StillMade(policy, q, next);
    } else {
      rets := [];
      IdleRecord(q, a);
      NoEvent(policy, Retrier(s));
    }
  }

  lemma NoEvent(policy: RetryChain.Policy, r: RetryChain.Retrier)
    ensures RetryChain.After(policy, r, []) == r
  {
  }

  lemma SilentAdvances(policy: RetryChain.Policy, s: System, a: Dispatch.Action)
    requires Good(policy, s) && Silent(a)
    ensures Advances(policy, s, s.(queue := Dispatch.Step(s.queue, a)), [a], [])
  {
    SilentStep(s.queue, a);
    Dispatch.StepSound(s.queue, a);
    hide Dispatch.Step, RowsMove, FirstMade, RetryChain.After, Dispatch.Sound;
    NoEvent(policy, Retrier(s));
    StillMade(policy, s.queue, Dispatch.Step(s.queue, a));
  }

  lemma RestartAdvances(policy: RetryChain.Policy, s: System)
    requires Good(policy, s)
    ensures Advances(policy, s, s.(queue := Dispatch.Step(s.queue, Dispatch.Restart), listed := []),
                     [Dispatch.Restart], [RetryChain.Restarted])
  {
    OneEvent(policy, Retrier(s), RetryChain.Restarted);
  }

  lemma SentAdvances(
    policy: RetryChain.Policy, s: System, id: nat, at: Time, deliveredAt: Time, results: seq<RetryChain.SendResult>)
    requires Good(policy, s) && id < |s.queue.db.alerts| && OnePerProvider(results)
    ensures var send := Dispatch.Send(id, FirstAttempts(policy, s.queue.db.alerts[id], at, deliveredAt, results));
      Advances(policy, s, s.(queue := Dispatch.Step(s.queue, send)), [send], [])
  {
    NoEvent(policy, Retrier(s));
    hide FirstAttempts, OnePerProvider, Dispatch.About;
    assert MadeBy(policy, s.queue.db.alerts[id], FirstAttempts(policy, s.queue.db.alerts[id], at, deliveredAt,
        results));
  }

  /** An attempt is never a first one. */
  lemma LaterTry(policy: RetryChain.Policy, r: RetryChain.Retrier, a: RetryChain.Attempt)
    requires RetryChain.Sound(policy, r) && r.listed != []
    ensures r.listed[0] < |r.rows| && !Dispatch.FirstTry(RetryChain.RetryRecord(r.rows[r.listed[0]], policy, a))
  {
    var id := r.listed[0];
    assert RetryChain.Due(r.rows, r.now, id);
    var row := r.rows[id];
    var c := RetryChain.Attempts(r.rows, row.incident, row.provider);
    RetryChain.NewestIsLast(r.rows, id);
    assert RetryChain.Chained(policy, c) && RetryChain.Scheduled(policy, c[|c| - 1], |c|);
    RetryChain.RetryScheduled(policy, row, a);
  }

  lemma NotedOnly(policy: RetryChain.Policy, q: Dispatch.System, note: Notification)
    requires !Dispatch.FirstTry(note)
    ensures var next := Dispatch.Step(q, Dispatch.Noted(note));
      && next.db.notifications == q.db.notifications + [note]
      && (FirstMade(policy, q) ==> FirstMade(policy, next))
  {
    hide MadeBy;
  }

  lemma AttemptAdvances(
      policy: RetryChain.Policy, s: System, a: RetryChain.Attempt) returns (acts: seq<Dispatch.Action>)
    requires Good(policy, s) && s.listed != [] && s.now <= a.at
    ensures Advances(policy, s, Step(policy, s, Attempted(a)), acts, [RetryChain.Attempted(a)])
  {
    hide RetryChain.RetryRecord, RetryChain.Sound, Dispatch.Sound, FirstMade, RetryChain.After, Dispatch.Step;
    var r := Retrier(s);
    LaterTry(policy, r, a);
    var note := RetryChain.RetryRecord(r.rows[r.listed[0]], policy, a);
    NotedOnly(policy, s.queue, note);
    acts := if a.saved then [Dispatch.Noted(note)] else [];
    OneEvent(policy, r, RetryChain.Attempted(a));
  }

  lemma ListAdvances(policy: RetryChain.Policy, s: System, now: Time, limit: int)
    requires Good(policy, s) && s.listed == []
    ensures Advances(policy, s, Step(policy, s, Listed(now, limit)), [], [RetryChain.Listed(now, limit)])
  {
    OneEvent(policy, Retrier(s), RetryChain.Listed(now, limit));
    hide RetryChain.Sound, Dispatch.Sound, MadeBy, RetryChain.ListDueAlertNotificationRetries, RetryChain.After;
  }

  lemma StandsStill(policy: RetryChain.Policy, s: System)
    requires Good(policy, s)
    ensures Advances(policy, s, s, [], [])
  {
    NoEvent(policy, Retrier(s));
  }

  lemma StepAdvances(policy: RetryChain.Policy, s: System, e: Event)
    returns (acts: seq<Dispatch.Action>, rets: seq<RetryChain.Event>)
    requires Good(policy, s)
    ensures Advances(policy, s, Step(policy, s, e), acts, rets)
  {
    hide Good, Advances, Dispatch.Step, FirstAttempts, OnePerProvider;
    acts, rets := [], [];
    match e {
      case Queue(a) =>
        if a.Send? || a.Noted? {
          StandsStill(policy, s);
        } else {
          acts := [a];
          if a.Restart? {
            rets := [RetryChain.Restarted];
            RestartAdvances(policy, s);
          } else if Silent(a) {
            SilentAdvances(policy, s, a);
          } else {
            rets := RecordAdvances(policy, s, a);
          }
        }
      case Sent(id, at, deliveredAt, results) =>
        if id < |s.queue.db.alerts| && OnePerProvider(results) {
          acts := [Dispatch.Send(id, FirstAttempts(policy, s.queue.db.alerts[id], at, deliveredAt, results))];
          SentAdvances(policy, s, id, at, deliveredAt, results);
        } else {
          StandsStill(policy, s);
        }
      case Listed(now, limit) =>
        if s.listed == [] {
          rets := [RetryChain.Listed(now, limit)];
          ListAdvances(policy, s, now, limit);
        } else {
          StandsStill(policy, s);
        }
      case Attempted(a) =>
        if s.listed != [] && s.listed[0] < |s.queue.db.notifications| && s.now <= a.at {
          rets := [RetryChain.Attempted(a)];
          acts := AttemptAdvances(policy, s, a);
        } else {
          StandsStill(policy, s);
        }
    }
  }

  /** The system's queue is a run of the dispatcher, and its notification table with the running pass is a
      run of the retry chains: each may rely on all that is proved of the other. */
  lemma {:induction false} RunRefines(policy: RetryChain.Policy, events: seq<Event>)
    returns (actions: seq<Dispatch.Action>, retries: seq<RetryChain.Event>)
    ensures Refines(policy, Run(policy, events), actions, retries)
    ensures Good(policy, Run(policy, events))
  {
    if events == [] {
      actions, retries := [], [];
    } else {
      var n := |events| - 1;
      hide Step, Good, FirstMade, Dispatch.Step, RetryChain.After;
      actions, retries := RunRefines(policy, events[..n]);
      var s, next := Run(policy, events[..n]), Run(policy, events);
      var acts, rets := StepAdvances(policy, s, events[n]);
      RetryChain.MoreEvents(policy, RetryChain.IDLE, retries, rets);
      if acts == [] {
        assert actions + acts == actions;
      } else {
        assert acts == [acts[0]];
        Dispatch.AfterPush(Dispatch.START, actions, acts[0]);
      }
      actions, retries := actions + acts, retries + rets;
    }
    hide Run, Step;
    Dispatch.RunSound(actions);
    RetryChain.RunSound(policy, retries);
    assert Good(policy, Run(policy, events));
  }

  // ----- the guarantees -----

  /** The send had a result for the provider. */
  ghost predicate SentTo(d: Dispatch.Delivery, provider: int) {
    exists k :: 0 <= k < |d.notifications| && d.notifications[k].provider == provider
  }

  lemma StoredNote(notes: seq<Notification>, d: Dispatch.Delivery, incident: nat, provider: int)
    requires Dispatch.NotesOf(Dispatch.FirstTries(notes), incident) == AllStored(d.notifications)
    requires SentTo(d, provider)
    ensures RetryChain.Attempts(notes, incident, provider) != []
  {
    var k :| 0 <= k < |d.notifications| && d.notifications[k].provider == provider;
    var n := AllStored(d.notifications)[k];
    assert n in Dispatch.NotesOf(Dispatch.FirstTries(notes), incident);
    assert n in notes && n.incident == incident;
    assert RetryChain.OfKey(incident, provider)(n) && n in RetryChain.Attempts(notes, incident, provider);
  }

  lemma NoteSent(d: Dispatch.Delivery, n: Notification)
    requires n in AllStored(d.notifications)
    ensures SentTo(d, n.provider)
  {
    var k :| 0 <= k < |d.notifications| && AllStored(d.notifications)[k] == n;
    assert d.notifications[k].provider == n.provider;
  }

  /** Dispatching and retrying interleaved in any way, with lost answers and restarts: no alert is sent
      twice; a provider has a chain of attempts for an alert's incident exactly when the alert is delivered
      and its one send had a result for that provider, which starts the chain; and the chain is numbered,
      bounded, failed up to its last attempt and waits as the policy says. */
  lemma DeliveredThenRetried(policy: RetryChain.Policy, events: seq<Event>, id: nat, provider: int)
    requires policy.maxAttempts >= 1 && id < |Run(policy, events).queue.db.alerts|
    ensures var q := Run(policy, events).queue;
      var alert := q.db.alerts[id];
      var c := RetryChain.Attempts(q.db.notifications, alert.incident, provider);
      && multiset(q.sends)[id] <= 1
      && (alert.status == Delivered ==> id in q.deliveries)
      && (c != [] <==> alert.status == Delivered && SentTo(q.deliveries[id], provider))
      && (c != [] ==> c[0] in AllStored(q.deliveries[id].notifications))
      && |c| <= policy.maxAttempts
      && (forall k :: 0 <= k < |c| ==> c[k].attemptNumber == k + 1)
      && (forall k :: 0 <= k < |c| - 1 ==> !c[k].success && !c[k].retryExhausted)
      && (forall k :: 0 <= k < |c| ==>
            c[k].attemptedAt >= c[0].attemptedAt + RetryChain.BackoffSum(policy.backoff, k + 1))
  {
    var actions, retries := RunRefines(policy, events);
    var q := Run(policy, events).queue;
    var alert := q.db.alerts[id];
    Dispatch.SentAtMostOnceRecordedExactlyOnce(actions, id);
    RetryChain.RetryChainsTerminate(policy, retries, alert.incident, provider);
    var c := RetryChain.Attempts(q.db.notifications, alert.incident, provider);
    if c != [] {
      assert c[0] in c && c[0] in q.db.notifications && RetryChain.OfKey(alert.incident, provider)(c[0]);
    }
    hide Run, RetryChain.Attempts, Dispatch.After, RetryChain.After, Dispatch.NotesOf, Dispatch.FirstTries, AllStored,
      SentTo, Good, Refines;
    if c != [] {
      assert Dispatch.FirstTry(c[0]);
      FirstNoteListed(q.db.notifications, c[0]);
      NoteSent(q.deliveries[id], c[0]);
    } else if alert.status == Delivered && SentTo(q.deliveries[id], provider) {
      StoredNote(q.db.notifications, q.deliveries[id], alert.incident, provider);
    }
  }
}
