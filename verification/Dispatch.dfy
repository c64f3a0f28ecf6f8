/** Dispatching alerts: claims, sends, records and retried records interleave with saved probes and
    configuration changes in any order, and the process may restart between any two of them. */
module Dispatch {
  import opened Basics
  import opened Sequences
  import opened Monitor
  import opened Storage
  import opened AlertQueue

  datatype Delivery = Delivery(notifications: seq<Notification>, deliveredAt: Time)

  datatype Announcement = Announcement(id: nat, monitor: MonitorId, transition: Status)

  /** The database and what the dispatcher remembers: alerts it has claimed and not yet sent, sent and
      not yet recorded, and those whose record call failed. The last three fields only observe: the
      sends, what each of them delivered, and the rows in the order in which they became delivered. */
  datatype System = System(
    db: Db, claimed: set<nat>, unrecorded: map<nat, Delivery>, retrying: map<nat, Delivery>,
    sends: seq<nat>, deliveries: map<nat, Delivery>, delivered: seq<Announcement>)

  const START := System(EMPTY, {}, map[], map[], [], map[], [])

  /** A record call commits and says so, commits but reports failure, or does not commit. */
  datatype Answer = Committed | CommittedButFailed | NotCommitted

  /** A probe is saved from a state it has read before, which others may have replaced since. */
  datatype Action =
    | Probed(monitor: MonitorId, previous: MonitorState, input: ProbeInput, dueAt: Time)
    | Deleted(keep: set<MonitorId>)
    | Claim(id: nat, reported: bool)
    | Send(id: nat, delivery: Delivery)
    | Record(id: nat, answer: Answer)
    | Retry(id: nat, answer: Answer)
    | Noted(note: Notification)
    | Restart

  /** The records of a send are first attempts, about the alert's incident. */
  predicate About(d: Delivery, incident: nat) {
    forall k :: 0 <= k < |d.notifications| ==>
      d.notifications[k].incident == incident && FirstTry(Stored(d.notifications[k]))
  }

  predicate FirstTry(n: Notification) {
    n.attemptNumber == 1
  }

  /** The database after a record call, and the deliveries it has made. */
  function Recorded(sys: System, id: nat, d: Delivery, answer: Answer): System {
    var r := RecordDelivery(sys.db, id, d.notifications, d.deliveredAt);
    if answer == NotCommitted || r.None? then sys
    else if sys.db.alerts[id].status == Delivered then sys
    else
      var row := sys.db.alerts[id];
      sys.(db := r.value, delivered := sys.delivered + [Announcement(id, row.monitor, row.transition)])
  }

  predicate RecordSucceeds(sys: System, id: nat, d: Delivery, answer: Answer) {
    answer == Committed && RecordDelivery(sys.db, id, d.notifications, d.deliveredAt).Some?
  }

  /** Actions that are not enabled leave the system as it is. */
  function Step(sys: System, a: Action): System {
    match a
    case Probed(m, previous, p, dueAt) =>
      if Readable(previous) then sys.(db := SaveFrom(sys.db, previous, m, p, dueAt)) else sys
    case Deleted(keep) => sys.(db := DeleteStatesExcept(sys.db, keep))
    case Claim(id, reported) =>
      // a claim whose answer is lost is not followed by a send
      sys.(db := ClaimAlert(sys.db, id),
           claimed := if Claimable(sys.db, id) && reported then sys.claimed + {id} else sys.claimed)
    case Send(id, d) =>
      if id in sys.claimed && id < |sys.db.alerts| && About(d, sys.db.alerts[id].incident)
      then sys.(claimed := sys.claimed - {id}, unrecorded := sys.unrecorded[id := d],
                sends := sys.sends + [id], deliveries := sys.deliveries[id := d])
      else sys
    case Record(id, answer) =>
      if id !in sys.unrecorded then sys
      else
        var d := sys.unrecorded[id];
        Recorded(sys, id, d, answer).(
          unrecorded := sys.unrecorded - {id},
          retrying := if RecordSucceeds(sys, id, d, answer) then sys.retrying else sys.retrying[id := d])
    case Retry(id, answer) =>
      if id !in sys.retrying then sys
      else
        var d := sys.retrying[id];
        Recorded(sys, id, d, answer).(
          retrying := if RecordSucceeds(sys, id, d, answer) then sys.retrying - {id} else sys.retrying)
    case Noted(note) =>
      // the retry loop adds later attempts to the same table
      if FirstTry(note) then sys else sys.(db := sys.db.(notifications := sys.db.notifications + [note]))
    case Restart => sys.(claimed := {}, unrecorded := map[], retrying := map[])
  }

  function After(sys: System, actions: seq<Action>): System {
    if actions == [] then sys else Step(After(sys, actions[..|actions| - 1]), actions[|actions| - 1])
  }

  lemma AfterPush(sys: System, actions: seq<Action>, a: Action)
    ensures After(sys, actions + [a]) == Step(After(sys, actions), a)
  {
    assert (actions + [a])[..|actions|] == actions;
  }

  // ----- what the dispatcher and the database know about each alert -----

  predicate InStatus(db: Db, id: nat, status: AlertStatus) {
    id < |db.alerts| && db.alerts[id].status == status
  }

  /** Claimed alerts have not been sent; sent ones are held with what was sent until recorded. */
  ghost predicate Holdings(sys: System) {
    && (forall id :: id in sys.claimed ==> InStatus(sys.db, id, Sending) && id !in sys.deliveries)
    && (forall id :: id in sys.unrecorded ==>
          && InStatus(sys.db, id, Sending) && id !in sys.retrying
          && id in sys.deliveries && sys.deliveries[id] == sys.unrecorded[id])
    && (forall id :: id in sys.retrying ==> id in sys.deliveries && sys.deliveries[id] == sys.retrying[id])
  }

  /** Sends are of distinct alerts, and only sent alerts are ever delivered. */
  ghost predicate SentOnce(sys: System) {
    && (forall i, j :: 0 <= i < j < |sys.sends| ==> sys.sends[i] != sys.sends[j])
    && (forall id :: id in sys.sends <==> id in sys.deliveries)
    && (forall id :: id in sys.deliveries ==>
          && (InStatus(sys.db, id, Sending) || InStatus(sys.db, id, Delivered))
          && About(sys.deliveries[id], sys.db.alerts[id].incident))
    && (forall id: nat :: InStatus(sys.db, id, Delivered) ==>
          id in sys.deliveries && sys.db.alerts[id].deliveredAt == Some(sys.deliveries[id].deliveredAt))
  }

  predicate Announces(db: Db, a: Announcement) {
    && InStatus(db, a.id, Delivered)
    && db.alerts[a.id].monitor == a.monitor && db.alerts[a.id].transition == a.transition
  }

  ghost predicate LoggedIn(delivered: seq<Announcement>, id: nat) {
    exists k :: 0 <= k < |delivered| && delivered[k].id == id
  }

  ghost predicate DistinctIds(delivered: seq<Announcement>) {
    forall i, j :: 0 <= i < j < |delivered| ==> delivered[i].id != delivered[j].id
  }

  ghost predicate DeliveredOnce(sys: System) {
    && DistinctIds(sys.delivered)
    && (forall k :: 0 <= k < |sys.delivered| ==> Announces(sys.db, sys.delivered[k]))
    && (forall id :: InStatus(sys.db, id, Delivered) ==> LoggedIn(sys.delivered, id))
  }

  /** The first attempts among the notification rows. */
  function FirstTries(notifications: seq<Notification>): seq<Notification> {
    Select((n: Notification) => FirstTry(n), notifications)
  }

  /** The notification rows that these deliveries insert, in their order. */
  ghost function Rows(delivered: seq<Announcement>, deliveries: map<nat, Delivery>): seq<Notification> {
    if delivered == [] then []
    else
      var n := |delivered| - 1;
      var id := delivered[n].id;
      Rows(delivered[..n], deliveries) + if id in deliveries then AllStored(deliveries[id].notifications) else []
  }

  ghost predicate Tracked(sys: System) {
    && Holdings(sys) && SentOnce(sys) && DeliveredOnce(sys)
    && FirstTries(sys.db.notifications) == Rows(sys.delivered, sys.deliveries)
  }

  ghost predicate Sound(sys: System) {
    SafeQueue(sys.db) && Tracked(sys)
  }

  // ----- each action keeps it -----

  lemma RequeuedTracked(sys: System, after: Db)
    requires Tracked(sys) && Requeued(sys.db.alerts, after.alerts) && RowsMove(sys.db.alerts, after.alerts)
    requires after.notifications == sys.db.notifications
    ensures Tracked(sys.(db := after))
  {
    hide Rows, LoggedIn;
    var next := sys.(db := after);
    forall id: nat | InStatus(after, id, Delivered) ensures InStatus(sys.db, id, Delivered) {
    }
    forall id: nat | InStatus(sys.db, id, Sending) || InStatus(sys.db, id, Delivered)
      ensures id < |after.alerts| && after.alerts[id] == sys.db.alerts[id] {
      assert KeptOrCancelled(sys.db.alerts[id], after.alerts[id]);
    }
  }

  lemma ClaimTracked(sys: System, id: nat, reported: bool)
    requires Tracked(sys)
    ensures Tracked(Step(sys, Claim(id, reported)))
  {
    hide Rows, LoggedIn, About;
    var next := Step(sys, Claim(id, reported));
  }

  lemma {:induction false} RowsFrame(delivered: seq<Announcement>, deliveries: map<nat, Delivery>, id: nat, d: Delivery)
    requires forall k :: 0 <= k < |delivered| ==> delivered[k].id != id
    ensures Rows(delivered, deliveries[id := d]) == Rows(delivered, deliveries)
  {
    if delivered != [] {
      RowsFrame(delivered[..|delivered| - 1], deliveries, id, d);
    }
  }

  lemma SendSentOnce(sys: System, id: nat, d: Delivery)
    requires SentOnce(sys) && InStatus(sys.db, id, Sending) && id !in sys.deliveries
    requires About(d, sys.db.alerts[id].incident)
    ensures SentOnce(sys.(sends := sys.sends + [id], deliveries := sys.deliveries[id := d]))
  {
    hide About;
  }

  lemma SendHoldings(sys: System, id: nat, d: Delivery)
    requires Holdings(sys) && id in sys.claimed
    ensures Holdings(sys.(claimed := sys.claimed - {id}, unrecorded := sys.unrecorded[id := d],
        deliveries := sys.deliveries[id := d]))
  {
  }

  /** Holdings and deliveries look at different fields. */
  lemma SameFields(sys: System, next: System)
    requires next.db == sys.db && next.delivered == sys.delivered
    ensures DeliveredOnce(sys) ==> DeliveredOnce(next)
    ensures next == sys.(sends := next.sends) && Holdings(sys) ==> Holdings(next)
    ensures next.sends == sys.sends && next.deliveries == sys.deliveries && SentOnce(sys) ==> SentOnce(next)
  {
    hide LoggedIn, DistinctIds, About;
  }

  lemma SendTracked(sys: System, id: nat, d: Delivery)
    requires Tracked(sys)
    ensures Tracked(Step(sys, Send(id, d)))
  {
    var next := Step(sys, Send(id, d));
    hide Rows, About;
    if next != sys {
      assert InStatus(sys.db, id, Sending) && id !in sys.deliveries;
      forall k | 0 <= k < |sys.delivered| ensures sys.delivered[k].id != id {
        assert Announces(sys.db, sys.delivered[k]);
      }
      hide Holdings, SentOnce, DeliveredOnce, InStatus;
      RowsFrame(sys.delivered, sys.deliveries, id, d);
      SendSentOnce(sys, id, d);
      SendHoldings(sys, id, d);
      SameFields(sys, next);
      SameFields(sys.(sends := sys.sends + [id], deliveries := sys.deliveries[id := d]), next);
      SameFields(sys.(claimed := sys.claimed - {id}, unrecorded := sys.unrecorded[id := d],
          deliveries := sys.deliveries[id := d]), next);
    }
  }

  /** The one row a record call can move. */
  ghost predicate Delivers(before: Db, after: Db, id: nat, d: Delivery) {
    && InStatus(before, id, Sending)
    && after.alerts == before.alerts[id := before.alerts[id].(status := Delivered, deliveredAt := Some(d.deliveredAt))]
    && after.notifications == before.notifications + AllStored(d.notifications)
  }

  lemma DeliversSentOnce(sys: System, next: System, id: nat, d: Delivery)
    requires SentOnce(sys) && Delivers(sys.db, next.db, id, d) && id in sys.deliveries && d == sys.deliveries[id]
    requires next.sends == sys.sends && next.deliveries == sys.deliveries
    ensures SentOnce(next)
  {
    hide About;
  }

  lemma DeliversHoldings(sys: System, next: System, id: nat, d: Delivery)
    requires Holdings(sys) && Delivers(sys.db, next.db, id, d) && id in sys.deliveries && id !in sys.unrecorded
    requires next == sys.(db := next.db, delivered := next.delivered)
    ensures Holdings(next)
  {
  }

  lemma FirstTriesConcat(a: seq<Notification>, d: Delivery, incident: nat)
    requires About(d, incident)
    ensures FirstTries(a + AllStored(d.notifications)) == FirstTries(a) + AllStored(d.notifications)
  {
    var p := (n: Notification) => FirstTry(n);
    SelectConcat(p, a, AllStored(d.notifications));
    SelectAll(p, AllStored(d.notifications));
  }

  lemma NotedTracked(sys: System, note: Notification)
    requires Tracked(sys)
    ensures Tracked(Step(sys, Noted(note)))
  {
    SelectPush((n: Notification) => FirstTry(n), sys.db.notifications, note);
    hide Rows, LoggedIn, About, Select, DistinctIds;
  }

  /** Whatever the answer, a record call of a sent alert leaves it delivered at most once. */
  lemma RecordedTracked(sys: System, id: nat, answer: Answer)
    requires Tracked(sys) && id in sys.deliveries && id !in sys.unrecorded
    ensures Tracked(Recorded(sys, id, sys.deliveries[id], answer))
  {
    var d := sys.deliveries[id];
    var next := Recorded(sys, id, d, answer);
    if next != sys {
      assert Delivers(sys.db, next.db, id, d) && InStatus(sys.db, id, Sending);
      assert next.delivered[..|sys.delivered|] == sys.delivered;
      FirstTriesConcat(sys.db.notifications, d, sys.db.alerts[id].incident);
      hide AllStored, SentOnce, Holdings, DeliveredOnce, FirstTries;
      RecordedLog(sys, id, answer);
      DeliversSentOnce(sys, next, id, d);
      DeliversHoldings(sys, next, id, d);
    }
  }

  lemma RecordedLog(sys: System, id: nat, answer: Answer)
    requires DeliveredOnce(sys) && InStatus(sys.db, id, Sending) && id in sys.deliveries && answer != NotCommitted
    ensures DeliveredOnce(Recorded(sys, id, sys.deliveries[id], answer))
  {
    var next := Recorded(sys, id, sys.deliveries[id], answer);
    var n := |sys.delivered|;
    assert next.delivered[n].id == id;
    forall k: nat | InStatus(next.db, k, Delivered) ensures LoggedIn(next.delivered, k) {
      if k != id {
        assert InStatus(sys.db, k, Delivered) && LoggedIn(sys.delivered, k);
        var i :| 0 <= i < n && sys.delivered[i].id == k;
        assert next.delivered[i].id == k;
      }
    }
    forall k | 0 <= k < |next.delivered| ensures Announces(next.db, next.delivered[k]) {
      if k < n { assert Announces(sys.db, sys.delivered[k]); }
    }
  }

  /** What is held in memory may be dropped, moved to the retries, or lost. */
  lemma HeldTracked(sys: System, next: System)
    requires next == sys.(claimed := next.claimed, unrecorded := next.unrecorded, retrying := next.retrying)
    requires Tracked(sys)
    requires Holdings(next)
    ensures Tracked(next)
  {
    hide Rows, LoggedIn, About;
  }

  lemma TakenTracked(sys: System, id: nat)
    requires Tracked(sys) && id in sys.unrecorded
    ensures Tracked(sys.(unrecorded := sys.unrecorded - {id}))
    ensures id in sys.deliveries && sys.deliveries[id] == sys.unrecorded[id]
  {
    hide Rows, DeliveredOnce, SentOnce;
    HeldTracked(sys, sys.(unrecorded := sys.unrecorded - {id}));
  }

  lemma KeptForRetry(sys: System, id: nat)
    requires Tracked(sys) && id in sys.deliveries && id !in sys.unrecorded
    ensures Tracked(sys.(retrying := sys.retrying[id := sys.deliveries[id]]))
  {
    hide Rows, DeliveredOnce, SentOnce;
    HeldTracked(sys, sys.(retrying := sys.retrying[id := sys.deliveries[id]]));
  }

  lemma DroppedFromRetry(sys: System, id: nat)
    requires Tracked(sys)
    ensures Tracked(sys.(retrying := sys.retrying - {id}))
  {
    hide Rows, DeliveredOnce, SentOnce;
    HeldTracked(sys, sys.(retrying := sys.retrying - {id}));
  }

  /** A record call touches the database and the log of deliveries, not what is held. */
  lemma RecordedHolds(sys: System, id: nat, d: Delivery, answer: Answer)
    ensures var r := Recorded(sys, id, d, answer);
      r == sys.(db := r.db, delivered := r.delivered)
  {
  }

  /** A record step is a record call, after which the delivery is held for a retry or no longer. */
  lemma RecordShape(sys: System, id: nat, answer: Answer)
    requires id in sys.unrecorded
    ensures var d := sys.unrecorded[id];
      var called := Recorded(sys.(unrecorded := sys.unrecorded - {id}), id, d, answer);
      && called.deliveries == sys.deliveries && called.unrecorded == sys.unrecorded - {id}
      && (Step(sys, Record(id, answer)) == called
          || Step(sys, Record(id, answer)) == called.(retrying := called.retrying[id := d]))
  {
    var d := sys.unrecorded[id];
    RecordedHolds(sys.(unrecorded := sys.unrecorded - {id}), id, d, answer);
    hide RecordDelivery;
  }

  lemma RecordTracked(sys: System, id: nat, answer: Answer)
    requires Tracked(sys)
    ensures Tracked(Step(sys, Record(id, answer)))
  {
    if id in sys.unrecorded {
      RecordShape(sys, id, answer);
      hide Recorded, Tracked, Step;
      var taken := sys.(unrecorded := sys.unrecorded - {id});
      TakenTracked(sys, id);
      RecordedTracked(taken, id, answer);
      KeptForRetry(Recorded(taken, id, sys.unrecorded[id], answer), id);
    }
  }

  lemma RetryShape(sys: System, id: nat, answer: Answer)
    requires id in sys.retrying
    ensures var called := Recorded(sys, id, sys.retrying[id], answer);
      Step(sys, Retry(id, answer)) == called || Step(sys, Retry(id, answer))
              == called.(retrying := called.retrying - {id})
  {
    RecordedHolds(sys, id, sys.retrying[id], answer);
    hide RecordDelivery;
  }

  lemma RetryTracked(sys: System, id: nat, answer: Answer)
    requires Tracked(sys)
    ensures Tracked(Step(sys, Retry(id, answer)))
  {
    if id in sys.retrying {
      assert id in sys.deliveries && sys.deliveries[id] == sys.retrying[id] && id !in sys.unrecorded;
      RetryShape(sys, id, answer);
      hide Recorded, Tracked, Step;
      RecordedTracked(sys, id, answer);
      DroppedFromRetry(Recorded(sys, id, sys.retrying[id], answer), id);
    }
  }

  lemma StepSound(sys: System, a: Action)
    requires Sound(sys)
    ensures Sound(Step(sys, a)) && RowsMove(sys.db.alerts, Step(sys, a).db.alerts)
  {
    hide SafeQueue, RowsMove, Tracked, Requeued;
    match a
    case Probed(m, previous, p, dueAt) => ProbeStep(sys, previous, m, p, dueAt);
    case Deleted(keep) => DeleteStep(sys, keep);
    case Claim(id, reported) =>
      hide ClaimAlert;
      ClaimSafe(sys.db, id);
      ClaimTracked(sys, id, reported);
    case Send(id, d) =>
      RowsStay(sys.db.alerts);
      SendTracked(sys, id, d);
    case Record(id, answer) =>
      RecordTracked(sys, id, answer);
      if id in sys.unrecorded { RecordedSafe(sys, id, sys.unrecorded[id], answer); } else { RowsStay(sys.db.alerts); }
    case Retry(id, answer) =>
      RetryTracked(sys, id, answer);
      if id in sys.retrying { RecordedSafe(sys, id, sys.retrying[id], answer); } else { RowsStay(sys.db.alerts); }
    case Noted(note) =>
      NotedSafe(sys, note);
      NotedTracked(sys, note);
    case Restart =>
      RowsStay(sys.db.alerts);
      RestartTracked(sys);
  }

  lemma NotedSafe(sys: System, note: Notification)
    requires SafeQueue(sys.db)
    ensures SafeQueue(Step(sys, Noted(note)).db) && RowsMove(sys.db.alerts, Step(sys, Noted(note)).db.alerts)
  {
    var after := Step(sys, Noted(note)).db;
    forall i | 0 <= i < |after.alerts| && after.alerts[i].status == Pending ensures Claimable(after, i) {
      assert Claimable(sys.db, i);
    }
  }

  lemma RestartTracked(sys: System)
    requires Tracked(sys)
    ensures Tracked(Step(sys, Restart))
  {
    HeldTracked(sys, Step(sys, Restart));
  }

  lemma RowsStay(alerts: seq<AlertRow>)
    ensures RowsMove(alerts, alerts)
  {
  }

  lemma ProbeStep(sys: System, previous: MonitorState, m: MonitorId, p: ProbeInput, dueAt: Time)
    requires Sound(sys)
    ensures var next := Step(sys, Probed(m, previous, p, dueAt)); Sound(next) && RowsMove(sys.db.alerts, next.db.alerts)
  {
    RowsStay(sys.db.alerts);
    hide SafeQueue, RowsMove, Tracked, Requeued, SaveFrom;
    if Readable(previous) {
      ProbeRequeues(sys.db, previous, m, p, dueAt);
      RequeuedTracked(sys, SaveFrom(sys.db, previous, m, p, dueAt));
    }
  }

  lemma DeleteStep(sys: System, keep: set<MonitorId>)
    requires Sound(sys)
    ensures var next := Step(sys, Deleted(keep)); Sound(next) && RowsMove(sys.db.alerts, next.db.alerts)
  {
    var after := DeleteStatesExcept(sys.db, keep);
    assert after.notifications == sys.db.notifications;
    hide SafeQueue, RowsMove, Tracked, Requeued, DeleteStatesExcept;
    DeleteSafe(sys.db, keep);
    DeleteRequeues(sys.db, keep);
    RequeuedTracked(sys, after);
  }

  lemma RecordedSafe(sys: System, id: nat, d: Delivery, answer: Answer)
    requires SafeQueue(sys.db)
    ensures var next := Recorded(sys, id, d, answer); SafeQueue(next.db) && RowsMove(sys.db.alerts, next.db.alerts)
  {
    RowsStay(sys.db.alerts);
    hide SafeQueue, RowsMove, RecordDelivery;
    if RecordDelivery(sys.db, id, d.notifications, d.deliveredAt).Some? {
      RecordSafe(sys.db, id, d.notifications, d.deliveredAt);
    }
  }

  lemma {:induction false} RunSound(actions: seq<Action>)
    ensures Sound(After(START, actions))
  {
    if actions != [] {
      var n := |actions| - 1;
      RunSound(actions[..n]);
      hide Sound, Step;
      StepSound(After(START, actions[..n]), actions[n]);
    }
  }

  // ----- the guarantees -----

  /** Under any interleaving: a monitor never has two pending alerts, a pending alert always announces
      the stored status of its monitor, and any further action only moves rows from pending to
      cancelled or sending and from sending to delivered. */
  lemma QueueSafety(actions: seq<Action>, a: Action)
    ensures var db := After(START, actions).db;
      && OnePending(db.alerts)
      && (forall i :: 0 <= i < |db.alerts| && db.alerts[i].status == Pending ==>
            db.alerts[i].monitor in db.states && db.states[db.alerts[i].monitor].status == db.alerts[i].transition)
      && RowsMove(db.alerts, After(START, actions + [a]).db.alerts)
  {
    RunSound(actions);
    AfterPush(START, actions, a);
    StepSound(After(START, actions), a);
    var db := After(START, actions).db;
    hide Step, After, RowsMove, OnePending, Tracked;
    forall i | 0 <= i < |db.alerts| && db.alerts[i].status == Pending
      ensures db.alerts[i].monitor in db.states && db.states[db.alerts[i].monitor].status == db.alerts[i].transition {
      assert Claimable(db, i);
    }
  }

  /** Rows about one incident. */
  ghost function NotesOf(notifications: seq<Notification>, incident: nat): seq<Notification> {
    Select((n: Notification) => n.incident == incident, notifications)
  }

  lemma NotesConcat(a: seq<Notification>, b: seq<Notification>, incident: nat)
    ensures NotesOf(a + b, incident) == NotesOf(a, incident) + NotesOf(b, incident)
  {
    SelectConcat((n: Notification) => n.incident == incident, a, b);
  }

  lemma NotesAbout(d: Delivery, about: nat, incident: nat)
    requires About(d, about)
    ensures NotesOf(AllStored(d.notifications), incident) == if about == incident then AllStored(d.notifications)
        else []
  {
    var p := (n: Notification) => n.incident == incident;
    if about == incident {
      SelectAll(p, AllStored(d.notifications));
    } else {
      SelectNone(p, AllStored(d.notifications));
    }
  }

  /** Every logged delivery has the records that were sent, about its own incident. */
  ghost predicate WellLogged(delivered: seq<Announcement>, deliveries: map<nat, Delivery>, alerts: seq<AlertRow>) {
    forall k :: 0 <= k < |delivered| ==>
      && delivered[k].id < |alerts| && delivered[k].id in deliveries
      && About(deliveries[delivered[k].id], alerts[delivered[k].id].incident)
  }

  lemma LoggedFront(delivered: seq<Announcement>, id: nat)
    requires delivered != []
    ensures LoggedIn(delivered, id)
            <==> LoggedIn(delivered[..|delivered| - 1], id) || delivered[|delivered| - 1].id == id
    ensures DistinctIds(delivered) && delivered[|delivered| - 1].id == id ==>
      !LoggedIn(delivered[..|delivered| - 1], id)
    ensures DistinctIds(delivered) ==> DistinctIds(delivered[..|delivered| - 1])
  {
    var n := |delivered| - 1;
    if LoggedIn(delivered[..n], id) {
      var k :| 0 <= k < n && delivered[..n][k].id == id;
      assert delivered[k].id == id;
    }
    if LoggedIn(delivered, id) && delivered[n].id != id {
      var k :| 0 <= k < n + 1 && delivered[k].id == id;
      assert delivered[..n][k].id == id;
    }
  }

  lemma NotesPush(
    delivered: seq<Announcement>, deliveries: map<nat, Delivery>, alerts: seq<AlertRow>, incident: nat)
    requires WellLogged(delivered, deliveries, alerts) && delivered != []
    ensures var n := |delivered| - 1;
      var last := delivered[n].id;
      NotesOf(Rows(delivered, deliveries), incident)
      == NotesOf(Rows(delivered[..n], deliveries), incident)
         + if alerts[last].incident == incident then AllStored(deliveries[last].notifications) else []
  {
    var n := |delivered| - 1;
    var last := delivered[n].id;
    hide AllStored, NotesOf, About;
    NotesConcat(Rows(delivered[..n], deliveries), AllStored(deliveries[last].notifications), incident);
    NotesAbout(deliveries[last], alerts[last].incident, incident);
  }

  lemma {:induction false} RowsOfIncident(
    delivered: seq<Announcement>, deliveries: map<nat, Delivery>, alerts: seq<AlertRow>, id: nat)
    requires WellLogged(delivered, deliveries, alerts) && DistinctIds(delivered)
    requires forall i, j :: 0 <= i < j < |alerts| ==> alerts[i].incident < alerts[j].incident
    requires id < |alerts|
    ensures LoggedIn(delivered, id) ==> id in deliveries
    ensures NotesOf(Rows(delivered, deliveries), alerts[id].incident)
            == if LoggedIn(delivered, id) then AllStored(deliveries[id].notifications) else []
  {
    if delivered != [] {
      var n := |delivered| - 1;
      var last := delivered[n].id;
      assert last < |alerts| && last in deliveries;
      assert alerts[last].incident == alerts[id].incident <==> last == id;
      LoggedFront(delivered, id);
      assert WellLogged(delivered[..n], deliveries, alerts);
      NotesPush(delivered, deliveries, alerts, alerts[id].incident);
      hide AllStored, NotesOf, About, Rows, LoggedIn, DistinctIds, WellLogged;
      RowsOfIncident(delivered[..n], deliveries, alerts, id);
    }
  }

  /** Under any interleaving, lost answers, retries and restarts included: no alert is sent twice, a
      delivered alert was sent, and what its send produced is stored exactly once, as the first attempts
      of its incident, and exactly when it is delivered, whatever the record calls answered. */
  lemma SentAtMostOnceRecordedExactlyOnce(actions: seq<Action>, id: nat)
    requires id < |After(START, actions).db.alerts|
    ensures var sys := After(START, actions);
      var alert := sys.db.alerts[id];
      && multiset(sys.sends)[id] <= 1
      && (alert.status == Delivered ==>
            id in sys.sends && id in sys.deliveries && alert.deliveredAt == Some(sys.deliveries[id].deliveredAt))
      && NotesOf(FirstTries(sys.db.notifications), alert.incident)
         == if alert.status == Delivered then AllStored(sys.deliveries[id].notifications) else []
  {
    var sys := After(START, actions);
    RunSound(actions);
    hide After;
    AtMostOnce(sys.sends, id);
    DeliveredLogged(sys, id);
    hide AllStored, NotesOf, Rows, About, FirstTries;
    RowsOfIncident(sys.delivered, sys.deliveries, sys.db.alerts, id);
  }

  lemma {:induction false} AtMostOnce(s: seq<nat>, x: nat)
    requires forall i, j :: 0 <= i < j < |s| ==> s[i] != s[j]
    ensures multiset(s)[x] <= 1
  {
    if s != [] {
      var n := |s| - 1;
      assert s == s[..n] + [s[n]];
      AtMostOnce(s[..n], x);
      if s[n] == x {
        assert x !in s[..n];
      }
    }
  }

  lemma DeliveredLogged(sys: System, id: nat)
    requires Tracked(sys) && id < |sys.db.alerts|
    ensures LoggedIn(sys.delivered, id) <==> sys.db.alerts[id].status == Delivered
    ensures WellLogged(sys.delivered, sys.deliveries, sys.db.alerts)
  {
    hide About, Rows;
    forall k | 0 <= k < |sys.delivered|
      ensures InStatus(sys.db, sys.delivered[k].id, Delivered) {
      assert Announces(sys.db, sys.delivered[k]);
    }
    if sys.db.alerts[id].status == Delivered {
      assert InStatus(sys.db, id, Delivered) && LoggedIn(sys.delivered, id);
    }
  }
}
