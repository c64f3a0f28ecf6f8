/** What a monitor's recipients are told: when the transitions delivered for it alternate, exactly, and that
    they do as long as no alert of it is queued between the claim and the record of another. */
module Alternation {
  import opened Basics
  import opened Sequences
  import opened Storage
  import opened AlertQueue
  import opened Dispatch

  /** Claimed, and a record of it may still arrive. A claim forgotten by a restart is not in flight. */
  predicate InFlight(sys: System, id: nat) {
    InStatus(sys.db, id, Sending) && (id in sys.claimed || id in sys.unrecorded || id in sys.retrying)
  }

  predicate Active(sys: System, id: nat) {
    InStatus(sys.db, id, Pending) || InFlight(sys, id)
  }

  ghost predicate NoneInFlight(sys: System, m: MonitorId) {
    forall id: nat :: InFlight(sys, id) ==> sys.db.alerts[id].monitor != m
  }

  predicate Drops(a: Action, m: MonitorId) {
    a.Deleted? && m !in a.keep
  }

  /** A probe of m is saved that queues an alert. */
  predicate Queues(sys: System, a: Action, m: MonitorId) {
    a.Probed? && a.monitor == m && |Step(sys, a).db.alerts| > |sys.db.alerts|
  }

  /** The action queues nothing within the claim-to-record windows of m and keeps what is known about m. */
  ghost predicate Leaves(sys: System, a: Action, m: MonitorId) {
    (Queues(sys, a, m) ==> NoneInFlight(sys, m)) && !Drops(a, m)
  }

  ghost predicate Undisturbed(actions: seq<Action>, m: MonitorId) {
    forall k :: 0 <= k < |actions| ==> Leaves(After(START, actions[..k]), actions[k], m)
  }

  function ToMonitor(m: MonitorId): Announcement -> bool {
    (a: Announcement) => a.monitor == m
  }

  /** What was delivered for m, in order. */
  function Told(delivered: seq<Announcement>, m: MonitorId): seq<Announcement> {
    Select(ToMonitor(m), delivered)
  }

  // ----- the invariant -----

  ghost predicate Alternating(told: seq<Announcement>) {
    forall i :: 0 <= i < |told| - 1 ==> told[i].transition != told[i + 1].transition
  }

  ghost predicate Remembered(told: seq<Announcement>, lastNotified: map<MonitorId, Status>, m: MonitorId) {
    told != [] ==> m in lastNotified && lastNotified[m] == told[|told| - 1].transition
  }

  predicate ActiveFor(sys: System, id: nat, m: MonitorId) {
    Active(sys, id) && sys.db.alerts[id].monitor == m
  }

  ghost predicate OneActive(sys: System, m: MonitorId) {
    forall i: nat, j: nat :: ActiveFor(sys, i, m) && ActiveFor(sys, j, m) ==> i == j
  }

  ghost predicate News(sys: System, m: MonitorId) {
    forall i: nat :: ActiveFor(sys, i, m) ==>
      m in sys.db.lastNotified && sys.db.lastNotified[m] != sys.db.alerts[i].transition
  }

  ghost predicate Alternates(sys: System, m: MonitorId) {
    && Alternating(Told(sys.delivered, m)) && Remembered(Told(sys.delivered, m), sys.db.lastNotified, m)
    && OneActive(sys, m) && News(sys, m)
  }

  ghost predicate SameNotice(before: map<MonitorId, Status>, after: map<MonitorId, Status>, m: MonitorId) {
    (m in before <==> m in after) && (m in before ==> before[m] == after[m])
  }

  /** No alert of m becomes active. */
  ghost predicate Shrinks(sys: System, next: System, m: MonitorId) {
    forall i: nat :: ActiveFor(next, i, m) ==>
      ActiveFor(sys, i, m) && sys.db.alerts[i].transition == next.db.alerts[i].transition
  }

  lemma ShrinksAlternates(sys: System, next: System, m: MonitorId)
    requires Alternates(sys, m) && Shrinks(sys, next, m)
    requires SameNotice(sys.db.lastNotified, next.db.lastNotified, m) && next.delivered == sys.delivered
    ensures Alternates(next, m)
  {
    hide ActiveFor, Told, Alternating;
  }

  // ----- saved probes -----

  /** What a save leaves active was active, except the alert it queues. */
  lemma RequeuedActive(sys: System, after: Db, i: nat)
    requires Requeued(sys.db.alerts, after.alerts) && i < |sys.db.alerts| && Active(sys.(db := after), i)
    ensures Active(sys, i) && after.alerts[i] == sys.db.alerts[i]
  {
    assert KeptOrCancelled(sys.db.alerts[i], after.alerts[i]);
  }

  lemma NoneActive(sys: System, after: Db, m: MonitorId, i: nat)
    requires Requeued(sys.db.alerts, after.alerts) && i < |sys.db.alerts|
    requires NonePending(after.alerts[..|sys.db.alerts|], m) && NoneInFlight(sys, m)
    requires Active(sys.(db := after), i)
    ensures after.alerts[i].monitor != m
  {
    RequeuedActive(sys, after, i);
    if InStatus(after, i, Pending) {
      assert after.alerts[..|sys.db.alerts|][i].status == Pending;
    } else {
      assert InFlight(sys, i);
    }
  }

  /** Queueing an alert of m when none of m is in flight: it is the only active one, and news. */
  lemma QueuedAlternates(sys: System, after: Db, m: MonitorId)
    requires Alternates(sys, m) && Saved(sys.db, after, m) && Queued(sys.db, after, m)
    requires Requeued(sys.db.alerts, after.alerts) && NoneInFlight(sys, m)
    ensures Alternates(sys.(db := after), m)
  {
    var next, n := sys.(db := after), |sys.db.alerts|;
    hide Requeued, NonePending, NoneInFlight, Thinned, Told, Alternating, Active;
    forall i: nat | Active(next, i) && i < |after.alerts| && after.alerts[i].monitor == m ensures i == n {
      if i < n { NoneActive(sys, after, m, i); }
    }
    assert OneActive(next, m) && News(next, m) by { ActiveExists(next); }
  }

  lemma ActiveExists(sys: System)
    ensures forall i: nat :: Active(sys, i) ==> i < |sys.db.alerts|
  {
  }

  /** Active alerts differ from what was last announced, so there are none before anything is known of m. */
  lemma UnknownIsIdle(sys: System, m: MonitorId)
    requires News(sys, m) && m !in sys.db.lastNotified
    ensures NoneInFlight(sys, m)
  {
    forall id: nat | InFlight(sys, id) ensures sys.db.alerts[id].monitor != m {
      assert Active(sys, id);
      assert ActiveFor(sys, id, m) <==> sys.db.alerts[id].monitor == m;
    }
  }

  /** A save that queues nothing for m. */
  lemma ThinnedAlternates(sys: System, after: Db, saved: MonitorId, m: MonitorId)
    requires Alternates(sys, m) && Saved(sys.db, after, saved) && Requeued(sys.db.alerts, after.alerts)
    requires saved != m || !Queued(sys.db, after, m)
    ensures Alternates(sys.(db := after), m)
  {
    var next, n := sys.(db := after), |sys.db.alerts|;
    ActiveExists(next);
    hide Requeued, NoneInFlight, NonePending, Thinned, Told, Alternating, Active;
    forall i: nat | Active(next, i) && after.alerts[i].monitor == m
      ensures i < n && Active(sys, i) && after.alerts[i] == sys.db.alerts[i]
    {
      assert i < n by { hide Alternates; SavedRows(sys.db, after, saved, m, i); }
      RequeuedActive(sys, after, i);
    }
    if SameNotice(sys.db.lastNotified, after.lastNotified, m) {
      ShrinksAlternates(sys, next, m);
    } else {
      assert saved == m && NonePending(after.alerts[..n], m);
      UnknownIsIdle(sys, m);
      forall i: nat | Active(next, i) ensures after.alerts[i].monitor != m {
        if after.alerts[i].monitor == m { NoneActive(sys, after, m, i); }
      }
    }
  }

  lemma SavedRows(db: Db, after: Db, saved: MonitorId, m: MonitorId, i: nat)
    requires Saved(db, after, saved) && i < |after.alerts| && after.alerts[i].monitor == m
    requires saved != m || !Queued(db, after, m)
    ensures i < |db.alerts|
  {
    hide NonePending, KeptOrCancelled;
  }

  lemma ProbedAlternates(sys: System, a: Action, m: MonitorId)
    requires Sound(sys) && Alternates(sys, m) && a.Probed? && Leaves(sys, a, m)
    ensures Alternates(Step(sys, a), m)
  {
    hide Alternates, SaveFrom, Tracked, Queued, Requeued, NoneInFlight;
    if !Readable(a.previous) {
      return;
    }
    var after := SaveFrom(sys.db, a.previous, a.monitor, a.input, a.dueAt);
    ProbeEffect(sys.db, a.previous, a.monitor, a.input, a.dueAt);
    ProbeRequeues(sys.db, a.previous, a.monitor, a.input, a.dueAt);
    hide SafeQueue;
    if OnlyLogged(sys.db, after) {
      LoggedAlternates(sys, after, m);
    } else {
      hide Saved;
      if m == a.monitor && QueuedFor(sys.db, after, m) {
        QueuedGrows(sys.db, after, m);
        QueuedAlternates(sys, after, m);
      } else {
        ThinnedAlternates(sys, after, a.monitor, m);
      }
    }
  }

  ghost predicate QueuedFor(db: Db, after: Db, m: MonitorId) {
    m in after.states && Queued(db, after, m)
  }

  lemma QueuedGrows(db: Db, after: Db, m: MonitorId)
    requires QueuedFor(db, after, m)
    ensures |after.alerts| > |db.alerts|
  {
    hide Thinned, NonePending;
  }

  lemma LoggedAlternates(sys: System, after: Db, m: MonitorId)
    requires Alternates(sys, m) && OnlyLogged(sys.db, after)
    ensures Alternates(sys.(db := after), m)
  {
    ShrinksAlternates(sys, sys.(db := after), m);
  }

  // ----- the other actions -----

  lemma DeletedAlternates(sys: System, keep: set<MonitorId>, m: MonitorId)
    requires Alternates(sys, m) && m in keep
    ensures Alternates(Step(sys, Deleted(keep)), m)
  {
    var next := Step(sys, Deleted(keep));
    assert Shrinks(sys, next, m) by { hide Alternates; }
    hide Alternates, Shrinks;
    ShrinksAlternates(sys, next, m);
  }

  lemma ClaimAlternates(sys: System, id: nat, reported: bool, m: MonitorId)
    requires Alternates(sys, m)
    ensures Alternates(Step(sys, Claim(id, reported)), m)
  {
    var next := Step(sys, Claim(id, reported));
    assert Shrinks(sys, next, m) by { hide Alternates; }
    hide Alternates, Shrinks;
    ShrinksAlternates(sys, next, m);
  }

  /** Only what the dispatcher holds changes, and nothing starts to be held. */
  lemma HeldAlternates(sys: System, next: System, m: MonitorId)
    requires Alternates(sys, m) && next.db == sys.db && next.delivered == sys.delivered
    requires forall i: nat :: InFlight(next, i) ==> InFlight(sys, i)
    ensures Alternates(next, m)
  {
    assert Shrinks(sys, next, m) by { hide Alternates, InFlight; }
    hide Alternates, Shrinks;
    ShrinksAlternates(sys, next, m);
  }

  lemma NotedAlternates(sys: System, note: Notification, m: MonitorId)
    requires Alternates(sys, m)
    ensures Alternates(Step(sys, Noted(note)), m)
  {
    var next := Step(sys, Noted(note));
    assert Shrinks(sys, next, m) by { hide Alternates; }
    hide Alternates, Shrinks;
    ShrinksAlternates(sys, next, m);
  }

  lemma ToldPush(delivered: seq<Announcement>, a: Announcement, m: MonitorId)
    ensures Told(delivered + [a], m) == if a.monitor == m then Told(delivered, m) + [a] else Told(delivered, m)
  {
    SelectPush(ToMonitor(m), delivered, a);
  }

  lemma AlternatingPush(told: seq<Announcement>, a: Announcement)
    requires Alternating(told) && (told != [] ==> told[|told| - 1].transition != a.transition)
    ensures Alternating(told + [a])
  {
  }

  /** The delivery of the only active alert of m, which is news. */
  lemma ToldAlternates(sys: System, next: System, id: nat, m: MonitorId)
    requires Alternates(sys, m) && ActiveFor(sys, id, m) && id < |sys.db.alerts|
    requires next.delivered == sys.delivered + [Announcement(id, m, sys.db.alerts[id].transition)]
    requires m in next.db.lastNotified && next.db.lastNotified[m] == sys.db.alerts[id].transition
    requires forall i: nat :: ActiveFor(next, i, m) ==> i != id && ActiveFor(sys, i, m)
    ensures Alternates(next, m)
  {
    var a := Announcement(id, m, sys.db.alerts[id].transition);
    ToldPush(sys.delivered, a, m);
    assert Active(sys, id);
    hide Told, Active;
    AlternatingPush(Told(sys.delivered, m), a);
    assert OneActive(next, m) && News(next, m) by {
      forall i: nat ensures !ActiveFor(next, i, m) { }
      hide Alternating, Remembered, ActiveFor;
    }
  }

  lemma OtherToldAlternates(sys: System, next: System, a: Announcement, m: MonitorId)
    requires Alternates(sys, m) && a.monitor != m
    requires next.delivered == sys.delivered + [a]
    requires SameNotice(sys.db.lastNotified, next.db.lastNotified, m)
    requires Shrinks(sys, next, m)
    ensures Alternates(next, m)
  {
    ToldPush(sys.delivered, a, m);
    var before := next.(delivered := sys.delivered);
    forall i: nat ensures ActiveFor(before, i, m) == ActiveFor(next, i, m) { }
    hide Told, ActiveFor;
    ShrinksAlternates(sys, before, m);
  }

  /** A record of an alert in flight, or of one already delivered. */
  lemma RecordedAlternates(sys: System, id: nat, d: Delivery, answer: Answer, m: MonitorId)
    requires Tracked(sys) && Alternates(sys, m) && (id in sys.unrecorded || id in sys.retrying)
    ensures Alternates(Recorded(sys, id, d, answer), m)
  {
    var next := Recorded(sys, id, d, answer);
    if next != sys {
      hide AllStored, Holdings, SentOnce, DeliveredOnce, Rows, Alternates;
      assert InFlight(sys, id);
      var row := sys.db.alerts[id];
      RecordedActive(sys, id, d, answer);
      assert next.delivered == sys.delivered + [Announcement(id, row.monitor, row.transition)];
      assert next.db.lastNotified == sys.db.lastNotified[row.monitor := row.transition];
      hide Recorded, InFlight, RecordDelivery;
      if row.monitor == m {
        assert Active(sys, id);
        forall i: nat | ActiveFor(next, i, m) ensures i != id && ActiveFor(sys, i, m) {
          assert Active(next, i);
        }
        ToldAlternates(sys, next, id, m);
      } else {
        OtherToldAlternates(sys, next, Announcement(id, row.monitor, row.transition), m);
      }
    }
  }

  lemma RecordedActive(sys: System, id: nat, d: Delivery, answer: Answer)
    requires Recorded(sys, id, d, answer) != sys
    ensures var next := Recorded(sys, id, d, answer);
      forall i: nat :: Active(next, i) ==> i != id && Active(sys, i) && next.db.alerts[i] == sys.db.alerts[i]
  {
    hide AllStored;
  }

  /** After its record call an alert is held for a retry or no longer. */
  lemma AnsweredAlternates(sys: System, next: System, id: nat, m: MonitorId)
    requires Alternates(sys, m) && (id in sys.unrecorded || id in sys.retrying)
    requires next == sys.(unrecorded := next.unrecorded, retrying := next.retrying)
    requires next.unrecorded.Keys <= sys.unrecorded.Keys
    requires forall i: nat :: i in next.retrying ==> i in sys.retrying || i == id
    ensures Alternates(next, m)
  {
    hide Alternates;
    HeldAlternates(sys, next, m);
  }

  /** What an answered record call does beside the call itself. */
  lemma AnsweredStep(sys: System, a: Action, id: nat, d: Delivery, answer: Answer)
    requires
      || (a == Record(id, answer) && id in sys.unrecorded && d == sys.unrecorded[id])
      || (a == Retry(id, answer) && id in sys.retrying && d == sys.retrying[id])
    ensures var called, next := Recorded(sys, id, d, answer), Step(sys, a);
      && next == called.(unrecorded := next.unrecorded, retrying := next.retrying)
      && called.unrecorded == sys.unrecorded && called.retrying == sys.retrying
      && next.unrecorded.Keys <= sys.unrecorded.Keys
      && forall i: nat :: i in next.retrying ==> i in sys.retrying || i == id
  {
    RecordedHolds(sys, id, d, answer);
    hide RecordDelivery, RecordSucceeds, Recorded;
  }

  lemma RecordAlternates(sys: System, id: nat, answer: Answer, m: MonitorId)
    requires Tracked(sys) && Alternates(sys, m)
    ensures Alternates(Step(sys, Record(id, answer)), m)
  {
    if id in sys.unrecorded {
      AnsweredStep(sys, Record(id, answer), id, sys.unrecorded[id], answer);
      hide Recorded, Tracked, Alternates, Step;
      RecordedAlternates(sys, id, sys.unrecorded[id], answer, m);
      AnsweredAlternates(Recorded(sys, id, sys.unrecorded[id], answer), Step(sys, Record(id, answer)), id, m);
    }
  }

  lemma RetryAlternates(sys: System, id: nat, answer: Answer, m: MonitorId)
    requires Tracked(sys) && Alternates(sys, m)
    ensures Alternates(Step(sys, Retry(id, answer)), m)
  {
    if id in sys.retrying {
      AnsweredStep(sys, Retry(id, answer), id, sys.retrying[id], answer);
      hide Recorded, Tracked, Alternates, Step;
      RecordedAlternates(sys, id, sys.retrying[id], answer, m);
      AnsweredAlternates(Recorded(sys, id, sys.retrying[id], answer), Step(sys, Retry(id, answer)), id, m);
    }
  }

  lemma StepAlternates(sys: System, a: Action, m: MonitorId)
    requires Sound(sys) && Alternates(sys, m) && Leaves(sys, a, m)
    ensures Alternates(Step(sys, a), m)
  {
    hide Alternates, Tracked, SafeQueue;
    match a
    case Probed(_, _, _, _) => ProbedAlternates(sys, a, m);
    case Deleted(keep) => DeletedAlternates(sys, keep, m);
    case Claim(id, reported) => ClaimAlternates(sys, id, reported, m);
    case Send(id, d) => hide About; HeldAlternates(sys, Step(sys, a), m);
    case Record(id, answer) => RecordAlternates(sys, id, answer, m);
    case Retry(id, answer) => RetryAlternates(sys, id, answer, m);
    case Noted(note) => NotedAlternates(sys, note, m);
    case Restart => HeldAlternates(sys, Step(sys, a), m);
  }

  lemma {:induction false} RunAlternates(actions: seq<Action>, m: MonitorId)
    requires Undisturbed(actions, m)
    ensures Alternates(After(START, actions), m)
  {
    if actions != [] {
      var n := |actions| - 1;
      assert Undisturbed(actions[..n], m) by {
        forall k | 0 <= k < n ensures actions[..n][..k] == actions[..k] { }
        hide Leaves, After;
      }
      assert Leaves(After(START, actions[..n]), actions[n], m);
      hide Leaves, Alternates, Undisturbed, Step, Sound;
      RunAlternates(actions[..n], m);
      RunSound(actions[..n]);
      StepAlternates(After(START, actions[..n]), actions[n], m);
    }
  }

  /** Under any interleaving that queues nothing for m between claim and record: the transitions
      delivered for m strictly alternate between UP and DOWN, the last of them is remembered, and while
      the stored status is the one last announced nothing is pending. */
  lemma DeliveriesAlternate(actions: seq<Action>, m: MonitorId)
    requires Undisturbed(actions, m)
    ensures var sys := After(START, actions);
      var told := Told(sys.delivered, m);
      && (forall i :: 0 <= i < |told| ==> told[i].transition in {Up, Down})
      && (forall i :: 0 <= i < |told| - 1 ==> told[i].transition != told[i + 1].transition)
      && (told != [] ==> m in sys.db.lastNotified && sys.db.lastNotified[m] == told[|told| - 1].transition)
      && (m in sys.db.states && m in sys.db.lastNotified && sys.db.states[m].status == sys.db.lastNotified[m] ==>
            NonePending(sys.db.alerts, m))
  {
    RunAlternates(actions, m);
    RunSound(actions);
    var sys := After(START, actions);
    hide After, Undisturbed;
    var told := Told(sys.delivered, m);
    forall i | 0 <= i < |told| ensures told[i].transition in {Up, Down} {
      assert told[i] in sys.delivered;
      assert Announces(sys.db, told[i]) by { hide Told; }
    }
    hide Told;
    forall i | 0 <= i < |sys.db.alerts| && sys.db.alerts[i].status == Pending && sys.db.alerts[i].monitor == m
      ensures m in sys.db.states && sys.db.states[m].status != sys.db.lastNotified[m] {
      assert Claimable(sys.db, i);
      assert Active(sys, i);
    }
  }

  // ----- exactly when they alternate -----

  ghost predicate NeverDrops(actions: seq<Action>, m: MonitorId) {
    forall k :: 0 <= k < |actions| ==> !Drops(actions[k], m)
  }

  /** The action is a record call that delivers an alert of m. */
  predicate Delivers(sys: System, a: Action, m: MonitorId) {
    && ((a.Record? && a.id in sys.unrecorded) || (a.Retry? && a.id in sys.retrying))
    && a.answer != NotCommitted && InStatus(sys.db, a.id, Sending) && sys.db.alerts[a.id].monitor == m
  }

  /** What it delivers is the status stored as last announced. */
  predicate Repeats(sys: System, a: Action, m: MonitorId) {
    Delivers(sys, a, m) && m in sys.db.lastNotified && sys.db.lastNotified[m] == sys.db.alerts[a.id].transition
  }

  ghost predicate NeverRepeats(actions: seq<Action>, m: MonitorId) {
    forall k :: 0 <= k < |actions| ==> !Repeats(After(START, actions[..k]), actions[k], m)
  }

  /** Until something is delivered for m, all its alerts differ from the status it is remembered with. */
  ghost predicate FirstIsNews(sys: System, m: MonitorId) {
    Told(sys.delivered, m) == [] ==>
      forall i :: 0 <= i < |sys.db.alerts| && sys.db.alerts[i].monitor == m ==>
        m in sys.db.lastNotified && sys.db.lastNotified[m] != sys.db.alerts[i].transition
  }

  ghost predicate Knows(sys: System, m: MonitorId) {
    Remembered(Told(sys.delivered, m), sys.db.lastNotified, m) && FirstIsNews(sys, m)
  }

  /** Nothing is delivered, what is remembered of m stays, and alerts of m are kept or news. */
  lemma StillKnows(sys: System, next: System, m: MonitorId)
    requires Knows(sys, m) && next.delivered == sys.delivered
    requires m in sys.db.lastNotified ==> m in next.db.lastNotified && next.db.lastNotified[m] == sys.db.lastNotified[m]
    requires forall i :: 0 <= i < |next.db.alerts| && next.db.alerts[i].monitor == m ==>
      || (i < |sys.db.alerts| && sys.db.alerts[i].monitor == m
          && sys.db.alerts[i].transition == next.db.alerts[i].transition)
      || (m in next.db.lastNotified && next.db.lastNotified[m] != next.db.alerts[i].transition)
    ensures Knows(next, m)
  {
    hide Told;
  }

  lemma SavedNotice(db: Db, after: Db, saved: MonitorId, m: MonitorId)
    requires Saved(db, after, saved)
    ensures m in db.lastNotified ==> m in after.lastNotified && after.lastNotified[m] == db.lastNotified[m]
  {
    hide Queued, NoneQueued, NonePending;
  }

  lemma SavedNews(db: Db, after: Db, saved: MonitorId, m: MonitorId, i: nat)
    requires Saved(db, after, saved) && Requeued(db.alerts, after.alerts)
    requires i < |after.alerts| && after.alerts[i].monitor == m
    ensures
      || (i < |db.alerts| && db.alerts[i].monitor == m && db.alerts[i].transition == after.alerts[i].transition)
      || (m in after.lastNotified && after.lastNotified[m] != after.alerts[i].transition)
  {
    if i < |db.alerts| {
      assert KeptOrCancelled(db.alerts[i], after.alerts[i]);
    } else {
      hide Thinned, NonePending;
    }
  }

  lemma ProbedKnows(sys: System, a: Action, m: MonitorId)
    requires Sound(sys) && Knows(sys, m) && a.Probed?
    ensures Knows(Step(sys, a), m)
  {
    hide Knows, SaveFrom, Tracked, Requeued;
    if Readable(a.previous) {
      var after := SaveFrom(sys.db, a.previous, a.monitor, a.input, a.dueAt);
      ProbeEffect(sys.db, a.previous, a.monitor, a.input, a.dueAt);
      ProbeRequeues(sys.db, a.previous, a.monitor, a.input, a.dueAt);
      hide SafeQueue;
      if Saved(sys.db, after, a.monitor) {
        hide Saved;
        SavedNotice(sys.db, after, a.monitor, m);
        forall i: nat | i < |after.alerts| && after.alerts[i].monitor == m
          ensures
            || (i < |sys.db.alerts| && sys.db.alerts[i].monitor == m
                && sys.db.alerts[i].transition == after.alerts[i].transition)
            || (m in after.lastNotified && after.lastNotified[m] != after.alerts[i].transition)
        {
          SavedNews(sys.db, after, a.monitor, m, i);
        }
      }
      StillKnows(sys, Step(sys, a), m);
    }
  }

  lemma RecordShapes(sys: System, a: Action, m: MonitorId)
    requires Tracked(sys) && (a.Record? || a.Retry?)
    ensures var next := Step(sys, a);
      && |next.db.alerts| == |sys.db.alerts|
      && (forall i :: 0 <= i < |sys.db.alerts| ==>
            next.db.alerts[i].monitor == sys.db.alerts[i].monitor
            && next.db.alerts[i].transition == sys.db.alerts[i].transition)
      && (Delivers(sys, a, m) ==>
            && next.delivered == sys.delivered + [Announcement(a.id, m, sys.db.alerts[a.id].transition)]
            && m in next.db.lastNotified && next.db.lastNotified[m] == sys.db.alerts[a.id].transition)
      && (!Delivers(sys, a, m) ==>
            && Told(next.delivered, m) == Told(sys.delivered, m)
            && SameNotice(sys.db.lastNotified, next.db.lastNotified, m))
  {
    hide AllStored, Told, Tracked;
    var next := Step(sys, a);
    if next.delivered != sys.delivered {
      var row := sys.db.alerts[a.id];
      assert next.delivered == sys.delivered + [Announcement(a.id, row.monitor, row.transition)];
      ToldPush(sys.delivered, Announcement(a.id, row.monitor, row.transition), m);
    }
  }

  /** One more delivery for m alternates exactly when it differs from the status remembered. */
  lemma DeliveredKnows(sys: System, next: System, id: nat, m: MonitorId)
    requires Knows(sys, m) && id < |sys.db.alerts| && sys.db.alerts[id].monitor == m
    requires next.delivered == sys.delivered + [Announcement(id, m, sys.db.alerts[id].transition)]
    requires m in next.db.lastNotified && next.db.lastNotified[m] == sys.db.alerts[id].transition
    ensures Knows(next, m)
    ensures Alternating(Told(next.delivered, m))
            <==> && Alternating(Told(sys.delivered, m))
                 && !(m in sys.db.lastNotified && sys.db.lastNotified[m] == sys.db.alerts[id].transition)
  {
    var a := Announcement(id, m, sys.db.alerts[id].transition);
    ToldPush(sys.delivered, a, m);
    hide Told, Alternating;
    AlternatingLast(Told(sys.delivered, m), a);
    AlternatingNone(Told(sys.delivered, m));
  }

  lemma AlternatingNone(told: seq<Announcement>)
    ensures told == [] ==> Alternating(told)
  {
  }

  lemma RecordKnows(sys: System, a: Action, m: MonitorId)
    requires Tracked(sys) && Knows(sys, m) && (a.Record? || a.Retry?)
    ensures Knows(Step(sys, a), m)
    ensures var told, next := Told(sys.delivered, m), Told(Step(sys, a).delivered, m);
      Alternating(next) <==> Alternating(told) && !Repeats(sys, a, m)
  {
    var next := Step(sys, a);
    hide Tracked, Step, Told, Alternating, Knows;
    RecordShapes(sys, a, m);
    if Delivers(sys, a, m) {
      DeliveredKnows(sys, next, a.id, m);
    } else {
      UntoldKnows(sys, next, m);
    }
  }

  lemma UntoldKnows(sys: System, next: System, m: MonitorId)
    requires Knows(sys, m) && Told(next.delivered, m) == Told(sys.delivered, m)
    requires SameNotice(sys.db.lastNotified, next.db.lastNotified, m)
    requires |next.db.alerts| == |sys.db.alerts|
    requires forall i :: 0 <= i < |sys.db.alerts| ==>
      && next.db.alerts[i].monitor == sys.db.alerts[i].monitor
      && next.db.alerts[i].transition == sys.db.alerts[i].transition
    ensures Knows(next, m)
  {
    hide Told;
  }

  lemma AlternatingLast(told: seq<Announcement>, a: Announcement)
    ensures Alternating(told + [a])
            <==> Alternating(told) && (told != [] ==> told[|told| - 1].transition != a.transition)
  {
    var all := told + [a];
    assert forall i :: 0 <= i < |told| ==> all[i] == told[i];
    if Alternating(all) {
      forall i | 0 <= i < |told| - 1 ensures told[i].transition != told[i + 1].transition {
        assert all[i].transition != all[i + 1].transition;
      }
      assert told != [] ==> all[|told| - 1].transition != all[|told| - 1 + 1].transition;
    }
  }

  /** Claims, sends, deletions that keep m, later attempts and restarts. */
  lemma QuietKnows(sys: System, a: Action, m: MonitorId)
    requires Knows(sys, m) && !a.Probed? && !a.Record? && !a.Retry? && !Drops(a, m)
    ensures Knows(Step(sys, a), m) && Step(sys, a).delivered == sys.delivered
  {
    assert Step(sys, a).delivered == sys.delivered;
    hide Knows, About;
    StillKnows(sys, Step(sys, a), m);
  }

  lemma ProbedDelivers(sys: System, a: Action)
    requires a.Probed?
    ensures Step(sys, a).delivered == sys.delivered
  {
  }

  lemma StepAlternatesExactly(sys: System, a: Action, m: MonitorId)
    requires Sound(sys) && Knows(sys, m) && !Drops(a, m)
    ensures Knows(Step(sys, a), m)
    ensures Alternating(Told(Step(sys, a).delivered, m))
            <==> Alternating(Told(sys.delivered, m)) && !Repeats(sys, a, m)
  {
    hide Knows, Step, Told, Alternating, Tracked, SafeQueue;
    if a.Probed? {
      ProbedKnows(sys, a, m);
      ProbedDelivers(sys, a);
    } else if a.Record? || a.Retry? {
      RecordKnows(sys, a, m);
    } else {
      QuietKnows(sys, a, m);
    }
  }

  lemma StartKnows(m: MonitorId)
    ensures Knows(START, m) && Alternating(Told(START.delivered, m))
  {
  }

  lemma NeverRepeatsFront(actions: seq<Action>, m: MonitorId)
    requires actions != []
    ensures var n := |actions| - 1;
      NeverRepeats(actions, m) <==> NeverRepeats(actions[..n], m) && !Repeats(After(START, actions[..n]), actions[n], m)
  {
    hide After, Repeats;
    var n := |actions| - 1;
    forall k | 0 <= k < n ensures actions[..n][..k] == actions[..k] && actions[..n][k] == actions[k] { }
    if NeverRepeats(actions, m) {
      forall k | 0 <= k < n ensures !Repeats(After(START, actions[..n][..k]), actions[..n][k], m) {
        assert !Repeats(After(START, actions[..k]), actions[k], m);
      }
    }
    if NeverRepeats(actions[..n], m) && !Repeats(After(START, actions[..n]), actions[n], m) {
      forall k | 0 <= k < |actions| ensures !Repeats(After(START, actions[..k]), actions[k], m) {
        if k < n { assert !Repeats(After(START, actions[..n][..k]), actions[..n][k], m); }
      }
    }
  }

  lemma {:induction false} RunAlternatesExactly(actions: seq<Action>, m: MonitorId)
    requires NeverDrops(actions, m)
    ensures Knows(After(START, actions), m)
    ensures Alternating(Told(After(START, actions).delivered, m)) <==> NeverRepeats(actions, m)
  {
    if actions == [] {
      StartKnows(m);
    } else {
      var n := |actions| - 1;
      hide Knows, Step, Told, Alternating, Sound, Repeats, Drops;
      RunAlternatesExactly(actions[..n], m);
      RunSound(actions[..n]);
      StepAlternatesExactly(After(START, actions[..n]), actions[n], m);
      NeverRepeatsFront(actions, m);
    }
  }

  /** Over every run that keeps m configured, its delivered transitions strictly alternate if and only if
      no record call delivered an alert that announces the very status stored as last announced. */
  lemma AlternateExactly(actions: seq<Action>, m: MonitorId)
    requires NeverDrops(actions, m)
    ensures var told := Told(After(START, actions).delivered, m);
      (forall i :: 0 <= i < |told| - 1 ==> told[i].transition != told[i + 1].transition) <==> NeverRepeats(actions, m)
  {
    RunAlternatesExactly(actions, m);
  }
}
