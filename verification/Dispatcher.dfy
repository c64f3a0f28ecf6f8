/** The dispatcher as it runs: it claims, sends and records against a store that others write between
    any two of its statements, and keeps the deliveries whose record call failed. */
module Dispatcher {
  import opened Basics
  import opened Storage
  import opened AlertQueue
  import opened Dispatch
  import RetryChain

  /** One turn of the dispatch loop with all that the dispatcher does not decide: what others do before
      the claim and during the send, and how its calls turn out. */
  datatype Turn = Turn(
    id: nat, before: seq<Action>, claim: Answer, at: Time, deliveredAt: Time,
    results: seq<RetryChain.SendResult>, during: seq<Action>, record: Answer)

  /** Probes and configuration changes run beside the dispatcher. */
  predicate Outside(actions: seq<Action>) {
    forall k :: 0 <= k < |actions| ==> actions[k].Probed? || actions[k].Deleted?
  }

  /** Delivered, or held until it is. */
  predicate Settled(sys: System, id: nat) {
    InStatus(sys.db, id, Delivered) || id in sys.unrecorded || id in sys.retrying
  }

  /** Every alert sent since is settled. */
  ghost predicate AllSettled(start: System, sys: System) {
    forall id :: id in sys.sends ==> id in start.sends || Settled(sys, id)
  }

  /** Rows that have left the queue stay out of it, and delivered ones delivered. */
  ghost predicate Gone(before: seq<AlertRow>, after: seq<AlertRow>) {
    && |before| <= |after|
    && (forall k :: 0 <= k < |before| && before[k].status != Pending ==> after[k].status != Pending)
    && (forall k :: 0 <= k < |before| && before[k].status == Delivered ==> after[k].status == Delivered)
  }

  lemma MovesGone(before: seq<AlertRow>, after: seq<AlertRow>)
    requires RowsMove(before, after)
    ensures Gone(before, after)
  {
    forall k | 0 <= k < |before| ensures RowMoves(before[k], after[k]) { }
  }

  lemma GoneThrough(a: seq<AlertRow>, b: seq<AlertRow>, c: seq<AlertRow>)
    requires Gone(a, b) && Gone(b, c)
    ensures Gone(a, c)
  {
  }

  /** One send or record leaves all that was settled settled. */
  lemma SettledStays(start: System, sys: System, next: System, id: nat)
    requires AllSettled(start, sys) && RowsMove(sys.db.alerts, next.db.alerts) && (id in next.sends ==>
      Settled(next, id))
    requires forall k :: k in next.sends ==> k == id || k in sys.sends
    requires forall k :: k in sys.unrecorded || k in sys.retrying ==>
      k == id || k in next.unrecorded || k in next.retrying
    ensures AllSettled(start, next)
  {
    forall k | k in next.sends ensures k in start.sends || Settled(next, k) {
      if k != id && InStatus(sys.db, k, Delivered) {
        assert RowMoves(sys.db.alerts[k], next.db.alerts[k]);
      }
    }
  }

  /** The alert of a record call is delivered, or kept for another try. */
  lemma RecordSettles(sys: System, a: Action, id: nat)
    requires Tracked(sys)
    requires (a.Record? && a.id == id && id in sys.unrecorded) || (a.Retry? && a.id == id && id in sys.retrying)
    ensures Settled(Step(sys, a), id)
  {
    hide AllStored, DeliveredOnce, Rows, About;
  }

  /** What a record step leaves of sends and holdings. */
  lemma RecordKeeps(sys: System, a: Action, id: nat)
    requires || (a.Record? && a.id == id && id in sys.unrecorded)
             || (a.Retry? && a.id == id && id in sys.retrying)
    ensures var next := Step(sys, a);
      && next.sends == sys.sends
      && forall k :: k in sys.unrecorded || k in sys.retrying ==>
           k == id || k in next.unrecorded || k in next.retrying
  {
    RecordedHolds(sys, id, if a.Record? then sys.unrecorded[id] else sys.retrying[id], a.answer);
    hide Recorded, RecordSucceeds;
  }

  lemma RecordStepSettles(start: System, sys: System, id: nat, answer: Answer)
    requires Tracked(sys) && AllSettled(start, sys) && id in sys.unrecorded
    requires RowsMove(sys.db.alerts, Step(sys, Record(id, answer)).db.alerts)
    ensures AllSettled(start, Step(sys, Record(id, answer)))
  {
    RecordSettles(sys, Record(id, answer), id);
    RecordKeeps(sys, Record(id, answer), id);
    hide Step, Tracked, AllSettled, RowsMove, Settled;
    SettledStays(start, sys, Step(sys, Record(id, answer)), id);
  }

  lemma RetryStepSettles(start: System, sys: System, id: nat, answer: Answer)
    requires Tracked(sys) && AllSettled(start, sys) && id in sys.retrying
    requires RowsMove(sys.db.alerts, Step(sys, Retry(id, answer)).db.alerts)
    ensures AllSettled(start, Step(sys, Retry(id, answer)))
  {
    RecordSettles(sys, Retry(id, answer), id);
    RecordKeeps(sys, Retry(id, answer), id);
    hide Step, Tracked, AllSettled, RowsMove, Settled;
    SettledStays(start, sys, Step(sys, Retry(id, answer)), id);
  }

  lemma SendStepSettles(start: System, sys: System, id: nat, d: Delivery)
    requires AllSettled(start, sys) && RowsMove(sys.db.alerts, Step(sys, Send(id, d)).db.alerts)
    ensures AllSettled(start, Step(sys, Send(id, d)))
  {
    hide AllSettled, RowsMove, About;
    if Step(sys, Send(id, d)) != sys {
      SettledStays(start, sys, Step(sys, Send(id, d)), id);
    }
  }

  lemma StepSettles(start: System, sys: System, a: Action)
    requires Sound(sys) && AllSettled(start, sys) && a != Restart
    ensures AllSettled(start, Step(sys, a)) && Gone(sys.db.alerts, Step(sys, a).db.alerts)
  {
    StepSound(sys, a);
    MovesGone(sys.db.alerts, Step(sys, a).db.alerts);
    hide RowsMove, Gone, SafeQueue, AllSettled, Tracked;
    if a.Record? && a.id in sys.unrecorded {
      hide Step;
      RecordStepSettles(start, sys, a.id, a.answer);
    } else if a.Retry? && a.id in sys.retrying {
      hide Step;
      RetryStepSettles(start, sys, a.id, a.answer);
    } else if a.Send? {
      hide Step;
      SendStepSettles(start, sys, a.id, a.delivery);
    } else {
      HoldsStill(sys, a);
      hide Step;
      SomeSettled(start, sys, Step(sys, a));
    }
  }

  lemma HoldsStill(sys: System, a: Action)
    requires !a.Send? && a != Restart
    requires (a.Record? ==> a.id !in sys.unrecorded) && (a.Retry? ==> a.id !in sys.retrying)
    ensures var next := Step(sys, a);
      next.sends == sys.sends && next.unrecorded == sys.unrecorded && next.retrying == sys.retrying
  {
    hide SaveFrom, DeleteStatesExcept, ClaimAlert, Claimable;
  }

  /** Nothing is sent or recorded. */
  lemma SomeSettled(start: System, sys: System, next: System)
    requires AllSettled(start, sys) && RowsMove(sys.db.alerts, next.db.alerts)
    requires next.sends == sys.sends && next.unrecorded == sys.unrecorded && next.retrying == sys.retrying
    ensures AllSettled(start, next)
  {
    forall k | k in next.sends ensures k in start.sends || Settled(next, k) {
      if InStatus(sys.db, k, Delivered) {
        assert RowMoves(sys.db.alerts[k], next.db.alerts[k]);
      }
    }
  }

  /** The log grows by one action. */
  lemma LogOne(start: System, log: seq<Action>, sys: System, a: Action)
    requires sys == After(START, log) && AllSettled(start, sys) && a != Restart
    ensures Step(sys, a) == After(START, log + [a])
    ensures AllSettled(start, Step(sys, a)) && Gone(sys.db.alerts, Step(sys, a).db.alerts)
  {
    hide Step, AllSettled, Gone, Sound;
    AfterPush(START, log, a);
    RunSound(log);
    StepSettles(start, sys, a);
  }

  lemma StayDelivered(before: Db, after: Db)
    requires Gone(before.alerts, after.alerts)
    ensures forall id: nat :: InStatus(before, id, Delivered) ==> InStatus(after, id, Delivered)
  {
  }

  lemma AllSettledNow(sys: System)
    ensures AllSettled(sys, sys)
  {
  }

  lemma GoneSame(alerts: seq<AlertRow>)
    ensures Gone(alerts, alerts)
  {
  }

  lemma PendingClaimable(log: seq<Action>, id: nat)
    ensures Claimable(After(START, log).db, id) <==> InStatus(After(START, log).db, id, Pending)
  {
    RunSound(log);
    hide After;
  }

  /** A record call looks at the database only. */
  lemma RecordedOnDb(sys: System, id: nat, d: Delivery, answer: Answer)
    ensures var was, called := START.(db := sys.db), Recorded(sys, id, d, answer);
      && RecordSucceeds(was, id, d, answer) == RecordSucceeds(sys, id, d, answer)
      && Recorded(was, id, d, answer).db == called.db
      && called == sys.(db := called.db, delivered := called.delivered)
  {
  }

  lemma InOutside(actions: seq<Action>, k: nat)
    requires Outside(actions) && k < |actions|
    ensures actions[k].Probed? || actions[k].Deleted?
  {
  }

  predicate OutOfQueue(alerts: seq<AlertRow>, id: nat) {
    id < |alerts| && alerts[id].status != Pending
  }

  /** A kept delivery can still be recorded, and no call undoes a delivery. */
  lemma KeptRecords(log: seq<Action>, id: nat, answer: Answer)
    requires id in After(START, log).retrying
    ensures var sys := After(START, log);
      var next := Step(sys, Retry(id, answer));
      && (RecordSucceeds(sys, id, sys.retrying[id], answer) <==> answer == Committed)
      && (answer != NotCommitted ==> InStatus(next.db, id, Delivered))
  {
    RunSound(log);
    hide After, SafeQueue, AllStored, DeliveredOnce, About, Rows;
  }

  class AlertDispatcher {
    const store: Store
    var pendingAlertWrites: map<nat, Delivery>
    /** Everything done to the store so far, by anyone, and where that leads. */
    ghost var log: seq<Action>
    ghost var sys: System

    ghost predicate Holding(claimed: set<nat>, unrecorded: map<nat, Delivery>)
      reads this, store
    {
      && sys == After(START, log) && sys.db == store.Contents() && sys.retrying == pendingAlertWrites
      && sys.claimed == claimed && sys.unrecorded == unrecorded
    }

    /** Between passes the dispatcher holds only the deliveries it still has to record. */
    ghost predicate Valid()
      reads this, store
    {
      Holding({}, map[])
    }

    constructor ()
      ensures Valid() && fresh(store) && log == []
    {
      store := new Store();
      pendingAlertWrites, log, sys := map[], [], START;
    }

    method Other(a: Action, ghost start: System, ghost claimed: set<nat>, ghost unrecorded: map<nat, Delivery>)
      requires (a.Probed? || a.Deleted?) && Holding(claimed, unrecorded) && AllSettled(start, sys)
      modifies store, this`log, this`sys
      ensures Holding(claimed, unrecorded) && AllSettled(start, sys) && Gone(old(sys).db.alerts, sys.db.alerts)
      ensures log == old(log) + [a] && sys == old(sys).(db := sys.db)
    {
      hide After, AllSettled, Gone, SaveFrom, DeleteStatesExcept;
      LogOne(start, log, sys, a);
      match a {
        case Probed(m, previous, p, dueAt) =>
          if Readable(previous) {
            store.FinishProbe(previous, m, p, dueAt);
          }
        case Deleted(keep) => store.DropStatesExcept(keep);
      }
      log, sys := log + [a], Step(sys, a);
    }

    /** What others do meanwhile; it unsettles nothing sent since the given start. */
    method Others(
        actions: seq<Action>, ghost start: System, ghost claimed: set<nat>, ghost unrecorded: map<nat, Delivery>)
      requires Outside(actions) && Holding(claimed, unrecorded) && AllSettled(start, sys)
      modifies store, this`log, this`sys
      ensures Holding(claimed, unrecorded) && AllSettled(start, sys) && Gone(old(sys).db.alerts, sys.db.alerts)
      ensures log == old(log) + actions && sys == old(sys).(db := sys.db)
    {
      hide After, AllSettled, Gone, Holding, Outside;
      GoneSame(sys.db.alerts);
      for k := 0 to |actions|
        invariant Holding(claimed, unrecorded) && AllSettled(start, sys) && Gone(old(sys).db.alerts, sys.db.alerts)
        invariant log == old(log) + actions[..k] && sys == old(sys).(db := sys.db)
      {
        assert actions[k].Probed? || actions[k].Deleted? by { InOutside(actions, k); }
        ghost var was := sys;
        Other(actions[k], start, claimed, unrecorded);
        GoneThrough(old(sys).db.alerts, was.db.alerts, sys.db.alerts);
      }
    }

    /** A record call whose answer may be lost. */
    method RecordCall(id: nat, d: Delivery, answer: Answer) returns (ok: bool)
      modifies store
      ensures var was := START.(db := old(store.Contents()));
        && ok == RecordSucceeds(was, id, d, answer)
        && store.Contents() == Recorded(was, id, d, answer).db
    {
      ok := false;
      if answer != NotCommitted {
        ok := store.RecordPendingMonitorAlertDelivery(id, d.notifications, d.deliveredAt);
        ok := ok && answer == Committed;
      }
    }

    /** Claiming a listed alert: it leaves the queue unless the call did not commit. */
    method ClaimOne(id: nat, answer: Answer, ghost start: System) returns (claimed: bool)
      requires Valid() && AllSettled(start, sys) && id < |store.alerts|
      modifies store, this`log, this`sys
      ensures Holding(if claimed then {id} else {}, map[])
      ensures AllSettled(start, sys) && Gone(old(sys).db.alerts, sys.db.alerts) && old(log) <= log
      ensures sys == old(sys).(db := sys.db, claimed := sys.claimed)
      ensures claimed <==> answer == Committed && InStatus(old(sys).db, id, Pending)
      ensures claimed ==> InStatus(sys.db, id, Sending)
      ensures answer != NotCommitted ==> sys.db.alerts[id].status != Pending
    {
      GoneSame(sys.db.alerts);
      if answer == NotCommitted {
        return false;
      }
      PendingClaimable(log, id);
      hide After, AllSettled, Gone;
      LogOne(start, log, sys, Claim(id, answer == Committed));
      claimed := store.ClaimPendingMonitorAlert(id);
      claimed := claimed && answer == Committed;
      log, sys := log + [Claim(id, answer == Committed)], Step(sys, Claim(id, answer == Committed));
    }

    /** Sending a claimed alert makes its first notifications. */
    method SendOne(
        id: nat, at: Time, deliveredAt: Time, policy: RetryChain.Policy, results: seq<RetryChain.SendResult>,
        ghost start: System)
      returns (d: Delivery)
      requires Holding({id}, map[]) && AllSettled(start, sys) && id < |store.alerts|
      modifies this`log, this`sys
      ensures var alert := store.alerts[id];
        d == Delivery(RetryChain.AlertNotifications(alert.incident, alert.monitor, at, 1, policy, results), deliveredAt)
      ensures Holding({}, map[id := d]) && AllSettled(start, sys) && old(log) <= log
      ensures sys == old(sys).(claimed := {}, unrecorded := sys.unrecorded, sends := old(sys).sends + [id],
          deliveries := sys.deliveries)
    {
      var alert := store.alerts[id];
      d := Delivery(RetryChain.AlertNotifications(alert.incident, alert.monitor, at, 1, policy, results), deliveredAt);
      hide After, AllSettled, Gone;
      LogOne(start, log, sys, Send(id, d));
      log, sys := log + [Send(id, d)], Step(sys, Send(id, d));
    }

    /** Recording a delivery, or keeping it for the next pass. */
    method RecordOne(id: nat, d: Delivery, answer: Answer, ghost start: System)
      requires Holding({}, map[id := d]) && AllSettled(start, sys)
      modifies store, this
      ensures Valid() && AllSettled(start, sys) && Gone(old(sys).db.alerts, sys.db.alerts) && old(log) <= log
      ensures sys.sends == old(sys).sends
    {
      LogOne(start, log, sys, Record(id, answer));
      RecordedOnDb(sys, id, d, answer);
      hide After, AllSettled, Gone, RecordDelivery, Recorded, RecordSucceeds;
      var ok := RecordCall(id, d, answer);
      log, sys := log + [Record(id, answer)], Step(sys, Record(id, answer));
      if !ok {
        pendingAlertWrites := pendingAlertWrites[id := d];
      }
    }

    /** One turn of the loop over the due alerts. */
    method TakeTurn(t: Turn, policy: RetryChain.Policy, ghost start: System)
      requires Valid() && AllSettled(start, sys) && t.id < |store.alerts| && Outside(t.before) && Outside(t.during)
      modifies store, this
      ensures Valid() && AllSettled(start, sys) && Gone(old(sys).db.alerts, sys.db.alerts) && old(log) <= log
      ensures t.claim != NotCommitted ==> sys.db.alerts[t.id].status != Pending
      ensures sys.sends == old(sys).sends || sys.sends == old(sys).sends + [t.id]
      ensures t.before == [] && t.claim == Committed && InStatus(old(sys).db, t.id, Pending) ==>
        sys.sends == old(sys).sends + [t.id]
    {
      hide After, AllSettled;
      Others(t.before, start, {}, map[]);
      assert t.before == [] ==> log == old(log);
      var claimed := ClaimOne(t.id, t.claim, start);
      if !claimed {
        return;
      }
      var d := SendOne(t.id, t.at, t.deliveredAt, policy, t.results, start);
      Others(t.during, start, {}, map[t.id := d]);
      RecordOne(t.id, d, t.record, start);
    }

    /** The loop over the due alerts: each claim that commits takes its alert out of the queue, and
        everything sent is delivered or kept. */
    method DispatchDue(turns: seq<Turn>, policy: RetryChain.Policy)
      requires Valid()
      requires forall k :: 0 <= k < |turns| ==>
        turns[k].id < |store.alerts| && Outside(turns[k].before) && Outside(turns[k].during)
      modifies store, this
      ensures Valid() && old(log) <= log && AllSettled(old(sys), sys)
      ensures forall k :: 0 <= k < |turns| && turns[k].claim != NotCommitted ==> OutOfQueue(sys.db.alerts, turns[k].id)
    {
      ghost var start := sys;
      GoneSame(sys.db.alerts);
      for k := 0 to |turns|
        invariant Valid() && old(log) <= log && AllSettled(start, sys)
        invariant Gone(start.db.alerts, sys.db.alerts)
        invariant forall i :: 0 <= i < k && turns[i].claim != NotCommitted ==> OutOfQueue(sys.db.alerts, turns[i].id)
      {
        hide After, AllSettled;
        ghost var was := sys.db.alerts;
        TakeTurn(turns[k], policy, start);
        GoneThrough(start.db.alerts, was, sys.db.alerts);
      }
    }

    /** One more try to record a kept delivery. */
    method RetryOne(id: nat, answer: Answer, ghost start: System)
      requires Valid() && AllSettled(start, sys) && id in pendingAlertWrites
      modifies store, this
      ensures Valid() && AllSettled(start, sys) && old(log) <= log && sys.sends == old(sys).sends
      ensures pendingAlertWrites == if answer == Committed then old(pendingAlertWrites) - {id}
          else old(pendingAlertWrites)
      ensures answer != NotCommitted ==> InStatus(sys.db, id, Delivered)
      ensures Gone(old(sys).db.alerts, sys.db.alerts)
    {
      var d := pendingAlertWrites[id];
      LogOne(start, log, sys, Retry(id, answer));
      RecordedOnDb(sys, id, d, answer);
      KeptRecords(log, id, answer);
      hide After, AllSettled, Gone, RecordDelivery, Recorded, RecordSucceeds;
      var ok := RecordCall(id, d, answer);
      log, sys := log + [Retry(id, answer)], Step(sys, Retry(id, answer));
      if ok {
        pendingAlertWrites := pendingAlertWrites - {id};
      }
    }

    /** The same, after what others do meanwhile. */
    method RetryTurn(id: nat, before: seq<Action>, answer: Answer, ghost start: System)
      requires Valid() && AllSettled(start, sys) && id in pendingAlertWrites && Outside(before)
      modifies store, this
      ensures Valid() && AllSettled(start, sys) && old(log) <= log && sys.sends == old(sys).sends
      ensures pendingAlertWrites == if answer == Committed then old(pendingAlertWrites) - {id}
          else old(pendingAlertWrites)
      ensures answer != NotCommitted ==> InStatus(sys.db, id, Delivered)
      ensures Gone(old(sys).db.alerts, sys.db.alerts)
    {
      hide After, AllSettled, Gone, InStatus;
      Others(before, start, {}, map[]);
      ghost var middle := sys.db.alerts;
      RetryOne(id, answer, start);
      GoneThrough(old(sys).db.alerts, middle, sys.db.alerts);
    }

    /** Every kept delivery is tried once, in any order and whatever others do between the tries: it is
        dropped exactly when its record call commits and says so, and recorded whenever it commits. */
    method RetryPendingMonitorAlertWrites(order: seq<nat>, answers: seq<Answer>, others: seq<seq<Action>>)
      requires Valid() && |answers| == |others| == |order| && RetryChain.Distinct(order)
      requires forall id :: id in pendingAlertWrites <==> id in order
      requires forall k :: 0 <= k < |others| ==> Outside(others[k])
      modifies store, this
      ensures Valid() && old(log) <= log && sys.sends == old(sys).sends
      ensures forall k :: 0 <= k < |order| ==>
        && (order[k] in pendingAlertWrites <==> answers[k] != Committed)
        && (answers[k] != NotCommitted ==> InStatus(sys.db, order[k], Delivered))
      ensures forall id :: id in pendingAlertWrites ==>
        id in order && pendingAlertWrites[id] == old(pendingAlertWrites)[id]
    {
      ghost var start := sys;
      AllSettledNow(sys);
      hide After, AllSettled, Valid, InStatus, Gone, Outside;
      for k := 0 to |order|
        invariant Valid() && old(log) <= log && sys.sends == start.sends && AllSettled(start, sys)
        invariant forall i :: 0 <= i < k ==> (order[i] in pendingAlertWrites <==> answers[i] != Committed)
        invariant forall i :: 0 <= i < k && answers[i] != NotCommitted ==> InStatus(sys.db, order[i], Delivered)
        invariant forall i :: k <= i < |order| ==> order[i] in pendingAlertWrites
        invariant forall id :: id in pendingAlertWrites ==>
          id in order && pendingAlertWrites[id] == old(pendingAlertWrites)[id]
      {
        ghost var was := sys.db;
        RetryTurn(order[k], others[k], answers[k], start);
        StayDelivered(was, sys.db);
      }
    }
  }
}
