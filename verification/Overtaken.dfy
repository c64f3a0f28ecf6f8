/** Why alternation needs its condition: a monitor that recovers and fails again while its first DOWN is
    being sent is announced DOWN twice in a row. */
module Overtaken {
  import opened Basics
  import opened Sequences
  import opened Monitor
  import opened Storage
  import opened AlertQueue
  import opened Dispatch
  import opened Alternation

  function ProbeAt(at: Time, ok: bool): ProbeInput {
    ProbeInput(at, ok, 1, None, None, false, false)
  }

  const SENT := Delivery([], 4)

  /** Every probe is saved from the state stored at that time. */
  const STORY: seq<Action> := [
    Probed(0, UNKNOWN_STATE, ProbeAt(1, false), 1), Claim(0, true),
    Probed(0, StateOf(Claimed(), 0), ProbeAt(2, true), 2), Probed(0, StateOf(Recovered(), 0), ProbeAt(3, false), 3),
    Send(0, SENT), Record(0, Committed), Claim(2, true), Send(2, SENT), Record(2, Committed)]

  /** The only monitor has this status, was last announced with that one, and these are its alerts. */
  ghost predicate Shows(db: Db, status: Status, last: Status, alerts: seq<(Status, AlertStatus)>) {
    && 0 in db.states && db.states[0].status == status && db.states[0].consecutiveFailures >= 0
    && 0 in db.lastNotified && db.lastNotified[0] == last
    && |db.alerts| == |alerts|
    && forall k :: 0 <= k < |alerts| ==>
         db.alerts[k].monitor == 0 && db.alerts[k].transition == alerts[k].0 && db.alerts[k].status == alerts[k].1
  }

  lemma FirstFailure(at: Time)
    ensures Shows(ProbeMonitor(EMPTY, 0, ProbeAt(at, false), at), Down, Unknown, [(Down, Pending)])
  {
    hide SaveStatusInterval;
  }

  /** A change of status cancels what is pending and queues the new status. */
  function Requeue(alerts: seq<(Status, AlertStatus)>, status: Status): seq<(Status, AlertStatus)> {
    seq(|alerts|, k requires 0 <= k < |alerts| =>
      (alerts[k].0, if alerts[k].1 == Pending then Cancelled else alerts[k].1)) + [(status, Pending)]
  }

  /** A probe that changes the status queues it, unless it was the last one announced. */
  lemma Change(db: Db, at: Time, ok: bool, last: Status, alerts: seq<(Status, AlertStatus)>)
    requires Shows(db, if ok then Down else Up, last, alerts)
    requires last != if ok then Up else Down
    ensures Shows(ProbeMonitor(db, 0, ProbeAt(at, ok), at), if ok then Up else Down, last,
                  Requeue(alerts, if ok then Up else Down))
  {
    hide SaveStatusInterval;
  }

  /** The system after k actions of the story. */
  ghost function Upto(k: nat): System
    requires k <= |STORY|
  {
    After(START, STORY[..k])
  }

  lemma Next(k: nat)
    requires k < |STORY|
    ensures Upto(k + 1) == Step(Upto(k), STORY[k])
  {
    hide Step;
    assert STORY[..k + 1][..k] == STORY[..k];
  }

  function Claimed(): Db { ClaimAlert(ProbeMonitor(EMPTY, 0, ProbeAt(1, false), 1), 0) }
  function Recovered(): Db { ProbeMonitor(Claimed(), 0, ProbeAt(2, true), 2) }
  function FailedAgain(): Db { ProbeMonitor(Recovered(), 0, ProbeAt(3, false), 3) }

  lemma ClaimedShows()
    ensures Shows(Claimed(), Down, Unknown, [(Down, Sending)])
    ensures Claimable(ProbeMonitor(EMPTY, 0, ProbeAt(1, false), 1), 0)
  {
    hide ProbeMonitor;
    FirstFailure(1);
  }

  lemma ShownReadable(db: Db, status: Status, last: Status, alerts: seq<(Status, AlertStatus)>)
    requires Shows(db, status, last, alerts)
    ensures Readable(StateOf(db, 0))
  {
  }

  lemma FailedAgainShows()
    ensures Readable(StateOf(Claimed(), 0)) && Readable(StateOf(Recovered(), 0))
    ensures Shows(FailedAgain(), Down, Unknown, [(Down, Sending), (Up, Cancelled), (Down, Pending)])
  {
    hide ProbeMonitor, Claimed, Shows, Readable;
    ClaimedShows();
    ShownReadable(Claimed(), Down, Unknown, [(Down, Sending)]);
    Change(Claimed(), 2, true, Unknown, [(Down, Sending)]);
    assert Requeue([(Down, Sending)], Up) == [(Down, Sending), (Up, Pending)];
    ShownReadable(Recovered(), Up, Unknown, [(Down, Sending), (Up, Pending)]);
    Change(Recovered(), 3, false, Unknown, [(Down, Sending), (Up, Pending)]);
    assert Requeue([(Down, Sending), (Up, Pending)], Down) == [(Down, Sending), (Up, Cancelled), (Down, Pending)];
  }

  /** A probe saved from the stored state is a probe nothing came between. */
  lemma UndisturbedStep(sys: System, p: ProbeInput, dueAt: Time)
    requires Readable(StateOf(sys.db, 0))
    ensures Step(sys, Probed(0, StateOf(sys.db, 0), p, dueAt)) == sys.(db := ProbeMonitor(sys.db, 0, p, dueAt))
  {
    hide SaveFrom;
  }

  /** Nothing is in the dispatcher's hands but the claim of the first alert. */
  lemma UpToTheClaims()
    ensures Shows(Upto(4).db, Down, Unknown, [(Down, Sending), (Up, Cancelled), (Down, Pending)])
    ensures Upto(4) == START.(db := FailedAgain(), claimed := {0})
  {
    hide ProbeMonitor, Shows, Claimable, Upto, SaveFrom;
    ClaimedShows();
    FailedAgainShows();
    Next(0);
    Next(1);
    Next(2);
    Next(3);
    assert Upto(0) == START by { assert STORY[..0] == []; StartsIdle(); UptoNone(); }
    assert Upto(2) == START.(db := Claimed(), claimed := {0}) by { UndisturbedStep(START, ProbeAt(1, false), 1); }
    hide Claimed, Step, Readable, StateOf, ClaimAlert;
    UndisturbedStep(Upto(2), ProbeAt(2, true), 2);
    UndisturbedStep(Upto(3), ProbeAt(3, false), 3);
  }

  lemma UptoNone()
    ensures Upto(0) == After(START, STORY[..0])
  {
  }

  lemma StartsIdle()
    ensures After(START, []) == START
  {
  }

  /** Claimed, sent and recorded without trouble: the alert is delivered. */
  lemma Deliver(sys: System, id: nat)
    requires InStatus(sys.db, id, Sending) && id in sys.claimed && id !in sys.retrying
    ensures var next := Step(Step(sys, Send(id, SENT)), Record(id, Committed));
      && next.db.alerts == sys.db.alerts[id := sys.db.alerts[id].(status := Delivered, deliveredAt := Some(4))]
      && next.db.states == sys.db.states && next.retrying == sys.retrying
      && next.delivered == sys.delivered + [Announcement(id, sys.db.alerts[id].monitor, sys.db.alerts[id].transition)]
  {
  }

  /** Ready for the second alert to be claimed. */
  ghost predicate Ready(sys: System) {
    && sys.delivered == [Announcement(0, 0, Down)] && sys.retrying == map[] && Claimable(sys.db, 2)
    && sys.db.alerts[2].monitor == 0 && sys.db.alerts[2].transition == Down
  }

  lemma ShownReady(db: Db)
    requires Shows(db, Down, Unknown, [(Down, Sending), (Up, Cancelled), (Down, Pending)])
    ensures InStatus(db, 0, Sending) && db.alerts[0].monitor == 0 && db.alerts[0].transition == Down
    ensures Claimable(db, 2) && db.alerts[2].monitor == 0 && db.alerts[2].transition == Down
  {
  }

  lemma FirstDelivered()
    ensures Ready(Upto(6))
  {
    hide Step, Shows, Upto, ProbeMonitor, FailedAgain;
    UpToTheClaims();
    ShownReady(Upto(4).db);
    Deliver(Upto(4), 0);
    Next(4);
    Next(5);
  }

  lemma SecondClaimed(sys: System)
    requires Ready(sys)
    ensures var next := Step(sys, Claim(2, true));
      && InStatus(next.db, 2, Sending) && 2 in next.claimed && next.delivered == sys.delivered
      && next.retrying == map[] && next.db.alerts[2].monitor == 0 && next.db.alerts[2].transition == Down
  {
  }

  lemma BothDelivered()
    ensures Upto(9).delivered == [Announcement(0, 0, Down), Announcement(2, 0, Down)]
  {
    hide Step, Upto;
    FirstDelivered();
    SecondClaimed(Upto(6));
    Next(6);
    Deliver(Upto(7), 2);
    Next(7);
    Next(8);
  }

  lemma BothTold()
    ensures Told(After(START, STORY).delivered, 0) == [Announcement(0, 0, Down), Announcement(2, 0, Down)]
  {
    hide After, Claimed, Recovered, StateOf, ProbeAt;
    BothDelivered();
    assert STORY[..9] == STORY;
    SelectAll(ToMonitor(0), After(START, STORY).delivered);
  }

  lemma NoneDropped()
    ensures NeverDrops(STORY, 0)
  {
    hide Claimed, Recovered, StateOf, ProbeAt;
  }

  /** Two DOWN announcements with no UP between, in a run whose probes overtake a delivery. */
  lemma OvertakenRepeats()
    ensures var told := Told(After(START, STORY).delivered, 0);
      && |told| == 2 && told[0].transition == Down && told[1].transition == Down
      && NeverDrops(STORY, 0) && !NeverRepeats(STORY, 0) && !Undisturbed(STORY, 0)
  {
    hide After, Undisturbed, NeverRepeats, NeverDrops, Told;
    BothTold();
    NoneDropped();
    var told := Told(After(START, STORY).delivered, 0);
    assert told[0].transition == told[0 + 1].transition;
    AlternateExactly(STORY, 0);
    if Undisturbed(STORY, 0) {
      DeliveriesAlternate(STORY, 0);
    }
  }
}
