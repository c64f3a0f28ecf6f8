/** The displayed history is determined by what is stored: a canonical, faithful projection is unique. */
module ProjectionUnique {
  import opened Basics
  import opened Sequences
  import opened Projection

  ghost predicate Projected(p: seq<Segment>, intervals: seq<StatusInterval>, windows: seq<Window>, now: Time) {
    Canonical(p) && Faithful(p, intervals, windows, now)
  }

  lemma Nonempty(p: seq<Segment>, intervals: seq<StatusInterval>, windows: seq<Window>, now: Time, s: Segment)
    requires Projected(p, intervals, windows, now) && s in p
    ensures s.startedAt < s.effectiveEnd && Right(s, intervals, windows, now)
  {
    hide Canonical;
  }

  /** What is covered, and how it reads, does not depend on the projection. */
  lemma SameReading(
    p: seq<Segment>, q: seq<Segment>, intervals: seq<StatusInterval>, windows: seq<Window>, now: Time,
    s: Segment, r: Segment, m: MonitorId, t: Time)
    requires Projected(p, intervals, windows, now) && Projected(q, intervals, windows, now)
    requires DisjointOf(intervals, m, now) && s in p && r in q && Holds(s, m, t) && Holds(r, m, t)
    ensures s.status == r.status && s.downtime == r.downtime
  {
    hide Canonical, DisjointOf, InWindow;
    Nonempty(p, intervals, windows, now, s);
    Nonempty(q, intervals, windows, now, r);
    assert RightAt(s, intervals, windows, now, t) && RightAt(r, intervals, windows, now, t);
    var i :| i in intervals && StoredAt(i, m, t, now) && Reads(s, i, InWindow(windows, m, t));
    var j :| j in intervals && StoredAt(j, m, t, now) && Reads(r, j, InWindow(windows, m, t));
    StoredOnce(intervals, i, j, m, t, now);
  }

  lemma CoveredToo(
    p: seq<Segment>, q: seq<Segment>, intervals: seq<StatusInterval>, windows: seq<Window>, now: Time,
    s: Segment, m: MonitorId, t: Time) returns (r: Segment)
    requires Projected(p, intervals, windows, now) && Projected(q, intervals, windows, now)
    requires s in p && Holds(s, m, t)
    ensures r in q && Holds(r, m, t)
  {
    hide Canonical, InWindow;
    Nonempty(p, intervals, windows, now, s);
    assert RightAt(s, intervals, windows, now, t);
    var i :| i in intervals && StoredAt(i, m, t, now);
    assert Covered(q, i.monitor, t);
    r :| r in q && Holds(r, m, t);
  }

  lemma Between(p: seq<Segment>, i: nat, k: nat, j: nat)
    requires InOrder(p) && i < k < j < |p| && p[i].monitor == p[j].monitor
    ensures p[i].effectiveEnd <= p[k].startedAt && p[k].effectiveEnd <= p[j].startedAt
  {
    assert p[i].monitor <= p[k].monitor <= p[j].monitor;
  }

  /** Segments that touch, adjacent in the list or not, differ. */
  lemma TouchingDiffer(
    p: seq<Segment>, intervals: seq<StatusInterval>, windows: seq<Window>, now: Time, a: Segment, b: Segment)
    requires Projected(p, intervals, windows, now) && a in p && b in p
    requires a.monitor == b.monitor && a.effectiveEnd == b.startedAt
    ensures a.status != b.status || a.downtime != b.downtime
  {
    Nonempty(p, intervals, windows, now, a);
    Nonempty(p, intervals, windows, now, b);
    var i :| 0 <= i < |p| && p[i] == a;
    var j :| 0 <= j < |p| && p[j] == b;
    hide Right, Faithful;
    assert i < j;
    if i + 1 < j {
      Between(p, i, i + 1, j);
      Nonempty(p, intervals, windows, now, p[i + 1]);
    } else {
      assert !Mergeable(p[j - 1], p[j]);
    }
  }

  /** Segments of one monitor do not overlap. */
  lemma Apart(
    p: seq<Segment>, intervals: seq<StatusInterval>, windows: seq<Window>, now: Time, a: Segment, b: Segment)
    requires Projected(p, intervals, windows, now) && a in p && b in p && a.monitor == b.monitor
    ensures a == b || a.effectiveEnd <= b.startedAt || b.effectiveEnd <= a.startedAt
  {
    hide Faithful;
    var i :| 0 <= i < |p| && p[i] == a;
    var j :| 0 <= j < |p| && p[j] == b;
  }

  /** Segments of the two projections that share an instant: neither starts or ends within the other. */
  lemma SameStart(
    p: seq<Segment>, q: seq<Segment>, intervals: seq<StatusInterval>, windows: seq<Window>, now: Time,
    s: Segment, r: Segment)
    requires Projected(p, intervals, windows, now) && Projected(q, intervals, windows, now)
    requires DisjointOf(intervals, s.monitor, now)
    requires s in p && r in q && Holds(r, s.monitor, s.startedAt)
    ensures r.startedAt == s.startedAt
  {
    var m := s.monitor;
    hide Projected, DisjointOf;
    Nonempty(p, intervals, windows, now, s);
    if r.startedAt < s.startedAt {
      var x := CoveredToo(q, p, intervals, windows, now, r, m, s.startedAt - 1);
      SameReading(p, q, intervals, windows, now, x, r, m, s.startedAt - 1);
      SameReading(p, q, intervals, windows, now, s, r, m, s.startedAt);
      Apart(p, intervals, windows, now, x, s);
      TouchingDiffer(p, intervals, windows, now, x, s);
    }
  }

  lemma NoEarlierEnd(
    p: seq<Segment>, q: seq<Segment>, intervals: seq<StatusInterval>, windows: seq<Window>, now: Time,
    s: Segment, r: Segment)
    requires Projected(p, intervals, windows, now) && Projected(q, intervals, windows, now)
    requires DisjointOf(intervals, s.monitor, now)
    requires s in p && r in q && r.monitor == s.monitor && r.startedAt == s.startedAt
    ensures r.effectiveEnd >= s.effectiveEnd
  {
    var m := s.monitor;
    hide Projected, DisjointOf;
    Nonempty(p, intervals, windows, now, s);
    Nonempty(q, intervals, windows, now, r);
    if r.effectiveEnd < s.effectiveEnd {
      var y := CoveredToo(p, q, intervals, windows, now, s, m, r.effectiveEnd);
      SameReading(p, q, intervals, windows, now, s, y, m, r.effectiveEnd);
      SameReading(p, q, intervals, windows, now, s, r, m, r.startedAt);
      Apart(q, intervals, windows, now, r, y);
      TouchingDiffer(q, intervals, windows, now, r, y);
    }
  }

  lemma SameOpen(
    p: seq<Segment>, q: seq<Segment>, intervals: seq<StatusInterval>, windows: seq<Window>, now: Time,
    s: Segment, r: Segment)
    requires Projected(p, intervals, windows, now) && Projected(q, intervals, windows, now)
    requires s in p && r in q && r.monitor == s.monitor && r.effectiveEnd == s.effectiveEnd
    ensures s.open == r.open
  {
    hide Canonical, RightAt;
    Nonempty(p, intervals, windows, now, s);
    Nonempty(q, intervals, windows, now, r);
  }

  lemma SameId(
    p: seq<Segment>, q: seq<Segment>, intervals: seq<StatusInterval>, windows: seq<Window>, now: Time,
    s: Segment, r: Segment)
    requires Projected(p, intervals, windows, now) && Projected(q, intervals, windows, now)
    requires DisjointOf(intervals, s.monitor, now)
    requires s in p && r in q && r.monitor == s.monitor && r.startedAt == s.startedAt
    ensures s.id == r.id
  {
    hide Canonical, RightAt, OpenRight, DisjointOf;
    Nonempty(p, intervals, windows, now, s);
    Nonempty(q, intervals, windows, now, r);
    var i :| i in intervals && i.id == s.id && StoredAt(i, s.monitor, s.startedAt, now);
    var j :| j in intervals && j.id == r.id && StoredAt(j, s.monitor, s.startedAt, now);
    StoredOnce(intervals, i, j, s.monitor, s.startedAt, now);
  }

  /** Every segment of one projection is a segment of the other. */
  lemma Matched(
    p: seq<Segment>, q: seq<Segment>, intervals: seq<StatusInterval>, windows: seq<Window>, now: Time, s: Segment)
    returns (r: Segment)
    requires Projected(p, intervals, windows, now) && Projected(q, intervals, windows, now)
    requires DisjointIntervals(intervals, now) && s in p
    ensures r in q && r == s
  {
    assert DisjointOf(intervals, s.monitor, now);
    Nonempty(p, intervals, windows, now, s);
    hide Projected, DisjointOf, DisjointIntervals, Right;
    r := CoveredToo(p, q, intervals, windows, now, s, s.monitor, s.startedAt);
    SameStart(p, q, intervals, windows, now, s, r);
    NoEarlierEnd(p, q, intervals, windows, now, s, r);
    NoEarlierEnd(q, p, intervals, windows, now, r, s);
    SameReading(p, q, intervals, windows, now, s, r, s.monitor, s.startedAt);
    SameOpen(p, q, intervals, windows, now, s, r);
    SameId(p, q, intervals, windows, now, s, r);
  }

  // ----- the same segments in the same order -----

  function Before(): (Segment, Segment) -> bool {
    (a: Segment, b: Segment) => a.monitor < b.monitor || (a.monitor == b.monitor && a.startedAt < b.startedAt)
  }

  lemma StrictlyOrdered(p: seq<Segment>, intervals: seq<StatusInterval>, windows: seq<Window>, now: Time)
    requires Projected(p, intervals, windows, now)
    ensures SortedBy(Before(), p)
  {
    forall i, j | 0 <= i < j < |p| ensures Before()(p[i], p[j]) {
      Nonempty(p, intervals, windows, now, p[i]);
      assert p[i].monitor <= p[j].monitor;
      assert p[i].monitor == p[j].monitor ==> p[i].effectiveEnd <= p[j].startedAt;
    }
  }

  lemma {:induction false} SameElements(a: seq<Segment>, b: seq<Segment>)
    requires SortedBy(Before(), a) && SortedBy(Before(), b)
    requires forall x :: x in a <==> x in b
    ensures a == b
    decreases |a|
  {
    if a == [] {
      if b != [] { Inhabited(b); }
    } else {
      assert a[0] in b;
      var n, l := |a| - 1, |b| - 1;
      assert a[n] in b && b[l] in a;
      LastIsGreatest(Before(), a, b[l]);
      LastIsGreatest(Before(), b, a[n]);
      forall x ensures x in a[..n] <==> x in b[..l] {
        FrontMember(a, x);
        FrontMember(b, x);
      }
      SameElements(a[..n], b[..l]);
      FrontAndLast(a, b);
    }
  }

  lemma Inhabited(a: seq<Segment>)
    requires a != []
    ensures a[0] in a
  {
  }

  lemma FrontMember(a: seq<Segment>, x: Segment)
    requires SortedBy(Before(), a) && a != []
    ensures x in a[..|a| - 1] <==> x in a && x != a[|a| - 1]
  {
    var n := |a| - 1;
    if x in a[..n] {
      var i :| 0 <= i < n && a[..n][i] == x;
      assert Before()(a[i], a[n]);
    }
  }

  /** For stored intervals disjoint per monitor there is one canonical projection: the same segments in the
      same order. */
  lemma ProjectionDetermined(
    p: seq<Segment>, q: seq<Segment>, intervals: seq<StatusInterval>, windows: seq<Window>, now: Time)
    requires Canonical(p) && Faithful(p, intervals, windows, now)
    requires Canonical(q) && Faithful(q, intervals, windows, now)
    requires DisjointIntervals(intervals, now)
    ensures p == q
  {
    assert Projected(p, intervals, windows, now) && Projected(q, intervals, windows, now);
    hide Projected, Canonical, Faithful, DisjointIntervals, SortedBy;
    forall s ensures s in p <==> s in q {
      if s in p { var r := Matched(p, q, intervals, windows, now, s); }
      if s in q { var r := Matched(q, p, intervals, windows, now, s); }
    }
    StrictlyOrdered(p, intervals, windows, now);
    StrictlyOrdered(q, intervals, windows, now);
    SameElements(p, q);
  }
}
