/** The status history shown to users: stored intervals cut by maintenance windows, merged and
    filtered inside one backing array. */
module Projection {
  import opened Basics
  import opened Sequences

  datatype StatusInterval = StatusInterval(
    id: int, monitor: MonitorId, status: Status, startedAt: Time, endedAt: Option<Time>, downtime: bool)

  datatype Window = Window(monitor: MonitorId, startsAt: Time, endsAt: Time, cancelledAt: Option<Time>)

  /** A projected interval; effectiveEnd is a time even when the interval is shown as open. */
  datatype Segment = Segment(
    id: int, monitor: MonitorId, status: Status, startedAt: Time, downtime: bool, effectiveEnd: Time, open: bool)

  // ----- what the projection means, instant by instant -----

  /** Where a stored interval ends as seen now. */
  function EndBefore(i: StatusInterval, now: Time): Time {
    if i.endedAt.None? || i.endedAt.value > now then now else i.endedAt.value
  }

  predicate StoredAt(i: StatusInterval, m: MonitorId, t: Time, now: Time) {
    i.monitor == m && i.startedAt <= t < EndBefore(i, now)
  }

  predicate Active(w: Window, m: MonitorId, t: Time) {
    w.monitor == m && w.cancelledAt.None? && w.startsAt <= t < w.endsAt
  }

  ghost predicate InWindow(windows: seq<Window>, m: MonitorId, t: Time) {
    exists w :: w in windows && Active(w, m, t)
  }

  predicate Holds(s: Segment, m: MonitorId, t: Time) {
    s.monitor == m && s.startedAt <= t < s.effectiveEnd
  }

  ghost predicate Covered(segments: seq<Segment>, m: MonitorId, t: Time) {
    exists s :: s in segments && Holds(s, m, t)
  }

  /** The segment reads as the stored interval does at t, or as maintenance when a window covers t. */
  predicate Reads(s: Segment, i: StatusInterval, inWindow: bool) {
    if inWindow then s.status == Maintenance && !s.downtime else s.status == i.status && s.downtime == i.downtime
  }

  ghost predicate RightAt(s: Segment, intervals: seq<StatusInterval>, windows: seq<Window>, now: Time, t: Time) {
    exists i :: i in intervals && StoredAt(i, s.monitor, t, now) && Reads(s, i, InWindow(windows, s.monitor, t))
  }

  /** A segment is shown as open when it lasts until now inside an open stored interval. */
  ghost predicate OpenRight(s: Segment, intervals: seq<StatusInterval>, now: Time) {
    s.open <==>
      s.effectiveEnd == now
      && exists i :: i in intervals && StoredAt(i, s.monitor, s.effectiveEnd - 1, now) && i.endedAt.None?
  }

  /** A segment carries the id of the stored interval that covers its start. */
  ghost predicate IdRight(s: Segment, intervals: seq<StatusInterval>, now: Time) {
    exists i :: i in intervals && i.id == s.id && StoredAt(i, s.monitor, s.startedAt, now)
  }

  ghost predicate Right(s: Segment, intervals: seq<StatusInterval>, windows: seq<Window>, now: Time) {
    && s.startedAt < s.effectiveEnd
    && (forall t :: s.startedAt <= t < s.effectiveEnd ==> RightAt(s, intervals, windows, now, t))
    && OpenRight(s, intervals, now) && IdRight(s, intervals, now)
  }

  /** Each monitor's stored intervals are disjoint, as the stored timeline keeps them. */
  ghost predicate DisjointIntervals(intervals: seq<StatusInterval>, now: Time) {
    forall i, j :: 0 <= i < j < |intervals| ==> !Collide(intervals[i], intervals[j], now)
  }

  /** The same for one monitor. */
  ghost predicate DisjointOf(intervals: seq<StatusInterval>, m: MonitorId, now: Time) {
    forall i, j :: 0 <= i < j < |intervals| && intervals[i].monitor == m && intervals[j].monitor == m ==>
      !Collide(intervals[i], intervals[j], now)
  }

  ghost predicate Collide(a: StatusInterval, b: StatusInterval, now: Time) {
    exists t :: StoredAt(a, a.monitor, t, now) && StoredAt(b, a.monitor, t, now)
  }

  /** The projection is faithful: it covers the instants below now that some stored interval covers,
      and every segment reads right throughout. */
  ghost predicate Faithful(segments: seq<Segment>, intervals: seq<StatusInterval>, windows: seq<Window>, now: Time) {
    && (forall s :: s in segments ==> Right(s, intervals, windows, now))
    && (forall i, t :: i in intervals && StoredAt(i, i.monitor, t, now) ==> Covered(segments, i.monitor, t))
  }

  ghost predicate InOrder(segments: seq<Segment>) {
    && (forall i, j :: 0 <= i < j < |segments| ==> segments[i].monitor <= segments[j].monitor)
    && (forall i, j :: 0 <= i < j < |segments| && segments[i].monitor == segments[j].monitor
          ==> segments[i].effectiveEnd <= segments[j].startedAt)
  }

  predicate Mergeable(a: Segment, b: Segment) {
    a.monitor == b.monitor && a.status == b.status && a.downtime == b.downtime && a.effectiveEnd == b.startedAt
  }

  /** Segments that touch differ in status or downtime. */
  ghost predicate Canonical(segments: seq<Segment>) {
    InOrder(segments) && forall k :: 0 < k < |segments| ==> !Mergeable(segments[k - 1], segments[k])
  }

  // ----- usable windows, by monitor -----

  predicate Usable(w: Window, now: Time) {
    w.cancelledAt.None? && w.endsAt > w.startsAt && w.startsAt < now
  }

  function StartsNoLater(): (Window, Window) -> bool {
    (a: Window, b: Window) => a.startsAt <= b.startsAt
  }

  /** The usable windows of each monitor. */
  ghost predicate Grouped(byMonitor: map<MonitorId, seq<Window>>, windows: seq<Window>, now: Time) {
    forall m :: GroupOf(Lookup(byMonitor, m), windows, m, now)
  }

  ghost predicate GroupOf(group: seq<Window>, windows: seq<Window>, m: MonitorId, now: Time) {
    forall w :: w in group <==> w in windows && w.monitor == m && Usable(w, now)
  }

  lemma GroupOneMore(byMonitor: map<MonitorId, seq<Window>>, windows: seq<Window>, w: Window, now: Time)
    requires Grouped(byMonitor, windows, now)
    ensures Grouped(if Usable(w, now) then byMonitor[w.monitor := Lookup(byMonitor, w.monitor) + [w]] else byMonitor,
                    windows + [w], now)
  {
    var after := if Usable(w, now) then byMonitor[w.monitor := Lookup(byMonitor, w.monitor) + [w]] else byMonitor;
    forall m ensures GroupOf(Lookup(after, m), windows + [w], m, now) {
      assert GroupOf(Lookup(byMonitor, m), windows, m, now);
    }
  }

  lemma GroupResorted(
      byMonitor: map<MonitorId, seq<Window>>, windows: seq<Window>, m: MonitorId, sorted: seq<Window>, now: Time)
    requires Grouped(byMonitor, windows, now) && m in byMonitor && multiset(sorted) == multiset(byMonitor[m])
    ensures Grouped(byMonitor[m := sorted], windows, now)
  {
    forall w ensures w in sorted <==> w in byMonitor[m] {
      assert w in multiset(sorted) <==> w in multiset(byMonitor[m]);
    }
    var after := byMonitor[m := sorted];
    forall x ensures GroupOf(Lookup(after, x), windows, x, now) {
      assert GroupOf(Lookup(byMonitor, x), windows, x, now);
    }
  }

  /** The keys come back in order of first appearance; the order in which they are sorted does not matter. */
  method CollectWindows(windows: seq<Window>, now: Time)
    returns (byMonitor: map<MonitorId, seq<Window>>, keys: seq<MonitorId>)
    ensures Grouped(byMonitor, windows, now)
    ensures forall m :: m in byMonitor ==> m in keys
  {
    byMonitor, keys := map[], [];
    assert Grouped(byMonitor, [], now);
    hide Grouped;
    for k := 0 to |windows|
      invariant Grouped(byMonitor, windows[..k], now)
      invariant forall m :: m in byMonitor ==> m in keys
    {
      var w := windows[k];
      assert windows[..k + 1] == windows[..k] + [w];
      GroupOneMore(byMonitor, windows[..k], w, now);
      if !(w.cancelledAt.Some? || !(w.endsAt > w.startsAt) || !(w.startsAt < now)) {
        if w.monitor !in byMonitor {
          keys := keys + [w.monitor];
        }
        byMonitor := byMonitor[w.monitor := Lookup(byMonitor, w.monitor) + [w]];
      }
    }
    assert windows[..|windows|] == windows;
  }

  method GroupWindows(windows: seq<Window>, now: Time) returns (byMonitor: map<MonitorId, seq<Window>>)
    ensures Grouped(byMonitor, windows, now)
    ensures forall m :: SortedBy(StartsNoLater(), Lookup(byMonitor, m))
  {
    var keys;
    byMonitor, keys := CollectWindows(windows, now);
    hide Grouped;
    for k := 0 to |keys|
      invariant Grouped(byMonitor, windows, now)
      invariant forall m :: m in byMonitor ==> m in keys
      invariant forall m :: m in keys[..k] || m !in keys ==> SortedBy(StartsNoLater(), Lookup(byMonitor, m))
    {
      var m := keys[k];
      if m in byMonitor {
        var sorted := SortRows(StartsNoLater(), byMonitor[m]);
        GroupResorted(byMonitor, windows, m, sorted, now);
        byMonitor := byMonitor[m := sorted];
      }
    }
    assert keys[..|keys|] == keys;
  }

  // ----- cutting one interval -----

  predicate Within(w: Window, t: Time) {
    w.startsAt <= t < w.endsAt
  }

  ghost predicate InSome(ws: seq<Window>, t: Time) {
    exists k :: 0 <= k < |ws| && Within(ws[k], t)
  }

  /** The first j windows reach no instant from the cursor on. */
  ghost predicate Passed(ws: seq<Window>, j: nat, cursor: Time, end: Time) {
    forall k, t :: 0 <= k < j && k < |ws| && cursor <= t < end ==> !Within(ws[k], t)
  }

  /** A piece of an interval, wholly inside or wholly outside the windows. */
  ghost predicate Piece(s: Segment, i: StatusInterval, ws: seq<Window>, end: Time) {
    && s.id == i.id && s.monitor == i.monitor && s.startedAt < s.effectiveEnd
    && (s.open <==> i.endedAt.None? && s.effectiveEnd == end)
    && (forall t :: s.startedAt <= t < s.effectiveEnd ==> Reads(s, i, InSome(ws, t)))
  }

  /** Pieces laid end to end from one time to another. */
  ghost predicate Tiles(segments: seq<Segment>, from: Time, to: Time) {
    && (segments == [] ==> from == to)
    && (segments != [] ==> segments[0].startedAt == from && segments[|segments| - 1].effectiveEnd == to)
    && (forall k :: 0 < k < |segments| ==> segments[k - 1].effectiveEnd == segments[k].startedAt)
  }

  function Cut(i: StatusInterval, status: Status, downtime: bool, start: Time, end: Time, open: bool): Segment {
    Segment(i.id, i.monitor, status, start, downtime, end, open)
  }

  /** Only a nonempty segment is appended. */
  function AppendSegment(segments: seq<Segment>, s: Segment): seq<Segment> {
    if !(s.effectiveEnd > s.startedAt) then segments else segments + [s]
  }

  ghost predicate AllPieces(segments: seq<Segment>, i: StatusInterval, ws: seq<Window>, end: Time) {
    forall k :: 0 <= k < |segments| ==> Piece(segments[k], i, ws, end)
  }

  lemma PieceAppended(segments: seq<Segment>, s: Segment, i: StatusInterval, ws: seq<Window>, from: Time, end: Time)
    requires AllPieces(segments, i, ws, end) && Tiles(segments, from, s.startedAt) && Piece(s, i, ws, end)
    ensures AllPieces(segments + [s], i, ws, end) && Tiles(segments + [s], from, s.effectiveEnd)
  {
    hide Piece;
  }

  lemma OutsidePiece(s: Segment, i: StatusInterval, ws: seq<Window>, end: Time)
    requires s == Cut(i, i.status, i.downtime, s.startedAt, s.effectiveEnd, s.open) && s.startedAt < s.effectiveEnd
    requires s.open <==> i.endedAt.None? && s.effectiveEnd == end
    requires forall t :: s.startedAt <= t < s.effectiveEnd ==> !InSome(ws, t)
    ensures Piece(s, i, ws, end)
  {
  }

  lemma InsidePiece(s: Segment, i: StatusInterval, ws: seq<Window>, end: Time)
    requires s == Cut(i, Maintenance, false, s.startedAt, s.effectiveEnd, s.open) && s.startedAt < s.effectiveEnd
    requires s.open <==> i.endedAt.None? && s.effectiveEnd == end
    requires forall t :: s.startedAt <= t < s.effectiveEnd ==> InSome(ws, t)
    ensures Piece(s, i, ws, end)
  {
  }

  lemma NonePassed(ws: seq<Window>, cursor: Time, end: Time)
    ensures Passed(ws, 0, cursor, end)
  {
  }

  lemma PassedNext(ws: seq<Window>, j: nat, cursor: Time, next: Time, end: Time)
    requires j < |ws| && Passed(ws, j, cursor, end) && cursor <= next
    requires MinTime(end, ws[j].endsAt) <= MaxTime(next, ws[j].startsAt)
    ensures Passed(ws, j + 1, next, end)
  {
  }

  method CutInterval(i: StatusInterval, ws: seq<Window>, now: Time) returns (segments: seq<Segment>)
    requires SortedBy(StartsNoLater(), ws)
    ensures AllPieces(segments, i, ws, EndBefore(i, now))
    ensures Tiles(segments, i.startedAt, if i.startedAt < EndBefore(i, now) then EndBefore(i, now) else i.startedAt)
  {
    segments := [];
    var start := i.startedAt;
    if !(start < now) { return; }
    var open := i.endedAt.None?;
    var end := if open || i.endedAt.value > now then now else i.endedAt.value;
    if !(end > start) { return; }
    var cursor := start;
    var j := 0;
    hide Tiles, AllPieces, SortedBy, InSome, Piece, Passed, Cut;
    NonePassed(ws, cursor, end);
    assert Tiles([], start, start) && AllPieces([], i, ws, end) by { NoPieces(i, ws, start, end); }
    while j < |ws|
      invariant 0 <= j <= |ws| && start <= cursor <= end
      invariant AllPieces(segments, i, ws, end) && Tiles(segments, start, cursor)
      invariant Passed(ws, j, cursor, end)
      decreases |ws| - j
    {
      var window := ws[j];
      var overlapStart := MaxTime(cursor, window.startsAt);
      var overlapEnd := MinTime(end, window.endsAt);
      PassedNext(ws, j, cursor, if overlapEnd > overlapStart then overlapEnd else cursor, end);
      if overlapEnd > overlapStart {
        if overlapStart > cursor {
          var gap := Cut(i, i.status, i.downtime, cursor, overlapStart, false);
          GapUncovered(ws, j, cursor, end);
          OutsidePiece(gap, i, ws, end);
          PieceAppended(segments, gap, i, ws, start, end);
          segments := AppendSegment(segments, gap);
        }
        var piece := Cut(i, Maintenance, false, overlapStart, overlapEnd, open && overlapEnd == end);
        WindowCovers(ws, j, overlapStart, overlapEnd);
        InsidePiece(piece, i, ws, end);
        PieceAppended(segments, piece, i, ws, start, end);
        segments := AppendSegment(segments, piece);
        cursor := overlapEnd;
        if !(end > cursor) {
          break;
        }
      }
      j := j + 1;
    }
    if end > cursor {
      var rest := Cut(i, i.status, i.downtime, cursor, end, open);
      RestUncovered(ws, cursor, end);
      OutsidePiece(rest, i, ws, end);
      PieceAppended(segments, rest, i, ws, start, end);
      segments := AppendSegment(segments, rest);
    }
  }

  lemma NoPieces(i: StatusInterval, ws: seq<Window>, start: Time, end: Time)
    ensures Tiles([], start, start) && AllPieces([], i, ws, end)
  {
  }

  /** Windows come in order of start: what no earlier window covers before the next one, none does. */
  lemma GapUncovered(ws: seq<Window>, j: nat, cursor: Time, end: Time)
    requires SortedBy(StartsNoLater(), ws) && j < |ws| && ws[j].startsAt <= end && Passed(ws, j, cursor, end)
    ensures forall t :: cursor <= t < ws[j].startsAt ==> !InSome(ws, t)
  {
    forall t | cursor <= t < ws[j].startsAt ensures !InSome(ws, t) {
      forall k | 0 <= k < |ws| ensures !Within(ws[k], t) {
        if j < k {
          assert StartsNoLater()(ws[j], ws[k]);
        }
      }
    }
  }

  lemma WindowCovers(ws: seq<Window>, j: nat, from: Time, to: Time)
    requires j < |ws| && ws[j].startsAt <= from && to <= ws[j].endsAt
    ensures forall t :: from <= t < to ==> InSome(ws, t)
  {
    forall t | from <= t < to ensures InSome(ws, t) { assert Within(ws[j], t); }
  }

  lemma RestUncovered(ws: seq<Window>, cursor: Time, end: Time)
    requires Passed(ws, |ws|, cursor, end)
    ensures forall t :: cursor <= t < end ==> !InSome(ws, t)
  {
  }

  // ----- cutting them all -----

  ghost predicate Inside(s: Segment, i: StatusInterval, now: Time) {
    s.monitor == i.monitor && i.startedAt <= s.startedAt < s.effectiveEnd <= EndBefore(i, now)
  }

  /** Segments of one monitor never share an instant. */
  ghost predicate Apart(segments: seq<Segment>) {
    forall k, l :: 0 <= k < l < |segments| ==> Separate(segments[k], segments[l])
  }

  predicate Separate(a: Segment, b: Segment) {
    a.monitor == b.monitor ==> a.effectiveEnd <= b.startedAt || b.effectiveEnd <= a.startedAt
  }

  /** The segments cut from these intervals so far. */
  ghost predicate CutFrom(
      segments: seq<Segment>, cut: seq<StatusInterval>, intervals: seq<StatusInterval>, windows: seq<Window>, now: Time)
  {
    && Apart(segments)
    && (forall s :: s in segments ==> Right(s, intervals, windows, now))
    && (forall s :: s in segments ==> exists i :: i in cut && Inside(s, i, now))
    && (forall i, t :: i in cut && StoredAt(i, i.monitor, t, now) ==> Covered(segments, i.monitor, t))
  }

  lemma {:induction false} TilesOrdered(
      segments: seq<Segment>, i: StatusInterval, ws: seq<Window>, from: Time, to: Time, end: Time, k: nat, l: nat)
    requires AllPieces(segments, i, ws, end) && Tiles(segments, from, to) && k <= l < |segments|
    ensures from <= segments[k].startedAt <= segments[l].startedAt && segments[l].effectiveEnd <= to
    ensures k < l ==> segments[k].effectiveEnd <= segments[l].startedAt
    decreases l - k, |segments| - l + k
  {
    hide Piece;
    assert Piece(segments[k], i, ws, end) && Piece(segments[l], i, ws, end);
    PieceNonempty(segments[k], i, ws, end);
    PieceNonempty(segments[l], i, ws, end);
    if k < l {
      TilesOrdered(segments, i, ws, from, to, end, k + 1, l);
      assert segments[k].effectiveEnd == segments[k + 1].startedAt;
      if k > 0 { TilesStart(segments, i, ws, from, to, end, k); }
    } else {
      TilesStart(segments, i, ws, from, to, end, k);
      TilesEnd(segments, i, ws, from, to, end, l);
    }
  }

  lemma PieceNonempty(s: Segment, i: StatusInterval, ws: seq<Window>, end: Time)
    requires Piece(s, i, ws, end)
    ensures s.startedAt < s.effectiveEnd && s.monitor == i.monitor
  {
  }

  lemma {:induction false} TilesStart(
      segments: seq<Segment>, i: StatusInterval, ws: seq<Window>, from: Time, to: Time, end: Time, k: nat)
    requires AllPieces(segments, i, ws, end) && Tiles(segments, from, to) && k < |segments|
    ensures from <= segments[k].startedAt
  {
    hide Piece;
    if k > 0 {
      TilesStart(segments, i, ws, from, to, end, k - 1);
      assert Piece(segments[k - 1], i, ws, end);
      PieceNonempty(segments[k - 1], i, ws, end);
      assert segments[k - 1].effectiveEnd == segments[k].startedAt;
    }
  }

  lemma {:induction false} TilesEnd(
      segments: seq<Segment>, i: StatusInterval, ws: seq<Window>, from: Time, to: Time, end: Time, l: nat)
    requires AllPieces(segments, i, ws, end) && Tiles(segments, from, to) && l < |segments|
    ensures segments[l].effectiveEnd <= to
    decreases |segments| - l
  {
    hide Piece;
    if l + 1 < |segments| {
      TilesEnd(segments, i, ws, from, to, end, l + 1);
      assert Piece(segments[l + 1], i, ws, end);
      PieceNonempty(segments[l + 1], i, ws, end);
      assert segments[l].effectiveEnd == segments[l + 1].startedAt;
    }
  }

  /** Some tile holds every instant between the ends. */
  lemma {:induction false} TilesCover(segments: seq<Segment>, from: Time, to: Time, t: Time) returns (k: nat)
    requires Tiles(segments, from, to) && from <= t < to
    ensures k < |segments| && segments[k].startedAt <= t < segments[k].effectiveEnd
  {
    var n := |segments| - 1;
    if segments[n].startedAt <= t {
      k := n;
    } else {
      assert n > 0;
      assert segments[n - 1].effectiveEnd == segments[n].startedAt;
      k := TilesCover(segments[..n], from, segments[n].startedAt, t);
    }
  }

  lemma GroupMatches(ws: seq<Window>, windows: seq<Window>, m: MonitorId, now: Time, t: Time)
    requires GroupOf(ws, windows, m, now) && t < now
    ensures InSome(ws, t) <==> InWindow(windows, m, t)
  {
    if InSome(ws, t) {
      var k :| 0 <= k < |ws| && Within(ws[k], t);
      assert ws[k] in windows && Active(ws[k], m, t);
    }
    if InWindow(windows, m, t) {
      var w :| w in windows && Active(w, m, t);
      var k :| 0 <= k < |ws| && ws[k] == w;
      assert Within(ws[k], t);
    }
  }

  lemma PieceRight(
    s: Segment, intervals: seq<StatusInterval>, k: nat, ws: seq<Window>, windows: seq<Window>, now: Time)
    requires k < |intervals| && DisjointIntervals(intervals, now)
    requires GroupOf(ws, windows, intervals[k].monitor, now)
    requires Piece(s, intervals[k], ws, EndBefore(intervals[k], now)) && Inside(s, intervals[k], now)
    ensures Right(s, intervals, windows, now)
  {
    var i := intervals[k];
    hide GroupOf, InSome, InWindow;
    forall t | s.startedAt <= t < s.effectiveEnd ensures RightAt(s, intervals, windows, now, t) {
      GroupMatches(ws, windows, i.monitor, now, t);
      assert StoredAt(i, s.monitor, t, now);
    }
    assert i in intervals && i.id == s.id && StoredAt(i, s.monitor, s.startedAt, now);
    var last := s.effectiveEnd - 1;
    assert StoredAt(i, s.monitor, last, now);
    if s.effectiveEnd == now && exists j :: j in intervals && StoredAt(j, s.monitor, last, now) && j.endedAt.None? {
      var j :| j in intervals && StoredAt(j, s.monitor, last, now) && j.endedAt.None?;
      var l :| 0 <= l < |intervals| && intervals[l] == j;
      OnlyOneStored(intervals, k, l, last, now);
    }
  }

  /** One stored interval of a monitor at most covers an instant. */
  lemma StoredOnce(
    intervals: seq<StatusInterval>, a: StatusInterval, b: StatusInterval, m: MonitorId, t: Time, now: Time)
    requires DisjointOf(intervals, m, now) && a in intervals && b in intervals
    requires StoredAt(a, m, t, now) && StoredAt(b, m, t, now)
    ensures a == b
  {
    var k :| 0 <= k < |intervals| && intervals[k] == a;
    var l :| 0 <= l < |intervals| && intervals[l] == b;
    assert Collide(intervals[k], intervals[l], now) && Collide(intervals[l], intervals[k], now);
  }

  lemma OnlyOneStored(intervals: seq<StatusInterval>, k: nat, l: nat, t: Time, now: Time)
    requires k < |intervals| && l < |intervals| && DisjointIntervals(intervals, now)
    requires intervals[k].monitor == intervals[l].monitor
    requires StoredAt(intervals[k], intervals[k].monitor, t, now)
    requires StoredAt(intervals[l], intervals[k].monitor, t, now)
    ensures k == l
  {
    assert Collide(intervals[k], intervals[l], now) && Collide(intervals[l], intervals[k], now);
  }

  lemma NewPiecesApart(segments: seq<Segment>, pieces: seq<Segment>, intervals: seq<StatusInterval>, k: nat, now: Time)
    requires k < |intervals| && DisjointIntervals(intervals, now)
    requires Apart(segments) && Apart(pieces)
    requires forall s :: s in segments ==> exists i :: i in intervals[..k] && Inside(s, i, now)
    requires forall s :: s in pieces ==> Inside(s, intervals[k], now)
    ensures Apart(segments + pieces)
  {
    var all := segments + pieces;
    forall a, b | 0 <= a < b < |all| ensures Separate(all[a], all[b]) {
      if a < |segments| <= b {
        var x, y := all[a], all[b];
        assert x in segments && y in pieces;
        var i :| i in intervals[..k] && Inside(x, i, now);
        var l :| 0 <= l < k && intervals[l] == i;
        if x.monitor == y.monitor && !(x.effectiveEnd <= y.startedAt || y.effectiveEnd <= x.startedAt) {
          OnlyOneStored(intervals, l, k, MaxTime(x.startedAt, y.startedAt), now);
        }
      } else if b < |segments| {
        assert Separate(segments[a], segments[b]);
      } else {
        assert Separate(pieces[a - |segments|], pieces[b - |segments|]);
      }
    }
  }

  /** The pieces of one more interval join the segments. */
  lemma CutOneMore(
    segments: seq<Segment>, pieces: seq<Segment>, intervals: seq<StatusInterval>, k: nat,
    ws: seq<Window>, windows: seq<Window>, now: Time)
    requires k < |intervals| && DisjointIntervals(intervals, now)
    requires CutFrom(segments, intervals[..k], intervals, windows, now)
    requires GroupOf(ws, windows, intervals[k].monitor, now)
    requires AllPieces(pieces, intervals[k], ws, EndBefore(intervals[k], now))
    requires var i := intervals[k];
      Tiles(pieces, i.startedAt, if i.startedAt < EndBefore(i, now) then EndBefore(i, now) else i.startedAt)
    ensures CutFrom(segments + pieces, intervals[..k + 1], intervals, windows, now)
  {
    var i := intervals[k];
    var end := EndBefore(i, now);
    var to := if i.startedAt < end then end else i.startedAt;
    hide Right, GroupOf, DisjointIntervals, Piece;
    assert intervals[..k + 1] == intervals[..k] + [i];
    forall l | 0 <= l < |pieces| ensures Inside(pieces[l], i, now) && Right(pieces[l], intervals, windows, now) {
      assert Piece(pieces[l], i, ws, end);
      PieceNonempty(pieces[l], i, ws, end);
      TilesStart(pieces, i, ws, i.startedAt, to, end, l);
      TilesEnd(pieces, i, ws, i.startedAt, to, end, l);
      PieceRight(pieces[l], intervals, k, ws, windows, now);
    }
    forall a, b | 0 <= a < b < |pieces| ensures Separate(pieces[a], pieces[b]) {
      TilesOrdered(pieces, i, ws, i.startedAt, to, end, a, b);
    }
    NewPiecesApart(segments, pieces, intervals, k, now);
    forall t | StoredAt(i, i.monitor, t, now) ensures Covered(segments + pieces, i.monitor, t) {
      var l := TilesCover(pieces, i.startedAt, to, t);
      assert pieces[l] in segments + pieces && Holds(pieces[l], i.monitor, t);
    }
    forall j, t | j in intervals[..k] && StoredAt(j, j.monitor, t, now)
      ensures Covered(segments + pieces, j.monitor, t)
    {
      var s :| s in segments && Holds(s, j.monitor, t);
      assert s in segments + pieces;
    }
  }

  method CutAll(intervals: seq<StatusInterval>, windows: seq<Window>, now: Time) returns (segments: seq<Segment>)
    requires DisjointIntervals(intervals, now)
    ensures Faithful(segments, intervals, windows, now) && Apart(segments)
  {
    var byMonitor := GroupWindows(windows, now);
    hide Right, DisjointIntervals, AllPieces, Tiles, Apart, SortedBy;
    segments := [];
    assert Apart([]) by { NothingApart(); }
    for k := 0 to |intervals|
      invariant CutFrom(segments, intervals[..k], intervals, windows, now)
    {
      var i := intervals[k];
      var pieces := CutInterval(i, Lookup(byMonitor, i.monitor), now);
      CutOneMore(segments, pieces, intervals, k, Lookup(byMonitor, i.monitor), windows, now);
      segments := segments + pieces;
    }
    assert intervals[..|intervals|] == intervals;
  }

  lemma NothingApart()
    ensures Apart([])
  {
  }
}
