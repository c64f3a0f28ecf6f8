/** The in-place half of the projection: sorting, merging and filtering one backing array. */
module ProjectionView {
  import opened Basics
  import opened Sequences
  import opened Projection

  function SegmentOrder(): (Segment, Segment) -> bool {
    (a: Segment, b: Segment) =>
      a.monitor < b.monitor
      || (a.monitor == b.monitor && (a.startedAt < b.startedAt || (a.startedAt == b.startedAt && a.id <= b.id)))
  }

  function NewestFirst(): (Segment, Segment) -> bool {
    (a: Segment, b: Segment) => a.startedAt > b.startedAt || (a.startedAt == b.startedAt && a.id >= b.id)
  }

  function KeptSince(since: Option<Time>): Segment -> bool {
    (s: Segment) => !(since.Some? && s.startedAt < since.value && s.effectiveEnd < since.value)
  }

  /** A segment that continues the last one is folded into it. */
  function MergeOne(merged: seq<Segment>, s: Segment): seq<Segment> {
    var last := |merged| - 1;
    if merged != [] && Mergeable(merged[last], s)
    then merged[last := merged[last].(effectiveEnd := s.effectiveEnd, open := s.open)]
    else merged + [s]
  }

  function MergeSegments(segments: seq<Segment>): seq<Segment> {
    if segments == [] then [] else MergeOne(MergeSegments(segments[..|segments| - 1]), segments[|segments| - 1])
  }

  lemma MergeNext(segments: seq<Segment>, i: nat)
    requires i < |segments|
    ensures MergeSegments(segments[..i + 1]) == MergeOne(MergeSegments(segments[..i]), segments[i])
  {
    hide MergeOne;
    assert segments[..i + 1][..i] == segments[..i];
  }

  lemma MergeCases(merged: seq<Segment>, s: Segment)
    ensures var last := |merged| - 1;
      MergeOne(merged, s) ==
      if merged != [] && Mergeable(merged[last], s)
      then merged[..last] + [merged[last].(effectiveEnd := s.effectiveEnd, open := s.open)]
      else merged + [s]
  {
  }

  // ----- the passes over the array -----

  method WritePrefix(a: array<Segment>, s: seq<Segment>)
    requires |s| <= a.Length
    modifies a
    ensures forall k :: 0 <= k < |s| ==> a[k] == s[k]
    ensures forall k :: |s| <= k < a.Length ==> a[k] == old(a[k])
  {
    for k := 0 to |s|
      invariant forall j :: 0 <= j < k ==> a[j] == s[j]
      invariant forall j :: k <= j < a.Length ==> a[j] == old(a[j])
    {
      a[k] := s[k];
    }
  }

  method SortPrefix(a: array<Segment>, n: nat, le: (Segment, Segment) -> bool)
    requires n <= a.Length && TotalPreorder(le)
    modifies a
    ensures multiset(a[..n]) == multiset(old(a[..n])) && SortedBy(le, a[..n])
    ensures forall k :: n <= k < a.Length ==> a[k] == old(a[k])
  {
    var sorted := SortRows(le, a[..n]);
    hide SortedBy, TotalPreorder;
    SameLength(sorted, a[..n]);
    WritePrefix(a, sorted);
    assert a[..n] == sorted;
  }

  lemma SameLength(a: seq<Segment>, b: seq<Segment>)
    requires multiset(a) == multiset(b)
    ensures |a| == |b|
  {
    assert |multiset(a)| == |multiset(b)|;
  }

  /** One element read at i goes into the merged prefix of length m. */
  method MergeAt(a: array<Segment>, m: nat, i: nat) returns (grown: nat)
    requires m <= i < a.Length
    modifies a
    ensures grown <= i + 1 && a[..grown] == MergeOne(old(a[..m]), old(a[i]))
    ensures forall k :: i < k < a.Length ==> a[k] == old(a[k])
  {
    hide Mergeable, MergeOne;
    var interval := a[i];
    MergeCases(a[..m], interval);
    if m > 0 && Mergeable(a[m - 1], interval) {
      a[m - 1] := a[m - 1].(effectiveEnd := interval.effectiveEnd, open := interval.open);
      grown := m;
    } else {
      a[m] := interval;
      grown := m + 1;
    }
  }

  /** The merged prefix grows inside the array being read. It never catches up with the reader: every
      element not yet read is still what it was when the pass began. */
  method MergeInPlace(a: array<Segment>, n: nat) returns (m: nat)
    requires n <= a.Length
    modifies a
    ensures m <= n && a[..m] == MergeSegments(old(a[..n]))
  {
    ghost var was := a[..n];
    m := 0;
    hide MergeOne;
    for i := 0 to n
      invariant m <= i
      invariant forall k :: i <= k < n ==> a[k] == was[k]
      invariant a[..m] == MergeSegments(was[..i])
    {
      MergeNext(was, i);
      hide MergeSegments;
      m := MergeAt(a, m, i);
    }
    assert was[..n] == was;
  }

  method FilterInPlace(a: array<Segment>, n: nat, since: Option<Time>) returns (f: nat)
    requires n <= a.Length
    modifies a
    ensures f <= n && a[..f] == Select(KeptSince(since), old(a[..n]))
  {
    ghost var was := a[..n];
    f := 0;
    for i := 0 to n
      invariant f <= i
      invariant forall k :: i <= k < n ==> a[k] == was[k]
      invariant a[..f] == Kept(was[..i], since)
    {
      assert was[..i + 1][..i] == was[..i] && was[..i + 1][i] == was[i];
      var interval := a[i];
      if !(since.Some? && interval.startedAt < since.value && interval.effectiveEnd < since.value) {
        a[f] := interval;
        f := f + 1;
      }
    }
    assert was[..n] == was;
    KeptIsSelected(was, since);
  }

  /** The same selection, in the form the loop computes it. */
  ghost function Kept(segments: seq<Segment>, since: Option<Time>): seq<Segment> {
    if segments == [] then []
    else
      var s := segments[|segments| - 1];
      Kept(segments[..|segments| - 1], since)
      + if since.Some? && s.startedAt < since.value && s.effectiveEnd < since.value then [] else [s]
  }

  lemma {:induction false} KeptIsSelected(segments: seq<Segment>, since: Option<Time>)
    ensures Kept(segments, since) == Select(KeptSince(since), segments)
  {
    if segments != [] {
      KeptIsSelected(segments[..|segments| - 1], since);
    }
  }

  // ----- sorting puts a monitor's segments end to end -----

  lemma {:induction false} AppearsOnce(a: seq<Segment>, x: Segment)
    requires Apart(a) && forall s :: s in a ==> s.startedAt < s.effectiveEnd
    ensures multiset(a)[x] <= 1
  {
    if a != [] {
      var n := |a| - 1;
      AppearsOnce(a[..n], x);
      assert a == a[..n] + [a[n]];
      forall i | 0 <= i < n ensures a[..n][i] != a[n] {
        assert Separate(a[i], a[n]);
      }
    }
  }

  lemma RepeatCounts(s: seq<Segment>, i: nat, j: nat)
    requires i < j < |s| && s[i] == s[j]
    ensures multiset(s)[s[i]] >= 2
  {
    assert s == s[..j] + [s[j]] + s[j + 1..];
    assert s[..j][i] == s[i];
  }

  lemma DistinctAfterReorder(a: seq<Segment>, b: seq<Segment>, k: nat, l: nat)
    requires multiset(a) == multiset(b) && Apart(a) && k < l < |b|
    requires forall s :: s in a ==> s.startedAt < s.effectiveEnd
    ensures b[k] != b[l]
  {
    AppearsOnce(a, b[k]);
    if b[k] == b[l] {
      RepeatCounts(b, k, l);
    }
  }

  lemma SeparateAfterReorder(a: seq<Segment>, b: seq<Segment>, k: nat, l: nat)
    requires multiset(a) == multiset(b) && Apart(a) && k < l < |b|
    requires forall s :: s in a ==> s.startedAt < s.effectiveEnd
    ensures Separate(b[k], b[l])
  {
    DistinctAfterReorder(a, b, k, l);
    assert b[k] in multiset(a) && b[l] in multiset(a);
    var i :| 0 <= i < |a| && a[i] == b[k];
    var j :| 0 <= j < |a| && a[j] == b[l];
    assert Separate(a[i], a[j]) || Separate(a[j], a[i]);
  }

  lemma SortedInOrder(a: seq<Segment>, b: seq<Segment>)
    requires multiset(a) == multiset(b) && Apart(a) && SortedBy(SegmentOrder(), b)
    requires forall s :: s in a ==> s.startedAt < s.effectiveEnd
    ensures InOrder(b)
  {
    forall k, l | 0 <= k < l < |b|
      ensures b[k].monitor <= b[l].monitor
      ensures b[k].monitor == b[l].monitor ==> b[k].effectiveEnd <= b[l].startedAt
    {
      SeparateAfterReorder(a, b, k, l);
      assert SegmentOrder()(b[k], b[l]);
      assert b[k] in multiset(a) && b[l] in multiset(a);
    }
  }

  lemma FaithfulReorder(
    a: seq<Segment>, b: seq<Segment>, intervals: seq<StatusInterval>, windows: seq<Window>, now: Time)
    requires multiset(a) == multiset(b) && Faithful(a, intervals, windows, now)
    ensures Faithful(b, intervals, windows, now)
  {
    hide Right;
    assert forall s :: s in b <==> s in multiset(b);
    assert forall s :: s in a <==> s in multiset(a);
    forall i, t | i in intervals && StoredAt(i, i.monitor, t, now) ensures Covered(b, i.monitor, t) {
      var s :| s in a && Holds(s, i.monitor, t);
      assert s in b;
    }
  }

  // ----- merging keeps the meaning and makes the form canonical -----

  /** The merged segments so far stand for the segments read so far, and end where they end. */
  ghost predicate Stands(merged: seq<Segment>, segments: seq<Segment>) {
    && Canonical(merged)
    && (merged == [] <==> segments == [])
    && (merged != [] ==>
          var last, read := merged[|merged| - 1], segments[|segments| - 1];
          last.monitor == read.monitor && last.effectiveEnd == read.effectiveEnd && last.startedAt < last.effectiveEnd)
    && (forall m, t :: Covered(merged, m, t) <==> Covered(segments, m, t))
  }

  lemma CoveredPush(segments: seq<Segment>, s: Segment, m: MonitorId, t: Time)
    ensures Covered(segments + [s], m, t) <==> Covered(segments, m, t) || Holds(s, m, t)
  {
    assert s in segments + [s];
    if Covered(segments, m, t) {
      var x :| x in segments && Holds(x, m, t);
      assert x in segments + [s];
    }
  }

  lemma AppendInOrder(merged: seq<Segment>, s: Segment)
    requires InOrder(merged)
    requires merged != [] ==>
      var last := merged[|merged| - 1];
      last.startedAt < last.effectiveEnd && last.monitor <= s.monitor
      && (last.monitor == s.monitor ==> last.effectiveEnd <= s.startedAt)
    ensures InOrder(merged + [s])
  {
    var all, n := merged + [s], |merged|;
    forall k | 0 <= k < n
      ensures merged[k].monitor <= s.monitor
      ensures merged[k].monitor == s.monitor ==> merged[k].effectiveEnd <= s.startedAt
    {
      if k < n - 1 {
        assert merged[k].monitor <= merged[n - 1].monitor;
      }
    }
  }

  lemma StandsAppend(merged: seq<Segment>, segments: seq<Segment>, s: Segment)
    requires Stands(merged, segments) && InOrder(segments + [s]) && s.startedAt < s.effectiveEnd
    requires merged != [] ==> !Mergeable(merged[|merged| - 1], s)
    ensures Stands(merged + [s], segments + [s])
  {
    var all, n := segments + [s], |segments|;
    if n > 0 {
      assert all[n - 1].monitor <= all[n].monitor;
      assert all[n - 1].monitor == all[n].monitor ==> all[n - 1].effectiveEnd <= all[n].startedAt;
    }
    AppendInOrder(merged, s);
    forall m, t ensures Covered(merged + [s], m, t) <==> Covered(segments + [s], m, t) {
      CoveredPush(merged, s, m, t);
      CoveredPush(segments, s, m, t);
    }
  }

  lemma StandsMerge(merged: seq<Segment>, segments: seq<Segment>, s: Segment)
    requires Stands(merged, segments) && s.startedAt < s.effectiveEnd
    requires merged != [] && Mergeable(merged[|merged| - 1], s)
    ensures var last := |merged| - 1;
      Stands(merged[last := merged[last].(effectiveEnd := s.effectiveEnd, open := s.open)], segments + [s])
  {
    var last := |merged| - 1;
    var front, was := merged[..last], merged[last];
    var grown := was.(effectiveEnd := s.effectiveEnd, open := s.open);
    assert merged == front + [was] && merged[last := grown] == front + [grown];
    forall m, t ensures Covered(front + [grown], m, t) <==> Covered(segments + [s], m, t) {
      CoveredPush(front, was, m, t);
      CoveredPush(front, grown, m, t);
      CoveredPush(segments, s, m, t);
      assert Holds(grown, m, t) <==> Holds(was, m, t) || Holds(s, m, t);
    }
  }

  lemma GrownRight(
    was: Segment, s: Segment, intervals: seq<StatusInterval>, windows: seq<Window>, now: Time)
    requires Right(was, intervals, windows, now) && Right(s, intervals, windows, now) && Mergeable(was, s)
    ensures Right(was.(effectiveEnd := s.effectiveEnd, open := s.open), intervals, windows, now)
  {
    var grown := was.(effectiveEnd := s.effectiveEnd, open := s.open);
    hide InWindow;
    forall t | grown.startedAt <= t < grown.effectiveEnd ensures RightAt(grown, intervals, windows, now, t) {
      var part := if t < s.startedAt then was else s;
      assert RightAt(part, intervals, windows, now, t);
      var i :| && i in intervals && StoredAt(i, part.monitor, t, now)
               && Reads(part, i, InWindow(windows, part.monitor, t));
      assert Reads(grown, i, InWindow(windows, grown.monitor, t));
    }
  }

  /** One more segment is folded into the last one or appended. */
  lemma MergeOneMore(
    merged: seq<Segment>, front: seq<Segment>, s: Segment,
    intervals: seq<StatusInterval>, windows: seq<Window>, now: Time)
    requires Stands(merged, front) && InOrder(front + [s]) && Right(s, intervals, windows, now)
    requires forall x :: x in merged ==> Right(x, intervals, windows, now)
    ensures var next := MergeOne(merged, s);
      Stands(next, front + [s]) && forall x :: x in next ==> Right(x, intervals, windows, now)
  {
    assert s.startedAt < s.effectiveEnd;
    hide Right, InOrder, Stands;
    var last := |merged| - 1;
    if merged != [] && Mergeable(merged[last], s) {
      StandsMerge(merged, front, s);
      GrownRight(merged[last], s, intervals, windows, now);
    } else {
      StandsAppend(merged, front, s);
    }
  }

  lemma {:induction false} MergeStands(
    segments: seq<Segment>, intervals: seq<StatusInterval>, windows: seq<Window>, now: Time)
    requires InOrder(segments)
    requires forall s :: s in segments ==> Right(s, intervals, windows, now)
    ensures Stands(MergeSegments(segments), segments)
    ensures forall s :: s in MergeSegments(segments) ==> Right(s, intervals, windows, now)
  {
    if segments != [] {
      var n := |segments| - 1;
      var front, s := segments[..n], segments[n];
      assert segments == front + [s];
      assert InOrder(front);
      hide Right, InOrder, Stands, MergeOne;
      MergeStands(front, intervals, windows, now);
      MergeOneMore(MergeSegments(front), front, s, intervals, windows, now);
    }
  }

  /** Merging is invisible pointwise and leaves no two touching segments alike. */
  lemma MergedProjection(
    segments: seq<Segment>, intervals: seq<StatusInterval>, windows: seq<Window>, now: Time)
    requires InOrder(segments) && Faithful(segments, intervals, windows, now)
    ensures Canonical(MergeSegments(segments)) && Faithful(MergeSegments(segments), intervals, windows, now)
  {
    MergeStands(segments, intervals, windows, now);
    hide Right;
  }

  // ----- the whole projection -----

  datatype Filter = Filter(limit: int, since: Option<Time>, now: Time)

  function Row(s: Segment): StatusInterval {
    StatusInterval(s.id, s.monitor, s.status, s.startedAt, if s.open then None else Some(s.effectiveEnd), s.downtime)
  }

  function Rows(segments: seq<Segment>): (rows: seq<StatusInterval>)
    ensures |rows| == |segments|
    ensures forall k :: 0 <= k < |segments| ==> rows[k] == Row(segments[k])
  {
    seq(|segments|, k requires 0 <= k < |segments| => Row(segments[k]))
  }

  function Limit(filter: Filter): (n: nat)
    ensures n > 0
  {
    if filter.limit <= 0 then 50 else filter.limit
  }

  /** The shown rows are the newest of the kept segments, at most limit of them. */
  ghost predicate Shows(rows: seq<StatusInterval>, listed: seq<Segment>, projection: seq<Segment>, filter: Filter) {
    && multiset(listed) == multiset(Select(KeptSince(filter.since), projection))
    && SortedBy(NewestFirst(), listed)
    && rows == Rows(if |listed| > Limit(filter) then listed[..Limit(filter)] else listed)
  }

  /** The row reaches the time asked for. */
  ghost predicate Reaches(s: Segment, since: Option<Time>) {
    since.Some? ==> since.value <= s.startedAt || since.value <= s.effectiveEnd
  }

  ghost predicate NotOlder(a: Segment, b: Segment) {
    a.startedAt > b.startedAt || (a.startedAt == b.startedAt && a.id >= b.id)
  }

  ghost predicate NoneAfter(shown: seq<Segment>, s: Segment) {
    forall k :: 0 <= k < |shown| ==> shown[k].startedAt >= s.startedAt
  }

  /** The row of a segment; an open one, which lasts until now, has no end. */
  ghost predicate ShownAs(row: StatusInterval, s: Segment) {
    && row.id == s.id && row.monitor == s.monitor && row.status == s.status && row.downtime == s.downtime
    && row.startedAt == s.startedAt && (row.endedAt.None? <==> s.open)
    && (row.endedAt.Some? ==> row.endedAt.value == s.effectiveEnd)
  }

  lemma RowShows(s: Segment)
    ensures ShownAs(Row(s), s)
  {
  }

  ghost predicate InThatOrder(shown: seq<Segment>) {
    forall j, k :: 0 <= j < k < |shown| ==> NotOlder(shown[j], shown[k])
  }

  /** Of the segments that reach since none is missing unless there are too many, and none that is missing
      starts after one that is shown. */
  ghost predicate NoneMissing(shown: seq<Segment>, projection: seq<Segment>, since: Option<Time>, most: int) {
    forall s :: s in projection && Reaches(s, since) ==> s in shown || (|shown| == most && NoneAfter(shown, s))
  }

  /** The rows are those of some segments that reach since, newest first and as many as asked for, or fifty,
      if there are so many. */
  ghost predicate Newest(rows: seq<StatusInterval>, shown: seq<Segment>, projection: seq<Segment>, filter: Filter) {
    var most := if filter.limit > 0 then filter.limit else 50;
    && |rows| == |shown| <= most && (forall k :: 0 <= k < |rows| ==> ShownAs(rows[k], shown[k]))
    && multiset(shown) <= multiset(projection) && (forall s :: s in shown ==> Reaches(s, filter.since))
    && InThatOrder(shown) && NoneMissing(shown, projection, filter.since, most)
  }

  /** What is kept is what reaches since. */
  lemma KeptReaches(listed: seq<Segment>, projection: seq<Segment>, since: Option<Time>)
    requires multiset(listed) == multiset(Select(KeptSince(since), projection))
    ensures forall s :: s in listed <==> s in projection && Reaches(s, since)
    ensures multiset(listed) <= multiset(projection)
  {
    var kept := Select(KeptSince(since), projection);
    forall s ensures s in listed <==> s in projection && Reaches(s, since) {
      assert s in listed <==> s in multiset(kept);
      assert Reaches(s, since) <==> KeptSince(since)(s);
    }
    forall s ensures multiset(listed)[s] <= multiset(projection)[s] {
      SelectMultiset(KeptSince(since), projection, s);
    }
  }

  /** In a list sorted newest first none after the first n is newer than those. */
  lemma FirstAreNewest(listed: seq<Segment>, n: nat, s: Segment)
    requires SortedBy(NewestFirst(), listed) && n <= |listed| && s in listed
    ensures s in listed[..n] || (n < |listed| && NoneAfter(listed[..n], s))
  {
    var j :| 0 <= j < |listed| && listed[j] == s;
    if j < n {
      assert listed[..n][j] == s;
    } else {
      forall k | 0 <= k < n ensures listed[..n][k].startedAt >= s.startedAt {
        assert NewestFirst()(listed[k], listed[j]);
      }
    }
  }

  lemma FirstInOrder(listed: seq<Segment>, n: nat)
    requires SortedBy(NewestFirst(), listed) && n <= |listed|
    ensures InThatOrder(listed[..n])
  {
    forall j, k | 0 <= j < k < n ensures NotOlder(listed[..n][j], listed[..n][k]) {
      assert NewestFirst()(listed[j], listed[k]);
    }
  }

  lemma FirstAmong(listed: seq<Segment>, n: nat)
    requires n <= |listed|
    ensures multiset(listed[..n]) <= multiset(listed)
    ensures forall s :: s in listed[..n] ==> s in listed
  {
    assert listed == listed[..n] + listed[n..];
  }

  lemma FirstComplete(listed: seq<Segment>, n: nat, projection: seq<Segment>, filter: Filter)
    requires SortedBy(NewestFirst(), listed)
    requires forall s :: s in listed <==> s in projection && Reaches(s, filter.since)
    requires n == if |listed| > Limit(filter) then Limit(filter) else |listed|
    ensures NoneMissing(listed[..n], projection, filter.since, if filter.limit > 0 then filter.limit else 50)
  {
    hide SortedBy, Reaches, NoneAfter;
    forall s | s in projection && Reaches(s, filter.since)
      ensures s in listed[..n] || (n < |listed| && NoneAfter(listed[..n], s))
    {
      FirstAreNewest(listed, n, s);
    }
  }

  lemma ShowsNewest(rows: seq<StatusInterval>, listed: seq<Segment>, projection: seq<Segment>, filter: Filter)
    returns (shown: seq<Segment>)
    requires Shows(rows, listed, projection, filter)
    ensures Newest(rows, shown, projection, filter)
  {
    var n := if |listed| > Limit(filter) then Limit(filter) else |listed|;
    hide SortedBy, Select, Reaches, InThatOrder, NoneMissing, Row, ShownAs;
    shown := listed[..n];
    forall k | 0 <= k < n ensures ShownAs(rows[k], shown[k]) { RowShows(listed[k]); }
    KeptReaches(listed, projection, filter.since);
    FirstAmong(listed, n);
    FirstInOrder(listed, n);
    FirstComplete(listed, n, projection, filter);
  }

  /** The segments cut from every interval, sorted within the array the later passes reuse. */
  method SortedBacking(
      intervals: seq<StatusInterval>, windows: seq<Window>, now: Time) returns (backing: array<Segment>)
    requires DisjointIntervals(intervals, now)
    ensures fresh(backing) && InOrder(backing[..]) && Faithful(backing[..], intervals, windows, now)
  {
    var segments := CutAll(intervals, windows, now);
    hide Faithful, Right, Apart, SortedBy, TotalPreorder, InOrder;
    backing := new Segment[|segments|](k requires 0 <= k < |segments| => segments[k]);
    assert backing[..|segments|] == segments;
    OrdersAreTotal();
    SortPrefix(backing, |segments|, SegmentOrder());
    assert backing[..|segments|] == backing[..];
    NonemptySegments(segments, intervals, windows, now);
    SortedInOrder(segments, backing[..]);
    FaithfulReorder(segments, backing[..], intervals, windows, now);
  }

  method RowsOf(a: array<Segment>, n: nat) returns (rows: seq<StatusInterval>)
    requires n <= a.Length
    ensures rows == Rows(a[..n])
  {
    rows := [];
    for k := 0 to n
      invariant |rows| == k && forall j :: 0 <= j < k ==> rows[j] == Row(a[j])
    {
      rows := rows + [Row(a[k])];
    }
  }

  /** There is a canonical projection that covers the instants stored intervals cover below now, reads
      maintenance without downtime just where an uncancelled window covers and the stored status
      elsewhere; the rows are its newest segments that reach since. */
  ghost predicate Projects(
    rows: seq<StatusInterval>, intervals: seq<StatusInterval>, windows: seq<Window>, filter: Filter)
  {
    exists projection, listed ::
      && Canonical(projection) && Faithful(projection, intervals, windows, filter.now)
      && Shows(rows, listed, projection, filter)
      && exists shown :: Newest(rows, shown, projection, filter)
  }

  /** For stored intervals disjoint per monitor and any windows, overlapping ones included. */
  method ProjectStatusIntervals(intervals: seq<StatusInterval>, windows: seq<Window>, filter: Filter)
    returns (rows: seq<StatusInterval>)
    requires DisjointIntervals(intervals, filter.now)
    ensures |rows| <= Limit(filter) && Projects(rows, intervals, windows, filter)
  {
    hide Faithful, Canonical, InOrder, Select, MergeSegments, SortedBy, TotalPreorder, DisjointIntervals,
      Newest;
    var backing := SortedBacking(intervals, windows, filter.now);
    var n := backing.Length;
    assert backing[..n] == backing[..];
    MergedProjection(backing[..], intervals, windows, filter.now);
    var merged := MergeInPlace(backing, n);
    ghost var projection := backing[..merged];
    var filtered := FilterInPlace(backing, merged, filter.since);
    OrdersAreTotal();
    SortPrefix(backing, filtered, NewestFirst());
    ghost var listed := backing[..filtered];
    if filtered > Limit(filter) {
      rows := RowsOf(backing, Limit(filter));
      assert backing[..Limit(filter)] == listed[..Limit(filter)];
    } else {
      rows := RowsOf(backing, filtered);
    }
    assert Shows(rows, listed, projection, filter);
    ghost var shown := ShowsNewest(rows, listed, projection, filter);
  }

  lemma OrdersAreTotal()
    ensures TotalPreorder(SegmentOrder()) && TotalPreorder(NewestFirst())
  {
  }

  lemma NonemptySegments(
    segments: seq<Segment>, intervals: seq<StatusInterval>, windows: seq<Window>, now: Time)
    requires Faithful(segments, intervals, windows, now)
    ensures forall s :: s in segments ==> s.startedAt < s.effectiveEnd
  {
    forall s | s in segments ensures s.startedAt < s.effectiveEnd {
      assert Right(s, intervals, windows, now);
    }
  }
}
