/** Half-open time intervals, read as the finite sets of instants they contain. */
module Intervals {
  import opened Basics

  datatype Interval = Interval(start: Time, end: Time)

  ghost predicate IsInstants(s: set<Time>, lo: Time, hi: Time) {
    && (forall t :: t in s <==> lo <= t < hi)
    && |s| == if lo < hi then hi - lo else 0
  }

  /** The instants from lo up to but not including hi; one set has exactly these members. */
  ghost function Instants(lo: Time, hi: Time): (s: set<Time>)
    ensures forall t :: t in s <==> lo <= t < hi
    ensures |s| == if lo < hi then hi - lo else 0
  {
    InstantsExist(lo, hi);
    var s :| IsInstants(s, lo, hi);
    s
  }

  lemma {:induction false} InstantsExist(lo: Time, hi: Time)
    ensures exists s :: IsInstants(s, lo, hi)
    decreases hi - lo
  {
    if lo < hi {
      InstantsExist(lo, hi - 1);
      var s :| IsInstants(s, lo, hi - 1);
      assert IsInstants(s + {hi - 1}, lo, hi);
    } else {
      assert IsInstants({}, lo, hi);
    }
  }

  ghost function Span(i: Interval): set<Time> {
    Instants(i.start, i.end)
  }

  /** The instants that lie in some interval of the list. */
  ghost function UnionOf(s: seq<Interval>): set<Time> {
    if s == [] then {} else UnionOf(s[..|s| - 1]) + Span(s[|s| - 1])
  }

  lemma {:induction false} UnionOfMember(s: seq<Interval>, t: Time)
    ensures t in UnionOf(s) <==> exists i :: i in s && t in Span(i)
  {
    if s != [] {
      var n := |s| - 1;
      UnionOfMember(s[..n], t);
      assert s == s[..n] + [s[n]];
    }
  }

  ghost predicate Disjoint(s: seq<Interval>) {
    forall i, j :: 0 <= i < j < |s| ==> Span(s[i]) !! Span(s[j])
  }

  /** Ordered by start, with a gap before each next start. */
  ghost predicate Separated(s: seq<Interval>) {
    forall i, j :: 0 <= i < j < |s| ==> s[i].start <= s[j].start && s[i].end < s[j].start
  }

  lemma SeparatedIsDisjoint(s: seq<Interval>)
    requires Separated(s)
    ensures Disjoint(s)
  {
    forall i, j | 0 <= i < j < |s| ensures Span(s[i]) !! Span(s[j]) {
      assert s[i].end < s[j].start;
    }
  }

  lemma UnionOfPush(s: seq<Interval>, i: Interval)
    ensures UnionOf(s + [i]) == UnionOf(s) + Span(i)
  {
    assert (s + [i])[..|s|] == s;
  }

  lemma {:induction false} UnionOfConcat(a: seq<Interval>, b: seq<Interval>)
    ensures UnionOf(a + b) == UnionOf(a) + UnionOf(b)
  {
    if b == [] {
      assert a + b == a;
    } else {
      var n := |b| - 1;
      assert a + b == (a + b[..n]) + [b[n]];
      UnionOfPush(a + b[..n], b[n]);
      UnionOfConcat(a, b[..n]);
    }
  }

  lemma UnionOfReorder(a: seq<Interval>, b: seq<Interval>)
    requires multiset(a) == multiset(b)
    ensures UnionOf(a) == UnionOf(b)
  {
    forall x ensures x in a <==> x in b { assert x in multiset(a) <==> x in multiset(b); }
    forall t ensures t in UnionOf(a) <==> t in UnionOf(b) {
      UnionOfMember(a, t);
      UnionOfMember(b, t);
    }
  }

  // ----- sums of durations -----

  /** How long the intervals last inside w, instants counted once per interval. */
  ghost function SpanSum(w: set<Time>, s: seq<Interval>): nat {
    if s == [] then 0 else SpanSum(w, s[..|s| - 1]) + |w * Span(s[|s| - 1])|
  }

  lemma {:induction false} DisjointSpanSum(w: set<Time>, s: seq<Interval>)
    requires Disjoint(s)
    ensures SpanSum(w, s) == |w * UnionOf(s)|
  {
    if s == [] {
      assert w * UnionOf(s) == {};
    } else {
      var n := |s| - 1;
      DisjointSpanSum(w, s[..n]);
      forall t | t in UnionOf(s[..n]) ensures t !in Span(s[n]) {
        UnionOfMember(s[..n], t);
      }
      assert w * UnionOf(s) == w * UnionOf(s[..n]) + w * Span(s[n]);
      assert (w * UnionOf(s[..n])) !! (w * Span(s[n]));
    }
  }

  ghost function NonNegative(d: int): nat {
    if d > 0 then d else 0
  }

  /** Time of each outage inside w less the time the excluded list takes from it. */
  ghost function NetSum(w: set<Time>, outages: seq<Interval>, excluded: seq<Interval>): nat {
    if outages == [] then 0
    else
      var o := w * Span(outages[|outages| - 1]);
      NetSum(w, outages[..|outages| - 1], excluded) + NonNegative(|o| - SpanSum(o, excluded))
  }

  lemma NetOfOne(o: set<Time>, excluded: seq<Interval>)
    requires Disjoint(excluded)
    ensures NonNegative(|o| - SpanSum(o, excluded)) == |o - UnionOf(excluded)| == |o| - SpanSum(o, excluded)
  {
    DisjointSpanSum(o, excluded);
    assert o == (o * UnionOf(excluded)) + (o - UnionOf(excluded));
    assert (o * UnionOf(excluded)) !! (o - UnionOf(excluded));
  }

  /** Time outside u of each outage, instants counted once per outage. */
  ghost function NetTime(w: set<Time>, outages: seq<Interval>, u: set<Time>): nat {
    if outages == [] then 0
    else NetTime(w, outages[..|outages| - 1], u) + |w * Span(outages[|outages| - 1]) - u|
  }

  lemma {:induction false} NetSumIsNetTime(w: set<Time>, outages: seq<Interval>, excluded: seq<Interval>)
    requires Disjoint(excluded)
    ensures NetSum(w, outages, excluded) == NetTime(w, outages, UnionOf(excluded))
  {
    if outages != [] {
      var n := |outages| - 1;
      NetSumIsNetTime(w, outages[..n], excluded);
      NetOfOne(w * Span(outages[n]), excluded);
    }
  }

  ghost predicate InTwo(s: seq<Interval>, t: Time) {
    exists i, j :: 0 <= i < j < |s| && t in Span(s[i]) && t in Span(s[j])
  }

  /** Some instant of w outside the excluded time lies in two outages. */
  ghost predicate Overlaps(w: set<Time>, outages: seq<Interval>, excluded: set<Time>) {
    exists t :: t in w - excluded && InTwo(outages, t)
  }

  lemma InTwoPush(front: seq<Interval>, last: Interval, t: Time)
    ensures InTwo(front + [last], t) <==> InTwo(front, t) || (t in UnionOf(front) && t in Span(last))
  {
    var s := front + [last];
    UnionOfMember(front, t);
    if InTwo(front, t) {
      var i, j :| 0 <= i < j < |front| && t in Span(front[i]) && t in Span(front[j]);
      assert s[i] == front[i] && s[j] == front[j];
    }
    if t in UnionOf(front) && t in Span(last) {
      var i :| 0 <= i < |front| && t in Span(front[i]);
      assert s[i] == front[i] && s[|front|] == last;
    }
  }

  lemma OverlapsPush(w: set<Time>, front: seq<Interval>, last: Interval, u: set<Time>)
    ensures Overlaps(w, front + [last], u)
            <==> Overlaps(w, front, u) || (w * UnionOf(front) - u) * (w * Span(last) - u) != {}
  {
    var both := (w * UnionOf(front) - u) * (w * Span(last) - u);
    forall t ensures InTwo(front + [last], t) <==> InTwo(front, t) || (t in UnionOf(front) && t in Span(last)) {
      InTwoPush(front, last, t);
    }
    assert forall t :: t in both <==> t in w - u && t in UnionOf(front) && t in Span(last);
  }

  lemma CountBoth(w: set<Time>, f: set<Time>, g: set<Time>, u: set<Time>)
    ensures |w * (f + g) - u| == |w * f - u| + |w * g - u| - |(w * f - u) * (w * g - u)|
  {
    assert w * (f + g) - u == (w * f - u) + (w * g - u);
  }

  /** The summed net time never undercounts the bad instants, and it is exact just when no
      counted instant lies in two outages. */
  lemma {:induction false} NetTimeExact(w: set<Time>, outages: seq<Interval>, u: set<Time>)
    ensures NetTime(w, outages, u) >= |w * UnionOf(outages) - u|
    ensures NetTime(w, outages, u) == |w * UnionOf(outages) - u| <==> !Overlaps(w, outages, u)
  {
    if outages == [] {
      assert w * UnionOf(outages) - u == {};
    } else {
      var n := |outages| - 1;
      var front, last := outages[..n], outages[n];
      assert outages == front + [last];
      NetTimeExact(w, front, u);
      OverlapsPush(w, front, last, u);
      CountBoth(w, UnionOf(front), Span(last), u);
    }
  }

  lemma DisjointNeverOverlaps(w: set<Time>, outages: seq<Interval>, u: set<Time>)
    requires Disjoint(outages)
    ensures !Overlaps(w, outages, u)
  {
  }

  lemma SubsetCount(a: set<Time>, b: set<Time>)
    requires a <= b
    ensures |a| <= |b|
  {
    assert b == a + (b - a);
  }
}
