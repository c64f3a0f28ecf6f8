/** Selecting rows of a table, and the sorting that library calls and ORDER BY clauses do. */
module Sequences {

  // ----- selection: the WHERE clause of a query -----

  function Select<T(!new)>(p: T -> bool, s: seq<T>): (r: seq<T>)
    ensures forall x :: x in r <==> x in s && p(x)
  {
    if s == [] then []
    else
      var rest := Select(p, s[..|s| - 1]);
      var x := s[|s| - 1];
      assert forall y :: y in s <==> y in s[..|s| - 1] || y == x;
      if p(x) then rest + [x] else rest
  }

  lemma SelectPush<T(!new)>(p: T -> bool, s: seq<T>, x: T)
    ensures Select(p, s + [x]) == if p(x) then Select(p, s) + [x] else Select(p, s)
  {
    assert (s + [x])[..|s|] == s;
  }

  lemma {:induction false} SelectConcat<T(!new)>(p: T -> bool, a: seq<T>, b: seq<T>)
    ensures Select(p, a + b) == Select(p, a) + Select(p, b)
  {
    if b == [] {
      assert a + b == a;
    } else {
      var n := |b| - 1;
      assert a + b == (a + b[..n]) + [b[n]] && b == b[..n] + [b[n]];
      SelectPush(p, a + b[..n], b[n]);
      SelectPush(p, b[..n], b[n]);
      SelectConcat(p, a, b[..n]);
    }
  }

  lemma {:induction false} SelectMultiset<T(!new)>(p: T -> bool, s: seq<T>, x: T)
    ensures multiset(Select(p, s))[x] == if p(x) then multiset(s)[x] else 0
  {
    if s != [] {
      var n := |s| - 1;
      assert s == s[..n] + [s[n]];
      SelectPush(p, s[..n], s[n]);
      SelectMultiset(p, s[..n], x);
    }
  }

  lemma SortedPush<T(!new)>(le: (T, T) -> bool, s: seq<T>, x: T)
    requires SortedBy(le, s) && forall y :: y in s ==> le(y, x)
    ensures SortedBy(le, s + [x])
  {
  }

  /** Any order between earlier and later rows survives selection. */
  lemma {:induction false} SelectKeepsOrder<T(!new)>(p: T -> bool, le: (T, T) -> bool, s: seq<T>)
    requires forall i, j :: 0 <= i < j < |s| && p(s[i]) && p(s[j]) ==> le(s[i], s[j])
    ensures SortedBy(le, Select(p, s))
  {
    if s != [] {
      var n := |s| - 1;
      var front := s[..n];
      assert s == front + [s[n]];
      SelectPush(p, front, s[n]);
      forall i, j | 0 <= i < j < |front| && p(front[i]) && p(front[j]) ensures le(front[i], front[j]) {
        assert s[i] == front[i] && s[j] == front[j];
      }
      hide Select, SortedBy;
      SelectKeepsOrder(p, le, front);
      if p(s[n]) {
        forall y | y in Select(p, front) ensures le(y, s[n]) {
          var k :| 0 <= k < n && front[k] == y;
          assert s[k] == y;
        }
        SortedPush(le, Select(p, front), s[n]);
      }
    }
  }

  lemma SelectSplit<T(!new)>(p: T -> bool, s: seq<T>, j: nat)
    requires j < |s| && p(s[j])
    ensures Select(p, s) == Select(p, s[..j]) + [s[j]] + Select(p, s[j + 1..])
  {
    hide Select;
    assert s == s[..j] + [s[j]] + s[j + 1..];
    SelectPush(p, s[..j], s[j]);
    SelectConcat(p, s[..j] + [s[j]], s[j + 1..]);
  }

  /** Conversely, rows that are in order once selected were in order before. */
  lemma SelectedInOrder<T(!new)>(p: T -> bool, le: (T, T) -> bool, s: seq<T>, i: nat, j: nat)
    requires SortedBy(le, Select(p, s)) && i < j < |s| && p(s[i]) && p(s[j])
    ensures le(s[i], s[j])
  {
    hide Select;
    var before := Select(p, s[..j]);
    SelectSplit(p, s, j);
    assert s[..j][i] == s[i] && s[i] in before;
    var a :| 0 <= a < |before| && before[a] == s[i];
    var all := Select(p, s);
    assert all[a] == s[i] && all[|before|] == s[j];
  }

  lemma SelectUpdate<T(!new)>(p: T -> bool, s: seq<T>, i: nat, x: T)
    requires i < |s|
    ensures Select(p, s[i := x]) == Select(p, s[..i]) + (if p(x) then [x] else []) + Select(p, s[i + 1..])
  {
    assert s[i := x] == s[..i] + [x] + s[i + 1..];
    SelectPush(p, s[..i], x);
    SelectConcat(p, s[..i] + [x], s[i + 1..]);
  }

  lemma {:induction false} SelectAll<T(!new)>(p: T -> bool, s: seq<T>)
    requires forall k :: 0 <= k < |s| ==> p(s[k])
    ensures Select(p, s) == s
  {
    if s != [] {
      var n := |s| - 1;
      SelectAll(p, s[..n]);
      assert s == s[..n] + [s[n]];
      SelectPush(p, s[..n], s[n]);
    }
  }

  lemma {:induction false} SelectNone<T(!new)>(p: T -> bool, s: seq<T>)
    requires forall k :: 0 <= k < |s| ==> !p(s[k])
    ensures Select(p, s) == []
  {
    if s != [] {
      var n := |s| - 1;
      SelectNone(p, s[..n]);
      assert s == s[..n] + [s[n]];
      SelectPush(p, s[..n], s[n]);
    }
  }

  lemma {:induction false} SelectTwice<T(!new)>(p: T -> bool, q: T -> bool, pq: T -> bool, s: seq<T>)
    requires forall x :: pq(x) == (p(x) && q(x))
    ensures Select(p, Select(q, s)) == Select(pq, s)
  {
    if s != [] {
      var n := |s| - 1;
      assert s == s[..n] + [s[n]];
      SelectPush(q, s[..n], s[n]);
      SelectPush(pq, s[..n], s[n]);
      SelectTwice(p, q, pq, s[..n]);
      if q(s[n]) {
        SelectPush(p, Select(q, s[..n]), s[n]);
      }
    }
  }

  // ----- sorting -----

  ghost predicate TotalPreorder<T(!new)>(le: (T, T) -> bool) {
    && (forall x, y :: le(x, y) || le(y, x))
    && (forall x, y, z :: le(x, y) && le(y, z) ==> le(x, z))
  }

  ghost predicate SortedBy<T(!new)>(le: (T, T) -> bool, s: seq<T>) {
    forall i, j :: 0 <= i < j < |s| ==> le(s[i], s[j])
  }

  lemma SortedPart<T(!new)>(le: (T, T) -> bool, s: seq<T>, i: nat, j: nat)
    requires SortedBy(le, s) && i <= j <= |s|
    ensures SortedBy(le, s[i..j]) && SortedBy(le, s[i..]) && SortedBy(le, s[..j])
  {
  }

  function Insert<T(!new)>(le: (T, T) -> bool, s: seq<T>, x: T): (r: seq<T>)
    ensures multiset(r) == multiset(s) + multiset{x}
  {
    if s == [] then [x]
    else
      var n := |s| - 1;
      assert s == s[..n] + [s[n]];
      if le(s[n], x) then s + [x] else Insert(le, s[..n], x) + [s[n]]
  }

  lemma {:induction false} InsertSorted<T(!new)>(le: (T, T) -> bool, s: seq<T>, x: T)
    requires TotalPreorder(le) && SortedBy(le, s)
    ensures SortedBy(le, Insert(le, s, x))
  {
    if s != [] {
      var n := |s| - 1;
      if le(s[n], x) {
        forall i | 0 <= i < n ensures le(s[i], x) { assert le(s[i], s[n]); }
      } else {
        InsertSorted(le, s[..n], x);
        var r := Insert(le, s[..n], x);
        forall i | 0 <= i < |r| ensures le(r[i], s[n]) {
          assert r[i] in multiset(r);
          assert r[i] in multiset(s[..n]) || r[i] == x;
          if r[i] != x {
            var k :| 0 <= k < n && s[..n][k] == r[i];
            assert le(s[k], s[n]);
          }
        }
      }
    }
  }

  /** A stable sort: what ORDER BY gives when the id breaks ties. */
  function Sorted<T(!new)>(le: (T, T) -> bool, s: seq<T>): (r: seq<T>)
    ensures multiset(r) == multiset(s)
  {
    if s == [] then []
    else
      assert s == s[..|s| - 1] + [s[|s| - 1]];
      Insert(le, Sorted(le, s[..|s| - 1]), s[|s| - 1])
  }

  /** Inserting behind its equals, a row the predicate selects lands behind all selected rows. */
  lemma {:induction false} SelectInsert<T(!new)>(p: T -> bool, le: (T, T) -> bool, s: seq<T>, x: T)
    requires p(x) ==> forall y :: y in s && p(y) ==> le(y, x)
    ensures Select(p, Insert(le, s, x)) == if p(x) then Select(p, s) + [x] else Select(p, s)
  {
    if s == [] {
      SelectPush(p, [], x);
    } else {
      var n := |s| - 1;
      assert s == s[..n] + [s[n]];
      if le(s[n], x) {
        SelectPush(p, s, x);
      } else {
        SelectInsert(p, le, s[..n], x);
        SelectPush(p, Insert(le, s[..n], x), s[n]);
        SelectPush(p, s[..n], s[n]);
      }
    }
  }

  /** Selected rows that are already in order keep their order through the sort. */
  lemma {:induction false} SelectSorted<T(!new)>(p: T -> bool, le: (T, T) -> bool, s: seq<T>)
    requires forall i, j :: 0 <= i < j < |s| && p(s[i]) && p(s[j]) ==> le(s[i], s[j])
    ensures Select(p, Sorted(le, s)) == Select(p, s)
  {
    hide Select, Insert;
    if s != [] {
      var n := |s| - 1;
      var front, last := s[..n], s[n];
      assert s == front + [last];
      SelectPush(p, front, last);
      SelectSorted(p, le, front);
      if p(last) {
        LastInOrder(p, le, front, last);
      }
      SelectInsert(p, le, Sorted(le, front), last);
    }
  }

  lemma LastInOrder<T(!new)>(p: T -> bool, le: (T, T) -> bool, front: seq<T>, last: T)
    requires forall i :: 0 <= i < |front| && p(front[i]) ==> le(front[i], last)
    ensures forall y :: y in Sorted(le, front) && p(y) ==> le(y, last)
  {
    hide Insert;
    forall y | y in Sorted(le, front) && p(y) ensures le(y, last) {
      assert y in multiset(Sorted(le, front)) && y in multiset(front);
      var i :| 0 <= i < |front| && front[i] == y;
    }
  }

  /** Stands for the sorting of the Go library and of the database. The contract leaves the order
      of equal keys open, so whatever is proved holds for stable and unstable sorts alike. */
  method SortRows<T(!new)>(le: (T, T) -> bool, s: seq<T>) returns (r: seq<T>)
    requires TotalPreorder(le)
    ensures multiset(r) == multiset(s) && SortedBy(le, r)
  {
    r := [];
    for i := 0 to |s|
      invariant multiset(r) == multiset(s[..i]) && SortedBy(le, r)
    {
      assert s[..i + 1] == s[..i] + [s[i]];
      InsertSorted(le, r, s[i]);
      r := Insert(le, r, s[i]);
    }
    assert s[..|s|] == s;
  }

  lemma LastIsGreatest<T(!new)>(lt: (T, T) -> bool, a: seq<T>, x: T)
    requires SortedBy(lt, a) && x in a
    ensures x == a[|a| - 1] || lt(x, a[|a| - 1])
  {
    var i :| 0 <= i < |a| && a[i] == x;
  }

  /** lt is a strict part of le: rows it orders cannot also be in the opposite order. */
  ghost predicate StrictlyWithin<T(!new)>(lt: (T, T) -> bool, le: (T, T) -> bool) {
    forall x, y :: lt(x, y) ==> !le(y, x)
  }

  /** An ordered arrangement of rows that have a strictly ordered arrangement is that arrangement. */
  lemma {:induction false} StrictOrderUnique<T(!new)>(le: (T, T) -> bool, lt: (T, T) -> bool, a: seq<T>, b: seq<T>)
    requires multiset(a) == multiset(b)
    requires SortedBy(le, a) && SortedBy(lt, b) && StrictlyWithin(lt, le)
    ensures a == b
    decreases |a|
  {
    assert |multiset(a)| == |multiset(b)|;
    if a != [] {
      var n := |a| - 1;
      SameGreatest(le, lt, a, b);
      MultisetFront(a);
      MultisetFront(b);
      StrictOrderUnique(le, lt, a[..n], b[..n]);
      FrontAndLast(a, b);
    }
  }

  lemma FrontAndLast<T(!new)>(a: seq<T>, b: seq<T>)
    requires |a| == |b| > 0 && a[..|a| - 1] == b[..|b| - 1] && a[|a| - 1] == b[|b| - 1]
    ensures a == b
  {
    assert a == a[..|a| - 1] + [a[|a| - 1]];
  }

  lemma MultisetFront<T(!new)>(s: seq<T>)
    requires s != []
    ensures multiset(s[..|s| - 1]) == multiset(s) - multiset{s[|s| - 1]}
  {
    assert s == s[..|s| - 1] + [s[|s| - 1]];
  }

  lemma SameGreatest<T(!new)>(le: (T, T) -> bool, lt: (T, T) -> bool, a: seq<T>, b: seq<T>)
    requires multiset(a) == multiset(b) && |a| == |b| > 0
    requires SortedBy(le, a) && SortedBy(lt, b) && StrictlyWithin(lt, le)
    ensures a[|a| - 1] == b[|b| - 1]
  {
    var n := |a| - 1;
    assert a[n] in multiset(b) && b[n] in multiset(a);
    LastIsGreatest(le, a, b[n]);
    LastIsGreatest(lt, b, a[n]);
  }

  /** The same for the rows a predicate selects: sorting the whole table cannot reorder them. */
  lemma SelectAfterReorder<T(!new)>(
    p: T -> bool, le: (T, T) -> bool, lt: (T, T) -> bool, a: seq<T>, b: seq<T>)
    requires multiset(a) == multiset(b)
    requires SortedBy(le, Select(p, a)) && SortedBy(lt, Select(p, b)) && StrictlyWithin(lt, le)
    ensures Select(p, a) == Select(p, b)
  {
    forall x ensures multiset(Select(p, a))[x] == multiset(Select(p, b))[x] {
      SelectMultiset(p, a, x);
      SelectMultiset(p, b, x);
    }
    StrictOrderUnique(le, lt, Select(p, a), Select(p, b));
  }
}
