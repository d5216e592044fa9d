/** Sorting by a strict order that compares any two of the elements at hand. What is sorted that way
    has one order, however the sort gets there. */
module Ordering {

  ghost predicate Strict<T(!new)>(before: (T, T) -> bool) {
    && (forall a, b :: before(a, b) ==> !before(b, a))
    && forall a, b, c :: before(a, b) && before(b, c) ==> before(a, c)
  }

  predicate Ascending<T>(before: (T, T) -> bool, s: seq<T>) {
    forall j, k :: 0 <= j < k < |s| ==> before(s[j], s[k])
  }

  /** Any two elements at different places can be compared. */
  predicate Comparable<T>(before: (T, T) -> bool, s: seq<T>) {
    forall j, k :: 0 <= j < k < |s| ==> before(s[j], s[k]) || before(s[k], s[j])
  }

  ghost predicate Same<T(!new)>(a: seq<T>, b: seq<T>) {
    forall x :: x in a <==> x in b
  }

  function Insert<T>(before: (T, T) -> bool, x: T, sorted: seq<T>): seq<T> {
    if sorted == [] || before(x, sorted[0]) then [x] + sorted else [sorted[0]] + Insert(before, x, sorted[1..])
  }

  function Sorted<T>(before: (T, T) -> bool, s: seq<T>): seq<T> {
    if s == [] then [] else Insert(before, s[0], Sorted(before, s[1..]))
  }

  lemma {:induction false} InsertSorts<T(!new)>(before: (T, T) -> bool, x: T, sorted: seq<T>)
    requires Strict(before) && Ascending(before, sorted)
    requires forall k :: 0 <= k < |sorted| ==> before(x, sorted[k]) || before(sorted[k], x)
    ensures Ascending(before, Insert(before, x, sorted)) && |Insert(before, x, sorted)| == |sorted| + 1
    ensures forall y :: y in Insert(before, x, sorted) <==> y == x || y in sorted
  {
    if sorted != [] && !before(x, sorted[0]) {
      var head, rest := sorted[0], sorted[1..];
      assert sorted == [head] + rest;
      InsertSorts(before, x, rest);
      var tail := Insert(before, x, rest);
      forall k | 0 <= k < |tail| ensures before(head, tail[k]) {
        assert tail[k] in tail;
        if tail[k] != x {
          var i :| 0 <= i < |rest| && rest[i] == tail[k];
          assert sorted[i + 1] == tail[k];
        }
      }
    } else if sorted != [] {
      forall k | 0 <= k < |sorted| ensures before(x, sorted[k]) {
        assert k > 0 ==> before(sorted[0], sorted[k]);
      }
    }
  }

  lemma {:induction false} SortSorts<T(!new)>(before: (T, T) -> bool, s: seq<T>)
    requires Strict(before) && Comparable(before, s)
    ensures Ascending(before, Sorted(before, s)) && Same(Sorted(before, s), s) && |Sorted(before, s)| == |s|
  {
    if s != [] {
      var x, rest := s[0], s[1..];
      assert s == [x] + rest;
      SortSorts(before, rest);
      var sorted := Sorted(before, rest);
      forall k | 0 <= k < |sorted| ensures before(x, sorted[k]) || before(sorted[k], x) {
        assert sorted[k] in rest;
        var i :| 0 <= i < |rest| && rest[i] == sorted[k];
        assert s[i + 1] == sorted[k];
      }
      InsertSorts(before, x, sorted);
    }
  }

  lemma InTail<T(!new)>(before: (T, T) -> bool, s: seq<T>, x: T)
    requires Strict(before) && Ascending(before, s) && s != []
    ensures x in s[1..] <==> x in s && x != s[0]
  {
    assert s == [s[0]] + s[1..];
    if x in s[1..] {
      var i :| 0 <= i < |s[1..]| && s[1..][i] == x;
      assert before(s[0], s[i + 1]);
    }
  }

  lemma HeadsEqual<T(!new)>(before: (T, T) -> bool, a: seq<T>, b: seq<T>)
    requires Strict(before) && Ascending(before, a) && Ascending(before, b) && Same(a, b) && a != [] && b != []
    ensures a[0] == b[0]
  {
    assert a[0] in b && b[0] in a;
    var i :| 0 <= i < |b| && b[i] == a[0];
    var j :| 0 <= j < |a| && a[j] == b[0];
    assert i > 0 ==> before(b[0], a[0]);
    assert j > 0 ==> before(a[0], b[0]);
  }

  lemma SameEmpty<T(!new)>(a: seq<T>, b: seq<T>)
    requires Same(a, b)
    ensures a == [] <==> b == []
  {
    if a != [] {
      assert a[0] in a;
    }
    if b != [] {
      assert b[0] in b;
    }
  }

  /** The same elements have one order. */
  lemma {:induction false} OneOrder<T(!new)>(before: (T, T) -> bool, a: seq<T>, b: seq<T>)
    requires Strict(before) && Ascending(before, a) && Ascending(before, b) && Same(a, b)
    ensures a == b
    decreases |a|
  {
    SameEmpty(a, b);
    if a != [] {
      HeadsEqual(before, a, b);
      forall x ensures x in a[1..] <==> x in b[1..] {
        InTail(before, a, x);
        InTail(before, b, x);
      }
      OneOrder(before, a[1..], b[1..]);
      assert a == [a[0]] + a[1..] && b == [b[0]] + b[1..];
    }
  }
}
