// Sorting by a strict order that tells the given elements apart.
module Sorting {
  ghost predicate StrictOrder<T(!new)>(before: (T, T) -> bool) {
    && (forall a :: !before(a, a))
    && (forall a, b, c :: before(a, b) && before(b, c) ==> before(a, c))
  }

  ghost predicate Sorted<T>(s: seq<T>, before: (T, T) -> bool) {
    forall i, j | 0 <= i < j < |s| :: before(s[i], s[j])
  }

  ghost predicate Comparable<T>(s: seq<T>, before: (T, T) -> bool) {
    forall i, j | 0 <= i < j < |s| :: before(s[i], s[j]) || before(s[j], s[i])
  }

  function Insert<T>(x: T, s: seq<T>, before: (T, T) -> bool): seq<T> {
    if s == [] || !before(s[0], x) then [x] + s else [s[0]] + Insert(x, s[1..], before)
  }

  function Sort<T>(s: seq<T>, before: (T, T) -> bool): seq<T> {
    if s == [] then [] else Insert(s[0], Sort(s[1..], before), before)
  }

  lemma {:induction false} InsertElements<T>(x: T, s: seq<T>, before: (T, T) -> bool)
    ensures multiset(Insert(x, s, before)) == multiset(s) + multiset{x}
  {
    if s != [] {
      assert s == [s[0]] + s[1..];
      if before(s[0], x) {
        InsertElements(x, s[1..], before);
      }
    }
  }

  lemma {:induction false} InsertSorted<T(!new)>(x: T, s: seq<T>, before: (T, T) -> bool)
    requires StrictOrder(before) && Sorted(s, before)
    requires forall k | 0 <= k < |s| :: before(x, s[k]) || before(s[k], x)
    ensures Sorted(Insert(x, s, before), before)
    ensures forall k | 0 <= k < |Insert(x, s, before)| ::
              Insert(x, s, before)[k] == x || exists j | 0 <= j < |s| :: s[j] == Insert(x, s, before)[k]
  {
    if s != [] && before(s[0], x) {
      var rest := s[1..];
      var tail := Insert(x, rest, before);
      InsertSorted(x, rest, before);
      forall k | 0 <= k < |tail|
          ensures before(s[0], tail[k]) && (tail[k] == x || exists j | 0 <= j < |s| :: s[j] == tail[k]) {
        if tail[k] != x {
          var j :| 0 <= j < |rest| && rest[j] == tail[k];
          assert s[j + 1] == tail[k];
        }
      }
      SortedCons(s[0], tail, before);
      assert Insert(x, s, before) == [s[0]] + tail;
    } else if s != [] {
      forall k | 0 <= k < |s| ensures before(x, s[k]) {
      }
      SortedCons(x, s, before);
      assert forall j | 0 <= j < |s| :: ([x] + s)[j + 1] == s[j];
    }
  }

  lemma SortedCons<T>(x: T, s: seq<T>, before: (T, T) -> bool)
    requires Sorted(s, before) && forall k | 0 <= k < |s| :: before(x, s[k])
    ensures Sorted([x] + s, before)
  {
  }

  lemma {:induction false} SortProperties<T(!new)>(s: seq<T>, before: (T, T) -> bool)
    requires StrictOrder(before) && Comparable(s, before)
    ensures Sorted(Sort(s, before), before)
    ensures multiset(Sort(s, before)) == multiset(s)
  {
    hide Insert;
    if s != [] {
      var rest := Sort(s[1..], before);
      assert Comparable(s[1..], before);
      SortProperties(s[1..], before);
      forall i | 0 <= i < |rest| ensures before(s[0], rest[i]) || before(rest[i], s[0]) {
        assert rest[i] in multiset(rest);
        assert rest[i] in s[1..];
        var k :| 0 <= k < |s[1..]| && s[1..][k] == rest[i];
        assert s[k + 1] == rest[i];
      }
      InsertSorted(s[0], rest, before);
      InsertElements(s[0], rest, before);
      assert s == [s[0]] + s[1..];
    }
  }

  // A strictly sorted list is determined by its elements.
  lemma {:induction false} SortedUnique<T(!new)>(a: seq<T>, b: seq<T>, before: (T, T) -> bool)
    requires StrictOrder(before) && Sorted(a, before) && Sorted(b, before)
    requires forall x :: x in a <==> x in b
    ensures a == b
  {
    assert |a| > 0 ==> a[0] in a;
    assert |b| > 0 ==> b[0] in b;
    if |a| > 0 && |b| > 0 {
      var i :| 0 <= i < |b| && b[i] == a[0];
      var j :| 0 <= j < |a| && a[j] == b[0];
      assert a[0] == b[0];
      assert a == [a[0]] + a[1..] && b == [b[0]] + b[1..];
      forall x ensures x in a[1..] <==> x in b[1..] {
        if x in a[1..] { assert x in a && x != b[0]; }
        if x in b[1..] { assert x in b && x != a[0]; }
      }
      SortedUnique(a[1..], b[1..], before);
    }
  }
}
