/** Stable sorting by a time, as sort.SliceStable and ORDER BY do it. */
module StableSort {
  /** Inserts behind everything that is not later. */
  function Insert<T>(s: seq<T>, x: T, key: T -> real): (r: seq<T>)
    ensures |r| == |s| + 1
  {
    if s == [] || key(s[|s| - 1]) <= key(x) then s + [x] else Insert(s[..|s| - 1], x, key) + [s[|s| - 1]]
  }

  function SortBy<T>(s: seq<T>, key: T -> real): (r: seq<T>)
    ensures |r| == |s|
  {
    if s == [] then [] else Insert(SortBy(s[..|s| - 1], key), s[|s| - 1], key)
  }

  ghost predicate Ascending<T>(s: seq<T>, key: T -> real) {
    forall i, j :: 0 <= i < j < |s| ==> key(s[i]) <= key(s[j])
  }

  /** The elements with one key, in order. */
  function AtKey<T>(s: seq<T>, key: T -> real, k: real): seq<T> {
    if s == [] then [] else AtKey(s[..|s| - 1], key, k) + (if key(s[|s| - 1]) == k then [s[|s| - 1]] else [])
  }

  lemma AtKeySnoc<T>(s: seq<T>, x: T, key: T -> real, k: real)
    ensures AtKey(s + [x], key, k) == AtKey(s, key, k) + (if key(x) == k then [x] else [])
  {
    assert (s + [x])[..|s|] == s;
  }

  lemma AscendingFront<T>(s: seq<T>, key: T -> real)
    requires s != [] && Ascending(s, key)
    ensures Ascending(s[..|s| - 1], key)
  {
    var front := s[..|s| - 1];
    forall i, j | 0 <= i < j < |front|
      ensures key(front[i]) <= key(front[j])
    {
      assert key(s[i]) <= key(s[j]);
    }
  }

  lemma {:induction false} InsertMembers<T>(s: seq<T>, x: T, key: T -> real, y: T)
    ensures y in Insert(s, x, key) <==> y in s || y == x
  {
    if s != [] && key(s[|s| - 1]) > key(x) {
      InsertMembers(s[..|s| - 1], x, key, y);
      assert s == s[..|s| - 1] + [s[|s| - 1]];
    }
  }

  lemma {:induction false} InsertSorts<T>(s: seq<T>, x: T, key: T -> real)
    requires Ascending(s, key)
    ensures Ascending(Insert(s, x, key), key)
  {
    if s != [] && key(s[|s| - 1]) > key(x) {
      var last, front := s[|s| - 1], s[..|s| - 1];
      AscendingFront(s, key);
      InsertSorts(front, x, key);
      forall i | 0 <= i < |s|
        ensures key(Insert(front, x, key)[i]) <= key(last)
      {
        var y := Insert(front, x, key)[i];
        InsertMembers(front, x, key, y);
        if y != x {
          var j :| 0 <= j < |front| && front[j] == y;
          assert key(s[j]) <= key(s[|s| - 1]);
        }
      }
    }
  }

  lemma {:induction false} InsertKeepsMultiset<T>(s: seq<T>, x: T, key: T -> real)
    ensures multiset(Insert(s, x, key)) == multiset(s) + multiset{x}
  {
    if s != [] && key(s[|s| - 1]) > key(x) {
      InsertKeepsMultiset(s[..|s| - 1], x, key);
      assert s == s[..|s| - 1] + [s[|s| - 1]];
    }
  }

  lemma {:induction false} InsertIsStable<T>(s: seq<T>, x: T, key: T -> real, k: real)
    requires Ascending(s, key)
    ensures AtKey(Insert(s, x, key), key, k) == AtKey(s, key, k) + (if key(x) == k then [x] else [])
  {
    if s == [] || key(s[|s| - 1]) <= key(x) {
      AtKeySnoc(s, x, key, k);
    } else {
      var last, front := s[|s| - 1], s[..|s| - 1];
      InsertIsStable(front, x, key, k);
      AtKeySnoc(Insert(front, x, key), last, key, k);
      if key(x) == k {
        NoneBeyond(front, last, key, k);
      }
    }
  }

  /** Nothing at all changes at a key when a later element stands behind it. */
  lemma NoneBeyond<T>(front: seq<T>, last: T, key: T -> real, k: real)
    requires key(last) > k
    ensures AtKey(front + [last], key, k) == AtKey(front, key, k)
  {
    AtKeySnoc(front, last, key, k);
  }

  /** Sorting orders by time, loses and adds nothing, and keeps equal times in order. */
  lemma {:induction false} SortBySorts<T>(s: seq<T>, key: T -> real)
    ensures Ascending(SortBy(s, key), key)
    ensures multiset(SortBy(s, key)) == multiset(s)
    ensures forall k :: AtKey(SortBy(s, key), key, k) == AtKey(s, key, k)
  {
    if s != [] {
      var front, last := s[..|s| - 1], s[|s| - 1];
      SortBySorts(front, key);
      InsertSorts(SortBy(front, key), last, key);
      InsertKeepsMultiset(SortBy(front, key), last, key);
      assert s == front + [last];
      forall k
        ensures AtKey(SortBy(s, key), key, k) == AtKey(s, key, k)
      {
        InsertIsStable(SortBy(front, key), last, key, k);
      }
    }
  }

  /** What is in order already stays as it is. */
  lemma {:induction false} SortedStays<T>(s: seq<T>, key: T -> real)
    requires Ascending(s, key)
    ensures SortBy(s, key) == s
  {
    if s != [] {
      var front := s[..|s| - 1];
      AscendingFront(s, key);
      SortedStays(front, key);
      assert front != [] ==> key(s[|s| - 2]) <= key(s[|s| - 1]);
    }
  }

  lemma SortKeepsMembers<T>(s: seq<T>, key: T -> real, x: T)
    ensures x in SortBy(s, key) <==> x in s
  {
    SortBySorts(s, key);
    assert x in multiset(SortBy(s, key)) <==> x in multiset(s);
  }
}
