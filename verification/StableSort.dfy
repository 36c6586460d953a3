/** Python's `sort(key=..., reverse=True)`: descending by key, equal keys in their old order. */
module StableSort {

  /** A key compared as a pair: by `major`, then by `minor`. */
  datatype Key = Key(major: int, minor: int)

  predicate Geq(a: Key, b: Key) {
    a.major > b.major || (a.major == b.major && a.minor >= b.minor)
  }

  /** `x` goes behind everything whose key is at least its own. */
  function Insert<T>(s: seq<T>, x: T, key: T -> Key): (r: seq<T>)
    ensures multiset(r) == multiset(s) + multiset{x}
  {
    if s == [] then [x]
    else
      var front, last := s[..|s| - 1], s[|s| - 1];
      assert s == front + [last];
      if Geq(key(last), key(x)) then s + [x] else Insert(front, x, key) + [last]
  }

  function SortDesc<T>(s: seq<T>, key: T -> Key): (r: seq<T>)
    ensures multiset(r) == multiset(s)
    ensures |r| == |s|
  {
    if s == [] then []
    else
      assert s == s[..|s| - 1] + [s[|s| - 1]];
      var r := Insert(SortDesc(s[..|s| - 1], key), s[|s| - 1], key);
      SameElements(r, s);
      r
  }

  lemma SameElements<T>(r: seq<T>, s: seq<T>)
    requires multiset(r) == multiset(s)
    ensures |r| == |s| && (forall x | x in r :: x in s) && (forall x | x in s :: x in r)
  {
    assert |r| == |multiset(r)| == |multiset(s)| == |s|;
    forall x | x in r ensures x in s { assert x in multiset(r); }
    forall x | x in s ensures x in r { assert x in multiset(s); }
  }

  lemma SortKeepsElements<T>(s: seq<T>, key: T -> Key)
    ensures forall x :: x in SortDesc(s, key) <==> x in s
  {
    SameElements(SortDesc(s, key), s);
  }

  ghost predicate Sorted<T>(s: seq<T>, key: T -> Key) {
    forall i, j | 0 <= i < j < |s| :: Geq(key(s[i]), key(s[j]))
  }

  lemma {:induction false} InsertSorted<T>(s: seq<T>, x: T, key: T -> Key)
    requires Sorted(s, key)
    ensures Sorted(Insert(s, x, key), key)
  {
    if s != [] {
      var front, last := s[..|s| - 1], s[|s| - 1];
      if Geq(key(last), key(x)) {
        assert forall i | 0 <= i < |s| :: Geq(key(s[i]), key(last));
      } else {
        InsertSorted(front, x, key);
        var r := Insert(front, x, key);
        SameElements(r, front + [x]);
        forall i | 0 <= i < |r| ensures Geq(key(r[i]), key(last)) {
          assert r[i] in front + [x];
        }
      }
    }
  }

  lemma {:induction false} SortDescSorted<T>(s: seq<T>, key: T -> Key)
    ensures Sorted(SortDesc(s, key), key)
  {
    if s != [] {
      SortDescSorted(s[..|s| - 1], key);
      InsertSorted(SortDesc(s[..|s| - 1], key), s[|s| - 1], key);
    }
  }

  /** The elements of one key, in order. */
  ghost function WithKey<T>(s: seq<T>, key: T -> Key, k: Key): seq<T> {
    if s == [] then []
    else WithKey(s[..|s| - 1], key, k) + if key(s[|s| - 1]) == k then [s[|s| - 1]] else []
  }

  lemma {:induction false} InsertStable<T>(s: seq<T>, x: T, key: T -> Key, k: Key)
    requires Sorted(s, key)
    ensures WithKey(Insert(s, x, key), key, k) == WithKey(s + [x], key, k)
  {
    assert (s + [x])[..|s|] == s;
    if s != [] {
      var front, last := s[..|s| - 1], s[|s| - 1];
      if !Geq(key(last), key(x)) {
        InsertStable(front, x, key, k);
        var r := Insert(front, x, key);
        assert (r + [last])[..|r|] == r;
        assert (front + [x])[..|front|] == front;
      }
    }
  }

  /** Elements of equal keys keep their order. */
  lemma {:induction false} SortDescStable<T>(s: seq<T>, key: T -> Key, k: Key)
    ensures WithKey(SortDesc(s, key), key, k) == WithKey(s, key, k)
  {
    if s != [] {
      var front, last := s[..|s| - 1], s[|s| - 1];
      var r := SortDesc(front, key);
      SortDescStable(front, key, k);
      SortDescSorted(front, key);
      InsertStable(r, last, key, k);
      assert (r + [last])[..|r|] == r;
    }
  }

  lemma SortedFront<T>(s: seq<T>, key: T -> Key)
    requires s != [] && Sorted(s, key)
    ensures Sorted(s[..|s| - 1], key)
  {
  }

  lemma InsertLast<T>(front: seq<T>, last: T, key: T -> Key)
    requires Sorted(front + [last], key)
    ensures Insert(front, last, key) == front + [last]
  {
    if front != [] {
      var s, i := front + [last], |front| - 1;
      assert Geq(key(s[i]), key(s[i + 1]));
    }
  }

  lemma {:induction false} SortedStays<T>(s: seq<T>, key: T -> Key)
    requires Sorted(s, key)
    ensures SortDesc(s, key) == s
  {
    if s != [] {
      var front, last := s[..|s| - 1], s[|s| - 1];
      SortedFront(s, key);
      SortedStays(front, key);
      assert s == front + [last];
      InsertLast(front, last, key);
    }
  }

  /** Sorting changes a list exactly when it is not sorted. */
  lemma SortedStaysIff<T>(s: seq<T>, key: T -> Key)
    ensures SortDesc(s, key) == s <==> Sorted(s, key)
  {
    SortDescSorted(s, key);
    if Sorted(s, key) { SortedStays(s, key); }
  }

  /** What is at least as great as everything else in a list, and first in it, is first in the sorted list. */
  lemma {:induction false} GreatestFirstStaysFirst<T>(s: seq<T>, key: T -> Key)
    requires s != [] && forall i | 0 <= i < |s| :: Geq(key(s[0]), key(s[i]))
    ensures SortDesc(s, key)[0] == s[0]
  {
    var front, last := s[..|s| - 1], s[|s| - 1];
    if front != [] {
      GreatestFirstStaysFirst(front, key);
      InsertKeepsFirst(SortDesc(front, key), last, key);
    } else {
      assert SortDesc(front, key) == [];
    }
  }

  lemma {:induction false} InsertKeepsFirst<T>(s: seq<T>, x: T, key: T -> Key)
    requires s != [] && Geq(key(s[0]), key(x))
    ensures Insert(s, x, key)[0] == s[0]
  {
    if |s| > 1 && !Geq(key(s[|s| - 1]), key(x)) { InsertKeepsFirst(s[..|s| - 1], x, key); }
  }
}
