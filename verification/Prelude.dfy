/** Small notions shared by every module of the project. */
module Prelude {

  datatype Option<+T> = None | Some(value: T)

  /** No element of `s` occurs at two positions. */
  ghost predicate Distinct<T>(s: seq<T>) {
    forall i, j | 0 <= i < j < |s| :: s[i] != s[j]
  }

  /** Distinctness, membership and size of a sequence extended at its end. */
  lemma DistinctSnoc<T>(s: seq<T>, x: T)
    requires Distinct(s) && x !in s
    ensures Distinct(s + [x])
  {
    forall i, j | 0 <= i < j < |s| + 1 ensures (s + [x])[i] != (s + [x])[j] {
      assert s[i] in s;
    }
  }

  lemma NonEmptyHasElement<T>(s: seq<T>)
    ensures s == [] || exists x :: x in s
  {
    if s != [] { assert s[0] in s; }
  }

  /** The elements of a sequence, as a set. */
  function Elements<T>(s: seq<T>): (r: set<T>) {
    set x | x in s
  }

  /** A distinct sequence has as many elements as positions. */
  lemma {:induction false} DistinctSize<T>(s: seq<T>)
    requires Distinct(s)
    ensures |Elements(s)| == |s|
  {
    if s != [] {
      var front, last := s[..|s| - 1], s[|s| - 1];
      assert s == front + [last];
      DistinctSize(front);
      assert last !in front;
      assert Elements(s) == Elements(front) + {last};
    }
  }

  /** The places from `from` on that hold `x`. */
  ghost function PlacesFrom<T>(s: seq<T>, from: nat, x: T): set<nat> {
    set i: nat | i < |s| && from <= i && s[i] == x
  }

  lemma {:induction false} CountIsPlaces<T>(s: seq<T>, from: nat, x: T)
    requires from <= |s|
    ensures multiset(s[from..])[x] == |PlacesFrom(s, from, x)|
    decreases |s|
  {
    if from < |s| {
      var k := |s| - 1;
      var front := s[..k];
      CountIsPlaces(front, from, x);
      assert s[from..] == front[from..] + [s[k]];
      assert PlacesFrom(s, from, x) == PlacesFrom(front, from, x) + if s[k] == x then {k} else {};
    }
  }

  lemma TakeSnoc<T>(a: seq<T>, b: seq<T>, i: nat)
    requires i < |b|
    ensures a + b[..i + 1] == (a + b[..i]) + [b[i]]
  {
  }

  function Max(a: int, b: int): int { if a < b then b else a }

  function Min(a: int, b: int): int { if a < b then a else b }
}
