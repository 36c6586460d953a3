/** Mining action sequences from successful runs: windows of two and three actions, keyed by their joined names. */
module Patterns {
  import opened Prelude

  // ---------- Joining and splitting ----------

  /** Python's `sep.join(names)`. */
  function Join(sep: string, names: seq<string>): string {
    if names == [] then ""
    else if |names| == 1 then names[0]
    else names[0] + sep + Join(sep, names[1..])
  }

  predicate OccursAt(sep: string, s: string, i: nat) {
    i + |sep| <= |s| && s[i..i + |sep|] == sep
  }

  /** `sep` occurs nowhere in `s`. */
  ghost predicate Lacks(s: string, sep: string) {
    forall i: nat :: !OccursAt(sep, s, i)
  }

  /** The first occurrence of `sep` at or after `from`. */
  function Find(s: string, sep: string, from: nat): (r: Option<nat>)
    ensures r.None? ==> forall i: nat | from <= i :: !OccursAt(sep, s, i)
    ensures r.Some? ==> from <= r.value && OccursAt(sep, s, r.value)
    ensures r.Some? ==> forall i: nat | from <= i < r.value :: !OccursAt(sep, s, i)
    decreases |s| - from
  {
    if from + |sep| > |s| then None
    else if OccursAt(sep, s, from) then Some(from)
    else Find(s, sep, from + 1)
  }

  /** Python's `s.split(sep)`. */
  function Split(s: string, sep: string): (parts: seq<string>)
    requires sep != ""
    ensures parts != []
    decreases |s|
  {
    match Find(s, sep, 0)
    case None => [s]
    case Some(i) => [s[..i]] + Split(s[i + |sep|..], sep)
  }

  /** No proper end of `sep` is also a beginning of it, so that two occurrences never overlap. */
  ghost predicate Unbordered(sep: string) {
    sep != "" && forall m | 0 < m < |sep| :: sep[m..] != sep[..|sep| - m]
  }

  lemma SeparatorsAreUnbordered()
    ensures Unbordered("->") && Unbordered(",")
  {
    var arrow := "->";
    forall m | 0 < m < |arrow| ensures arrow[m..] != arrow[..|arrow| - m] {
      assert arrow[m..][0] == '>' && arrow[..|arrow| - m][0] == '-';
    }
  }

  lemma OccursInside(name: string, sep: string, rest: string, i: nat)
    requires OccursAt(sep, name + sep + rest, i) && i + |sep| <= |name|
    ensures OccursAt(sep, name, i)
  {
    assert name[i..i + |sep|] == (name + sep + rest)[i..i + |sep|];
  }

  /** An occurrence that runs from a name into the separator behind it makes the separator bordered. */
  lemma OverlapIsBorder(name: string, sep: string, rest: string, i: nat)
    requires OccursAt(sep, name + sep + rest, i) && i < |name| < i + |sep|
    ensures !Unbordered(sep)
  {
    var s, m := name + sep + rest, |name| - i;
    assert sep[m..] == s[i..i + |sep|][m..] == s[|name|..i + |sep|];
    assert sep[..|sep| - m] == s[|name|..i + |sep|];
  }

  /** Behind a name that lacks the separator, the first separator found is the one that was put there. */
  lemma FirstSeparator(name: string, sep: string, rest: string)
    requires Unbordered(sep) && Lacks(name, sep)
    ensures Find(name + sep + rest, sep, 0) == Some(|name|)
  {
    var s := name + sep + rest;
    assert s[|name|..|name| + |sep|] == sep;
    assert OccursAt(sep, s, |name|);
    forall i: nat | i < |name| ensures !OccursAt(sep, s, i) {
      if OccursAt(sep, s, i) && i + |sep| <= |name| { OccursInside(name, sep, rest, i); }
      if OccursAt(sep, s, i) && |name| < i + |sep| { OverlapIsBorder(name, sep, rest, i); }
    }
  }

  lemma {:induction false} JoinSplit(s: string, sep: string)
    requires sep != ""
    ensures Join(sep, Split(s, sep)) == s
    decreases |s|
  {
    match Find(s, sep, 0)
    case None =>
    case Some(i) =>
      var rest := s[i + |sep|..];
      JoinSplit(rest, sep);
      assert ([s[..i]] + Split(rest, sep))[1..] == Split(rest, sep);
      assert s == s[..i] + s[i..i + |sep|] + rest;
  }

  lemma LacksBeforeFirst(s: string, sep: string, i: nat)
    requires sep != "" && Find(s, sep, 0) == Some(i)
    ensures Lacks(s[..i], sep)
  {
    forall j: nat | OccursAt(sep, s[..i], j) ensures j < i && OccursAt(sep, s, j) {
      assert s[..i][j..j + |sep|] == s[j..j + |sep|];
    }
  }

  lemma {:induction false} SplitLacks(s: string, sep: string, k: nat)
    requires sep != "" && k < |Split(s, sep)|
    ensures Lacks(Split(s, sep)[k], sep)
    decreases |s|
  {
    match Find(s, sep, 0)
    case None =>
    case Some(i) =>
      if k == 0 {
        LacksBeforeFirst(s, sep, i);
      } else {
        SplitLacks(s[i + |sep|..], sep, k - 1);
      }
  }

  lemma SplitOff(name: string, sep: string, rest: string, names: seq<string>)
    requires Unbordered(sep) && Lacks(name, sep) && Split(rest, sep) == names
    ensures Split(name + sep + rest, sep) == [name] + names
  {
    FirstSeparator(name, sep, rest);
    assert (name + sep + rest)[|name| + |sep|..] == rest;
    assert (name + sep + rest)[..|name|] == name;
  }

  lemma {:induction false} SplitJoin(sep: string, names: seq<string>)
    requires Unbordered(sep) && names != [] && forall n | n in names :: Lacks(n, sep)
    ensures Split(Join(sep, names), sep) == names
  {
    assert Lacks(names[0], sep);
    if |names| == 1 {
      assert names == [names[0]];
    } else {
      SplitJoin(sep, names[1..]);
      SplitOff(names[0], sep, Join(sep, names[1..]), names[1..]);
      assert names == [names[0]] + names[1..];
    }
  }

  /** Splitting a joined key gives back its names exactly when no name contains the separator. */
  lemma SplitJoinIff(sep: string, names: seq<string>)
    requires Unbordered(sep) && names != []
    ensures Split(Join(sep, names), sep) == names <==> forall n | n in names :: Lacks(n, sep)
  {
    if forall n | n in names :: Lacks(n, sep) {
      SplitJoin(sep, names);
    } else if Split(Join(sep, names), sep) == names {
      forall k | 0 <= k < |names| ensures Lacks(names[k], sep) { SplitLacks(Join(sep, names), sep, k); }
    }
  }

  /** Windows of clean names have the same key only if they are the same window: a pair never shares a triple's key. */
  lemma KeysAreExact(sep: string, a: seq<string>, b: seq<string>)
    requires Unbordered(sep) && a != [] && b != []
    requires (forall n | n in a :: Lacks(n, sep)) && (forall n | n in b :: Lacks(n, sep))
    ensures Join(sep, a) == Join(sep, b) <==> a == b
  {
    SplitJoin(sep, a);
    SplitJoin(sep, b);
  }

  /** With the separator inside a name, a pair and a triple do share a key, and are counted together. */
  lemma PairAndTripleCollide(sep: string, x: string, y: string, z: string)
    ensures Join(sep, [x + sep + y, z]) == Join(sep, [x, y, z])
  {
    assert [x + sep + y, z][1..] == [z];
    assert [x, y, z][1..] == [y, z] && [y, z][1..] == [z];
    assert x + sep + y + sep + z == x + sep + (y + sep + z);
  }

  /** The key of a set of tools tells the set, whatever sorting is used, as long as no tool name has a comma. */
  lemma ToolKeysAreExact(sorted: set<string> -> seq<string>, a: set<string>, b: set<string>)
    requires Elements(sorted(a)) == a && Elements(sorted(b)) == b && a != {} && b != {}
    requires forall n | n in a + b :: Lacks(n, ",")
    ensures Join(",", sorted(a)) == Join(",", sorted(b)) <==> a == b
  {
    SeparatorsAreUnbordered();
    forall n | n in sorted(a) ensures Lacks(n, ",") { assert n in Elements(sorted(a)); }
    forall n | n in sorted(b) ensures Lacks(n, ",") { assert n in Elements(sorted(b)); }
    var x :| x in a;
    assert x in Elements(sorted(a));
    var y :| y in b;
    assert y in Elements(sorted(b));
    KeysAreExact(",", sorted(a), sorted(b));
  }
}
