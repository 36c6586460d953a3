/** Chains of tasks under changing durations, and what a fallback task put into a plan does to the longest of them. */
module ChainDurations {
  import opened Prelude
  import opened GoalPlan

  // ---------- Chains ----------

  lemma {:induction false} ChainClimbs(m: map<string, PlanTask>, rank: map<string, nat>, c: seq<string>, i: nat, j: nat)
    requires Ranked(m, rank) && Chain(m, c) && i < j < |c|
    ensures c[i] in rank && c[j] in rank && rank[c[i]] < rank[c[j]]
  {
    if i + 1 < j { ChainClimbs(m, rank, c, i, j - 1); }
    assert c[j - 1] in m[c[j]].deps;
  }

  lemma ChainIsDistinct(m: map<string, PlanTask>, c: seq<string>)
    requires Acyclic(m) && Chain(m, c)
    ensures Distinct(c)
  {
    var rank :| Ranked(m, rank);
    forall i, j | 0 <= i < j < |c| ensures c[i] != c[j] { ChainClimbs(m, rank, c, i, j); }
  }

  lemma ChainSlice(m: map<string, PlanTask>, c: seq<string>, i: nat, j: nat)
    requires Chain(m, c) && i <= j <= |c|
    ensures Chain(m, c[i..j])
  {
    var s := c[i..j];
    forall k | 0 < k < |s| ensures s[k - 1] in m[s[k]].deps {
      assert s[k - 1] == c[i + k - 1] && s[k] == c[i + k];
    }
  }

  lemma ChainStep(m: map<string, PlanTask>, c: seq<string>, i: nat)
    requires Chain(m, c) && 0 < i < |c|
    ensures c[i - 1] in m && c[i] in m && c[i - 1] in m[c[i]].deps
  {
  }

  lemma {:induction false} TotalSame(m: map<string, PlanTask>, n: map<string, PlanTask>, c: seq<string>)
    requires forall i | 0 <= i < |c| :: c[i] in m && c[i] in n && m[c[i]].duration == n[c[i]].duration
    ensures Total(m, c) == Total(n, c)
  {
    if c != [] { TotalSame(m, n, c[..|c| - 1]); }
  }

  lemma {:induction false} TotalCons(m: map<string, PlanTask>, a: string, c: seq<string>)
    requires a in m && forall i | 0 <= i < |c| :: c[i] in m
    ensures Total(m, [a] + c) == m[a].duration + Total(m, c)
  {
    if c == [] {
      assert [a] + c == [a] && [a][..0] == [];
    } else {
      assert ([a] + c)[..|c|] == [a] + c[..|c| - 1];
      TotalCons(m, a, c[..|c| - 1]);
    }
  }

  /** `v` is the total of a longest chain. */
  ghost predicate LongestTotal(m: map<string, PlanTask>, v: int) {
    (exists c :: Chain(m, c) && Total(m, c) == v) && forall c | Chain(m, c) :: Total(m, c) <= v
  }

  lemma LoneChain(m: map<string, PlanTask>, a: string)
    requires a in m
    ensures Chain(m, [a]) && Total(m, [a]) == m[a].duration
  {
    assert [a][..0] == [];
  }

  // ---------- Weights ----------

  /** How long each task takes. */
  type Durations = string -> nat

  /** The durations of a list of ids, added up. */
  function Weight(d: Durations, c: seq<string>): nat {
    if c == [] then 0 else Weight(d, c[..|c| - 1]) + d(c[|c| - 1])
  }

  lemma {:induction false} WeightIsTotal(m: map<string, PlanTask>, d: Durations, c: seq<string>)
    requires forall i | 0 <= i < |c| :: c[i] in m && m[c[i]].duration == d(c[i])
    ensures Total(m, c) == Weight(d, c)
  {
    if c != [] { WeightIsTotal(m, d, c[..|c| - 1]); }
  }

  lemma {:induction false} WeightAppend(d: Durations, a: seq<string>, b: seq<string>)
    ensures Weight(d, a + b) == Weight(d, a) + Weight(d, b)
  {
    if b == [] {
      assert a + b == a;
    } else {
      assert (a + b)[..|a + b| - 1] == a + b[..|b| - 1];
      WeightAppend(d, a, b[..|b| - 1]);
    }
  }

  lemma WeightOne(d: Durations, x: string)
    ensures Weight(d, [x]) == d(x)
  {
    assert [x][..0] == [];
  }

  /** A list of distinct ids weighs no more than one that holds them all. */
  lemma {:induction false} WeightOfPart(d: Durations, xs: seq<string>, c: seq<string>)
    requires Distinct(xs) && forall x | x in xs :: x in c
    ensures Weight(d, xs) <= Weight(d, c)
  {
    if xs != [] {
      var front, x := xs[..|xs| - 1], xs[|xs| - 1];
      assert x in xs;
      var i :| 0 <= i < |c| && c[i] == x;
      var rest := c[..i] + c[i + 1..];
      assert c == c[..i] + ([x] + c[i + 1..]);
      WeightAppend(d, c[..i], [x] + c[i + 1..]);
      WeightAppend(d, [x], c[i + 1..]);
      WeightAppend(d, c[..i], c[i + 1..]);
      WeightOne(d, x);
      forall y | y in front ensures y in rest { OthersRemain(xs, c, i, y); }
      WeightOfPart(d, front, rest);
    }
  }

  lemma OthersRemain(xs: seq<string>, c: seq<string>, i: nat, y: string)
    requires xs != [] && Distinct(xs) && i < |c| && c[i] == xs[|xs| - 1] && y in xs[..|xs| - 1] && y in c
    ensures y in c[..i] + c[i + 1..]
  {
    var k :| 0 <= k < |xs| - 1 && xs[k] == y;
    var j :| 0 <= j < |c| && c[j] == y;
    assert j != i;
    if j < i { assert c[..i][j] == y; } else { assert c[i + 1..][j - i - 1] == y; }
  }

  /** One minute for the tasks of `s`, nothing for the others. */
  function Unit(s: set<string>): Durations {
    x => if x in s then 1 else 0
  }

  lemma {:induction false} UnitWeight(s: set<string>, c: seq<string>)
    requires Distinct(c)
    ensures Weight(Unit(s), c) == |Elements(c) * s|
  {
    if c != [] {
      UnitWeight(s, c[..|c| - 1]);
      OneMoreElement(s, c);
    }
  }

  lemma OneMoreElement(s: set<string>, c: seq<string>)
    requires c != [] && Distinct(c)
    ensures |Elements(c) * s| == |Elements(c[..|c| - 1]) * s| + if c[|c| - 1] in s then 1 else 0
  {
    var front, x := c[..|c| - 1], c[|c| - 1];
    assert c == front + [x] && x !in front;
    assert Elements(c) == Elements(front) + {x};
    if x in s {
      assert Elements(c) * s == Elements(front) * s + {x};
    } else {
      assert Elements(c) * s == Elements(front) * s;
    }
  }

  lemma SmallerPart(a: set<string>, s: set<string>)
    ensures |a * s| <= |s| && (|a * s| == |s| ==> s <= a)
  {
    assert s == a * s + (s - a);
    assert |s| == |a * s| + |s - a|;
  }

  lemma HeadIsNotInTail(a: string, bs: seq<string>)
    requires Distinct([a] + bs)
    ensures a !in bs && Distinct(bs)
  {
    var p := [a] + bs;
    forall i | 0 <= i < |bs| ensures bs[i] != a { assert p[i + 1] == bs[i] && p[0] == a; }
    forall i, j | 0 <= i < j < |bs| ensures bs[i] != bs[j] { assert p[i + 1] == bs[i] && p[j + 1] == bs[j]; }
  }

  // ---------- Replanning, as far as chains go ----------

  /** `n` is `m` without some tasks and with the fallback task `r`, which depends on nothing in `n`. */
  ghost predicate Replans(m: map<string, PlanTask>, n: map<string, PlanTask>, r: string, failed: string) {
    && failed in m && r in n
    && (forall t | t in n && t != r :: t in m && n[t].deps == m[t].deps)
    && (forall d | d in n[r].deps :: d !in n)
  }

  function Timed(m: map<string, PlanTask>, d: Durations): map<string, PlanTask> {
    map t | t in m :: m[t].(duration := d(t))
  }

  /** The fallback task takes as long as the failed one. */
  function TimedNew(n: map<string, PlanTask>, r: string, failed: string, d: Durations): map<string, PlanTask> {
    map t | t in n :: n[t].(duration := if t == r then d(failed) else d(t))
  }

  lemma TimedChains(m: map<string, PlanTask>, d: Durations, c: seq<string>)
    ensures Chain(Timed(m, d), c) <==> Chain(m, c)
    ensures Chain(m, c) ==> Total(Timed(m, d), c) == Weight(d, c)
  {
    if Chain(m, c) { WeightIsTotal(Timed(m, d), d, c); }
  }

  lemma TimedNewChains(n: map<string, PlanTask>, r: string, failed: string, d: Durations, c: seq<string>)
    ensures Chain(TimedNew(n, r, failed, d), c) <==> Chain(n, c)
    ensures Chain(n, c) && r !in c ==> Total(TimedNew(n, r, failed, d), c) == Weight(d, c)
  {
    if Chain(n, c) && r !in c {
      forall i | 0 <= i < |c| ensures TimedNew(n, r, failed, d)[c[i]].duration == d(c[i]) { assert c[i] in c; }
      WeightIsTotal(TimedNew(n, r, failed, d), d, c);
    }
  }

  lemma TimedNewTail(n: map<string, PlanTask>, r: string, failed: string, d: Durations, bs: seq<string>)
    requires Chain(n, [r] + bs) && r !in bs
    ensures Chain(TimedNew(n, r, failed, d), [r] + bs)
    ensures Total(TimedNew(n, r, failed, d), [r] + bs) == d(failed) + Weight(d, bs)
  {
    var c, timed := [r] + bs, TimedNew(n, r, failed, d);
    TimedNewChains(n, r, failed, d, c);
    forall i | 0 <= i < |bs| ensures bs[i] in timed && timed[bs[i]].duration == d(bs[i]) {
      assert c[i + 1] == bs[i] && bs[i] in bs;
    }
    assert c[0] == r;
    TotalCons(timed, r, bs);
    WeightIsTotal(timed, d, bs);
  }

  /** The fallback task begins every chain it is in: what it depends on is gone. */
  lemma RetryIsFirst(m: map<string, PlanTask>, n: map<string, PlanTask>, r: string, failed: string, c: seq<string>, i: nat)
    requires Replans(m, n, r, failed) && Chain(n, c) && i < |c| && c[i] == r
    ensures i == 0
  {
    if i > 0 { ChainStep(n, c, i); }
  }

  lemma OldChain(m: map<string, PlanTask>, n: map<string, PlanTask>, r: string, failed: string, c: seq<string>)
    requires Replans(m, n, r, failed) && Chain(n, c) && r !in c
    ensures Chain(m, c)
  {
    forall i | 0 <= i < |c| ensures c[i] in m && n[c[i]].deps == m[c[i]].deps { assert c[i] in c; }
  }

  /** One chain of the old plan holds the failed task and, besides it, all of `bs`. */
  ghost predicate Covers(m: map<string, PlanTask>, failed: string, bs: seq<string>, c: seq<string>) {
    Chain(m, c) && failed in c && forall b | b in bs :: b in c
  }

  ghost predicate Covered(m: map<string, PlanTask>, failed: string, bs: seq<string>) {
    failed !in bs && exists c :: Covers(m, failed, bs, c)
  }

  /** With these durations, the new plan's longest chain takes no longer than the old one's. */
  ghost predicate NotLonger(m: map<string, PlanTask>, n: map<string, PlanTask>, r: string, failed: string, d: Durations) {
    forall v, w | LongestTotal(TimedNew(n, r, failed, d), v) && LongestTotal(Timed(m, d), w) :: v <= w
  }

  lemma CoverWeighsEnough(m: map<string, PlanTask>, d: Durations, failed: string, bs: seq<string>, c: seq<string>)
    requires Covers(m, failed, bs, c) && failed !in bs && Distinct(bs)
    ensures d(failed) + Weight(d, bs) <= Weight(d, c)
  {
    DistinctSnoc(bs, failed);
    WeightOfPart(d, bs + [failed], c);
    WeightAppend(d, bs, [failed]);
    WeightOne(d, failed);
  }

  /** A chain of the new plan takes no longer than some chain of the old one, if what follows the fallback task is
      covered. */
  lemma CoveredChain(m: map<string, PlanTask>, n: map<string, PlanTask>, r: string, failed: string, d: Durations,
                     p: seq<string>) returns (c: seq<string>)
    requires Replans(m, n, r, failed) && Acyclic(n) && Chain(n, p)
    requires forall bs | Chain(n, [r] + bs) :: Covered(m, failed, bs)
    ensures Chain(m, c) && Total(TimedNew(n, r, failed, d), p) <= Weight(d, c)
  {
    if r in p {
      var i :| 0 <= i < |p| && p[i] == r;
      RetryIsFirst(m, n, r, failed, p, i);
      var bs := p[1..];
      assert p == [r] + bs;
      ChainIsDistinct(n, p);
      HeadIsNotInTail(r, bs);
      TimedNewTail(n, r, failed, d, bs);
      c :| Covers(m, failed, bs, c);
      CoverWeighsEnough(m, d, failed, bs, c);
    } else {
      c := p;
      OldChain(m, n, r, failed, p);
      TimedNewChains(n, r, failed, d, p);
    }
  }

  lemma CoveredIsNotLonger(m: map<string, PlanTask>, n: map<string, PlanTask>, r: string, failed: string, d: Durations)
    requires Replans(m, n, r, failed) && Acyclic(n)
    requires forall bs | Chain(n, [r] + bs) :: Covered(m, failed, bs)
    ensures NotLonger(m, n, r, failed, d)
  {
    forall v, w | LongestTotal(TimedNew(n, r, failed, d), v) && LongestTotal(Timed(m, d), w) ensures v <= w {
      var p :| Chain(TimedNew(n, r, failed, d), p) && Total(TimedNew(n, r, failed, d), p) == v;
      TimedNewChains(n, r, failed, d, p);
      var c := CoveredChain(m, n, r, failed, d, p);
      TimedChains(m, d, c);
    }
  }

  /** One minute for the failed task and for each task of an uncovered tail: every chain of the old plan takes less than
      the tail does. */
  lemma OldChainIsShorter(m: map<string, PlanTask>, failed: string, bs: seq<string>, c: seq<string>)
    requires Acyclic(m) && Distinct(bs) && !Covered(m, failed, bs) && Chain(m, c)
    ensures Weight(Unit(Elements(bs) + {failed}), c) < |bs| + 1
  {
    var s := Elements(bs) + {failed};
    ChainIsDistinct(m, c);
    UnitWeight(s, c);
    SmallerPart(Elements(c), s);
    DistinctSize(bs);
    if failed in bs {
      assert s == Elements(bs);
    } else if s <= Elements(c) {
      HeldByChain(m, failed, bs, c);
    }
  }

  lemma HeldByChain(m: map<string, PlanTask>, failed: string, bs: seq<string>, c: seq<string>)
    requires Chain(m, c) && Elements(bs) + {failed} <= Elements(c)
    ensures Covers(m, failed, bs, c)
  {
    assert failed in Elements(c);
    forall b | b in bs ensures b in c { assert b in Elements(bs) + {failed}; }
  }

  lemma TailWeight(bs: seq<string>, failed: string)
    requires Distinct(bs)
    ensures Weight(Unit(Elements(bs) + {failed}), bs) == |bs|
  {
    var s := Elements(bs) + {failed};
    UnitWeight(s, bs);
    assert Elements(bs) * s == Elements(bs);
    DistinctSize(bs);
  }

  lemma UncoveredIsLonger(m: map<string, PlanTask>, n: map<string, PlanTask>, r: string, failed: string, bs: seq<string>,
                          v: int, w: int)
    requires Acyclic(m) && Acyclic(n) && Chain(n, [r] + bs) && !Covered(m, failed, bs)
    requires LongestTotal(TimedNew(n, r, failed, Unit(Elements(bs) + {failed})), v)
    requires LongestTotal(Timed(m, Unit(Elements(bs) + {failed})), w)
    ensures v > w
  {
    var d := Unit(Elements(bs) + {failed});
    ChainIsDistinct(n, [r] + bs);
    HeadIsNotInTail(r, bs);
    TimedNewTail(n, r, failed, d, bs);
    TailWeight(bs, failed);
    var c :| Chain(Timed(m, d), c) && Total(Timed(m, d), c) == w;
    TimedChains(m, d, c);
    OldChainIsShorter(m, failed, bs, c);
  }

  // ---------- When completed tasks come with their dependencies ----------

  /** A chain of two tasks or more leads from `a` to `b`. */
  ghost predicate Leads(m: map<string, PlanTask>, a: string, b: string) {
    exists c :: Link(m, a, b, c)
  }

  ghost predicate Link(m: map<string, PlanTask>, a: string, b: string, c: seq<string>) {
    Chain(m, c) && |c| >= 2 && c[0] == a && c[|c| - 1] == b
  }

  /** What a completed task depends on is completed. */
  ghost predicate CompletedFirst(m: map<string, PlanTask>, completed: set<string>) {
    forall t, d | t in m && t in completed && d in m[t].deps && d in m :: d in completed
  }

  /** The old plan without the completed tasks, and with the fallback task. */
  ghost predicate ReplansRest(m: map<string, PlanTask>, n: map<string, PlanTask>, r: string, failed: string,
                              completed: set<string>) {
    && Replans(m, n, r, failed) && Acyclic(m) && Acyclic(n) && CompletedFirst(m, completed) && failed !in completed
    && r != failed && forall t | t in m && t !in completed :: t in n
  }

  /** `b` stays in the plan and names the fallback task. */
  ghost predicate Namer(m: map<string, PlanTask>, n: map<string, PlanTask>, r: string, b: string) {
    b in m && b in n && b != r && r in m[b].deps
  }

  lemma ChainAppend(m: map<string, PlanTask>, c: seq<string>, e: seq<string>)
    requires Chain(m, c) && Chain(m, e) && c != [] && e != [] && c[|c| - 1] == e[0]
    ensures Chain(m, c + e[1..])
  {
    var j := c + e[1..];
    forall i | 0 < i < |j| ensures j[i - 1] in m[j[i]].deps {
      if i >= |c| { assert j[i] == e[i - |c| + 1] && j[i - 1] == e[i - |c|]; }
    }
  }

  /** A tail whose first task the failed one leads to is covered. */
  lemma LedTailIsCovered(m: map<string, PlanTask>, failed: string, bs: seq<string>)
    requires Acyclic(m) && Chain(m, bs) && bs != [] && Leads(m, failed, bs[0])
    ensures Covered(m, failed, bs)
  {
    var c :| Link(m, failed, bs[0], c);
    var j := c + bs[1..];
    ChainAppend(m, c, bs);
    ChainIsDistinct(m, j);
    forall i | 0 <= i < |bs| ensures bs[i] in j && bs[i] != failed {
      assert j[|c| - 1 + i] == bs[i] && j[0] == failed;
    }
    assert Covers(m, failed, bs, j) by { assert j[0] == failed; }
  }

  /** Behind a task that is not completed nothing on a chain is. */
  lemma {:induction false} NotCompletedOnward(m: map<string, PlanTask>, completed: set<string>, c: seq<string>, i: nat, k: nat)
    requires CompletedFirst(m, completed) && Chain(m, c) && i <= k < |c| && c[i] !in completed
    ensures c[k] !in completed
  {
    if i < k {
      NotCompletedOnward(m, completed, c, i, k - 1);
      assert c[k - 1] in m[c[k]].deps;
    }
  }

  /** If a chain of tasks that are left runs from a namer of the fallback task to the failed one, some tail holds the
      failed task itself. */
  lemma TailHoldsFailed(m: map<string, PlanTask>, n: map<string, PlanTask>, r: string, failed: string, completed: set<string>,
                        c: seq<string>) returns (bs: seq<string>)
    requires ReplansRest(m, n, r, failed, completed)
    requires Chain(m, c) && c != [] && Namer(m, n, r, c[0]) && c[0] !in completed && c[|c| - 1] == failed
    ensures Chain(n, [r] + bs) && failed in bs
  {
    var first := 0;
    if r in c {
      var k :| 0 <= k < |c| && c[k] == r;
      first := k + 1;
    }
    ChainIsDistinct(m, c);
    bs := c[first..];
    forall k | first <= k < |c| ensures c[k] in n && c[k] != r && n[c[k]].deps == m[c[k]].deps {
      NotCompletedOnward(m, completed, c, 0, k);
      if r in c { assert c[first - 1] == r; }
    }
    if first > 0 { ChainStep(m, c, first); }
    TailChain(m, n, r, c, first);
    assert bs[|bs| - 1] == failed;
  }

  lemma TailChain(m: map<string, PlanTask>, n: map<string, PlanTask>, r: string, c: seq<string>, first: nat)
    requires Chain(m, c) && first < |c| && r in n && r in m[c[first]].deps
    requires forall k | first <= k < |c| :: c[k] in n && n[c[k]].deps == m[c[k]].deps
    ensures Chain(n, [r] + c[first..])
  {
    var t := [r] + c[first..];
    forall i | 0 < i < |t| ensures t[i - 1] in n[t[i]].deps {
      assert t[i] == c[first + i - 1];
      if i > 1 { assert t[i - 1] == c[first + i - 2]; }
    }
  }

  /** Of two tasks on one chain, one leads to the other. */
  lemma OneLeads(m: map<string, PlanTask>, c: seq<string>, a: string, b: string) returns (part: seq<string>)
    requires Chain(m, c) && a in c && b in c && a != b
    ensures Link(m, a, b, part) || (Chain(m, part) && part != [] && part[0] == b && part[|part| - 1] == a)
  {
    var i :| 0 <= i < |c| && c[i] == a;
    var j :| 0 <= j < |c| && c[j] == b;
    if i < j {
      ChainSlice(m, c, i, j + 1);
      part := c[i..j + 1];
    } else {
      ChainSlice(m, c, j, i + 1);
      part := c[j..i + 1];
    }
  }

  /** A namer whose own tail is covered, with no tail holding the failed task, is one the failed task leads to. */
  lemma CoveredNamerIsLed(m: map<string, PlanTask>, n: map<string, PlanTask>, r: string, failed: string, completed: set<string>,
                          b: string)
    requires ReplansRest(m, n, r, failed, completed) && Namer(m, n, r, b) && b !in completed
    requires forall bs | Chain(n, [r] + bs) :: Covered(m, failed, bs)
    ensures Leads(m, failed, b)
  {
    var one := [b];
    TailChain(m, n, r, one, 0);
    assert one[0..] == [b] && Covered(m, failed, [b]);
    var c :| Covers(m, failed, [b], c);
    assert b in [b];
    var part := OneLeads(m, c, failed, b);
    if !Link(m, failed, b, part) {
      var bs := TailHoldsFailed(m, n, r, failed, completed, part);
    }
  }

  /** Then every tail is covered exactly when the failed task leads to every task that stays and names the fallback. */
  lemma CoveredIffLed(m: map<string, PlanTask>, n: map<string, PlanTask>, r: string, failed: string, completed: set<string>)
    requires ReplansRest(m, n, r, failed, completed)
    requires forall b | Namer(m, n, r, b) :: b !in completed
    ensures (forall bs | Chain(n, [r] + bs) :: Covered(m, failed, bs)) <==> forall b | Namer(m, n, r, b) :: Leads(m, failed, b)
  {
    if forall bs | Chain(n, [r] + bs) :: Covered(m, failed, bs) {
      forall b | Namer(m, n, r, b) ensures Leads(m, failed, b) { CoveredNamerIsLed(m, n, r, failed, completed, b); }
    }
    if forall b | Namer(m, n, r, b) :: Leads(m, failed, b) {
      forall bs | Chain(n, [r] + bs) ensures Covered(m, failed, bs) { LedMeansCovered(m, n, r, failed, bs); }
    }
  }

  lemma LedMeansCovered(m: map<string, PlanTask>, n: map<string, PlanTask>, r: string, failed: string, bs: seq<string>)
    requires Replans(m, n, r, failed) && Acyclic(m) && Acyclic(n) && Chain(n, [r] + bs)
    requires forall b | Namer(m, n, r, b) :: Leads(m, failed, b)
    ensures Covered(m, failed, bs)
  {
    var p := [r] + bs;
    if bs == [] {
      LoneChain(m, failed);
      assert Covers(m, failed, bs, [failed]);
    } else {
      ChainIsDistinct(n, p);
      HeadIsNotInTail(r, bs);
      ChainSlice(n, p, 1, |p|);
      assert p[1..|p|] == bs;
      OldChain(m, n, r, failed, bs);
      assert p[0] == r && p[1] == bs[0] && bs[0] in bs;
      assert Namer(m, n, r, bs[0]);
      LedTailIsCovered(m, failed, bs);
    }
  }
}
