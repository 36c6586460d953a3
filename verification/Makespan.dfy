/** Carrying out a plan: what `get_next_tasks` offers, and how long a plan takes when everything it offers is started. */
module Makespan {
  import opened Prelude
  import opened StableSort
  import opened GoalPlan

  // ---------- get_next_tasks ----------

  predicate Offered(t: PlanTask, completed: set<string>) {
    t.id !in completed && forall d | d in t.deps :: d in completed
  }

  function ReadyTasks(tasks: seq<PlanTask>, completed: set<string>): (r: seq<PlanTask>)
    ensures forall t | t in r :: t in tasks && Offered(t, completed)
    ensures forall t | t in tasks && Offered(t, completed) :: t in r
  {
    if tasks == [] then []
    else
      assert tasks == tasks[..|tasks| - 1] + [tasks[|tasks| - 1]];
      ReadyTasks(tasks[..|tasks| - 1], completed)
      + if Offered(tasks[|tasks| - 1], completed) then [tasks[|tasks| - 1]] else []
  }

  function PriorityKey(t: PlanTask): Key { Key(t.priority, 0) }

  /** The tasks whose dependencies are all complete, highest priority first, ties in plan order. */
  method GetNextTasks(tasks: seq<PlanTask>, completed: set<string>) returns (ready: seq<PlanTask>)
    ensures multiset(ready) == multiset(ReadyTasks(tasks, completed))
    ensures forall t :: t in ready <==> t in tasks && Offered(t, completed)
    ensures Sorted(ready, PriorityKey)
    ensures forall k :: WithKey(ready, PriorityKey, k) == WithKey(ReadyTasks(tasks, completed), PriorityKey, k)
  {
    ready := [];
    for i := 0 to |tasks|
      invariant ready == ReadyTasks(tasks[..i], completed)
    {
      assert tasks[..i + 1][..i] == tasks[..i];
      if tasks[i].id !in completed && forall d | d in tasks[i].deps :: d in completed {
        ready := ready + [tasks[i]];
      }
    }
    assert tasks[..|tasks|] == tasks;
    ghost var offered := ready;
    ready := SortDesc(ready, PriorityKey);
    SortKeepsElements(offered, PriorityKey);
    SortDescSorted(offered, PriorityKey);
    forall k ensures WithKey(ready, PriorityKey, k) == WithKey(offered, PriorityKey, k) {
      SortDescStable(offered, PriorityKey, k);
    }
  }

  // ---------- Carrying out a plan with as many workers as it can use ----------

  /** What is done, when each task under way will be done, and the time. Several tasks may have the same id, which is done when
      the first of them is. */
  datatype Progress = Progress(completed: set<string>, running: map<PlanTask, int>, now: int)

  const Start := Progress({}, map[], 0)

  function Ids(tasks: seq<PlanTask>): set<string> {
    set t | t in tasks :: t.id
  }

  /** A task with a negative estimate is done at once. */
  function Duration(t: PlanTask): nat {
    Max(0, t.duration)
  }

  /** Starts everything `get_next_tasks` offers that is not under way. */
  ghost function StartOffered(tasks: seq<PlanTask>, s: Progress): Progress {
    s.(running := map t: PlanTask | t in tasks && (t in s.running || t in ReadyTasks(tasks, s.completed)) ::
                    if t in s.running then s.running[t] else s.now + Duration(t))
  }

  ghost predicate Earliest(running: map<PlanTask, int>, e: PlanTask) {
    e in running && forall t | t in running :: running[e] <= running[t]
  }

  lemma {:induction false} SomethingIsEarliest(running: map<PlanTask, int>)
    requires running.Keys != {}
    ensures exists e :: Earliest(running, e)
    decreases |running.Keys|
  {
    var t :| t in running.Keys;
    var rest := map u | u in running && u != t :: running[u];
    assert rest.Keys == running.Keys - {t};
    if rest.Keys == {} {
      assert Earliest(running, t) by {
        forall u | u in running ensures u == t { assert u != t ==> u in rest.Keys; }
      }
    } else {
      SomethingIsEarliest(rest);
      var e :| Earliest(rest, e);
      if running[t] < running[e] {
        assert Earliest(running, t) by {
          forall u | u in running ensures running[t] <= running[u] { assert u != t ==> u in rest; }
        }
      } else {
        assert Earliest(running, e) by {
          forall u | u in running ensures running[e] <= running[u] { assert u != t ==> u in rest; }
        }
      }
    }
  }

  /** Time moves on to the earliest finish; what finishes then is done, and the other tasks of its id are given up. */
  ghost function FinishEarliest(s: Progress): (n: Progress)
    requires s.running.Keys != {}
    ensures forall t | t in s.running :: n.now <= s.running[t]
    ensures exists e :: e in s.running && s.running[e] == n.now
    ensures n.completed == s.completed + set t | t in s.running && s.running[t] == n.now :: t.id
    ensures n.running == map t | t in s.running && t.id !in n.completed :: s.running[t]
  {
    SomethingIsEarliest(s.running);
    var e :| Earliest(s.running, e);
    var now := s.running[e];
    var completed := s.completed + set t | t in s.running && s.running[t] == now :: t.id;
    Progress(completed, map t | t in s.running && t.id !in completed :: s.running[t], now)
  }

  ghost predicate Sensible(tasks: seq<PlanTask>, s: Progress) {
    s.completed <= Ids(tasks) && forall t | t in s.running :: t in tasks && t.id !in s.completed
  }

  lemma SubsetIsSmaller<T>(a: set<T>, b: set<T>)
    requires a < b
    ensures |a| < |b|
  {
    assert b == a + (b - a);
    assert b - a != {};
  }

  lemma StartIsSensible(tasks: seq<PlanTask>, s: Progress)
    requires Sensible(tasks, s)
    ensures Sensible(tasks, StartOffered(tasks, s))
  {
  }

  /** Each finish completes an id more. */
  lemma FinishIsSensible(tasks: seq<PlanTask>, s: Progress)
    requires Sensible(tasks, s) && s.running.Keys != {}
    ensures var n := FinishEarliest(s);
            Sensible(tasks, n) && s.completed < n.completed && |Ids(tasks) - n.completed| < |Ids(tasks) - s.completed|
  {
    var n := FinishEarliest(s);
    var e :| e in s.running && s.running[e] == n.now;
    assert e.id in n.completed && e.id !in s.completed && e.id in Ids(tasks);
    SubsetIsSmaller(Ids(tasks) - n.completed, Ids(tasks) - s.completed);
  }

  /** Starting what is offered and waiting for the next finish, until nothing is under way. */
  ghost function Drive(tasks: seq<PlanTask>, s: Progress): Progress
    requires Sensible(tasks, s)
    decreases |Ids(tasks) - s.completed|
  {
    StartIsSensible(tasks, s);
    var started := StartOffered(tasks, s);
    if started.running.Keys == {} then s
    else
      FinishIsSensible(tasks, started);
      Drive(tasks, FinishEarliest(started))
  }

  // ---------- Soundness ----------

  /** Every dependency names a task of the plan. */
  ghost predicate Closed(m: map<string, PlanTask>) {
    forall t | t in m :: forall d | d in m[t].deps :: d in m
  }

  /** For each id one of the tasks that have it. */
  ghost predicate Picks(tasks: seq<PlanTask>, m: map<string, PlanTask>) {
    m.Keys == Ids(tasks) && forall k | k in m :: m[k] in tasks && m[k].id == k
  }

  /** One task for each id can be chosen so that the dependencies have no cycle and name nothing else. */
  ghost predicate CanBePicked(tasks: seq<PlanTask>) {
    exists m :: Picks(tasks, m) && Acyclic(m) && Closed(m)
  }

  /** No two tasks have the same id. */
  ghost predicate UniqueIds(tasks: seq<PlanTask>) {
    forall t, u | t in tasks && u in tasks && t.id == u.id :: t == u
  }

  lemma MapPicks(tasks: seq<PlanTask>)
    ensures Picks(tasks, TaskMap(tasks))
    ensures UniqueIds(tasks) ==> forall m | Picks(tasks, m) :: m == TaskMap(tasks)
  {
    forall k ensures k in TaskMap(tasks) <==> k in Ids(tasks) { }
  }

  /** The plan with its negative estimates read as none. */
  function Timed(m: map<string, PlanTask>): map<string, PlanTask> {
    map k | k in m :: m[k].(duration := Duration(m[k]))
  }

  // ---------- What is done makes a sound plan ----------

  /** `p` has the tasks by which the ids were done, each after its dependencies. */
  ghost predicate DoneInOrder(tasks: seq<PlanTask>, s: Progress, p: map<string, PlanTask>, rank: map<string, nat>) {
    && p.Keys == s.completed && Closed(p) && Ranked(p, rank)
    && (forall k | k in p :: p[k] in tasks && p[k].id == k && rank[k] < |s.completed|)
    && forall t | t in s.running :: forall d | d in t.deps :: d in p
  }

  /** ... and none of them later than its longest chain takes; those under way will not be either. */
  ghost predicate DoneInTime(s: Progress, p: map<string, PlanTask>, rank: map<string, nat>)
    requires Ranked(p, rank)
  {
    && 0 <= s.now && Ranked(Timed(p), rank)
    && (forall k | k in p :: Longest(Timed(p), rank, k).duration <= s.now)
    && forall t | t in s.running ::
         && s.now <= s.running[t] && Duration(t) <= s.running[t]
         && forall d | d in t.deps :: Longest(Timed(p), rank, d).duration + Duration(t) <= s.running[t]
  }

  lemma StartKeepsDone(tasks: seq<PlanTask>, s: Progress, p: map<string, PlanTask>, rank: map<string, nat>)
    requires Sensible(tasks, s) && DoneInOrder(tasks, s, p, rank) && DoneInTime(s, p, rank)
    ensures var n := StartOffered(tasks, s); DoneInOrder(tasks, n, p, rank) && DoneInTime(n, p, rank)
  {
    var n := StartOffered(tasks, s);
    forall t | t in n.running
      ensures s.now <= n.running[t] && Duration(t) <= n.running[t]
      ensures forall d | d in t.deps :: d in p && Longest(Timed(p), rank, d).duration + Duration(t) <= n.running[t]
    {
      if t !in s.running { assert Offered(t, s.completed); }
    }
  }

  /** A task that finishes now and has this id. */
  ghost function Finisher(s: Progress, now: int, id: string): (t: PlanTask)
    requires exists t :: t in s.running && s.running[t] == now && t.id == id
    ensures t in s.running && s.running[t] == now && t.id == id
  {
    var t :| t in s.running && s.running[t] == now && t.id == id;
    t
  }

  lemma FinishesNow(s: Progress, n: Progress, id: string)
    requires s.running.Keys != {} && n == FinishEarliest(s) && id in n.completed && id !in s.completed
    ensures exists t :: t in s.running && s.running[t] == n.now && t.id == id
  {
  }

  /** The tasks done before, and those that finish now. */
  ghost function WithFinished(s: Progress, n: Progress, p: map<string, PlanTask>): map<string, PlanTask>
    requires s.running.Keys != {} && n == FinishEarliest(s) && p.Keys == s.completed
  {
    map k | k in n.completed :: if k in p then p[k] else FinishesNow(s, n, k); Finisher(s, n.now, k)
  }

  function WithRank(done: set<string>, completed: set<string>, rank: map<string, nat>): map<string, nat>
    requires forall k | k in done :: k in rank
  {
    map k | k in completed :: if k in done then rank[k] else |done|
  }

  /** What finishes now depends on what was done before. */
  lemma FinishedTask(tasks: seq<PlanTask>, s: Progress, n: Progress, p: map<string, PlanTask>, rank: map<string, nat>, k: string)
    requires Sensible(tasks, s) && DoneInOrder(tasks, s, p, rank) && s.running.Keys != {} && n == FinishEarliest(s)
    requires k in n.completed
    ensures var q := WithFinished(s, n, p); q[k] in tasks && q[k].id == k && forall d | d in q[k].deps :: d in p
    ensures k in p ==> WithFinished(s, n, p)[k] == p[k]
  {
    if k !in p { FinishesNow(s, n, k); }
  }

  lemma WithRankRanks(p: map<string, PlanTask>, q: map<string, PlanTask>, rank: map<string, nat>)
    requires Ranked(p, rank) && (forall k | k in p :: k in q && q[k] == p[k] && rank[k] < |p.Keys|)
    requires forall k | k in q :: forall d | d in q[k].deps :: d in p
    ensures Ranked(q, WithRank(p.Keys, q.Keys, rank)) && Closed(q)
    ensures forall k | k in q :: WithRank(p.Keys, q.Keys, rank)[k] <= |p.Keys|
  {
  }

  lemma AllFinishedTasks(tasks: seq<PlanTask>, s: Progress, n: Progress, p: map<string, PlanTask>, rank: map<string, nat>)
    requires Sensible(tasks, s) && DoneInOrder(tasks, s, p, rank) && s.running.Keys != {} && n == FinishEarliest(s)
    ensures var q := WithFinished(s, n, p);
            && q.Keys == n.completed && (forall k | k in p :: k in q && q[k] == p[k])
            && forall k | k in q :: q[k] in tasks && q[k].id == k && forall d | d in q[k].deps :: d in p
  {
    var q := WithFinished(s, n, p);
    assert s.completed <= n.completed;
    forall k | k in n.completed
      ensures q[k] in tasks && q[k].id == k && (forall d | d in q[k].deps :: d in p) && (k in p ==> q[k] == p[k])
    {
      FinishedTask(tasks, s, n, p, rank, k);
    }
  }

  lemma FinishKeepsOrder(tasks: seq<PlanTask>, s: Progress, n: Progress, p: map<string, PlanTask>, rank: map<string, nat>)
    requires Sensible(tasks, s) && DoneInOrder(tasks, s, p, rank) && s.running.Keys != {} && n == FinishEarliest(s)
    ensures DoneInOrder(tasks, n, WithFinished(s, n, p), WithRank(p.Keys, n.completed, rank))
  {
    AllFinishedTasks(tasks, s, n, p, rank);
    FinishIsSensible(tasks, s);
    SubsetIsSmaller(s.completed, n.completed);
    WithRankRanks(p, WithFinished(s, n, p), rank);
  }

  // ---------- ... in time ----------

  /** Longest paths stay the same in a larger plan. */
  lemma {:induction false} LongestGrown(m: map<string, PlanTask>, r: map<string, nat>, n: map<string, PlanTask>,
                                        q: map<string, nat>, id: string)
    requires Ranked(m, r) && Ranked(n, q) && Closed(m) && id in m && forall k | k in m :: k in n && n[k] == m[k]
    ensures Longest(n, q, id) == Longest(m, r, id)
    decreases Height(m, r, id), 1, 0
  {
    BestGrown(m, r, n, q, id, m[id].deps);
  }

  lemma {:induction false} BestGrown(m: map<string, PlanTask>, r: map<string, nat>, n: map<string, PlanTask>, q: map<string, nat>,
                                     id: string, ds: seq<string>)
    requires Ranked(m, r) && Ranked(n, q) && Closed(m) && id in m && forall k | k in m :: k in n && n[k] == m[k]
    requires forall d | d in ds :: d in m[id].deps
    ensures BestOf(n, q, id, ds) == BestOf(m, r, id, ds)
    decreases Height(m, r, id), 0, |ds|
  {
    if ds != [] {
      BestGrown(m, r, n, q, id, ds[..|ds| - 1]);
      LongestGrown(m, r, n, q, ds[|ds| - 1]);
    }
  }

  lemma TimedRanked(m: map<string, PlanTask>, rank: map<string, nat>)
    requires Ranked(m, rank)
    ensures Ranked(Timed(m), rank) && (Closed(m) ==> Closed(Timed(m)))
  {
  }

  /** What the longest path to the dependencies takes, if none of them takes longer than `most`. */
  lemma {:induction false} BestIsBounded(m: map<string, PlanTask>, rank: map<string, nat>, id: string, ds: seq<string>, most: int)
    requires Ranked(m, rank) && id in m && 0 <= most
    requires forall d | d in ds :: d in m[id].deps && Longest(m, rank, d).duration <= most
    ensures BestOf(m, rank, id, ds).duration <= most
  {
    if ds != [] { BestIsBounded(m, rank, id, ds[..|ds| - 1], most); }
  }

  lemma LongestIsBounded(m: map<string, PlanTask>, rank: map<string, nat>, id: string, most: int)
    requires Ranked(m, rank) && id in m && m[id].duration <= most
    requires forall d | d in m[id].deps :: Longest(m, rank, d).duration + m[id].duration <= most
    ensures Longest(m, rank, id).duration <= most
  {
    BestIsBounded(m, rank, id, m[id].deps, most - m[id].duration);
  }

  /** A task that finishes now has taken its longest chain at most. */
  lemma FinishedInTime(s: Progress, n: Progress, p: map<string, PlanTask>, rank: map<string, nat>, q: map<string, PlanTask>,
                       r: map<string, nat>, k: string)
    requires s.running.Keys != {} && n == FinishEarliest(s) && p.Keys == s.completed && q == WithFinished(s, n, p)
    requires Closed(p) && Ranked(p, rank) && DoneInTime(s, p, rank) && Ranked(Timed(q), r)
    requires k in q && k !in p && forall d | d in q[k].deps :: d in p
    ensures Longest(Timed(q), r, k).duration <= n.now
  {
    FinishesNow(s, n, k);
    var t := Finisher(s, n.now, k);
    assert q[k] == t && t in s.running && s.running[t] == n.now;
    forall d | d in t.deps ensures Longest(Timed(q), r, d).duration + Duration(t) <= n.now {
      LongestGrown(Timed(p), rank, Timed(q), r, d);
    }
    LongestIsBounded(Timed(q), r, k, n.now);
  }

  lemma StillInTime(s: Progress, n: Progress, p: map<string, PlanTask>, rank: map<string, nat>, q: map<string, PlanTask>,
                    r: map<string, nat>)
    requires s.running.Keys != {} && n == FinishEarliest(s) && Closed(p) && Ranked(p, rank) && DoneInTime(s, p, rank)
    requires Ranked(Timed(q), r) && (forall k | k in p :: k in q && q[k] == p[k])
    requires forall t | t in s.running :: forall d | d in t.deps :: d in p
    ensures forall t | t in n.running :: n.now <= n.running[t] && Duration(t) <= n.running[t]
              && forall d | d in t.deps :: Longest(Timed(q), r, d).duration + Duration(t) <= n.running[t]
  {
    forall t, d | t in n.running && d in t.deps ensures Longest(Timed(q), r, d).duration + Duration(t) <= n.running[t] {
      LongestGrown(Timed(p), rank, Timed(q), r, d);
    }
  }

  lemma OneInTime(s: Progress, n: Progress, p: map<string, PlanTask>, rank: map<string, nat>,
                  q: map<string, PlanTask>, r: map<string, nat>, k: string)
    requires s.running.Keys != {} && n == FinishEarliest(s) && p.Keys == s.completed && q == WithFinished(s, n, p) && k in q
    requires Closed(p) && Ranked(p, rank) && DoneInTime(s, p, rank) && Ranked(Timed(q), r) && s.now <= n.now
    requires (forall d | d in q[k].deps :: d in p) && forall x | x in p :: x in q && q[x] == p[x]
    ensures Longest(Timed(q), r, k).duration <= n.now
  {
    if k in p { LongestGrown(Timed(p), rank, Timed(q), r, k); } else { FinishedInTime(s, n, p, rank, q, r, k); }
  }

  lemma AllInTime(s: Progress, n: Progress, p: map<string, PlanTask>, rank: map<string, nat>,
                  q: map<string, PlanTask>, r: map<string, nat>)
    requires s.running.Keys != {} && n == FinishEarliest(s) && p.Keys == s.completed && q == WithFinished(s, n, p)
    requires Closed(p) && Ranked(p, rank) && DoneInTime(s, p, rank) && Ranked(Timed(q), r) && s.now <= n.now
    requires (forall k | k in q :: forall d | d in q[k].deps :: d in p) && forall x | x in p :: x in q && q[x] == p[x]
    ensures forall k | k in q :: Longest(Timed(q), r, k).duration <= n.now
  {
    forall k | k in q ensures Longest(Timed(q), r, k).duration <= n.now { OneInTime(s, n, p, rank, q, r, k); }
  }

  lemma TimeGoesOn(s: Progress, n: Progress)
    requires s.running.Keys != {} && n == FinishEarliest(s) && forall t | t in s.running :: s.now <= s.running[t]
    ensures s.now <= n.now
  {
    var e :| e in s.running && s.running[e] == n.now;
  }

  lemma FinishKeepsTime(s: Progress, n: Progress, p: map<string, PlanTask>, rank: map<string, nat>, q: map<string, PlanTask>,
                        r: map<string, nat>)
    requires s.running.Keys != {} && n == FinishEarliest(s) && p.Keys == s.completed && q == WithFinished(s, n, p)
    requires Closed(p) && Ranked(p, rank) && DoneInTime(s, p, rank) && Ranked(q, r)
    requires forall t | t in s.running :: forall d | d in t.deps :: d in p
    requires (forall k | k in q :: forall d | d in q[k].deps :: d in p) && forall k | k in p :: k in q && q[k] == p[k]
    ensures DoneInTime(n, q, r)
  {
    TimeGoesOn(s, n);
    TimedRanked(q, r);
    AllInTime(s, n, p, rank, q, r);
    StillInTime(s, n, p, rank, q, r);
  }

  // ---------- No picked plan is carried out earlier ----------

  /** What is left waits for something. */
  ghost predicate Waits(t: PlanTask, done: set<string>) {
    exists d :: d in t.deps && d !in done
  }

  lemma TheRestWaits(tasks: seq<PlanTask>, s: Progress, t: PlanTask)
    requires t in tasks && t.id !in s.completed && t !in StartOffered(tasks, s).running
    ensures Waits(t, s.completed)
  {
  }

  /** What of the picked plan `m` is neither done nor under way waits. */
  ghost predicate RestWaits(m: map<string, PlanTask>, s: Progress) {
    forall k {:trigger Waits(m[k], s.completed)} | k in m && k !in s.completed && m[k] !in s.running :: Waits(m[k], s.completed)
  }

  /** What of `m` is under way is done when its longest chain is, at the latest. */
  ghost predicate RunsBehind(m: map<string, PlanTask>, rank: map<string, nat>, s: Progress)
    requires Ranked(Timed(m), rank)
  {
    forall k | k in m && m[k] in s.running :: s.running[m[k]] <= Longest(Timed(m), rank, k).duration
  }

  /** What of `m` can start now has dependencies that take until now. */
  ghost predicate StartsBehind(m: map<string, PlanTask>, rank: map<string, nat>, s: Progress)
    requires Ranked(Timed(m), rank)
  {
    forall k {:trigger Waits(m[k], s.completed)} | k in m && k !in s.completed && m[k] !in s.running && !Waits(m[k], s.completed) ::
      s.now <= BestOf(Timed(m), rank, k, m[k].deps).duration
  }

  lemma OfferedOrWaits(tasks: seq<PlanTask>, m: map<string, PlanTask>, s: Progress)
    requires Picks(tasks, m)
    ensures RestWaits(m, StartOffered(tasks, s))
  {
    forall k | k in m && k !in s.completed && m[k] !in StartOffered(tasks, s).running ensures Waits(m[k], s.completed) {
      TheRestWaits(tasks, s, m[k]);
    }
  }

  lemma OneStartsBehind(tasks: seq<PlanTask>, m: map<string, PlanTask>, rank: map<string, nat>, s: Progress, k: string)
    requires Picks(tasks, m) && Ranked(Timed(m), rank) && StartsBehind(m, rank, s) && k in m && m[k] !in s.running
    requires m[k] in StartOffered(tasks, s).running
    ensures StartOffered(tasks, s).running[m[k]] <= Longest(Timed(m), rank, k).duration
  {
    assert Offered(m[k], s.completed);
    assert !Waits(m[k], s.completed);
  }

  lemma StartKeepsBehind(tasks: seq<PlanTask>, m: map<string, PlanTask>, rank: map<string, nat>, s: Progress)
    requires Picks(tasks, m) && Ranked(Timed(m), rank) && RunsBehind(m, rank, s) && StartsBehind(m, rank, s) && Sensible(tasks, s)
    ensures RunsBehind(m, rank, StartOffered(tasks, s))
  {
    var n := StartOffered(tasks, s);
    forall k | k in m && m[k] in n.running ensures n.running[m[k]] <= Longest(Timed(m), rank, k).duration {
      if m[k] !in s.running { OneStartsBehind(tasks, m, rank, s, k); }
    }
  }

  lemma OneDependency(m: map<string, PlanTask>, rank: map<string, nat>, k: string, d: string)
    requires Ranked(Timed(m), rank) && k in m && d in m[k].deps
    ensures Longest(Timed(m), rank, d).duration <= BestOf(Timed(m), rank, k, m[k].deps).duration
    ensures BestOf(Timed(m), rank, k, m[k].deps).duration <= Longest(Timed(m), rank, k).duration
  {
    BestIsBest(Timed(m), rank, k, m[k].deps, d);
  }

  /** What is not done yet takes until the next finish at least. */
  lemma {:induction false} TakesLonger(m: map<string, PlanTask>, rank: map<string, nat>, s: Progress, now: int, k: string)
    requires Ranked(Timed(m), rank) && Closed(m) && k in m && k !in s.completed
    requires (forall t | t in s.running :: now <= s.running[t]) && RunsBehind(m, rank, s) && RestWaits(m, s)
    ensures now <= Longest(Timed(m), rank, k).duration
    decreases Height(Timed(m), rank, k)
  {
    if m[k] !in s.running {
      assert Waits(m[k], s.completed);
      var d :| d in m[k].deps && d !in s.completed;
      assert k in Timed(m) && d in Timed(m)[k].deps;
      TakesLonger(m, rank, s, now, d);
      OneDependency(m, rank, k, d);
    }
  }

  lemma AllTakeLonger(m: map<string, PlanTask>, rank: map<string, nat>, s: Progress, now: int)
    requires Ranked(Timed(m), rank) && Closed(m)
    requires (forall t | t in s.running :: now <= s.running[t]) && RunsBehind(m, rank, s) && RestWaits(m, s)
    ensures forall k | k in m && k !in s.completed :: now <= Longest(Timed(m), rank, k).duration
  {
    forall k | k in m && k !in s.completed ensures now <= Longest(Timed(m), rank, k).duration { TakesLonger(m, rank, s, now, k); }
  }

  lemma FinishKeepsBehind(m: map<string, PlanTask>, rank: map<string, nat>, s: Progress)
    requires Ranked(Timed(m), rank) && Closed(m) && RunsBehind(m, rank, s) && RestWaits(m, s) && s.running.Keys != {}
    requires forall k | k in m :: m[k].id == k
    ensures RunsBehind(m, rank, FinishEarliest(s)) && StartsBehind(m, rank, FinishEarliest(s))
  {
    var n := FinishEarliest(s);
    AllTakeLonger(m, rank, s, n.now);
    forall k | k in m && k !in n.completed && m[k] !in n.running && !Waits(m[k], n.completed)
      ensures n.now <= BestOf(Timed(m), rank, k, m[k].deps).duration
    {
      assert m[k] !in s.running && Waits(m[k], s.completed);
      var d :| d in m[k].deps && d !in s.completed;
      OneDependency(m, rank, k, d);
    }
  }

  lemma FinishIsNotLate(tasks: seq<PlanTask>, m: map<string, PlanTask>, rank: map<string, nat>, s: Progress)
    requires Picks(tasks, m) && Ranked(Timed(m), rank) && Closed(m) && RunsBehind(m, rank, s) && RestWaits(m, s)
    requires Sensible(tasks, s) && s.running.Keys != {}
    ensures FinishEarliest(s).now <= Critical(Timed(m), rank, tasks).duration
  {
    var now := FinishEarliest(s).now;
    var e :| e in s.running && s.running[e] == now;
    AllTakeLonger(m, rank, s, now);
    assert e.id in Ids(tasks);
    CriticalIsAPath(Timed(m), rank, tasks);
  }

  lemma {:induction false} DriveIsBehind(tasks: seq<PlanTask>, m: map<string, PlanTask>, rank: map<string, nat>, s: Progress)
    requires Picks(tasks, m) && Ranked(Timed(m), rank) && Closed(m) && Sensible(tasks, s)
    requires RunsBehind(m, rank, s) && StartsBehind(m, rank, s) && s.now <= Critical(Timed(m), rank, tasks).duration
    ensures Drive(tasks, s).now <= Critical(Timed(m), rank, tasks).duration
    decreases |Ids(tasks) - s.completed|
  {
    StartIsSensible(tasks, s);
    var started := StartOffered(tasks, s);
    if started.running.Keys != {} {
      StartKeepsBehind(tasks, m, rank, s);
      OfferedOrWaits(tasks, m, s);
      FinishIsSensible(tasks, started);
      FinishIsNotLate(tasks, m, rank, started);
      FinishKeepsBehind(m, rank, started);
      DriveIsBehind(tasks, m, rank, FinishEarliest(started));
    }
  }

  // ---------- The whole run ----------

  /** In the end nothing is under way, what is done was done in order and in time, and all else waits for something not done. */
  lemma {:induction false} DriveEnds(tasks: seq<PlanTask>, s: Progress, p: map<string, PlanTask>, rank: map<string, nat>)
    returns (q: map<string, PlanTask>, r: map<string, nat>)
    requires Sensible(tasks, s) && DoneInOrder(tasks, s, p, rank) && DoneInTime(s, p, rank)
    ensures var n := Drive(tasks, s);
            && DoneInOrder(tasks, n, q, r) && DoneInTime(n, q, r)
            && forall t | t in tasks && t.id !in n.completed :: Waits(t, n.completed)
    decreases |Ids(tasks) - s.completed|
  {
    q, r := p, rank;
    StartIsSensible(tasks, s);
    StartKeepsDone(tasks, s, p, rank);
    var started := StartOffered(tasks, s);
    if started.running.Keys == {} {
      forall t | t in tasks && t.id !in s.completed ensures Waits(t, s.completed) { TheRestWaits(tasks, s, t); }
    } else {
      var n := FinishEarliest(started);
      FinishIsSensible(tasks, started);
      FinishKeepsOrder(tasks, started, n, p, rank);
      q, r := WithFinished(started, n, p), WithRank(p.Keys, n.completed, rank);
      AllFinishedTasks(tasks, started, n, p, rank);
      FinishKeepsTime(started, n, p, rank, q, r);
      q, r := DriveEnds(tasks, n, q, r);
    }
  }

  lemma {:induction false} NothingBelowIsLeft(m: map<string, PlanTask>, rank: map<string, nat>, done: set<string>, k: string)
    requires Ranked(m, rank) && Closed(m) && k in m
    requires forall x {:trigger Waits(m[x], done)} | x in m && x !in done :: Waits(m[x], done)
    ensures k in done
    decreases Height(m, rank, k)
  {
    if k !in done {
      assert Waits(m[k], done);
      var d :| d in m[k].deps && d !in done;
      NothingBelowIsLeft(m, rank, done, d);
    }
  }

  lemma PickedIsDone(tasks: seq<PlanTask>, m: map<string, PlanTask>, rank: map<string, nat>, done: set<string>)
    requires Picks(tasks, m) && Ranked(m, rank) && Closed(m) && done <= Ids(tasks)
    requires forall t | t in tasks && t.id !in done :: Waits(t, done)
    ensures done == Ids(tasks)
  {
    forall k | k in m ensures k in done { NothingBelowIsLeft(m, rank, done, k); }
  }

  /** The tasks by which a driven plan was done. */
  lemma CarriedOutIsPicked(tasks: seq<PlanTask>) returns (q: map<string, PlanTask>, r: map<string, nat>)
    ensures var n := Drive(tasks, Start);
            && DoneInOrder(tasks, n, q, r) && DoneInTime(n, q, r) && (n.completed == Ids(tasks) ==> Picks(tasks, q))
            && forall t | t in tasks && t.id !in n.completed :: Waits(t, n.completed)
  {
    q, r := DriveEnds(tasks, Start, map[], map[]);
  }

  lemma TheRestIsStuck(tasks: seq<PlanTask>)
    ensures var done := Drive(tasks, Start).completed;
            done <= Ids(tasks) && forall t | t in tasks && t.id !in done :: Waits(t, done)
  {
    var q, r := CarriedOutIsPicked(tasks);
    var n := Drive(tasks, Start);
    forall k | k in n.completed ensures k in Ids(tasks) { assert q[k] in tasks && q[k].id == k; }
  }

  lemma PickedIsCarriedOut(tasks: seq<PlanTask>)
    requires CanBePicked(tasks)
    ensures Drive(tasks, Start).completed == Ids(tasks)
  {
    TheRestIsStuck(tasks);
    var m :| Picks(tasks, m) && Acyclic(m) && Closed(m);
    var rank :| Ranked(m, rank);
    PickedIsDone(tasks, m, rank, Drive(tasks, Start).completed);
  }

  /** Starting whatever is offered carries out the whole plan exactly when for each id a task can be chosen so that there is no
      cycle and no missing dependency. */
  lemma CarriedOutIffSound(tasks: seq<PlanTask>)
    ensures Drive(tasks, Start).completed == Ids(tasks) <==> CanBePicked(tasks)
    ensures UniqueIds(tasks) ==> (CanBePicked(tasks) <==> Acyclic(TaskMap(tasks)) && Closed(TaskMap(tasks)))
  {
    MapPicks(tasks);
    if CanBePicked(tasks) { PickedIsCarriedOut(tasks); }
    if Drive(tasks, Start).completed == Ids(tasks) {
      var q, r := CarriedOutIsPicked(tasks);
      assert Acyclic(q);
    }
  }

  /** Two tasks with one id, the second of which names itself. */
  const Repeated := [PlanTask("a", [], 1, 0, ""), PlanTask("a", ["a"], 1, 0, "")]

  lemma RepeatedMap()
    ensures TaskMap(Repeated) == map["a" := Repeated[1]] && Ids(Repeated) == {"a"}
  {
    var one := [Repeated[0]];
    assert Repeated[..1] == one && one[..0] == [];
    assert TaskMap(one) == map["a" := Repeated[0]];
    forall t | t in Repeated ensures t.id == "a" { }
    assert Repeated[0] in Repeated;
  }

  lemma RepeatedIsPicked()
    ensures CanBePicked(Repeated)
  {
    RepeatedMap();
    var m := map["a" := Repeated[0]];
    assert Picks(Repeated, m) && Ranked(m, map["a" := 0]) && Closed(m);
  }

  /** A plan can be carried out although the last task of an id, at which alone the critical path looks, waits for itself. */
  lemma RepeatedIsCarriedOut()
    ensures Drive(Repeated, Start).completed == Ids(Repeated) && !Acyclic(TaskMap(Repeated))
  {
    RepeatedIsPicked();
    CarriedOutIffSound(Repeated);
    RepeatedMap();
    OwnDependency(TaskMap(Repeated), "a");
  }

  lemma OwnDependency(m: map<string, PlanTask>, k: string)
    requires k in m && m[k].deps == [k]
    ensures !Acyclic(m)
  {
    assert [k][0] == k;
    assert k in m[k].deps;
  }

  // ---------- The makespan ----------

  /** No choice of tasks has a shorter critical path than the time in which the plan is carried out. */
  lemma MakespanIsAtMost(tasks: seq<PlanTask>, m: map<string, PlanTask>, rank: map<string, nat>)
    requires Picks(tasks, m) && Ranked(m, rank) && Closed(m)
    ensures Ranked(Timed(m), rank) && Drive(tasks, Start).now <= Critical(Timed(m), rank, tasks).duration
  {
    TimedRanked(m, rank);
    CriticalIsAPath(Timed(m), rank, tasks);
    forall k | k in m && !Waits(m[k], {}) ensures 0 <= BestOf(Timed(m), rank, k, m[k].deps).duration {
      BestIsAPath(Timed(m), rank, k, m[k].deps);
    }
    DriveIsBehind(tasks, m, rank, Start);
  }

  /** ... and one choice has just that. */
  lemma MakespanIsTaken(tasks: seq<PlanTask>) returns (m: map<string, PlanTask>, rank: map<string, nat>)
    requires CanBePicked(tasks)
    ensures Picks(tasks, m) && Ranked(m, rank) && Closed(m)
    ensures Ranked(Timed(m), rank) && Drive(tasks, Start).now == Critical(Timed(m), rank, tasks).duration
  {
    CarriedOutIffSound(tasks);
    m, rank := CarriedOutIsPicked(tasks);
    MakespanIsAtMost(tasks, m, rank);
    CriticalIsSomeLongest(Timed(m), rank, tasks);
  }

  /** Starting everything offered carries out a sound plan within the duration of its critical path, and in exactly that if no
      two tasks have the same id; negative estimates count as none. */
  lemma MakespanIsTheCriticalPath(tasks: seq<PlanTask>, rank: map<string, nat>)
    requires Ranked(TaskMap(tasks), rank) && Closed(TaskMap(tasks))
    ensures Ranked(Timed(TaskMap(tasks)), rank) && Drive(tasks, Start).completed == Ids(tasks)
    ensures var critical := Critical(Timed(TaskMap(tasks)), rank, tasks).duration;
            Drive(tasks, Start).now <= critical && (UniqueIds(tasks) ==> Drive(tasks, Start).now == critical)
  {
    MapPicks(tasks);
    CarriedOutIffSound(tasks);
    MakespanIsAtMost(tasks, TaskMap(tasks), rank);
    if UniqueIds(tasks) {
      var m, q := MakespanIsTaken(tasks);
      SameCritical(Timed(m), q, rank, tasks);
    }
  }

  lemma {:induction false} SameCritical(m: map<string, PlanTask>, r: map<string, nat>, q: map<string, nat>, tasks: seq<PlanTask>)
    requires Ranked(m, r) && Ranked(m, q)
    ensures Critical(m, r, tasks) == Critical(m, q, tasks)
  {
    if tasks != [] {
      SameCritical(m, r, q, tasks[..|tasks| - 1]);
      RankDoesNotMatter(m, r, q, tasks[|tasks| - 1].id);
    }
  }

  lemma {:induction false} CriticalIsSomeLongest(m: map<string, PlanTask>, rank: map<string, nat>, tasks: seq<PlanTask>)
    requires Ranked(m, rank)
    ensures var p := Critical(m, rank, tasks);
            p.duration == 0 || exists t :: t in tasks && Longest(m, rank, t.id).duration == p.duration
  {
    if tasks != [] {
      assert tasks == tasks[..|tasks| - 1] + [tasks[|tasks| - 1]];
      CriticalIsSomeLongest(m, rank, tasks[..|tasks| - 1]);
    }
  }

  /** Start times at which no task begins before time 0 or before its dependencies are finished. */
  ghost predicate Schedule(m: map<string, PlanTask>, start: map<string, int>) {
    forall t | t in m :: t in start && 0 <= start[t] &&
      forall d | d in m[t].deps && d in m :: d in start && start[d] + m[d].duration <= start[t]
  }

  lemma {:induction false} ScheduleTakesLongest(m: map<string, PlanTask>, rank: map<string, nat>, start: map<string, int>, t: string)
    requires Ranked(m, rank) && Schedule(m, start) && t in m
    ensures Longest(m, rank, t).duration <= start[t] + m[t].duration
    decreases Height(m, rank, t), 1, 0
  {
    ScheduleTakesBest(m, rank, start, t, m[t].deps);
  }

  lemma {:induction false} ScheduleTakesBest(m: map<string, PlanTask>, rank: map<string, nat>, start: map<string, int>,
                                             t: string, ds: seq<string>)
    requires Ranked(m, rank) && Schedule(m, start) && t in m && forall d | d in ds :: d in m[t].deps
    ensures BestOf(m, rank, t, ds).duration <= start[t]
    decreases Height(m, rank, t), 0, |ds|
  {
    if ds != [] {
      ScheduleTakesBest(m, rank, start, t, ds[..|ds| - 1]);
      if ds[|ds| - 1] in m { ScheduleTakesLongest(m, rank, start, ds[|ds| - 1]); }
    }
  }

  /** No schedule that respects the dependencies is over before the critical path is. */
  lemma NoScheduleIsShorter(tasks: seq<PlanTask>, rank: map<string, nat>, start: map<string, int>, end: nat)
    requires Ranked(TaskMap(tasks), rank) && Schedule(TaskMap(tasks), start)
    requires forall t | t in TaskMap(tasks) :: start[t] + TaskMap(tasks)[t].duration <= end
    ensures Critical(TaskMap(tasks), rank, tasks).duration <= end
  {
    var m := TaskMap(tasks);
    CriticalIsSomeLongest(m, rank, tasks);
    if t :| t in tasks && Longest(m, rank, t.id).duration == Critical(m, rank, tasks).duration {
      ScheduleTakesLongest(m, rank, start, t.id);
    }
  }
}
