/** Plans of the goal decomposition engine: dependency chains and the longest ones. */
module GoalPlan {
  import opened Prelude

  /** `duration` is the estimate in minutes, unchecked; an empty `fallback` is no fallback strategy. */
  datatype PlanTask = PlanTask(id: string, deps: seq<string>, duration: int, priority: int, fallback: string)

  /** `task_map` and the dependency graph: the last task of an id counts. */
  function TaskMap(tasks: seq<PlanTask>): (m: map<string, PlanTask>)
    ensures forall k | k in m :: m[k].id == k && m[k] in tasks
    ensures forall t | t in tasks :: t.id in m
  {
    if tasks == [] then map[]
    else
      assert tasks == tasks[..|tasks| - 1] + [tasks[|tasks| - 1]];
      TaskMap(tasks[..|tasks| - 1])[tasks[|tasks| - 1].id := tasks[|tasks| - 1]]
  }

  /** A dependency on a known task goes down in rank; missing tasks do not matter. */
  ghost predicate Ranked(m: map<string, PlanTask>, rank: map<string, nat>) {
    forall t | t in m :: t in rank && forall d | d in m[t].deps && d in m :: d in rank && rank[d] < rank[t]
  }

  ghost predicate Acyclic(m: map<string, PlanTask>) {
    exists rank :: Ranked(m, rank)
  }

  // ---------- The plain recursion ----------

  datatype Path = Path(duration: int, ids: seq<string>)

  ghost function Height(m: map<string, PlanTask>, rank: map<string, nat>, id: string): nat
    requires Ranked(m, rank)
  {
    if id in m then rank[id] + 1 else 0
  }

  /** `get_longest_path` without its memo table. */
  function Longest(m: map<string, PlanTask>, ghost rank: map<string, nat>, id: string): Path
    requires Ranked(m, rank)
    decreases Height(m, rank, id), 1, 0
  {
    if id !in m then Path(0, [])
    else
      var best := BestOf(m, rank, id, m[id].deps);
      Path(best.duration + m[id].duration, best.ids + [id])
  }

  /** The first of the longest paths to `ds`, if any is longer than 0. */
  function BestOf(m: map<string, PlanTask>, ghost rank: map<string, nat>, id: string, ds: seq<string>): Path
    requires Ranked(m, rank) && id in m && forall d | d in ds :: d in m[id].deps
    decreases Height(m, rank, id), 0, |ds|
  {
    if ds == [] then Path(0, [])
    else
      var best, last := BestOf(m, rank, id, ds[..|ds| - 1]), ds[|ds| - 1];
      var p := Longest(m, rank, last);
      if p.duration > best.duration then p else best
  }

  /** The first of the longest paths to the tasks of the list, if any is longer than 0. */
  function Critical(m: map<string, PlanTask>, ghost rank: map<string, nat>, tasks: seq<PlanTask>): Path
    requires Ranked(m, rank)
  {
    if tasks == [] then Path(0, [])
    else
      var best := Critical(m, rank, tasks[..|tasks| - 1]);
      var p := Longest(m, rank, tasks[|tasks| - 1].id);
      if p.duration > best.duration then p else best
  }

  // ---------- Chains ----------

  /** Known tasks, each named by the next one as a dependency. */
  ghost predicate Chain(m: map<string, PlanTask>, c: seq<string>) {
    && (forall i | 0 <= i < |c| :: c[i] in m)
    && (forall i | 0 < i < |c| :: c[i - 1] in m[c[i]].deps)
  }

  ghost function Total(m: map<string, PlanTask>, c: seq<string>): int
    requires forall i | 0 <= i < |c| :: c[i] in m
  {
    if c == [] then 0 else Total(m, c[..|c| - 1]) + m[c[|c| - 1]].duration
  }

  ghost predicate IsPath(m: map<string, PlanTask>, p: Path) {
    Chain(m, p.ids) && Total(m, p.ids) == p.duration
  }

  lemma {:induction false} LongestIsAPath(m: map<string, PlanTask>, rank: map<string, nat>, id: string)
    requires Ranked(m, rank) && id in m
    ensures var p := Longest(m, rank, id); IsPath(m, p) && p.ids != [] && p.ids[|p.ids| - 1] == id
    decreases Height(m, rank, id), 1, 0
  {
    BestIsAPath(m, rank, id, m[id].deps);
    var best := BestOf(m, rank, id, m[id].deps);
    assert (best.ids + [id])[..|best.ids|] == best.ids;
  }

  lemma {:induction false} BestIsAPath(m: map<string, PlanTask>, rank: map<string, nat>, id: string, ds: seq<string>)
    requires Ranked(m, rank) && id in m && forall d | d in ds :: d in m[id].deps
    ensures var p := BestOf(m, rank, id, ds); IsPath(m, p) && p.duration >= 0 && (p.ids == [] || p.ids[|p.ids| - 1] in ds)
    decreases Height(m, rank, id), 0, |ds|
  {
    if ds != [] {
      BestIsAPath(m, rank, id, ds[..|ds| - 1]);
      if ds[|ds| - 1] in m { LongestIsAPath(m, rank, ds[|ds| - 1]); }
    }
  }

  lemma {:induction false} BestIsBest(m: map<string, PlanTask>, rank: map<string, nat>, id: string, ds: seq<string>, d: string)
    requires Ranked(m, rank) && id in m && (forall x | x in ds :: x in m[id].deps) && d in ds
    ensures BestOf(m, rank, id, ds).duration >= Longest(m, rank, d).duration
  {
    if d != ds[|ds| - 1] {
      assert ds == ds[..|ds| - 1] + [ds[|ds| - 1]];
      BestIsBest(m, rank, id, ds[..|ds| - 1], d);
    }
  }

  /** No chain ending at a task takes longer than the longest path found to it, whatever the durations. */
  lemma {:induction false} LongestIsLongest(m: map<string, PlanTask>, rank: map<string, nat>, c: seq<string>)
    requires Ranked(m, rank) && Chain(m, c) && c != []
    ensures Total(m, c) <= Longest(m, rank, c[|c| - 1]).duration
  {
    var front, id := c[..|c| - 1], c[|c| - 1];
    BestIsAPath(m, rank, id, m[id].deps);
    if front != [] {
      LongestIsLongest(m, rank, front);
      BestIsBest(m, rank, id, m[id].deps, front[|front| - 1]);
    }
  }

  // ---------- The critical path ----------

  lemma {:induction false} CriticalIsAPath(m: map<string, PlanTask>, rank: map<string, nat>, tasks: seq<PlanTask>)
    requires Ranked(m, rank) && forall t | t in tasks :: t.id in m
    ensures var p := Critical(m, rank, tasks);
            IsPath(m, p) && p.duration >= 0 && forall t | t in tasks :: Longest(m, rank, t.id).duration <= p.duration
  {
    if tasks != [] {
      assert tasks == tasks[..|tasks| - 1] + [tasks[|tasks| - 1]];
      CriticalIsAPath(m, rank, tasks[..|tasks| - 1]);
      LongestIsAPath(m, rank, tasks[|tasks| - 1].id);
    }
  }

  /** The critical path is a chain of plan tasks, and no chain takes longer: for any durations, and with missing
      dependencies too. */
  lemma CriticalPathIsOptimal(tasks: seq<PlanTask>, rank: map<string, nat>, c: seq<string>)
    requires Ranked(TaskMap(tasks), rank) && Chain(TaskMap(tasks), c)
    ensures var m := TaskMap(tasks);
            var p := Critical(m, rank, tasks);
            Chain(m, p.ids) && Total(m, p.ids) == p.duration && Total(m, c) <= Total(m, p.ids)
  {
    var m := TaskMap(tasks);
    CriticalIsAPath(m, rank, tasks);
    if c != [] {
      LongestIsLongest(m, rank, c);
      assert m[c[|c| - 1]] in tasks;
    }
  }

  /** The recursion does not depend on which rank shows that it ends. */
  lemma {:induction false} RankDoesNotMatter(m: map<string, PlanTask>, r: map<string, nat>, q: map<string, nat>, id: string)
    requires Ranked(m, r) && Ranked(m, q)
    ensures Longest(m, r, id) == Longest(m, q, id)
    decreases Height(m, r, id), 1, 0
  {
    if id in m { RankDoesNotMatterForBest(m, r, q, id, m[id].deps); }
  }

  lemma {:induction false} RankDoesNotMatterForBest(m: map<string, PlanTask>, r: map<string, nat>, q: map<string, nat>,
                                                    id: string, ds: seq<string>)
    requires Ranked(m, r) && Ranked(m, q) && id in m && forall d | d in ds :: d in m[id].deps
    ensures BestOf(m, r, id, ds) == BestOf(m, q, id, ds)
    decreases Height(m, r, id), 0, |ds|
  {
    if ds != [] {
      RankDoesNotMatterForBest(m, r, q, id, ds[..|ds| - 1]);
      RankDoesNotMatter(m, r, q, ds[|ds| - 1]);
    }
  }
}
