/** The search for the longest path as it runs on any plan, cyclic ones included: with a limit on how deep the calls may
    nest, beyond which it fails. */
module SearchDepth {
  import opened Prelude
  import opened GoalPlan

  /** `get_longest_path` without its memo table, in at most `depth` nested calls. */
  function Within(m: map<string, PlanTask>, depth: nat, id: string): Option<Path>
    decreases depth, 0
  {
    if depth == 0 then None
    else if id !in m then Some(Path(0, []))
    else match BestWithin(m, depth - 1, m[id].deps)
      case None => None
      case Some(best) => Some(Path(best.duration + m[id].duration, best.ids + [id]))
  }

  /** The first of the longest paths to `ds`, if any is longer than 0. */
  function BestWithin(m: map<string, PlanTask>, depth: nat, ds: seq<string>): Option<Path>
    decreases depth, |ds| + 1
  {
    if ds == [] then Some(Path(0, []))
    else
      var best, p := BestWithin(m, depth, ds[..|ds| - 1]), Within(m, depth, ds[|ds| - 1]);
      if best == None || p == None then None
      else if p.value.duration > best.value.duration then p else best
  }

  /** The first of the longest paths to the tasks of the list, if any is longer than 0. */
  function CriticalWithin(m: map<string, PlanTask>, depth: nat, tasks: seq<PlanTask>): Option<Path> {
    if tasks == [] then Some(Path(0, []))
    else
      var best, p := CriticalWithin(m, depth, tasks[..|tasks| - 1]), Within(m, depth, tasks[|tasks| - 1].id);
      if best == None || p == None then None
      else if p.value.duration > best.value.duration then p else best
  }

  // ---------- More depth changes nothing that was found ----------

  lemma {:induction false} DeeperFindsTheSame(m: map<string, PlanTask>, depth: nat, deeper: nat, id: string)
    requires depth <= deeper && Within(m, depth, id).Some?
    ensures Within(m, deeper, id) == Within(m, depth, id)
    decreases depth, 0
  {
    if id in m { DeeperFindsTheSameBest(m, depth - 1, deeper - 1, m[id].deps); }
  }

  lemma {:induction false} DeeperFindsTheSameBest(m: map<string, PlanTask>, depth: nat, deeper: nat, ds: seq<string>)
    requires depth <= deeper && BestWithin(m, depth, ds).Some?
    ensures BestWithin(m, deeper, ds) == BestWithin(m, depth, ds)
    decreases depth, |ds| + 1
  {
    if ds != [] {
      DeeperFindsTheSameBest(m, depth, deeper, ds[..|ds| - 1]);
      DeeperFindsTheSame(m, depth, deeper, ds[|ds| - 1]);
    }
  }

  lemma {:induction false} DeeperFindsTheSameCritical(m: map<string, PlanTask>, depth: nat, deeper: nat, tasks: seq<PlanTask>)
    requires depth <= deeper && CriticalWithin(m, depth, tasks).Some?
    ensures CriticalWithin(m, deeper, tasks) == CriticalWithin(m, depth, tasks)
  {
    if tasks != [] {
      DeeperFindsTheSameCritical(m, depth, deeper, tasks[..|tasks| - 1]);
      DeeperFindsTheSame(m, depth, deeper, tasks[|tasks| - 1].id);
    }
  }

  // ---------- On an acyclic plan it ends, and agrees with the plain recursion ----------

  lemma {:induction false} EnoughDepth(m: map<string, PlanTask>, rank: map<string, nat>, depth: nat, id: string)
    requires Ranked(m, rank) && depth > Height(m, rank, id)
    ensures Within(m, depth, id) == Some(Longest(m, rank, id))
    decreases depth, 0
  {
    if id in m { EnoughDepthForBest(m, rank, depth - 1, id, m[id].deps); }
  }

  lemma {:induction false} EnoughDepthForBest(m: map<string, PlanTask>, rank: map<string, nat>, depth: nat, id: string,
                                             ds: seq<string>)
    requires Ranked(m, rank) && id in m && depth >= Height(m, rank, id) && forall d | d in ds :: d in m[id].deps
    ensures BestWithin(m, depth, ds) == Some(BestOf(m, rank, id, ds))
    decreases depth, |ds| + 1
  {
    if ds != [] {
      EnoughDepthForBest(m, rank, depth, id, ds[..|ds| - 1]);
      EnoughDepth(m, rank, depth, ds[|ds| - 1]);
    }
  }

  ghost predicate DeepEnough(m: map<string, PlanTask>, rank: map<string, nat>, depth: nat, tasks: seq<PlanTask>)
    requires Ranked(m, rank)
  {
    forall i | 0 <= i < |tasks| :: depth > Height(m, rank, tasks[i].id)
  }

  lemma {:induction false} EnoughDepthForAll(m: map<string, PlanTask>, rank: map<string, nat>, depth: nat, tasks: seq<PlanTask>)
    requires Ranked(m, rank) && DeepEnough(m, rank, depth, tasks)
    ensures CriticalWithin(m, depth, tasks) == Some(Critical(m, rank, tasks))
  {
    if tasks != [] {
      EnoughDepthForAll(m, rank, depth, tasks[..|tasks| - 1]);
      EnoughDepth(m, rank, depth, tasks[|tasks| - 1].id);
    }
  }

  lemma {:induction false} HeightBound(m: map<string, PlanTask>, rank: map<string, nat>, tasks: seq<PlanTask>)
    returns (depth: nat)
    requires Ranked(m, rank)
    ensures DeepEnough(m, rank, depth, tasks)
  {
    depth := 0;
    if tasks != [] {
      var front := tasks[..|tasks| - 1];
      var d := HeightBound(m, rank, front);
      depth := Max(d, Height(m, rank, tasks[|tasks| - 1].id) + 1);
    }
  }

  // ---------- Where it ends, the plan is acyclic ----------

  /** The least depth that suffices for `id`, up to `depth`, which does. */
  function LeastDepth(m: map<string, PlanTask>, depth: nat, id: string): (r: nat)
    requires Within(m, depth, id).Some?
    ensures 0 < r <= depth && Within(m, r, id).Some? && !Within(m, r - 1, id).Some?
  {
    if Within(m, depth - 1, id).Some? then LeastDepth(m, depth - 1, id) else depth
  }

  lemma LeastIsLeast(m: map<string, PlanTask>, depth: nat, k: nat, id: string)
    requires Within(m, depth, id).Some? && Within(m, k, id).Some?
    ensures LeastDepth(m, depth, id) <= k
  {
    if k < LeastDepth(m, depth, id) { DeeperFindsTheSame(m, k, LeastDepth(m, depth, id) - 1, id); }
  }

  lemma {:induction false} BestFoundMeansEachFound(m: map<string, PlanTask>, depth: nat, ds: seq<string>, d: string)
    requires BestWithin(m, depth, ds).Some? && d in ds
    ensures Within(m, depth, d).Some?
  {
    if d != ds[|ds| - 1] {
      assert ds == ds[..|ds| - 1] + [ds[|ds| - 1]];
      BestFoundMeansEachFound(m, depth, ds[..|ds| - 1], d);
    }
  }

  lemma {:induction false} CriticalFoundMeansEachFound(m: map<string, PlanTask>, depth: nat, tasks: seq<PlanTask>, t: PlanTask)
    requires CriticalWithin(m, depth, tasks).Some? && t in tasks
    ensures Within(m, depth, t.id).Some?
  {
    if t != tasks[|tasks| - 1] {
      assert tasks == tasks[..|tasks| - 1] + [tasks[|tasks| - 1]];
      CriticalFoundMeansEachFound(m, depth, tasks[..|tasks| - 1], t);
    }
  }

  lemma FoundIsRanked(m: map<string, PlanTask>, depth: nat) returns (rank: map<string, nat>)
    requires forall t | t in m :: Within(m, depth, t).Some?
    ensures Ranked(m, rank)
  {
    rank := map t | t in m :: LeastDepth(m, depth, t);
    forall t, d | t in m && d in m[t].deps && d in m ensures rank[d] < rank[t] {
      BestFoundMeansEachFound(m, rank[t] - 1, m[t].deps, d);
      LeastIsLeast(m, depth, rank[t] - 1, d);
    }
  }

  /** The search for the critical path ends, in some depth of calls, exactly when the plan has no cycle. */
  lemma SearchEndsIffAcyclic(tasks: seq<PlanTask>)
    ensures (exists depth: nat :: CriticalWithin(TaskMap(tasks), depth, tasks).Some?) <==> Acyclic(TaskMap(tasks))
  {
    var m := TaskMap(tasks);
    if depth: nat :| CriticalWithin(m, depth, tasks).Some? {
      forall t | t in m ensures Within(m, depth, t).Some? { CriticalFoundMeansEachFound(m, depth, tasks, m[t]); }
      var rank := FoundIsRanked(m, depth);
    }
    if rank :| Ranked(m, rank) {
      var depth := HeightBound(m, rank, tasks);
      EnoughDepthForAll(m, rank, depth, tasks);
    }
  }

  /** What the search finds, in whatever depth, is what the plain recursion gives. */
  lemma FoundIsCritical(tasks: seq<PlanTask>, depth: nat, rank: map<string, nat>)
    requires CriticalWithin(TaskMap(tasks), depth, tasks).Some? && Ranked(TaskMap(tasks), rank)
    ensures CriticalWithin(TaskMap(tasks), depth, tasks) == Some(Critical(TaskMap(tasks), rank, tasks))
  {
    var m := TaskMap(tasks);
    var enough := HeightBound(m, rank, tasks);
    EnoughDepthForAll(m, rank, enough, tasks);
    if depth <= enough {
      DeeperFindsTheSameCritical(m, depth, enough, tasks);
    } else {
      DeeperFindsTheSameCritical(m, enough, depth, tasks);
    }
  }
}
