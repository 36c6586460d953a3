/** The memoised search for the critical path, on any plan. `depth` is how deep calls may nest; None is the failure of a
    search that nests deeper. */
module CriticalPath {
  import opened Prelude
  import opened GoalPlan
  import opened SearchDepth

  /** The plain recursion finds `p`, if calls may nest deep enough. */
  ghost predicate Gives(m: map<string, PlanTask>, id: string, p: Path) {
    exists k: nat :: Within(m, k, id) == Some(p)
  }

  ghost predicate BestGives(m: map<string, PlanTask>, ds: seq<string>, p: Path) {
    exists k: nat :: BestWithin(m, k, ds) == Some(p)
  }

  ghost predicate CriticalGives(m: map<string, PlanTask>, tasks: seq<PlanTask>, p: Path) {
    exists k: nat :: CriticalWithin(m, k, tasks) == Some(p)
  }

  /** The longer of two paths, the first one if they are equally long. */
  function Longer(best: Path, p: Path): Path {
    if p.duration > best.duration then p else best
  }

  lemma BestGivesSnoc(m: map<string, PlanTask>, ds: seq<string>, best: Path, d: string, p: Path)
    requires BestGives(m, ds, best) && Gives(m, d, p)
    ensures BestGives(m, ds + [d], Longer(best, p))
  {
    var j: nat :| BestWithin(m, j, ds) == Some(best);
    var k: nat :| Within(m, k, d) == Some(p);
    var n := Max(j, k);
    DeeperFindsTheSameBest(m, j, n, ds);
    DeeperFindsTheSame(m, k, n, d);
    assert (ds + [d])[..|ds|] == ds;
    assert BestWithin(m, n, ds + [d]) == Some(Longer(best, p));
  }

  lemma CriticalGivesSnoc(m: map<string, PlanTask>, tasks: seq<PlanTask>, best: Path, t: PlanTask, p: Path)
    requires CriticalGives(m, tasks, best) && Gives(m, t.id, p)
    ensures CriticalGives(m, tasks + [t], Longer(best, p))
  {
    var j: nat :| CriticalWithin(m, j, tasks) == Some(best);
    var k: nat :| Within(m, k, t.id) == Some(p);
    var n := Max(j, k);
    DeeperFindsTheSameCritical(m, j, n, tasks);
    DeeperFindsTheSame(m, k, n, t.id);
    assert (tasks + [t])[..|tasks|] == tasks;
    assert CriticalWithin(m, n, tasks + [t]) == Some(Longer(best, p));
  }

  lemma NothingGives(m: map<string, PlanTask>)
    ensures CriticalGives(m, [], Path(0, []))
  {
    assert CriticalWithin(m, 0, []) == Some(Path(0, []));
  }

  lemma NotFoundIsNotEnough(m: map<string, PlanTask>, depth: nat, tasks: seq<PlanTask>, i: nat)
    requires i < |tasks| && Within(m, depth, tasks[i].id) == None
    ensures CriticalWithin(m, depth, tasks) == None
  {
    if CriticalWithin(m, depth, tasks).Some? { CriticalFoundMeansEachFound(m, depth, tasks, tasks[i]); }
  }

  lemma TaskGives(m: map<string, PlanTask>, id: string, best: Path)
    requires id in m && BestGives(m, m[id].deps, best)
    ensures Gives(m, id, Path(best.duration + m[id].duration, best.ids + [id]))
  {
    var k: nat :| BestWithin(m, k, m[id].deps) == Some(best);
    assert Within(m, k + 1, id) == Some(Path(best.duration + m[id].duration, best.ids + [id]));
  }

  class CriticalPathSearch {
    const taskMap: map<string, PlanTask>
    var longestPath: map<string, Path>

    /** The memo table holds what the plain recursion gives. */
    ghost predicate Valid()
      reads this
    {
      forall id | id in longestPath :: id in taskMap && Gives(taskMap, id, longestPath[id])
    }

    constructor (tasks: seq<PlanTask>)
      ensures Valid() && taskMap == TaskMap(tasks) && longestPath == map[]
    {
      taskMap, longestPath := TaskMap(tasks), map[];
    }

    method GetLongestPath(taskId: string, depth: nat) returns (r: Option<Path>)
      requires Valid()
      modifies this`longestPath
      ensures Valid() && old(longestPath).Keys <= longestPath.Keys
      ensures r.Some? ==> Gives(taskMap, taskId, r.value)
      ensures Within(taskMap, depth, taskId).Some? ==> r.Some?
      decreases depth, 0
    {
      if depth == 0 {
        return None;
      }
      if taskId in longestPath {
        return Some(longestPath[taskId]);
      }
      if taskId !in taskMap {
        assert Within(taskMap, 1, taskId) == Some(Path(0, []));
        return Some(Path(0, []));
      }
      var best := BestDependency(taskMap[taskId].deps, depth - 1);
      if best == None {
        return None;
      }
      TaskGives(taskMap, taskId, best.value);
      var p := Path(best.value.duration + taskMap[taskId].duration, best.value.ids + [taskId]);
      longestPath := longestPath[taskId := p];
      r := Some(p);
    }

    /** The loop over the dependencies. */
    method BestDependency(deps: seq<string>, depth: nat) returns (r: Option<Path>)
      requires Valid()
      modifies this`longestPath
      ensures Valid() && old(longestPath).Keys <= longestPath.Keys
      ensures r.Some? ==> BestGives(taskMap, deps, r.value)
      ensures BestWithin(taskMap, depth, deps).Some? ==> r.Some?
      decreases depth, |deps| + 1
    {
      var best := Path(0, []);
      assert BestWithin(taskMap, 0, []) == Some(best);
      for i := 0 to |deps|
        invariant Valid() && old(longestPath).Keys <= longestPath.Keys
        invariant BestGives(taskMap, deps[..i], best)
      {
        var p := GetLongestPath(deps[i], depth);
        if p == None {
          if BestWithin(taskMap, depth, deps).Some? { BestFoundMeansEachFound(taskMap, depth, deps, deps[i]); }
          return None;
        }
        BestGivesSnoc(taskMap, deps[..i], best, deps[i], p.value);
        assert deps[..i] + [deps[i]] == deps[..i + 1];
        if p.value.duration > best.duration {
          best := p.value;
        }
      }
      assert deps[..|deps|] == deps;
      r := Some(best);
    }

    /** The loop over the tasks. */
    method LongestOf(tasks: seq<PlanTask>, depth: nat) returns (r: Option<Path>)
      requires Valid()
      modifies this`longestPath
      ensures r.Some? ==> CriticalGives(taskMap, tasks, r.value)
      ensures CriticalWithin(taskMap, depth, tasks).Some? ==> r.Some?
    {
      var best := Path(0, []);
      NothingGives(taskMap);
      for i := 0 to |tasks|
        invariant Valid()
        invariant CriticalGives(taskMap, tasks[..i], best)
      {
        var p := GetLongestPath(tasks[i].id, depth);
        if p == None {
          NotFoundIsNotEnough(taskMap, depth, tasks, i);
          return None;
        }
        CriticalGivesSnoc(taskMap, tasks[..i], best, tasks[i], p.value);
        assert tasks[..i] + [tasks[i]] == tasks[..i + 1];
        if p.value.duration > best.duration {
          best := p.value;
        }
      }
      assert tasks[..|tasks|] == tasks;
      r := Some(best);
    }
  }

  /** A search that ends has found a longest of all chains, on a plan that has no cycle. */
  lemma FoundIsOptimal(tasks: seq<PlanTask>, p: Path)
    requires CriticalGives(TaskMap(tasks), tasks, p)
    ensures Acyclic(TaskMap(tasks)) && Chain(TaskMap(tasks), p.ids) && Total(TaskMap(tasks), p.ids) == p.duration
    ensures forall c | Chain(TaskMap(tasks), c) :: Total(TaskMap(tasks), c) <= p.duration
  {
    var m := TaskMap(tasks);
    var k: nat :| CriticalWithin(m, k, tasks) == Some(p);
    SearchEndsIffAcyclic(tasks);
    var rank :| Ranked(m, rank);
    FoundIsCritical(tasks, k, rank);
    assert Chain(m, []);
    CriticalPathIsOptimal(tasks, rank, []);
    forall c | Chain(m, c) ensures Total(m, c) <= p.duration { CriticalPathIsOptimal(tasks, rank, c); }
  }

  method LongestOfAll(tasks: seq<PlanTask>, depth: nat) returns (longest: Option<Path>)
    ensures longest.Some? ==> CriticalGives(TaskMap(tasks), tasks, longest.value)
    ensures CriticalWithin(TaskMap(tasks), depth, tasks).Some? ==> longest.Some?
  {
    var search := new CriticalPathSearch(tasks);
    longest := search.LongestOf(tasks, depth);
  }

  /** `_find_critical_path`: it fails on every cyclic plan, and on an acyclic one only for want of depth. */
  method FindCriticalPath(tasks: seq<PlanTask>, depth: nat) returns (criticalPath: Option<seq<string>>)
    ensures criticalPath.Some? ==>
              && Acyclic(TaskMap(tasks)) && Chain(TaskMap(tasks), criticalPath.value)
              && forall c | Chain(TaskMap(tasks), c) :: Total(TaskMap(tasks), c) <= Total(TaskMap(tasks), criticalPath.value)
    ensures CriticalWithin(TaskMap(tasks), depth, tasks).Some? ==> criticalPath.Some?
  {
    var best := LongestOfAll(tasks, depth);
    if best == None {
      return None;
    }
    FoundIsOptimal(tasks, best.value);
    criticalPath := Some(best.value.ids);
  }
}
