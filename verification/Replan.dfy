/** Replanning after progress or a failure. */
module Replan {
  import opened Prelude
  import opened StableSort
  import opened GoalPlan
  import opened Makespan
  import opened SearchDepth
  import opened CriticalPath

  function Remaining(tasks: seq<PlanTask>, completed: set<string>): (r: seq<PlanTask>)
    ensures forall t :: t in r <==> t in tasks && t.id !in completed
  {
    if tasks == [] then []
    else
      assert tasks == tasks[..|tasks| - 1] + [tasks[|tasks| - 1]];
      Remaining(tasks[..|tasks| - 1], completed) + if tasks[|tasks| - 1].id in completed then [] else [tasks[|tasks| - 1]]
  }

  function FirstWithId(tasks: seq<PlanTask>, id: string): (r: Option<PlanTask>)
    ensures r.Some? ==> r.value in tasks && r.value.id == id
    ensures r == None ==> forall t | t in tasks :: t.id != id
  {
    if tasks == [] then None else if tasks[0].id == id then Some(tasks[0]) else FirstWithId(tasks[1..], id)
  }

  function Kept(deps: seq<string>, completed: set<string>): (r: seq<string>)
    ensures forall d :: d in r <==> d in deps && d in completed
  {
    if deps == [] then [] else (if deps[0] in completed then [deps[0]] else []) + Kept(deps[1..], completed)
  }

  function RetryId(failed: string): string { failed + "_retry" }

  /** The fallback task, if the failure and its reason are given and the failed task has a fallback strategy. */
  function Retry(tasks: seq<PlanTask>, completed: set<string>, failed: string, reason: string): Option<PlanTask> {
    var f := FirstWithId(tasks, failed);
    if failed != "" && reason != "" && f.Some? && f.value.fallback != ""
    then Some(PlanTask(RetryId(failed), Kept(f.value.deps, completed), f.value.duration, f.value.priority + 1, ""))
    else None
  }

  function Replanned(tasks: seq<PlanTask>, completed: set<string>, failed: string, reason: string): seq<PlanTask> {
    var retry := Retry(tasks, completed, failed, reason);
    Remaining(tasks, completed) + if retry.Some? then [retry.value] else []
  }

  /** Durations of the tasks of a list with repetitions. */
  function Minutes(tasks: seq<PlanTask>): int {
    if tasks == [] then 0 else Minutes(tasks[..|tasks| - 1]) + tasks[|tasks| - 1].duration
  }

  // ---------- The new plan's tasks ----------

  lemma MinutesSnoc(tasks: seq<PlanTask>, t: PlanTask)
    ensures Minutes(tasks + [t]) == Minutes(tasks) + t.duration
  {
    assert (tasks + [t])[..|tasks|] == tasks;
  }

  /** The total of a plan is the sum of its tasks. */
  lemma {:induction false} MinutesAre(a: seq<PlanTask>, b: seq<PlanTask>, t: PlanTask)
    ensures Minutes([]) == 0 && Minutes([t]) == t.duration && Minutes(a + b) == Minutes(a) + Minutes(b)
  {
    assert [t][..0] == [];
    if b == [] {
      assert a + b == a;
    } else {
      assert (a + b)[..|a + b| - 1] == a + b[..|b| - 1];
      MinutesAre(a, b[..|b| - 1], t);
    }
  }

  /** The minutes of the completed tasks of the plan. */
  function MinutesDone(tasks: seq<PlanTask>, completed: set<string>): int {
    if tasks == [] then 0
    else MinutesDone(tasks[..|tasks| - 1], completed)
         + if tasks[|tasks| - 1].id in completed then tasks[|tasks| - 1].duration else 0
  }

  lemma {:induction false} RemainingMinutes(tasks: seq<PlanTask>, completed: set<string>)
    ensures Minutes(Remaining(tasks, completed)) == Minutes(tasks) - MinutesDone(tasks, completed)
  {
    if tasks != [] {
      RemainingMinutes(tasks[..|tasks| - 1], completed);
      MinutesSnoc(Remaining(tasks[..|tasks| - 1], completed), tasks[|tasks| - 1]);
      assert Remaining(tasks[..|tasks| - 1], completed) + [] == Remaining(tasks[..|tasks| - 1], completed);
    }
  }

  /** Replanning takes the completed minutes off the total and adds those of the fallback task. */
  lemma ReplannedMinutes(tasks: seq<PlanTask>, completed: set<string>, failed: string, reason: string)
    ensures var retry := Retry(tasks, completed, failed, reason);
            Minutes(Replanned(tasks, completed, failed, reason))
            == Minutes(tasks) - MinutesDone(tasks, completed) + if retry.Some? then retry.value.duration else 0
  {
    RemainingMinutes(tasks, completed);
    var retry := Retry(tasks, completed, failed, reason);
    if retry.Some? {
      MinutesSnoc(Remaining(tasks, completed), retry.value);
    } else {
      assert Remaining(tasks, completed) + [] == Remaining(tasks, completed);
    }
  }

  lemma TaskMapSnoc(tasks: seq<PlanTask>, t: PlanTask)
    ensures TaskMap(tasks + [t]) == TaskMap(tasks)[t.id := t]
  {
    assert (tasks + [t])[..|tasks|] == tasks;
  }

  lemma WithoutUpdated<T>(m: map<string, T>, ks: set<string>, k: string, v: T)
    ensures m[k := v] - ks == if k in ks then m - ks else (m - ks)[k := v]
  {
  }

  /** Dropping the completed tasks drops their ids and nothing else. */
  lemma {:induction false} RemainingMap(tasks: seq<PlanTask>, completed: set<string>)
    ensures TaskMap(Remaining(tasks, completed)) == TaskMap(tasks) - completed
  {
    if tasks != [] {
      var front, last := tasks[..|tasks| - 1], tasks[|tasks| - 1];
      RemainingMap(front, completed);
      WithoutUpdated(TaskMap(front), completed, last.id, last);
      if last.id !in completed {
        TaskMapSnoc(Remaining(front, completed), last);
      } else {
        assert Remaining(front, completed) + [] == Remaining(front, completed);
      }
    }
  }

  lemma ReplannedMap(tasks: seq<PlanTask>, completed: set<string>, failed: string, reason: string)
    ensures var retry := Retry(tasks, completed, failed, reason);
            TaskMap(Replanned(tasks, completed, failed, reason))
            == if retry.Some? then (TaskMap(tasks) - completed)[RetryId(failed) := retry.value] else TaskMap(tasks) - completed
  {
    RemainingMap(tasks, completed);
    var retry := Retry(tasks, completed, failed, reason);
    if retry.Some? {
      TaskMapSnoc(Remaining(tasks, completed), retry.value);
    } else {
      assert Remaining(tasks, completed) + [] == Remaining(tasks, completed);
    }
  }

  // ---------- Acyclicity ----------

  /** The fallback task would depend on itself: its id already stands, completed, among the failed task's dependencies. */
  predicate SelfRetry(tasks: seq<PlanTask>, completed: set<string>, failed: string, reason: string) {
    var retry := Retry(tasks, completed, failed, reason);
    retry.Some? && RetryId(failed) in completed && RetryId(failed) in FirstWithId(tasks, failed).value.deps
  }

  lemma RankWithout(m: map<string, PlanTask>, ks: set<string>, rank: map<string, nat>)
    requires Ranked(m, rank)
    ensures Ranked(m - ks, rank)
  {
  }

  /** A task that depends on nothing in the plan can be put below everything. */
  lemma RankWith(m: map<string, PlanTask>, rank: map<string, nat>, r: string, t: PlanTask)
    requires Ranked(m, rank) && r !in t.deps && forall d | d in t.deps :: d !in m
    ensures Acyclic(m[r := t])
  {
    var q := map x | x in m[r := t] :: if x == r then 0 else rank[x] + 1;
    assert Ranked(m[r := t], q);
  }

  lemma ReplannedAcyclic(tasks: seq<PlanTask>, completed: set<string>, failed: string, reason: string, rank: map<string, nat>)
    requires Ranked(TaskMap(tasks), rank) && !SelfRetry(tasks, completed, failed, reason)
    ensures Acyclic(TaskMap(Replanned(tasks, completed, failed, reason)))
  {
    ReplannedMap(tasks, completed, failed, reason);
    RankWithout(TaskMap(tasks), completed, rank);
    var retry := Retry(tasks, completed, failed, reason);
    if retry.Some? { RankWith(TaskMap(tasks) - completed, rank, RetryId(failed), retry.value); }
  }

  /** Replanning an acyclic plan keeps it acyclic exactly when the fallback task does not name itself. */
  lemma ReplanKeepsAcyclicity(tasks: seq<PlanTask>, completed: set<string>, failed: string, reason: string)
    requires Acyclic(TaskMap(tasks))
    ensures Acyclic(TaskMap(Replanned(tasks, completed, failed, reason))) <==> !SelfRetry(tasks, completed, failed, reason)
  {
    if !SelfRetry(tasks, completed, failed, reason) {
      var rank :| Ranked(TaskMap(tasks), rank);
      ReplannedAcyclic(tasks, completed, failed, reason, rank);
    } else {
      ReplannedMap(tasks, completed, failed, reason);
      var n, id := TaskMap(Replanned(tasks, completed, failed, reason)), RetryId(failed);
      assert id in n && id in n[id].deps;
    }
  }

  // ---------- What is offered after replanning ----------

  /** The fallback task's id is new: no task has it or names it. */
  predicate FreshRetry(tasks: seq<PlanTask>, failed: string) {
    forall t | t in tasks :: t.id != RetryId(failed) && RetryId(failed) !in t.deps
  }

  /** The fallback task is offered at once, unless its id already counts as completed. */
  lemma RetryIsOffered(tasks: seq<PlanTask>, completed: set<string>, failed: string, reason: string)
    requires Retry(tasks, completed, failed, reason).Some?
    ensures var retry := Retry(tasks, completed, failed, reason).value;
            retry in ReadyTasks(Replanned(tasks, completed, failed, reason), completed) <==> RetryId(failed) !in completed
  {
    var retry := Retry(tasks, completed, failed, reason).value;
    assert retry in Replanned(tasks, completed, failed, reason);
  }

  /** Whenever the fallback task and the failed task are both offered, the fallback task is offered first. */
  lemma RetryComesFirst(tasks: seq<PlanTask>, completed: set<string>, failed: string, reason: string,
                        ready: seq<PlanTask>, i: nat, j: nat)
    requires Retry(tasks, completed, failed, reason).Some? && Sorted(ready, PriorityKey) && i < |ready| && j < |ready|
    requires ready[i] == Retry(tasks, completed, failed, reason).value && Some(ready[j]) == FirstWithId(tasks, failed)
    ensures i < j
  {
    assert !Geq(PriorityKey(ready[j]), PriorityKey(ready[i]));
  }

  /** `t` names the fallback task and waits for nothing else. */
  predicate WaitsForRetry(t: PlanTask, completed: set<string>, failed: string) {
    var r := RetryId(failed);
    r in t.deps && r !in completed && t.id !in completed + {r} && forall d | d in t.deps :: d == r || d in completed
  }

  lemma OfferedByRetryIff(t: PlanTask, completed: set<string>, failed: string)
    ensures Offered(t, completed + {RetryId(failed)}) && !Offered(t, completed) <==> WaitsForRetry(t, completed, failed)
  {
  }

  /** Completing the fallback task lets a task start exactly when that one names the fallback id and waits for nothing else. The
      failed task stays in the plan and keeps its dependents. */
  lemma RetryUnblocksIff(tasks: seq<PlanTask>, completed: set<string>, failed: string, reason: string, t: PlanTask)
    requires t in Replanned(tasks, completed, failed, reason)
    ensures var after, r := Replanned(tasks, completed, failed, reason), RetryId(failed);
            (t in ReadyTasks(after, completed + {r}) && t !in ReadyTasks(after, completed)) <==> WaitsForRetry(t, completed, failed)
  {
    OfferedByRetryIff(t, completed, failed);
  }

  /** It lets nothing else start exactly when no task left waits for it so; with a new id none does. */
  lemma RetryUnblocksNothingIff(tasks: seq<PlanTask>, completed: set<string>, failed: string, reason: string)
    ensures var after, r := Replanned(tasks, completed, failed, reason), RetryId(failed);
            (forall t | t in ReadyTasks(after, completed + {r}) :: t in ReadyTasks(after, completed))
            <==> forall t | t in after :: !WaitsForRetry(t, completed, failed)
    ensures FreshRetry(tasks, failed) ==>
              forall t | t in Replanned(tasks, completed, failed, reason) :: !WaitsForRetry(t, completed, failed)
  {
    var after, r := Replanned(tasks, completed, failed, reason), RetryId(failed);
    if t :| t in after && WaitsForRetry(t, completed, failed) {
      RetryUnblocksIff(tasks, completed, failed, reason, t);
    }
    if t :| t in ReadyTasks(after, completed + {r}) && t !in ReadyTasks(after, completed) {
      RetryUnblocksIff(tasks, completed, failed, reason, t);
    }
    if FreshRetry(tasks, failed) && Retry(tasks, completed, failed, reason).Some? {
      assert forall t | t in after :: t in tasks || t == Retry(tasks, completed, failed, reason).value;
    }
  }

  // ---------- replan ----------

  datatype GoalPlanRecord = GoalPlanRecord(tasks: seq<PlanTask>, criticalPath: seq<string>, totalMinutes: int)

  /** `replan`: it fails where the search for the critical path of the new plan does. */
  method ReplanGoal(tasks: seq<PlanTask>, completed: set<string>, failed: string, reason: string, depth: nat)
    returns (plan: Option<GoalPlanRecord>)
    ensures var after := Replanned(tasks, completed, failed, reason);
            CriticalWithin(TaskMap(after), depth, after).Some? ==> plan.Some?
    ensures plan.Some? ==>
              var after := Replanned(tasks, completed, failed, reason);
              && plan.value.tasks == after && Acyclic(TaskMap(after)) && Chain(TaskMap(after), plan.value.criticalPath)
              && forall c | Chain(TaskMap(after), c) :: Total(TaskMap(after), c) <= Total(TaskMap(after), plan.value.criticalPath)
    ensures plan.Some? ==>
              var retry := Retry(tasks, completed, failed, reason);
              plan.value.totalMinutes
              == Minutes(tasks) - MinutesDone(tasks, completed) + if retry.Some? then retry.value.duration else 0
  {
    var remaining := Remaining(tasks, completed);
    var retry := Retry(tasks, completed, failed, reason);
    if retry.Some? {
      remaining := remaining + [retry.value];
    }
    assert remaining == Replanned(tasks, completed, failed, reason);
    var criticalPath := FindCriticalPath(remaining, depth);
    if criticalPath == None {
      return None;
    }
    ReplannedMinutes(tasks, completed, failed, reason);
    plan := Some(GoalPlanRecord(remaining, criticalPath.value, Minutes(remaining)));
  }
}
