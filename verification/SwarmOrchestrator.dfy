/** The orchestrator as it runs, over its own dictionaries, lists and queue. Every handler is proved to perform the
    step of the protocol that SwarmProtocol gives it. */
module SwarmOrchestrator {
  import opened Prelude
  import opened SwarmProtocol
  import P = SwarmProtocol
  import opened SwarmDispatch
  import opened SwarmSafety

  class Orchestrator {
    var tasks: map<TaskId, Task>
    var goals: seq<Goal>
    var agents: map<AgentId, Agent>
    var roster: seq<AgentId>
    var queue: seq<TaskId>

    ghost function View(): Swarm
      reads this
    {
      Swarm(tasks, goals, agents, roster, queue)
    }

    /** What the loops over the goals, the queue and the roster look up is there. */
    ghost predicate MembersKnown()
      reads this`goals, this`tasks
    {
      forall g | 0 <= g < |goals| :: forall t | t in goals[g].tasks :: t in tasks && t.goal == g
    }

    ghost predicate RosterKnown()
      reads this`roster, this`agents
    {
      forall a | a in roster :: a in agents
    }

    lemma InvKnowsAll()
      requires Inv(View())
      ensures MembersKnown() && RosterKnown() && forall t | t in queue :: t in tasks
      ensures forall t | t in tasks :: InGoal(View(), t) && t in goals[t.goal].tasks
    {
    }

    constructor ()
      ensures Inv(View()) && View() == Empty
    {
      tasks, goals, agents, roster, queue := map[], [], map[], [], [];
    }

    method RegisterAgent(agentId: AgentId, role: AgentRole)
      modifies this`agents, this`roster
      ensures View() == P.RegisterAgent(old(View()), agentId, role)
    {
      agents := agents[agentId := Agent(role, None, 0, 0, true, NewAgentScore)];
      if agentId !in roster { roster := roster + [agentId]; }
    }

    method SubmitGoal(subTasks: seq<NewTask>)
      modifies this`tasks, this`goals, this`queue
      ensures View() == P.SubmitGoal(old(View()), subTasks)
    {
      EnterTasks(subTasks);
      goals := goals + [Goal(Places(|goals|, |subTasks|), Pending)];
      QueueRoots(|goals| - 1, subTasks);
    }

    method EnterTasks(subTasks: seq<NewTask>)
      modifies this`tasks
      ensures tasks == AddTasks(old(tasks), |goals|, subTasks)
    {
      for i := 0 to |subTasks|
        invariant tasks == AddTasks(old(tasks), |goals|, subTasks[..i])
      {
        assert subTasks[..i + 1][..i] == subTasks[..i];
        tasks := tasks[TaskId(|goals|, i) := Task(subTasks[i].id, subTasks[i].deps, Pending, None)];
      }
      assert subTasks[..|subTasks|] == subTasks;
    }

    method QueueRoots(goal: nat, subTasks: seq<NewTask>)
      modifies this`queue
      ensures queue == old(queue) + Roots(goal, subTasks)
    {
      for i := 0 to |subTasks|
        invariant queue == old(queue) + Roots(goal, subTasks[..i])
      {
        assert subTasks[..i + 1][..i] == subTasks[..i];
        if subTasks[i].deps == [] {
          queue := queue + [TaskId(goal, i)];
        }
      }
      assert subTasks[..|subTasks|] == subTasks;
    }

    // ---------- Failure ----------

    method HandleTaskFailure(task: TaskId, agent: AgentId)
      requires task in tasks
      modifies this`queue, this`tasks, this`agents
      ensures View() == FailTask(old(View()), task, agent)
    {
      tasks := tasks[task := tasks[task].(status := Failed)];
      if agent in agents {
        agents := agents[agent := AfterFailure(agents[agent])];
      }
      tasks := tasks[task := tasks[task].(status := Pending, assignedAgent := None)];
      queue := queue + [task];
    }

    // ---------- The orchestration loop ----------

    method FindBestAgent() returns (best: Option<AgentId>)
      requires RosterKnown()
      ensures best == BestAgent(agents, roster)
      ensures best == None ==> forall i: nat :: !IdleAt(agents, roster, i)
      ensures best.Some? ==> exists i: nat :: IsFirstBest(agents, roster, i) && roster[i] == best.value
    {
      best := None;
      for i := 0 to |roster|
        invariant best == BestAgent(agents, roster[..i])
      {
        assert roster[..i + 1][..i] == roster[..i];
        var candidate := agents[roster[i]];
        if candidate.available && candidate.currentTask == None {
          if best == None || Suitability(candidate) > Suitability(agents[best.value]) {
            best := Some(roster[i]);
          }
        }
      }
      assert roster[..|roster|] == roster;
      ghost var place := BestIsFirstBest(agents, roster);
    }

    /** `delivered` is whether the message reaches the agent. */
    method AssignTask(task: TaskId, agent: AgentId, delivered: bool)
      requires task in tasks && agent in agents
      modifies this`queue, this`tasks, this`agents
      ensures View() == Trigger(P.AssignTask(old(View()), task, agent), task, agent, delivered)
    {
      tasks := tasks[task := tasks[task].(assignedAgent := Some(agent), status := Assigned)];
      agents := agents[agent := agents[agent].(currentTask := Some(task), available := false)];
      TriggerAgentExecution(agent, task, delivered);
    }

    method TriggerAgentExecution(agent: AgentId, task: TaskId, delivered: bool)
      requires task in tasks && agent in agents
      modifies this`queue, this`tasks, this`agents
      ensures View() == Trigger(old(View()), task, agent, delivered)
    {
      if delivered {
        tasks := tasks[task := tasks[task].(status := InProgress)];
      } else {
        HandleTaskFailure(task, agent);
      }
    }

    method OrchestrationTurn(delivered: bool)
      requires Inv(View())
      modifies this`queue, this`tasks, this`agents
      ensures View() == LoopTurn(old(View()), delivered) && Inv(View())
    {
      ghost var s := View();
      NextKeepsInv(s, Tick(delivered));
      InvKnowsAll();
      if queue == [] {
        CheckBlockedTasks();
      } else {
        DispatchFirst(delivered);
      }
    }

    method DispatchFirst(delivered: bool)
      requires queue != [] && queue[0] in tasks && RosterKnown()
      modifies this`queue, this`tasks, this`agents
      ensures View() == Dispatch(old(View()).(queue := old(queue)[1..]), old(queue)[0], delivered)
    {
      var task := queue[0];
      queue := queue[1..];
      var best := FindBestAgent();
      if best.Some? {
        AssignTask(task, best.value, delivered);
      } else {
        tasks := tasks[task := tasks[task].(status := Blocked)];
        queue := queue + [task];
      }
    }

    method CheckBlockedTasks()
      requires MembersKnown()
      modifies this`queue, this`tasks
      ensures View() == CheckBlocked(old(View()))
    {
      ghost var s := View();
      var all := goals;
      for g := 0 to |all|
        invariant tasks == SweptTasks(s, AllTaskIds(all[..g]))
        invariant queue == s.queue + Releasables(s, AllTaskIds(all[..g]))
      {
        ReleaseReady(g, s, AllTaskIds(all[..g]));
        assert all[..g + 1][..g] == all[..g];
      }
      assert all[..|all|] == all;
      SweptTasksIsCheckBlocked(s);
    }

    /** The inner loop of `_check_blocked_tasks`, over one goal; `seen` are the tasks looked at since `s`. */
    method ReleaseReady(g: nat, ghost s: Swarm, ghost seen: seq<TaskId>)
      requires g < |goals| && goals == s.goals
      requires forall t | t in goals[g].tasks :: InGoal(s, t) && t.goal == g
      requires tasks == SweptTasks(s, seen) && queue == s.queue + Releasables(s, seen)
      modifies this`queue, this`tasks
      ensures tasks == SweptTasks(s, seen + goals[g].tasks)
      ensures queue == s.queue + Releasables(s, seen + goals[g].tasks)
    {
      var members := goals[g].tasks;
      assert seen + members[..0] == seen;
      for i := 0 to |members|
        invariant tasks == SweptTasks(s, seen + members[..i])
        invariant queue == s.queue + Releasables(s, seen + members[..i])
      {
        TakeSnoc(seen, members, i);
        ReleaseIfReady(members[i], members, s, seen + members[..i]);
      }
      assert members[..|members|] == members;
    }

    /** The inner test of `_check_blocked_tasks`, for one task of the goal that lists `members`. */
    method ReleaseIfReady(t: TaskId, members: seq<TaskId>, ghost s: Swarm, ghost seen: seq<TaskId>)
      requires InGoal(s, t) && members == s.goals[t.goal].tasks
      requires tasks == SweptTasks(s, seen) && queue == s.queue + Releasables(s, seen)
      modifies this`queue, this`tasks
      ensures tasks == SweptTasks(s, seen + [t])
      ensures queue == s.queue + Releasables(s, seen + [t])
    {
      SweptSnoc(s, seen, t);
      if tasks[t].status == Blocked && DepsMet(tasks, members, tasks[t].deps) {
        tasks := tasks[t := tasks[t].(status := Pending)];
        queue := queue + [t];
      }
    }

    // ---------- report_task_complete ----------

    method ReportTaskComplete(taskId: Label, agentId: AgentId, success: bool)
      requires Inv(View())
      modifies this
      ensures View() == ReportTask(old(View()), taskId, agentId, success)
      ensures Legal(old(View()), Report(taskId, agentId, success)) ==> Inv(View())
    {
      ghost var s := View();
      if Legal(s, Report(taskId, agentId, success)) { NextKeepsInv(s, Report(taskId, agentId, success)); }
      InvKnowsAll();
      var task := FindTask(taskId);
      if task.Some? {
        FindMeans(s, taskId);
        if success {
          Complete(task.value, agentId, task.value.goal);
        } else {
          HandleTaskFailure(task.value, agentId);
        }
        if agentId in agents {
          agents := agents[agentId := Freed(agents[agentId])];
        }
      }
    }

    /** The search runs over all goals and remembers the last hit; within a goal it stops at the first. */
    method FindTask(taskId: Label) returns (task: Option<TaskId>)
      requires MembersKnown()
      ensures task == Find(View(), taskId)
    {
      task := None;
      for g := 0 to |goals|
        invariant task == FindAmong(tasks, goals[..g], taskId)
      {
        assert goals[..g + 1][..g] == goals[..g];
        var hit := FindInGoal(g, taskId);
        if hit.Some? {
          task := hit;
        }
      }
      assert goals[..|goals|] == goals;
    }

    /** The loop over the tasks of one goal. */
    method FindInGoal(g: nat, taskId: Label) returns (hit: Option<TaskId>)
      requires g < |goals| && MembersKnown()
      ensures hit == FindIn(tasks, goals[g].tasks, taskId)
    {
      var members := goals[g].tasks;
      for i := 0 to |members|
        invariant FindIn(tasks, members[..i], taskId) == None
      {
        assert members[..i + 1][..i] == members[..i];
        if tasks[members[i]].id == taskId {
          FoundStays(tasks, members, i + 1, taskId);
          return Some(members[i]);
        }
      }
      assert members[..|members|] == members;
      hit := None;
    }

    /** A success, up to the freeing of the agent. */
    method Complete(taskId: TaskId, agentId: AgentId, goal: nat)
      requires InGoal(View(), taskId) && goal == taskId.goal && MembersKnown()
      modifies this
      ensures View() == CheckGoal(UnlockDependents(MarkCompleted(old(View()), taskId, agentId), taskId), goal)
    {
      tasks := tasks[taskId := tasks[taskId].(status := Completed)];
      if agentId in agents {
        agents := agents[agentId := AfterSuccess(agents[agentId])];
      }
      UnlockDependentTasks(taskId);
      CheckGoalCompletion(goal);
    }

    method UnlockDependentTasks(done: TaskId)
      requires InGoal(View(), done) && MembersKnown()
      modifies this`queue
      ensures View() == UnlockDependents(old(View()), done)
    {
      ghost var s := View();
      var members, id := goals[done.goal].tasks, tasks[done].id;
      for i := 0 to |members|
        invariant queue == s.queue + Unlocked(s, id, members[..i])
      {
        assert members[..i + 1][..i] == members[..i];
        var t := members[i];
        if id in tasks[t].deps && DepsMet(tasks, members, tasks[t].deps) && tasks[t].status == Pending {
          queue := queue + [t];
        }
      }
      assert members[..|members|] == members;
    }

    method CheckGoalCompletion(g: nat)
      requires g < |goals| && MembersKnown()
      modifies this`goals
      ensures View() == CheckGoal(old(View()), g)
    {
      var allComplete := true;
      var members := goals[g].tasks;
      for i := 0 to |members|
        invariant allComplete <==> forall j | 0 <= j < i :: tasks[members[j]].status == Completed
      {
        allComplete := allComplete && tasks[members[i]].status == Completed;
      }
      assert allComplete <==> AllCompleted(tasks, members);
      if allComplete {
        goals := goals[g := goals[g].(status := Completed)];
      }
    }
  }

  /** What is found in the front of a list is what is found in the list. */
  lemma {:induction false} FoundStays(tasks: map<TaskId, Task>, members: seq<TaskId>, i: nat, id: Label)
    requires i <= |members| && FindIn(tasks, members[..i], id).Some?
    ensures FindIn(tasks, members, id) == FindIn(tasks, members[..i], id)
    decreases |members|
  {
    if i == |members| {
      assert members[..i] == members;
    } else {
      assert members[..|members| - 1][..i] == members[..i];
      FoundStays(tasks, members[..|members| - 1], i, id);
    }
  }

  function SweptTasks(s: Swarm, ids: seq<TaskId>): map<TaskId, Task> {
    map t | t in s.tasks :: if t in Releasables(s, ids) then s.tasks[t].(status := Pending) else s.tasks[t]
  }

  lemma SweptMet(s: Swarm, ids: seq<TaskId>, members: seq<TaskId>, d: Label)
    ensures Met(SweptTasks(s, ids), members, d) <==> Met(s.tasks, members, d)
  {
    ReleasablesAreBlocked(s, ids);
  }

  lemma SweptReady(s: Swarm, ids: seq<TaskId>, t: TaskId)
    requires InGoal(s, t)
    ensures DepsMet(SweptTasks(s, ids), s.goals[t.goal].tasks, s.tasks[t].deps) == Ready(s, t)
  {
    var members := s.goals[t.goal].tasks;
    forall d ensures Met(SweptTasks(s, ids), members, d) <==> Met(s.tasks, members, d) { SweptMet(s, ids, members, d); }
  }

  /** Releasing changes no completion, so the tests see the same readiness throughout. */
  lemma SweptSnoc(s: Swarm, ids: seq<TaskId>, t: TaskId)
    requires InGoal(s, t)
    ensures var swept, releases := SweptTasks(s, ids), Releasable(s, t) && t !in Releasables(s, ids);
            && Releasables(s, ids + [t]) == Releasables(s, ids) + (if releases then [t] else [])
            && SweptTasks(s, ids + [t]) == (if releases then swept[t := s.tasks[t].(status := Pending)] else swept)
            && swept[t].deps == s.tasks[t].deps && (swept[t].status == Blocked ==> swept[t] == s.tasks[t])
            && (releases <==> swept[t].status == Blocked
                              && DepsMet(swept, s.goals[t.goal].tasks, swept[t].deps))
  {
    assert (ids + [t])[..|ids|] == ids;
    ReleasablesAreBlocked(s, ids);
    SweptReady(s, ids, t);
  }

  lemma SweptTasksIsCheckBlocked(s: Swarm)
    ensures CheckBlocked(s) == s.(tasks := SweptTasks(s, AllTaskIds(s.goals)),
                                  queue := s.queue + Releasables(s, AllTaskIds(s.goals)))
    ensures forall t | t in Releasables(s, AllTaskIds(s.goals)) :: t in s.tasks
  {
    ReleasablesAreBlocked(s, AllTaskIds(s.goals));
  }
}
