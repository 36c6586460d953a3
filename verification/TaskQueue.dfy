/** The autonomous task queue as it runs. The heap is a list with the contract of `heapq`: a push adds an element, a pop
    takes a least one. The coroutines of tasks in execution are ghost. */
module TaskQueue {
  import opened Prelude
  import opened TaskQueueProtocol
  import P = TaskQueueProtocol

  class AutonomousTaskQueue {
    var tasks: map<TaskId, Task>
    var heap: seq<TaskId>
    var agentTasks: map<AgentId, seq<TaskId>>
    var available: seq<AgentId>
    ghost var created: multiset<TaskId>
    ghost var begun: multiset<TaskId>

    ghost function View(): State reads this { State(tasks, heap, agentTasks, available, created, begun) }

    constructor ()
      ensures View() == Empty
    {
      tasks, heap, agentTasks, available, created, begun := map[], [], map[], [], multiset{}, multiset{};
    }

    method RegisterAgent(a: AgentId)
      modifies this`available, this`agentTasks
      ensures View() == P.RegisterAgent(old(View()), a)
    {
      if a !in available {
        available := available + [a];
        agentTasks := agentTasks[a := []];
      }
    }

    method UnregisterAgent(a: AgentId)
      modifies this`available
      ensures View() == Next(old(View()), Unregister(a))
    {
      available := RemoveFirst(available, a);
    }

    method AddTask(id: TaskId, priority: int, maxAttempts: int)
      modifies this`tasks, this`heap
      ensures View() == P.AddTask(old(View()), id, priority, maxAttempts)
    {
      if id !in tasks {
        tasks := tasks[id := Task(priority, Pending, None, 0, maxAttempts)];
        heap := heap + [id];
      }
    }

    /** The first position of least priority value. */
    method LeastPosition() returns (least: nat)
      requires heap != [] && forall id | id in heap :: id in tasks
      ensures least < |heap| && Least(View(), least)
    {
      least := 0;
      for i := 1 to |heap|
        invariant least < |heap|
        invariant forall j | 0 <= j < i :: tasks[heap[least]].priority <= tasks[heap[j]].priority
      {
        if tasks[heap[i]].priority < tasks[heap[least]].priority {
          least := i;
        }
      }
    }

    method FirstFreeAgent() returns (free: Option<AgentId>)
      ensures free == FreeAgent(available, agentTasks)
    {
      var i := 0;
      while i < |available| && available[i] in agentTasks && |agentTasks[available[i]]| >= 3
        invariant i <= |available|
        invariant FreeAgent(available, agentTasks) == FreeAgent(available[i..], agentTasks)
      {
        assert available[i..][1..] == available[i + 1..];
        i := i + 1;
      }
      free := if i < |available| then Some(available[i]) else None;
    }

    /** `_process_queue`: it returns the position the heap popped. */
    method ProcessQueue() returns (ghost popped: nat)
      requires forall id | id in heap :: id in tasks
      modifies this`tasks, this`heap, this`agentTasks, this`created
      ensures View() == P.ProcessQueue(old(View()), popped)
      ensures Legal(old(View()), Process(popped))
    {
      popped := 0;
      var least := 0;
      if heap != [] {
        least := LeastPosition();
        popped := least;
      }
      var agent := FirstFreeAgent();
      if agent.Some? && heap != [] {
        var id := heap[least];
        heap := RemoveAt(heap, least);
        if tasks[id].status == Pending {
          Assign(id, agent.value);
        }
      }
    }

    method Assign(id: TaskId, a: AgentId)
      requires id in tasks
      modifies this`tasks, this`agentTasks, this`created
      ensures View() == AssignTask(old(View()), id, a)
    {
      tasks := tasks[id := tasks[id].(status := Assigned, assignedAgent := Some(a))];
      agentTasks := agentTasks[a := (if a in agentTasks then agentTasks[a] else []) + [id]];
      created := created + multiset{id};
    }

    /** `_execute_task`, up to the wait for the session. */
    method BeginExecution(id: TaskId)
      requires id in tasks
      modifies this`tasks, this`created, this`begun
      ensures View() == BeginTask(old(View()), id)
    {
      tasks := tasks[id := tasks[id].(status := Running)];
      tasks := tasks[id := tasks[id].(attempts := tasks[id].attempts + 1)];
      created, begun := created - multiset{id}, begun + multiset{id};
    }

    /** `_execute_task`, from the session's result on. */
    method EndExecution(id: TaskId, success: bool)
      requires id in tasks
      modifies this`tasks, this`heap, this`agentTasks, this`begun
      ensures View() == EndTask(old(View()), id, success)
    {
      var agent := tasks[id].assignedAgent;
      Conclude(id, success);
      TakeOffList(id, agent);
      begun := begun - multiset{id};
    }

    method Conclude(id: TaskId, success: bool)
      requires id in tasks
      modifies this`tasks, this`heap
      ensures tasks == ConcludedTasks(old(tasks), id, success)
      ensures heap == Retried(old(heap), id, Concluded(old(tasks)[id], success))
    {
      var task := tasks[id];
      if success {
        tasks := tasks[id := task.(status := Completed)];
      } else if task.attempts < task.maxAttempts {
        tasks := tasks[id := task.(status := Pending)];
        heap := heap + [id];
      } else {
        tasks := tasks[id := task.(status := Failed)];
      }
    }

    method TakeOffList(id: TaskId, a: Option<AgentId>)
      modifies this`agentTasks
      ensures agentTasks == OffList(old(agentTasks), id, a)
    {
      if a.Some? && a.value in agentTasks {
        agentTasks := agentTasks[a.value := RemoveFirst(agentTasks[a.value], id)];
      }
    }
  }
}
