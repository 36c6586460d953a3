/** The swarm orchestrator as a protocol: its state, and one atomic step per handler. */
module SwarmProtocol {
  import opened Prelude

  type AgentId = string

  /** What reports and dependencies name a task by. */
  type Label = string

  /** A task object: the goal that lists it, and its place in the list. Goals and their lists only grow. */
  datatype TaskId = TaskId(goal: nat, position: nat)

  datatype TaskStatus = Pending | Assigned | InProgress | Completed | Failed | Blocked

  datatype AgentRole = Planner | Executor | Reviewer | Supervisor | Specialist

  datatype Task = Task(id: Label, deps: seq<Label>, status: TaskStatus, assignedAgent: Option<AgentId>)

  /** `score` is the performance score in tenths. The source keeps the label of the current task and only ever looks whether
      there is one. */
  datatype Agent = Agent(role: AgentRole, currentTask: Option<TaskId>, tasksCompleted: nat, tasksFailed: nat,
                         available: bool, score: int)

  datatype Goal = Goal(tasks: seq<TaskId>, status: TaskStatus)

  /** Goals and agents in the order in which they were entered. */
  datatype Swarm = Swarm(tasks: map<TaskId, Task>, goals: seq<Goal>,
                         agents: map<AgentId, Agent>, roster: seq<AgentId>, queue: seq<TaskId>)

  datatype NewTask = NewTask(id: Label, deps: seq<Label>)

  /** What the outside world can make the orchestrator do. `Tick` is one turn of the orchestration loop;
      `delivered` is whether the message to the chosen agent goes out. */
  datatype Event =
    | Register(agent: AgentId, role: AgentRole)
    | Submit(subTasks: seq<NewTask>)
    | Tick(delivered: bool)
    | Report(id: Label, reporter: AgentId, success: bool)

  const Empty := Swarm(map[], [], map[], [], [])

  // ---------- Shared tests ----------

  predicate Carries(tasks: map<TaskId, Task>, t: TaskId, id: Label) {
    t in tasks && tasks[t].id == id
  }

  /** Some task among `members` with this label is COMPLETED. */
  predicate Met(tasks: map<TaskId, Task>, members: seq<TaskId>, id: Label) {
    exists t | t in members :: Carries(tasks, t, id) && tasks[t].status == Completed
  }

  predicate DepsMet(tasks: map<TaskId, Task>, members: seq<TaskId>, deps: seq<Label>) {
    forall d | d in deps :: Met(tasks, members, d)
  }

  predicate InGoal(s: Swarm, t: TaskId) {
    t in s.tasks && t.goal < |s.goals|
  }

  /** Each dependency of `t` is met by a task of its own goal. */
  predicate Ready(s: Swarm, t: TaskId)
    requires InGoal(s, t)
  {
    DepsMet(s.tasks, s.goals[t.goal].tasks, s.tasks[t].deps)
  }

  predicate AllCompleted(tasks: map<TaskId, Task>, members: seq<TaskId>) {
    forall t | t in members :: t in tasks && tasks[t].status == Completed
  }

  // ---------- register_agent and submit_goal ----------

  const NewAgentScore := 10

  function RegisterAgent(s: Swarm, a: AgentId, role: AgentRole): Swarm {
    s.(agents := s.agents[a := Agent(role, None, 0, 0, true, NewAgentScore)],
       roster := if a in s.roster then s.roster else s.roster + [a])
  }

  /** The first `n` places in goal `g`. */
  function Places(g: nat, n: nat): (r: seq<TaskId>)
    ensures |r| == n && forall i | 0 <= i < n :: r[i] == TaskId(g, i)
  {
    seq(n, i requires 0 <= i < n => TaskId(g, i))
  }

  /** The tasks that wait for nothing, in order. */
  function Roots(goal: nat, ts: seq<NewTask>): (r: seq<TaskId>) {
    if ts == [] then [] else
    var k := |ts| - 1;
    Roots(goal, ts[..k]) + if ts[k].deps == [] then [TaskId(goal, k)] else []
  }

  function AddTasks(tasks: map<TaskId, Task>, goal: nat, ts: seq<NewTask>): (r: map<TaskId, Task>) {
    if ts == [] then tasks else
    var k := |ts| - 1;
    AddTasks(tasks, goal, ts[..k])[TaskId(goal, k) := Task(ts[k].id, ts[k].deps, Pending, None)]
  }

  /** Every submission enters new objects, whatever their labels. */
  function SubmitGoal(s: Swarm, ts: seq<NewTask>): Swarm {
    s.(tasks := AddTasks(s.tasks, |s.goals|, ts),
       goals := s.goals + [Goal(Places(|s.goals|, |ts|), Pending)],
       queue := s.queue + Roots(|s.goals|, ts))
  }

  // ---------- The orchestration loop ----------

  predicate Idle(a: Agent) { a.available && a.currentTask == None }

  function Suitability(a: Agent): int { a.score + if a.role == Executor then 5 else 0 }

  /** The first agent of highest suitability among the idle ones: a stable descending sort puts it first. */
  function BestAgent(agents: map<AgentId, Agent>, roster: seq<AgentId>): (r: Option<AgentId>)
    ensures r.Some? ==> r.value in roster && r.value in agents && Idle(agents[r.value])
    ensures forall a | a in roster && a in agents && Idle(agents[a]) ::
              r.Some? && agents[a].score + (if agents[a].role == Executor then 5 else 0)
                         <= agents[r.value].score + if agents[r.value].role == Executor then 5 else 0
  {
    if roster == [] then None else
    assert roster == roster[..|roster| - 1] + [roster[|roster| - 1]];
    var last := roster[|roster| - 1];
    var best := BestAgent(agents, roster[..|roster| - 1]);
    if last !in agents || !Idle(agents[last]) then best
    else if best == None || Suitability(agents[last]) > Suitability(agents[best.value]) then Some(last)
    else best
  }

  /** The agent's record after a failure, after a success, and once it is free again. */
  function AfterFailure(a: Agent): Agent {
    a.(tasksFailed := a.tasksFailed + 1, score := Max(1, a.score - 2), currentTask := None, available := true)
  }

  function AfterSuccess(a: Agent): Agent {
    a.(tasksCompleted := a.tasksCompleted + 1, score := Min(20, a.score + 1))
  }

  function Freed(a: Agent): Agent {
    a.(currentTask := None, available := true)
  }

  /** `_handle_task_failure`: back to PENDING, unassigned, at the end of the queue; the agent, if known, is freed. */
  function FailTask(s: Swarm, t: TaskId, a: AgentId): Swarm
    requires t in s.tasks
  {
    s.(tasks := s.tasks[t := s.tasks[t].(status := Pending, assignedAgent := None)],
       agents := if a in s.agents then s.agents[a := AfterFailure(s.agents[a])] else s.agents,
       queue := s.queue + [t])
  }

  /** `_assign_task`, up to the moment the message is sent. */
  function AssignTask(s: Swarm, t: TaskId, a: AgentId): Swarm
    requires t in s.tasks && a in s.agents
  {
    s.(tasks := s.tasks[t := s.tasks[t].(status := Assigned, assignedAgent := Some(a))],
       agents := s.agents[a := s.agents[a].(currentTask := Some(t), available := false)])
  }

  /** `_trigger_agent_execution`: a failed delivery counts as a failure of the task. */
  function Trigger(s: Swarm, t: TaskId, a: AgentId, delivered: bool): Swarm
    requires t in s.tasks && a in s.agents
  {
    if delivered then s.(tasks := s.tasks[t := s.tasks[t].(status := InProgress)])
    else FailTask(s, t, a)
  }

  /** The task at the head of the queue, already taken out of it, is assigned or put back as BLOCKED. */
  function Dispatch(s: Swarm, t: TaskId, delivered: bool): Swarm
    requires t in s.tasks
  {
    var best := BestAgent(s.agents, s.roster);
    if best.Some?
    then Trigger(AssignTask(s, t, best.value), t, best.value, delivered)
    else s.(tasks := s.tasks[t := s.tasks[t].(status := Blocked)], queue := s.queue + [t])
  }

  predicate Releasable(s: Swarm, t: TaskId) {
    InGoal(s, t) && s.tasks[t].status == Blocked && Ready(s, t)
  }

  /** The blocked tasks among `ids` whose dependencies are met, in order; once released, a task is not blocked. */
  function Releasables(s: Swarm, ids: seq<TaskId>): (r: seq<TaskId>) {
    if ids == [] then [] else
    var last, before := ids[|ids| - 1], Releasables(s, ids[..|ids| - 1]);
    before + if Releasable(s, last) && last !in before then [last] else []
  }

  function AllTaskIds(goals: seq<Goal>): seq<TaskId> {
    if goals == [] then [] else AllTaskIds(goals[..|goals| - 1]) + goals[|goals| - 1].tasks
  }

  /** `_check_blocked_tasks`, run when the queue stayed empty. */
  function CheckBlocked(s: Swarm): Swarm {
    var released := Releasables(s, AllTaskIds(s.goals));
    s.(tasks := map t | t in s.tasks :: if t in released then s.tasks[t].(status := Pending) else s.tasks[t],
       queue := s.queue + released)
  }

  function LoopTurn(s: Swarm, delivered: bool): Swarm {
    if s.queue == [] then CheckBlocked(s)
    else if s.queue[0] in s.tasks then Dispatch(s.(queue := s.queue[1..]), s.queue[0], delivered)
    else s.(queue := s.queue[1..])
  }

  // ---------- report_task_complete ----------

  /** The first task in the list that carries the label. */
  function FindIn(tasks: map<TaskId, Task>, members: seq<TaskId>, id: Label): (r: Option<TaskId>) {
    if members == [] then None
    else
      var front, last := FindIn(tasks, members[..|members| - 1], id), members[|members| - 1];
      if front.Some? then front else if Carries(tasks, last, id) then Some(last) else None
  }

  /** The search runs through all goals, and a later hit replaces an earlier one. */
  function FindAmong(tasks: map<TaskId, Task>, goals: seq<Goal>, id: Label): (r: Option<TaskId>) {
    if goals == [] then None
    else
      var last := FindIn(tasks, goals[|goals| - 1].tasks, id);
      if last.Some? then last else FindAmong(tasks, goals[..|goals| - 1], id)
  }

  /** The task that a report with this label is about. */
  function Find(s: Swarm, id: Label): Option<TaskId> {
    FindAmong(s.tasks, s.goals, id)
  }

  predicate Unlockable(s: Swarm, done: Label, t: TaskId) {
    InGoal(s, t) && done in s.tasks[t].deps && Ready(s, t) && s.tasks[t].status == Pending
  }

  /** The tasks among `ids` that the completion of a task labelled `done` lets into the queue, in order. */
  function Unlocked(s: Swarm, done: Label, ids: seq<TaskId>): (r: seq<TaskId>) {
    if ids == [] then [] else
    var last := ids[|ids| - 1];
    Unlocked(s, done, ids[..|ids| - 1]) + if Unlockable(s, done, last) then [last] else []
  }

  /** First half of a success report: the task is COMPLETED and the agent credited. */
  function MarkCompleted(s: Swarm, t: TaskId, a: AgentId): Swarm
    requires t in s.tasks
  {
    s.(tasks := s.tasks[t := s.tasks[t].(status := Completed)],
       agents := if a in s.agents then s.agents[a := AfterSuccess(s.agents[a])] else s.agents)
  }

  /** `_unlock_dependent_tasks` for the finished task `t`. */
  function UnlockDependents(s: Swarm, t: TaskId): Swarm
    requires InGoal(s, t)
  {
    s.(queue := s.queue + Unlocked(s, s.tasks[t].id, s.goals[t.goal].tasks))
  }

  function CheckGoal(s: Swarm, g: nat): Swarm
    requires g < |s.goals|
  {
    if AllCompleted(s.tasks, s.goals[g].tasks) then s.(goals := s.goals[g := s.goals[g].(status := Completed)]) else s
  }

  function FreeAgent(s: Swarm, a: AgentId): Swarm {
    if a in s.agents then s.(agents := s.agents[a := Freed(s.agents[a])]) else s
  }

  /** A report, once the task is found. */
  function ReportOn(s: Swarm, t: TaskId, a: AgentId, success: bool): Swarm {
    if !InGoal(s, t) then s
    else if success then FreeAgent(CheckGoal(UnlockDependents(MarkCompleted(s, t, a), t), t.goal), a)
    else FreeAgent(FailTask(s, t, a), a)
  }

  function ReportTask(s: Swarm, id: Label, a: AgentId, success: bool): Swarm {
    match Find(s, id)
    case None => s
    case Some(t) => ReportOn(s, t, a, success)
  }

  function Next(s: Swarm, e: Event): Swarm {
    match e
    case Register(a, role) => RegisterAgent(s, a, role)
    case Submit(ts) => SubmitGoal(s, ts)
    case Tick(delivered) => LoopTurn(s, delivered)
    case Report(id, a, success) => ReportTask(s, id, a, success)
  }
}
