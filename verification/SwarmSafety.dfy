/** What every atomic step of the swarm protocol keeps. */
module SwarmSafety {
  import opened Prelude
  import opened SwarmProtocol

  // ---------- The invariant ----------

  /** The list holds the places of goal `g` in order. */
  ghost predicate InOrder(g: nat, members: seq<TaskId>) {
    forall i | 0 <= i < |members| :: members[i] == TaskId(g, i)
  }

  /** Tasks and goals list each other; the roster is the agents, once each. */
  ghost predicate WellShaped(s: Swarm) {
    && (forall t | t in s.tasks :: InGoal(s, t) && t in s.goals[t.goal].tasks)
    && (forall g, t | 0 <= g < |s.goals| && t in s.goals[g].tasks :: t in s.tasks && t.goal == g)
    && (forall g | 0 <= g < |s.goals| :: InOrder(g, s.goals[g].tasks))
    && Distinct(s.roster)
    && (forall a :: a in s.roster <==> a in s.agents)
  }

  ghost predicate IsWaiting(s: Swarm, t: TaskId)
    requires InGoal(s, t)
  {
    s.tasks[t].status == Pending && t !in s.queue && !Ready(s, t)
  }

  ghost predicate IsQueued(s: Swarm, t: TaskId)
    requires InGoal(s, t)
  {
    s.tasks[t].status in {Pending, Blocked} && t in s.queue && Ready(s, t)
  }

  ghost predicate IsHeld(s: Swarm, t: TaskId)
    requires InGoal(s, t)
  {
    && s.tasks[t].status == InProgress && t !in s.queue && Ready(s, t)
    && s.tasks[t].assignedAgent.Some?
    && s.tasks[t].assignedAgent.value in s.agents
    && s.agents[s.tasks[t].assignedAgent.value].currentTask == Some(t)
  }

  ghost predicate IsDone(s: Swarm, t: TaskId)
    requires InGoal(s, t)
  {
    s.tasks[t].status == Completed && t !in s.queue && Ready(s, t)
  }

  /** In one of the four places. */
  ghost predicate InPlace(s: Swarm, t: TaskId)
    requires InGoal(s, t)
  {
    IsWaiting(s, t) || IsQueued(s, t) || IsHeld(s, t) || IsDone(s, t)
  }

  ghost predicate Placed(s: Swarm)
    requires WellShaped(s)
  {
    forall t {:trigger InPlace(s, t)} | t in s.tasks :: InPlace(s, t)
  }

  ghost predicate QueueOk(s: Swarm) {
    Distinct(s.queue) && forall t | t in s.queue :: t in s.tasks
  }

  /** An agent is available exactly when it holds nothing, and what it holds is a task in progress assigned to it. */
  ghost predicate AgentsOk(s: Swarm) {
    forall a | a in s.agents :: AgentOk(s, a)
  }

  ghost predicate AgentOk(s: Swarm, a: AgentId)
    requires a in s.agents
  {
    && (s.agents[a].available <==> s.agents[a].currentTask == None)
    && (s.agents[a].currentTask.Some? ==>
          var t := s.agents[a].currentTask.value;
          t in s.tasks && s.tasks[t].status == InProgress && s.tasks[t].assignedAgent == Some(a))
  }

  /** A goal is COMPLETED exactly when it has tasks and all of them are. */
  ghost predicate GoalsOk(s: Swarm) {
    forall g | 0 <= g < |s.goals| ::
      s.goals[g].status == Completed <==> s.goals[g].tasks != [] && AllCompleted(s.tasks, s.goals[g].tasks)
  }

  /** Among the tasks of its goal that share its label, `t` is the first. */
  ghost predicate First(s: Swarm, t: TaskId)
    requires t in s.tasks
  {
    forall u | u in s.tasks && u.goal == t.goal && s.tasks[u].id == s.tasks[t].id :: t.position <= u.position
  }

  /** Only the first task of a label can have been reported. */
  ghost predicate DoneFirst(s: Swarm) {
    forall t | t in s.tasks && s.tasks[t].status == Completed :: First(s, t)
  }

  ghost predicate Inv(s: Swarm) {
    WellShaped(s) && Placed(s) && QueueOk(s) && AgentsOk(s) && GoalsOk(s) && DoneFirst(s)
  }

  /** The search for the label finds `t`, which `a` holds. */
  predicate Reports(s: Swarm, id: Label, t: TaskId, a: AgentId) {
    Find(s, id) == Some(t) && t in s.tasks && s.tasks[t].status == InProgress && s.tasks[t].assignedAgent == Some(a)
  }

  /** What the handlers rely on: an agent is registered anew only while it holds nothing, and reports reach a task in
      flight and come from the agent it is assigned to. */
  ghost predicate Legal(s: Swarm, e: Event) {
    match e
    case Register(a, _) => a in s.agents ==> s.agents[a].currentTask == None
    case Submit(_) => true
    case Tick(_) => true
    case Report(id, a, _) => Find(s, id).Some? && Reports(s, id, Find(s, id).value, a)
  }

  /** A task that is not ready is waiting. */
  lemma UnreadyWaits(s: Swarm, t: TaskId)
    requires Inv(s) && t in s.tasks
    ensures InGoal(s, t) && (Ready(s, t) || IsWaiting(s, t))
  {
    assert InPlace(s, t);
  }

  // ---------- Which task a report reaches ----------

  /** `t` is the first of its label in its goal, and no later goal has the label. */
  ghost predicate Answers(s: Swarm, t: TaskId)
    requires t in s.tasks
  {
    First(s, t) && forall u | u in s.tasks && s.tasks[u].id == s.tasks[t].id :: u.goal <= t.goal
  }

  lemma {:induction false} FindInMeans(tasks: map<TaskId, Task>, members: seq<TaskId>, id: Label)
    ensures FindIn(tasks, members, id) == None ==> forall u | u in members :: !Carries(tasks, u, id)
    ensures FindIn(tasks, members, id).Some? ==>
              exists i :: 0 <= i < |members| && members[i] == FindIn(tasks, members, id).value
                          && Carries(tasks, members[i], id) && forall j | 0 <= j < i :: !Carries(tasks, members[j], id)
  {
    if members != [] {
      var k := |members| - 1;
      FindInMeans(tasks, members[..k], id);
      assert members == members[..k] + [members[k]];
      if FindIn(tasks, members[..k], id) == None {
        assert forall j | 0 <= j < k :: members[j] in members[..k];
      }
    }
  }

  /** In a list in order, the search finds the carrier of the least position. */
  lemma FindInFirst(tasks: map<TaskId, Task>, g: nat, members: seq<TaskId>, id: Label)
    requires InOrder(g, members)
    ensures var r := FindIn(tasks, members, id);
            && (r == None ==> forall u | u in members :: !Carries(tasks, u, id))
            && (r.Some? ==> r.value in members && r.value.goal == g && Carries(tasks, r.value, id)
                            && forall u | u in members && Carries(tasks, u, id) :: r.value.position <= u.position)
  {
    FindInMeans(tasks, members, id);
  }

  lemma {:induction false} FindAmongMeans(tasks: map<TaskId, Task>, goals: seq<Goal>, id: Label)
    requires forall g | 0 <= g < |goals| :: InOrder(g, goals[g].tasks)
    ensures var r := FindAmong(tasks, goals, id);
            && (r == None ==> forall g, u | 0 <= g < |goals| && u in goals[g].tasks :: !Carries(tasks, u, id))
            && (r.Some? ==> r.value.goal < |goals| && r.value in goals[r.value.goal].tasks && Carries(tasks, r.value, id)
                            && (forall u | u in goals[r.value.goal].tasks && Carries(tasks, u, id) ::
                                  r.value.position <= u.position)
                            && forall g, u | r.value.goal < g < |goals| && u in goals[g].tasks :: !Carries(tasks, u, id))
  {
    if goals != [] {
      var k := |goals| - 1;
      FindInFirst(tasks, k, goals[k].tasks, id);
      FindAmongMeans(tasks, goals[..k], id);
    }
  }

  lemma FindMeans(s: Swarm, id: Label)
    requires WellShaped(s)
    ensures Find(s, id) == None ==> forall u | u in s.tasks :: s.tasks[u].id != id
    ensures Find(s, id).Some? ==> var t := Find(s, id).value; t in s.tasks && s.tasks[t].id == id && Answers(s, t)
  {
    FindAmongMeans(s.tasks, s.goals, id);
    forall u | u in s.tasks && s.tasks[u].id == id ensures Carries(s.tasks, u, id) && u in s.goals[u.goal].tasks { }
  }

  lemma AnswersIsUnique(s: Swarm, t: TaskId, u: TaskId)
    requires t in s.tasks && u in s.tasks && s.tasks[t].id == s.tasks[u].id && Answers(s, t) && Answers(s, u)
    ensures t == u
  {
  }

  /** A report with the label of `t` reaches `t` exactly when no task before it in its goal, and none in a later goal, has
      that label. */
  lemma ReportReachesIff(s: Swarm, t: TaskId)
    requires WellShaped(s) && t in s.tasks
    ensures Find(s, s.tasks[t].id) == Some(t) <==> Answers(s, t)
  {
    FindMeans(s, s.tasks[t].id);
    if Answers(s, t) { AnswersIsUnique(s, t, Find(s, s.tasks[t].id).value); }
  }

  // ---------- Frames ----------

  /** The steps below differ from `s` in who holds what, but in no label, no dependency and no completion. */
  ghost predicate SameLedger(s: Swarm, n: Swarm) {
    && n.tasks.Keys == s.tasks.Keys && n.goals == s.goals
    && forall t | t in s.tasks :: SameEntry(s.tasks[t], n.tasks[t])
  }

  predicate SameEntry(r: Task, q: Task) {
    q.id == r.id && q.deps == r.deps && (q.status == Completed <==> r.status == Completed)
  }

  lemma SameLedgerKeepsMet(s: Swarm, n: Swarm, members: seq<TaskId>, d: Label)
    requires SameLedger(s, n)
    ensures Met(n.tasks, members, d) <==> Met(s.tasks, members, d)
  {
    forall t ensures t in s.tasks <==> t in n.tasks { assert t in s.tasks.Keys <==> t in n.tasks.Keys; }
  }

  lemma SameLedgerKeepsReady(s: Swarm, n: Swarm, t: TaskId)
    requires SameLedger(s, n) && InGoal(s, t)
    ensures InGoal(n, t) && Ready(n, t) == Ready(s, t)
  {
    assert t in n.tasks.Keys;
    forall d ensures Met(n.tasks, s.goals[t.goal].tasks, d) <==> Met(s.tasks, s.goals[t.goal].tasks, d) {
      SameLedgerKeepsMet(s, n, s.goals[t.goal].tasks, d);
    }
  }

  lemma SameLedgerKeepsFirst(s: Swarm, n: Swarm)
    requires SameLedger(s, n) && DoneFirst(s)
    ensures DoneFirst(n)
  {
    forall t | t in n.tasks && n.tasks[t].status == Completed ensures First(n, t) {
      assert t in s.tasks.Keys;
      assert First(s, t);
      forall u | u in n.tasks && u.goal == t.goal && n.tasks[u].id == n.tasks[t].id ensures t.position <= u.position {
        assert u in s.tasks.Keys;
      }
    }
  }

  lemma SameLedgerKeepsGoals(s: Swarm, n: Swarm)
    requires SameLedger(s, n) && GoalsOk(s)
    ensures GoalsOk(n)
  {
    forall g | 0 <= g < |s.goals| ensures AllCompleted(n.tasks, n.goals[g].tasks) == AllCompleted(s.tasks, s.goals[g].tasks) {
    }
  }

  lemma SameLedgerKeepsShape(s: Swarm, n: Swarm)
    requires WellShaped(s) && SameLedger(s, n) && n.roster == s.roster && n.agents.Keys == s.agents.Keys
    ensures WellShaped(n)
  {
    forall a ensures a in n.roster <==> a in n.agents {
      assert a in n.agents.Keys <==> a in s.agents.Keys;
    }
    forall t | t in n.tasks ensures InGoal(n, t) && t in n.goals[t.goal].tasks {
      assert t in s.tasks.Keys;
    }
    forall g, t | 0 <= g < |n.goals| && t in n.goals[g].tasks ensures t in n.tasks && t.goal == g {
      assert t in s.tasks.Keys;
    }
  }

  /** A task that keeps its record, its readiness, its place relative to the queue and its holder keeps its place. */
  lemma SamePlace(s: Swarm, n: Swarm, t: TaskId)
    requires InGoal(s, t) && InGoal(n, t) && n.tasks[t] == s.tasks[t]
    requires Ready(n, t) == Ready(s, t) && (t in n.queue <==> t in s.queue)
    requires IsHeld(s, t) ==> IsHeld(n, t)
    requires InPlace(s, t)
    ensures InPlace(n, t)
  {
  }

  /** The two states differ at most in the agents' records and in the order of the queue. */
  ghost predicate SameButOrder(q: Swarm, n: Swarm) {
    && n.tasks == q.tasks && n.goals == q.goals && n.roster == q.roster && HoldAlike(q, n)
    && Distinct(n.queue) && forall x :: x in n.queue <==> x in q.queue
  }

  /** Each agent holds in both what it holds in the other. */
  ghost predicate HoldAlike(q: Swarm, n: Swarm) {
    && n.agents.Keys == q.agents.Keys
    && forall a {:trigger n.agents[a]} | a in q.agents :: a in n.agents.Keys
         && n.agents[a].currentTask == q.agents[a].currentTask && n.agents[a].available == q.agents[a].available
  }

  lemma HoldAlikeKeeps(q: Swarm, n: Swarm)
    requires AgentsOk(q) && n.tasks == q.tasks && HoldAlike(q, n)
    ensures AgentsOk(n)
  {
    forall a | a in n.agents ensures AgentOk(n, a) {
      assert a in q.agents.Keys;
      assert AgentOk(q, a);
    }
  }

  /** Neither matters to the invariant. */
  lemma SameButOrderKeepsInv(q: Swarm, n: Swarm)
    requires Inv(q) && SameButOrder(q, n)
    ensures Inv(n)
  {
    assert SameLedger(q, n);
    SameLedgerKeepsShape(q, n);
    SameLedgerKeepsGoals(q, n);
    SameLedgerKeepsFirst(q, n);
    HoldAlikeKeeps(q, n);
    forall x | x in n.tasks ensures InPlace(n, x) {
      assert InPlace(q, x);
      SameLedgerKeepsReady(q, n, x);
      SamePlace(q, n, x);
    }
  }

  // ---------- Registering an agent ----------

  lemma RegisterKeepsShape(s: Swarm, a: AgentId, role: AgentRole)
    requires WellShaped(s)
    ensures WellShaped(RegisterAgent(s, a, role))
  {
    var n := RegisterAgent(s, a, role);
    if a !in s.roster { DistinctSnoc(s.roster, a); }
    forall b ensures b in n.roster <==> b in n.agents {
      assert b in s.roster <==> b in s.agents;
    }
    forall t | t in n.tasks ensures InGoal(n, t) && t in n.goals[t.goal].tasks {
      assert InGoal(s, t);
    }
  }

  lemma RegisteredPlaces(s: Swarm, n: Swarm, a: AgentId, t: TaskId)
    requires SameLedger(s, n) && n.tasks == s.tasks && n.queue == s.queue && InGoal(s, t) && InPlace(s, t)
    requires forall b | b in s.agents && b != a :: b in n.agents && n.agents[b] == s.agents[b]
    requires a in s.agents ==> s.agents[a].currentTask == None
    ensures InGoal(n, t) && InPlace(n, t)
  {
    SameLedgerKeepsReady(s, n, t);
    SamePlace(s, n, t);
  }

  lemma RegisteredAgents(s: Swarm, n: Swarm, a: AgentId, role: AgentRole)
    requires AgentsOk(s) && n.tasks == s.tasks && n.agents == s.agents[a := Agent(role, None, 0, 0, true, NewAgentScore)]
    ensures AgentsOk(n)
  {
    forall b | b in n.agents ensures AgentOk(n, b) {
      if b != a { assert AgentOk(s, b); }
    }
  }

  lemma RegisterKeepsInv(s: Swarm, a: AgentId, role: AgentRole)
    requires Inv(s) && Legal(s, Register(a, role))
    ensures Inv(RegisterAgent(s, a, role))
  {
    var n := RegisterAgent(s, a, role);
    RegisterKeepsShape(s, a, role);
    SameLedgerKeepsGoals(s, n);
    SameLedgerKeepsFirst(s, n);
    RegisteredAgents(s, n, a, role);
    forall t | t in n.tasks ensures InPlace(n, t) {
      assert InPlace(s, t);
      RegisteredPlaces(s, n, a, t);
    }
  }

  /** Registering an agent keeps the invariant exactly when it holds no task: otherwise the task is left without it. */
  lemma RegisterKeepsInvIff(s: Swarm, a: AgentId, role: AgentRole)
    requires Inv(s)
    ensures Inv(RegisterAgent(s, a, role)) <==> (a in s.agents ==> s.agents[a].currentTask == None)
  {
    if Legal(s, Register(a, role)) {
      RegisterKeepsInv(s, a, role);
    } else {
      RegisterLosesTask(s, a, role);
    }
  }

  lemma InProgressIsHeld(s: Swarm, t: TaskId)
    requires Inv(s) && t in s.tasks && s.tasks[t].status == InProgress
    ensures InGoal(s, t) && IsHeld(s, t)
  {
    assert InPlace(s, t);
  }

  lemma RegisterLosesTask(s: Swarm, a: AgentId, role: AgentRole)
    requires AgentsOk(s) && a in s.agents && s.agents[a].currentTask.Some?
    ensures !Inv(RegisterAgent(s, a, role))
  {
    var n := RegisterAgent(s, a, role);
    var t := s.agents[a].currentTask.value;
    assert AgentOk(s, a);
    if Inv(n) { InProgressIsHeld(n, t); }
  }

  // ---------- Submitting a goal ----------

  lemma {:induction false} RootsAreTheDependencyFree(g: nat, ts: seq<NewTask>)
    ensures forall t :: t in Roots(g, ts) <==> t.goal == g && t.position < |ts| && ts[t.position].deps == []
    ensures Distinct(Roots(g, ts))
  {
    if ts != [] {
      var k := |ts| - 1;
      RootsAreTheDependencyFree(g, ts[..k]);
      DistinctSnoc(Roots(g, ts[..k]), TaskId(g, k));
    }
  }

  lemma {:induction false} AddedTasks(tasks: map<TaskId, Task>, goal: nat, ts: seq<NewTask>)
    requires forall t | t in tasks :: t.goal != goal
    ensures forall t :: t in AddTasks(tasks, goal, ts) <==> t in tasks || (t.goal == goal && t.position < |ts|)
    ensures forall t | t in tasks :: AddTasks(tasks, goal, ts)[t] == tasks[t]
    ensures forall i | 0 <= i < |ts| :: AddTasks(tasks, goal, ts)[TaskId(goal, i)] == Entered(ts[i])
  {
    if ts != [] { AddedTasks(tasks, goal, ts[..|ts| - 1]); }
  }

  function Entered(t: NewTask): Task {
    Task(t.id, t.deps, Pending, None)
  }

  /** What a submission adds: a goal with the new tasks, those without dependencies being queued. */
  ghost predicate SubmittedTo(s: Swarm, n: Swarm, ts: seq<NewTask>) {
    var g := |s.goals|;
    && n.goals == s.goals + [Goal(Places(g, |ts|), Pending)] && n.agents == s.agents && n.roster == s.roster
    && n.queue == s.queue + Roots(g, ts)
    && (forall t :: t in n.tasks <==> t in s.tasks || IsNew(g, ts, t))
    && (forall t {:trigger n.tasks[t]} | t in s.tasks :: t in n.tasks && n.tasks[t] == s.tasks[t])
    && (forall t {:trigger n.tasks[t]} | IsNew(g, ts, t) :: t in n.tasks && n.tasks[t] == Entered(ts[t.position]))
  }

  predicate IsNew(g: nat, ts: seq<NewTask>, t: TaskId) {
    t.goal == g && t.position < |ts|
  }

  lemma SubmitEffect(s: Swarm, ts: seq<NewTask>)
    requires WellShaped(s)
    ensures SubmittedTo(s, SubmitGoal(s, ts), ts)
  {
    AddedTasks(s.tasks, |s.goals|, ts);
    forall t | IsNew(|s.goals|, ts, t) ensures SubmitGoal(s, ts).tasks[t] == Entered(ts[t.position]) {
      assert t == TaskId(|s.goals|, t.position);
    }
  }

  lemma NewIsListed(g: nat, n: nat, t: TaskId)
    ensures t in Places(g, n) <==> t.goal == g && t.position < n
  {
    if t.goal == g && t.position < n { assert Places(g, n)[t.position] == t; }
  }

  lemma SubmittedListed(s: Swarm, n: Swarm, ts: seq<NewTask>, t: TaskId)
    requires WellShaped(s) && SubmittedTo(s, n, ts) && t in n.tasks
    ensures InGoal(n, t) && t in n.goals[t.goal].tasks
  {
    if t in s.tasks {
      assert InGoal(s, t);
    } else {
      NewIsListed(|s.goals|, |ts|, t);
    }
  }

  lemma SubmittedShape(s: Swarm, n: Swarm, ts: seq<NewTask>)
    requires WellShaped(s) && SubmittedTo(s, n, ts)
    ensures WellShaped(n)
  {
    forall t | t in n.tasks ensures InGoal(n, t) && t in n.goals[t.goal].tasks { SubmittedListed(s, n, ts, t); }
    forall h, t | 0 <= h < |n.goals| && t in n.goals[h].tasks ensures t in n.tasks && t.goal == h {
      if h == |s.goals| { NewIsListed(h, |ts|, t); }
    }
  }

  lemma SubmittedMet(s: Swarm, n: Swarm, ts: seq<NewTask>, g: nat, d: Label)
    requires WellShaped(s) && g < |s.goals| && SubmittedTo(s, n, ts)
    ensures Met(n.tasks, s.goals[g].tasks, d) <==> Met(s.tasks, s.goals[g].tasks, d)
  {
    forall t | t in s.goals[g].tasks ensures t in s.tasks && t in n.tasks && n.tasks[t] == s.tasks[t] {
    }
  }

  lemma SubmittedReady(s: Swarm, n: Swarm, ts: seq<NewTask>, t: TaskId)
    requires WellShaped(s) && SubmittedTo(s, n, ts) && t in s.tasks
    ensures InGoal(s, t) && InGoal(n, t) && Ready(n, t) == Ready(s, t)
  {
    assert InGoal(s, t) && n.tasks[t] == s.tasks[t] && n.goals[t.goal] == s.goals[t.goal];
    forall d ensures Met(n.tasks, s.goals[t.goal].tasks, d) <==> Met(s.tasks, s.goals[t.goal].tasks, d) {
      SubmittedMet(s, n, ts, t.goal, d);
    }
  }

  /** A new task is ready, and queued, exactly when it has no dependencies. */
  lemma NewIsPlaced(s: Swarm, n: Swarm, ts: seq<NewTask>, t: TaskId)
    requires WellShaped(s) && QueueOk(s) && SubmittedTo(s, n, ts) && IsNew(|s.goals|, ts, t)
    ensures InGoal(n, t) && InPlace(n, t)
  {
    RootsAreTheDependencyFree(|s.goals|, ts);
    assert n.tasks[t] == Entered(ts[t.position]);
    if ts[t.position].deps != [] {
      assert ts[t.position].deps[0] in n.tasks[t].deps;
      NewIsUnmet(s, n, ts, ts[t.position].deps[0]);
    }
  }

  lemma NewIsUnmet(s: Swarm, n: Swarm, ts: seq<NewTask>, d: Label)
    requires SubmittedTo(s, n, ts)
    ensures !Met(n.tasks, n.goals[|s.goals|].tasks, d)
  {
    forall t | t in n.goals[|s.goals|].tasks ensures t in n.tasks && n.tasks[t].status == Pending {
      NewIsListed(|s.goals|, |ts|, t);
      assert IsNew(|s.goals|, ts, t);
    }
  }

  lemma OldIsPlaced(s: Swarm, n: Swarm, ts: seq<NewTask>, t: TaskId)
    requires WellShaped(s) && t in s.tasks && InGoal(s, t) && InPlace(s, t) && SubmittedTo(s, n, ts)
    ensures InGoal(n, t) && InPlace(n, t)
  {
    RootsAreTheDependencyFree(|s.goals|, ts);
    SubmittedReady(s, n, ts, t);
    assert t !in Roots(|s.goals|, ts);
    SamePlace(s, n, t);
  }

  lemma SubmittedQueue(s: Swarm, n: Swarm, ts: seq<NewTask>)
    requires WellShaped(s) && QueueOk(s) && SubmittedTo(s, n, ts)
    ensures QueueOk(n)
  {
    RootsAreTheDependencyFree(|s.goals|, ts);
    ConcatDistinct(s.queue, Roots(|s.goals|, ts));
    forall t | t in n.queue ensures t in n.tasks {
      assert t in s.queue || IsNew(|s.goals|, ts, t);
    }
  }

  lemma ConcatDistinct<T>(a: seq<T>, b: seq<T>)
    requires Distinct(a) && Distinct(b) && forall x | x in b :: x !in a
    ensures Distinct(a + b)
  {
    forall i, j | 0 <= i < j < |a + b| ensures (a + b)[i] != (a + b)[j] {
      if i < |a| <= j { assert b[j - |a|] in b; assert a[i] in a; }
    }
  }

  lemma SubmittedGoals(s: Swarm, n: Swarm, ts: seq<NewTask>)
    requires WellShaped(s) && GoalsOk(s) && SubmittedTo(s, n, ts)
    ensures GoalsOk(n)
  {
    forall h | 0 <= h < |n.goals|
      ensures n.goals[h].status == Completed <==> n.goals[h].tasks != [] && AllCompleted(n.tasks, n.goals[h].tasks)
    {
      if h < |s.goals| {
        assert n.goals[h] == s.goals[h];
        SubmittedCompleted(s, n, ts, h);
      } else if ts != [] {
        assert n.goals[h].tasks[0] == TaskId(h, 0) && IsNew(h, ts, TaskId(h, 0));
        assert TaskId(h, 0) in n.goals[h].tasks && n.tasks[TaskId(h, 0)].status == Pending;
      }
    }
  }

  lemma SubmittedCompleted(s: Swarm, n: Swarm, ts: seq<NewTask>, h: nat)
    requires WellShaped(s) && h < |s.goals| && SubmittedTo(s, n, ts)
    ensures AllCompleted(n.tasks, s.goals[h].tasks) == AllCompleted(s.tasks, s.goals[h].tasks)
  {
    forall t | t in s.goals[h].tasks ensures t in s.tasks && t in n.tasks && n.tasks[t] == s.tasks[t] {
    }
  }

  lemma SubmittedAgents(s: Swarm, n: Swarm, ts: seq<NewTask>)
    requires AgentsOk(s) && SubmittedTo(s, n, ts)
    ensures AgentsOk(n)
  {
    forall a | a in n.agents ensures AgentOk(n, a) { assert AgentOk(s, a); }
  }

  lemma SubmittedFirst(s: Swarm, n: Swarm, ts: seq<NewTask>)
    requires WellShaped(s) && DoneFirst(s) && SubmittedTo(s, n, ts)
    ensures DoneFirst(n)
  {
    forall t | t in n.tasks && n.tasks[t].status == Completed ensures First(n, t) {
      assert t in s.tasks && First(s, t);
      forall u | u in n.tasks && u.goal == t.goal && n.tasks[u].id == n.tasks[t].id ensures t.position <= u.position {
        assert u in s.tasks && n.tasks[u] == s.tasks[u];
      }
    }
  }

  lemma SubmittedKeepsInv(s: Swarm, n: Swarm, ts: seq<NewTask>)
    requires Inv(s) && SubmittedTo(s, n, ts)
    ensures Inv(n)
  {
    SubmittedShape(s, n, ts);
    SubmittedQueue(s, n, ts);
    SubmittedGoals(s, n, ts);
    SubmittedAgents(s, n, ts);
    SubmittedFirst(s, n, ts);
    forall t | t in n.tasks ensures InPlace(n, t) {
      if t in s.tasks {
        assert InPlace(s, t);
        OldIsPlaced(s, n, ts, t);
      } else {
        NewIsPlaced(s, n, ts, t);
      }
    }
  }

  /** Any submission keeps the invariant, also one that repeats labels, its own or those of earlier goals. */
  lemma SubmitKeepsInv(s: Swarm, ts: seq<NewTask>)
    requires Inv(s)
    ensures Inv(SubmitGoal(s, ts))
  {
    SubmitEffect(s, ts);
    SubmittedKeepsInv(s, SubmitGoal(s, ts), ts);
  }

  // ---------- Turns of the loop ----------

  /** The task at the head of the queue is queued with all it depends on finished. */
  lemma HeadIsQueued(s: Swarm)
    requires Inv(s) && s.queue != []
    ensures InGoal(s, s.queue[0]) && IsQueued(s, s.queue[0])
  {
    assert s.queue[0] in s.queue;
    assert InPlace(s, s.queue[0]);
  }

  /** The head `t` of the queue goes to the idle agent `best`, or back to the end of the queue; nothing else moves. */
  ghost predicate Moved(s: Swarm, n: Swarm, t: TaskId, best: Option<AgentId>) {
    && s.queue != [] && t == s.queue[0] && t in s.tasks && t in n.tasks
    && n.tasks.Keys == s.tasks.Keys && n.goals == s.goals && n.roster == s.roster && n.agents.Keys == s.agents.Keys
    && (forall u | u in s.tasks && u != t :: n.tasks[u] == s.tasks[u])
    && n.tasks[t].id == s.tasks[t].id && n.tasks[t].deps == s.tasks[t].deps
    && (match best
        case Some(a) => a in s.agents && HandedTo(s, n, t, a)
        case None => PutBack(s, n, t))
  }

  ghost predicate HandedTo(s: Swarm, n: Swarm, t: TaskId, a: AgentId)
    requires s.queue != [] && t in n.tasks && a in s.agents
  {
    && n.queue == s.queue[1..] && n.tasks[t].status == InProgress && n.tasks[t].assignedAgent == Some(a)
    && s.agents[a].currentTask == None
    && n.agents == s.agents[a := s.agents[a].(currentTask := Some(t), available := false)]
  }

  ghost predicate PutBack(s: Swarm, n: Swarm, t: TaskId)
    requires s.queue != [] && t in n.tasks && n.agents.Keys == s.agents.Keys
  {
    && n.queue == s.queue[1..] + [t] && n.tasks[t].status in {Pending, Blocked}
    && forall a {:trigger n.agents[a]} | a in s.agents ::
         a in n.agents.Keys && n.agents[a].currentTask == s.agents[a].currentTask && n.agents[a].available == s.agents[a].available
  }

  /** A turn moves the head of the queue: to the agent, if there is one and the message goes out. */
  lemma DispatchEffect(s: Swarm, delivered: bool)
    requires s.queue != [] && s.queue[0] in s.tasks
    ensures Moved(s, LoopTurn(s, delivered), s.queue[0], if delivered then BestAgent(s.agents, s.roster) else None)
  {
  }

  lemma MovedLedger(s: Swarm, n: Swarm, t: TaskId, best: Option<AgentId>)
    requires InGoal(s, t) && IsQueued(s, t) && Moved(s, n, t, best)
    ensures SameLedger(s, n)
  {
  }

  lemma MovedPlaces(s: Swarm, n: Swarm, t: TaskId, best: Option<AgentId>, u: TaskId)
    requires InGoal(s, t) && IsQueued(s, t) && Moved(s, n, t, best) && Distinct(s.queue)
    requires SameLedger(s, n) && InGoal(s, u) && InPlace(s, u) && (IsHeld(s, u) && u != t ==> InGoal(n, u) && IsHeld(n, u))
    ensures InGoal(n, u) && InPlace(n, u)
  {
    var rest := s.queue[1..];
    SameLedgerKeepsReady(s, n, u);
    assert s.queue == [t] + rest && t !in rest;
    if u != t {
      assert u in n.queue <==> u in s.queue;
      SamePlace(s, n, u);
    } else if best.Some? {
      assert IsHeld(n, t);
    } else {
      assert IsQueued(n, t);
    }
  }

  lemma MovedHolders(s: Swarm, n: Swarm, t: TaskId, best: Option<AgentId>, u: TaskId)
    requires InGoal(s, t) && IsQueued(s, t) && Moved(s, n, t, best) && SameLedger(s, n) && InGoal(s, u) && IsHeld(s, u)
    ensures u != t && InGoal(n, u) && IsHeld(n, u)
  {
    var a := s.tasks[u].assignedAgent.value;
    SameLedgerKeepsReady(s, n, u);
    assert s.queue == [t] + s.queue[1..];
    assert a in n.agents.Keys && n.agents[a].currentTask == Some(u);
  }

  lemma MovedQueue(s: Swarm, n: Swarm, t: TaskId, best: Option<AgentId>)
    requires QueueOk(s) && Moved(s, n, t, best)
    ensures QueueOk(n)
  {
    var rest := s.queue[1..];
    assert s.queue == [t] + rest;
    DistinctSnoc(rest, t);
    forall x | x in n.queue ensures x in n.tasks {
      assert x in s.queue;
      assert x in s.tasks.Keys;
    }
  }

  lemma MovedAgents(s: Swarm, n: Swarm, t: TaskId, best: Option<AgentId>)
    requires AgentsOk(s) && s.queue != [] && InGoal(s, t) && IsQueued(s, t) && Moved(s, n, t, best)
    ensures AgentsOk(n)
  {
    forall a | a in n.agents ensures AgentOk(n, a) {
      assert a in s.agents.Keys;
      assert AgentOk(s, a);
    }
  }

  lemma MovedKeepsInv(s: Swarm, n: Swarm, t: TaskId, best: Option<AgentId>)
    requires Inv(s) && InGoal(s, t) && IsQueued(s, t) && Moved(s, n, t, best)
    ensures Inv(n)
  {
    MovedLedger(s, n, t, best);
    SameLedgerKeepsGoals(s, n);
    SameLedgerKeepsFirst(s, n);
    SameLedgerKeepsShape(s, n);
    MovedQueue(s, n, t, best);
    MovedAgents(s, n, t, best);
    forall u | u in n.tasks ensures InPlace(n, u) {
      assert u in s.tasks.Keys;
      assert InPlace(s, u);
      if IsHeld(s, u) { MovedHolders(s, n, t, best, u); }
      MovedPlaces(s, n, t, best, u);
    }
  }

  lemma DispatchKeepsInv(s: Swarm, delivered: bool)
    requires Inv(s) && s.queue != []
    ensures Inv(LoopTurn(s, delivered))
  {
    HeadIsQueued(s);
    DispatchEffect(s, delivered);
    MovedKeepsInv(s, LoopTurn(s, delivered), s.queue[0], if delivered then BestAgent(s.agents, s.roster) else None);
  }

  lemma {:induction false} ReleasablesAreBlocked(s: Swarm, ids: seq<TaskId>)
    ensures forall t :: t in Releasables(s, ids) <==> t in ids && Releasable(s, t)
  {
    if ids != [] {
      ReleasablesAreBlocked(s, ids[..|ids| - 1]);
      assert ids == ids[..|ids| - 1] + [ids[|ids| - 1]];
    }
  }

  lemma BlockedIsQueued(s: Swarm, t: TaskId)
    requires Inv(s) && InGoal(s, t) && s.tasks[t].status == Blocked
    ensures t in s.queue
  {
    assert InPlace(s, t);
  }

  lemma SameTasksMapped(tasks: map<TaskId, Task>, released: seq<TaskId>)
    requires released == []
    ensures (map t | t in tasks :: if t in released then tasks[t].(status := Pending) else tasks[t]) == tasks
  {
  }

  /** The search for blocked tasks runs only on an empty queue, and there it never finds one. */
  lemma NothingIsBlockedWhenIdle(s: Swarm)
    requires Inv(s) && s.queue == []
    ensures CheckBlocked(s) == s
  {
    var released := Releasables(s, AllTaskIds(s.goals));
    ReleasablesAreBlocked(s, AllTaskIds(s.goals));
    forall t ensures t !in released {
      if Releasable(s, t) { BlockedIsQueued(s, t); }
    }
    NonEmptyHasElement(released);
    SameTasksMapped(s.tasks, released);
  }

  // ---------- Reports ----------

  ghost predicate HeldBy(s: Swarm, t: TaskId, a: AgentId) {
    InGoal(s, t) && IsHeld(s, t) && s.tasks[t].assignedAgent == Some(a)
  }

  /** A legal report reaches a task that its reporter holds. */
  lemma ReportedIsHeld(s: Swarm, id: Label, a: AgentId, success: bool) returns (t: TaskId)
    requires Inv(s) && Legal(s, Report(id, a, success))
    ensures Find(s, id) == Some(t) && s.tasks.Keys >= {t} && HeldBy(s, t, a) && First(s, t)
    ensures Next(s, Report(id, a, success)) == ReportOn(s, t, a, success)
  {
    t := Find(s, id).value;
    FindMeans(s, id);
    assert InPlace(s, t);
  }

  /** Agent `a`, if known, is free in `n`, and the others are as in `s`. */
  ghost predicate OnlyFreed(s: Swarm, n: Swarm, a: AgentId) {
    && n.agents.Keys == s.agents.Keys
    && (forall b {:trigger n.agents[b]} | b in s.agents && b != a :: b in n.agents.Keys && n.agents[b] == s.agents[b])
    && (a in s.agents ==> a in n.agents.Keys && n.agents[a].currentTask == None && n.agents[a].available)
  }

  lemma FreedAgents(s: Swarm, n: Swarm, t: TaskId, a: AgentId, r: Task)
    requires AgentsOk(s) && HeldBy(s, t, a) && OnlyFreed(s, n, a) && n.tasks == s.tasks[t := r]
    ensures AgentsOk(n)
  {
    forall b | b in n.agents ensures AgentOk(n, b) {
      assert b in s.agents.Keys;
      assert AgentOk(s, b);
    }
  }

  /** Whoever else holds a task still holds it. */
  lemma OthersStayHeld(s: Swarm, n: Swarm, t: TaskId, a: AgentId, r: Task, x: TaskId)
    requires HeldBy(s, t, a) && OnlyFreed(s, n, a) && n.tasks == s.tasks[t := r]
    requires InGoal(s, x) && x != t && IsHeld(s, x) && InGoal(n, x) && Ready(n, x) && x !in n.queue
    ensures IsHeld(n, x)
  {
    var b := s.tasks[x].assignedAgent.value;
    assert b != a && b in n.agents.Keys && n.agents[b] == s.agents[b];
  }

  /** What a failure report changes: the task is PENDING at the end of the queue, and its agent free. */
  ghost predicate FailedTo(s: Swarm, n: Swarm, t: TaskId, a: AgentId)
    requires t in s.tasks
  {
    && n.tasks == s.tasks[t := s.tasks[t].(status := Pending, assignedAgent := None)]
    && n.queue == s.queue + [t] && n.roster == s.roster && n.goals == s.goals && OnlyFreed(s, n, a)
  }

  lemma FailureEffect(s: Swarm, t: TaskId, a: AgentId)
    requires InGoal(s, t)
    ensures FailedTo(s, ReportOn(s, t, a, false), t, a)
  {
  }

  lemma FailedPlaces(s: Swarm, n: Swarm, t: TaskId, a: AgentId, u: TaskId)
    requires HeldBy(s, t, a) && FailedTo(s, n, t, a) && SameLedger(s, n) && InGoal(s, u) && InPlace(s, u)
    ensures InGoal(n, u) && InPlace(n, u)
  {
    SameLedgerKeepsReady(s, n, u);
    if u == t {
      assert IsQueued(n, t);
    } else {
      if IsHeld(s, u) { OthersStayHeld(s, n, t, a, n.tasks[t], u); }
      SamePlace(s, n, u);
    }
  }

  lemma FailedKeepsInv(s: Swarm, n: Swarm, t: TaskId, a: AgentId)
    requires Inv(s) && HeldBy(s, t, a) && FailedTo(s, n, t, a)
    ensures Inv(n)
  {
    assert SameLedger(s, n);
    SameLedgerKeepsGoals(s, n);
    SameLedgerKeepsFirst(s, n);
    SameLedgerKeepsShape(s, n);
    DistinctSnoc(s.queue, t);
    assert QueueOk(n);
    FreedAgents(s, n, t, a, n.tasks[t]);
    forall u | u in n.tasks ensures InPlace(n, u) {
      assert InPlace(s, u);
      FailedPlaces(s, n, t, a, u);
    }
  }

  lemma FailureKeepsInv(s: Swarm, t: TaskId, a: AgentId)
    requires Inv(s) && HeldBy(s, t, a)
    ensures Inv(ReportOn(s, t, a, false))
  {
    FailureEffect(s, t, a);
    FailedKeepsInv(s, ReportOn(s, t, a, false), t, a);
  }

  lemma {:induction false} UnlockedAreUnlockable(s: Swarm, done: Label, ids: seq<TaskId>)
    ensures forall t :: t in Unlocked(s, done, ids) <==> t in ids && Unlockable(s, done, t)
    ensures Distinct(ids) ==> Distinct(Unlocked(s, done, ids))
  {
    if ids != [] {
      var front, last := ids[..|ids| - 1], ids[|ids| - 1];
      UnlockedAreUnlockable(s, done, front);
      assert ids == front + [last];
      if Distinct(ids) {
        assert last !in front;
        DistinctSnoc(Unlocked(s, done, front), last);
      }
    }
  }

  /** Readiness looks only at the tasks and at the lists of the goals. */
  lemma SameListsKeepReady(s: Swarm, n: Swarm, x: TaskId)
    requires InGoal(s, x) && n.tasks == s.tasks
    requires |n.goals| == |s.goals| && forall h | 0 <= h < |s.goals| :: n.goals[h].tasks == s.goals[h].tasks
    ensures InGoal(n, x) && Ready(n, x) == Ready(s, x)
  {
  }

  /** What a success report changes: one status, the goal's status, one agent, and the queue, to which `unlocked` is
      added. */
  ghost predicate SucceededTo(s: Swarm, n: Swarm, t: TaskId, a: AgentId, unlocked: seq<TaskId>)
    requires InGoal(s, t)
  {
    var g := t.goal;
    && n.tasks == s.tasks[t := s.tasks[t].(status := Completed)]
    && n.queue == s.queue + unlocked && n.roster == s.roster && SameLists(s, n)
    && (forall h {:trigger n.goals[h]} | 0 <= h < |s.goals| && h != g :: n.goals[h] == s.goals[h])
    && n.goals[g].status == (if AllCompleted(n.tasks, s.goals[g].tasks) then Completed else s.goals[g].status)
    && OnlyFreed(s, n, a)
  }

  ghost predicate SameLists(s: Swarm, n: Swarm) {
    |n.goals| == |s.goals| && forall h {:trigger n.goals[h]} | 0 <= h < |s.goals| :: n.goals[h].tasks == s.goals[h].tasks
  }

  /** The tasks that `t` lets into the queue, which do not depend on the agent's record. */
  function LetIn(s: Swarm, t: TaskId, a: AgentId): seq<TaskId>
    requires InGoal(s, t)
  {
    Unlocked(MarkCompleted(s, t, a), s.tasks[t].id, s.goals[t.goal].tasks)
  }

  lemma SuccessEffect(s: Swarm, t: TaskId, a: AgentId)
    requires InGoal(s, t)
    ensures SucceededTo(s, ReportOn(s, t, a, true), t, a, LetIn(s, t, a))
  {
  }

  /** `unlocked` is the PENDING dependents of `t` in its goal that are ready in `n`, once each. */
  ghost predicate Unlocks(s: Swarm, n: Swarm, t: TaskId, unlocked: seq<TaskId>)
    requires InGoal(s, t)
  {
    && Distinct(unlocked)
    && forall x :: x in unlocked <==> x in s.goals[t.goal].tasks && Unlockable(n, s.tasks[t].id, x)
  }

  lemma OrderedIsDistinct(g: nat, members: seq<TaskId>)
    requires InOrder(g, members)
    ensures Distinct(members)
  {
  }

  lemma LetInAreUnlocked(s: Swarm, n: Swarm, t: TaskId, a: AgentId)
    requires InGoal(s, t) && SucceededTo(s, n, t, a, LetIn(s, t, a)) && InOrder(t.goal, s.goals[t.goal].tasks)
    ensures Unlocks(s, n, t, LetIn(s, t, a))
  {
    var m, ids, done := MarkCompleted(s, t, a), s.goals[t.goal].tasks, s.tasks[t].id;
    OrderedIsDistinct(t.goal, ids);
    UnlockedAreUnlockable(m, done, ids);
    forall x ensures Unlockable(m, done, x) <==> Unlockable(n, done, x) {
      if InGoal(m, x) { SameListsKeepReady(m, n, x); }
    }
  }

  /** Completing `t` meets its label in its goal, and changes nothing else about what is met. */
  lemma MetAfter(s: Swarm, n: Swarm, t: TaskId, g: nat, d: Label)
    requires WellShaped(s) && t in s.tasks && g < |s.goals|
    requires n.tasks == s.tasks[t := s.tasks[t].(status := Completed)]
    ensures var members := s.goals[g].tasks;
            Met(n.tasks, members, d) <==> Met(s.tasks, members, d) || (t.goal == g && d == s.tasks[t].id)
  {
    var members := s.goals[g].tasks;
    if t.goal == g { assert t in members; }
    if u :| u in members && Carries(s.tasks, u, d) && s.tasks[u].status == Completed {
      assert Carries(n.tasks, u, d) && n.tasks[u].status == Completed;
    }
    if t.goal == g && d == s.tasks[t].id { assert Carries(n.tasks, t, d); }
  }

  /** A task that a completion makes ready depends on the completed task's label, and shares its goal. */
  lemma NewlyReadyDependOn(s: Swarm, n: Swarm, t: TaskId, x: TaskId)
    requires WellShaped(s) && t in s.tasks && x in s.tasks && SameLists(s, n)
    requires n.tasks == s.tasks[t := s.tasks[t].(status := Completed)]
    ensures InGoal(s, x) && InGoal(n, x) && (Ready(s, x) ==> Ready(n, x))
    ensures !Ready(s, x) && Ready(n, x) ==> s.tasks[t].id in s.tasks[x].deps && x.goal == t.goal
  {
    assert InGoal(s, x) && n.goals[x.goal].tasks == s.goals[x.goal].tasks;
    forall d ensures Met(n.tasks, s.goals[x.goal].tasks, d) <==>
                       Met(s.tasks, s.goals[x.goal].tasks, d) || (t.goal == x.goal && d == s.tasks[t].id)
    {
      MetAfter(s, n, t, x.goal, d);
    }
  }

  lemma MetIsDone(s: Swarm, t: TaskId)
    requires WellShaped(s) && DoneFirst(s) && t in s.tasks && First(s, t) && InGoal(s, t)
    requires Met(s.tasks, s.goals[t.goal].tasks, s.tasks[t].id)
    ensures s.tasks[t].status == Completed
  {
    var u :| u in s.goals[t.goal].tasks && Carries(s.tasks, u, s.tasks[t].id) && s.tasks[u].status == Completed;
    assert First(s, u) && u.goal == t.goal;
  }

  /** What depends on an unfinished first task of its label is not ready. */
  lemma DependentIsUnready(s: Swarm, t: TaskId, x: TaskId)
    requires WellShaped(s) && DoneFirst(s) && t in s.tasks && First(s, t) && s.tasks[t].status != Completed
    requires InGoal(s, x) && x.goal == t.goal && s.tasks[t].id in s.tasks[x].deps
    ensures !Ready(s, x)
  {
    if Ready(s, x) { MetIsDone(s, t); }
  }

  /** The tasks a success lets into the queue are exactly the ones it makes ready. */
  lemma UnlockedIffNewlyReady(s: Swarm, n: Swarm, t: TaskId, a: AgentId, unlocked: seq<TaskId>, x: TaskId)
    requires WellShaped(s) && DoneFirst(s) && HeldBy(s, t, a) && First(s, t)
    requires SucceededTo(s, n, t, a, unlocked) && Unlocks(s, n, t, unlocked)
    requires x in s.tasks && InGoal(s, x) && InPlace(s, x)
    ensures InGoal(n, x) && (x in unlocked <==> !Ready(s, x) && Ready(n, x))
  {
    NewlyReadyDependOn(s, n, t, x);
    if x.goal == t.goal && s.tasks[t].id in s.tasks[x].deps { DependentIsUnready(s, t, x); }
    assert x in s.goals[x.goal].tasks;
  }

  /** The queue after a success report by the holder has what it had and what the success makes ready. */
  lemma QueueAfterSuccess(s: Swarm, t: TaskId, a: AgentId, x: TaskId)
    requires Inv(s) && HeldBy(s, t, a) && First(s, t) && x in s.tasks
    ensures var n := ReportOn(s, t, a, true);
            InGoal(s, x) && InGoal(n, x) && (x in n.queue <==> x in s.queue || (!Ready(s, x) && Ready(n, x)))
  {
    SuccessEffect(s, t, a);
    LetInAreUnlocked(s, ReportOn(s, t, a, true), t, a);
    assert InPlace(s, x);
    UnlockedIffNewlyReady(s, ReportOn(s, t, a, true), t, a, LetIn(s, t, a), x);
  }

  lemma SucceededShape(s: Swarm, n: Swarm, t: TaskId, a: AgentId, unlocked: seq<TaskId>)
    requires WellShaped(s) && InGoal(s, t) && SucceededTo(s, n, t, a, unlocked)
    ensures WellShaped(n)
  {
    forall x | x in n.tasks ensures InGoal(n, x) && x in n.goals[x.goal].tasks {
      assert InGoal(s, x) && x in s.goals[x.goal].tasks;
    }
    forall h, x | 0 <= h < |n.goals| && x in n.goals[h].tasks ensures x in n.tasks && x.goal == h {
      assert x in s.goals[h].tasks;
    }
    forall h | 0 <= h < |n.goals| ensures InOrder(h, n.goals[h].tasks) { assert n.goals[h].tasks == s.goals[h].tasks; }
    forall b ensures b in n.roster <==> b in n.agents { assert b in n.agents.Keys <==> b in s.agents.Keys; }
  }

  lemma SucceededQueue(s: Swarm, n: Swarm, t: TaskId, a: AgentId, unlocked: seq<TaskId>)
    requires WellShaped(s) && Placed(s) && QueueOk(s) && DoneFirst(s) && HeldBy(s, t, a) && First(s, t)
    requires SucceededTo(s, n, t, a, unlocked) && Unlocks(s, n, t, unlocked)
    ensures QueueOk(n)
  {
    forall x | x in unlocked ensures x in s.tasks && x !in s.queue {
      assert x in s.goals[t.goal].tasks;
      assert InPlace(s, x);
      UnlockedIffNewlyReady(s, n, t, a, unlocked, x);
    }
    ConcatDistinct(s.queue, unlocked);
  }

  lemma SucceededPlaces(s: Swarm, n: Swarm, t: TaskId, a: AgentId, unlocked: seq<TaskId>, x: TaskId)
    requires WellShaped(s) && DoneFirst(s) && HeldBy(s, t, a) && First(s, t)
    requires SucceededTo(s, n, t, a, unlocked) && Unlocks(s, n, t, unlocked)
    requires x in s.tasks && InGoal(s, x) && InPlace(s, x)
    ensures InGoal(n, x) && InPlace(n, x)
  {
    NewlyReadyDependOn(s, n, t, x);
    UnlockedIffNewlyReady(s, n, t, a, unlocked, x);
    if x == t {
      assert IsDone(n, t);
    } else if Ready(s, x) == Ready(n, x) {
      if IsHeld(s, x) { OthersStayHeld(s, n, t, a, n.tasks[t], x); }
      SamePlace(s, n, x);
    } else {
      assert IsWaiting(s, x);
      assert IsQueued(n, x);
    }
  }

  lemma SucceededGoals(s: Swarm, n: Swarm, t: TaskId, a: AgentId, unlocked: seq<TaskId>)
    requires WellShaped(s) && GoalsOk(s) && HeldBy(s, t, a) && SucceededTo(s, n, t, a, unlocked)
    ensures GoalsOk(n)
  {
    var g := t.goal;
    forall h | 0 <= h < |n.goals|
      ensures n.goals[h].status == Completed <==> n.goals[h].tasks != [] && AllCompleted(n.tasks, n.goals[h].tasks)
    {
      if h != g {
        assert AllCompleted(n.tasks, n.goals[h].tasks) == AllCompleted(s.tasks, s.goals[h].tasks);
      } else {
        assert t in s.goals[g].tasks;
      }
    }
  }

  lemma SucceededFirst(s: Swarm, n: Swarm, t: TaskId)
    requires t in s.tasks && DoneFirst(s) && First(s, t) && n.tasks == s.tasks[t := s.tasks[t].(status := Completed)]
    ensures DoneFirst(n)
  {
    forall x | x in n.tasks && n.tasks[x].status == Completed ensures First(n, x) {
      assert First(s, x);
    }
  }

  lemma SucceededKeepsInv(s: Swarm, n: Swarm, t: TaskId, a: AgentId, unlocked: seq<TaskId>)
    requires Inv(s) && HeldBy(s, t, a) && First(s, t)
    requires SucceededTo(s, n, t, a, unlocked) && Unlocks(s, n, t, unlocked)
    ensures Inv(n)
  {
    SucceededShape(s, n, t, a, unlocked);
    SucceededQueue(s, n, t, a, unlocked);
    SucceededGoals(s, n, t, a, unlocked);
    SucceededFirst(s, n, t);
    FreedAgents(s, n, t, a, n.tasks[t]);
    forall x | x in n.tasks ensures InPlace(n, x) {
      assert InPlace(s, x);
      SucceededPlaces(s, n, t, a, unlocked, x);
    }
  }

  lemma SuccessKeepsInv(s: Swarm, t: TaskId, a: AgentId)
    requires Inv(s) && HeldBy(s, t, a) && First(s, t)
    ensures Inv(ReportOn(s, t, a, true))
  {
    SuccessEffect(s, t, a);
    LetInAreUnlocked(s, ReportOn(s, t, a, true), t, a);
    SucceededKeepsInv(s, ReportOn(s, t, a, true), t, a, LetIn(s, t, a));
  }

  lemma ReportKeepsInv(s: Swarm, id: Label, a: AgentId, success: bool)
    requires Inv(s) && Legal(s, Report(id, a, success))
    ensures Inv(ReportTask(s, id, a, success))
  {
    var t := ReportedIsHeld(s, id, a, success);
    if success { SuccessKeepsInv(s, t, a); } else { FailureKeepsInv(s, t, a); }
  }

  /** Every legal step keeps the invariant. */
  lemma NextKeepsInv(s: Swarm, e: Event)
    requires Inv(s) && Legal(s, e)
    ensures Inv(Next(s, e))
  {
    match e
    case Register(a, role) => RegisterKeepsInv(s, a, role);
    case Submit(ts) => SubmitKeepsInv(s, ts);
    case Tick(delivered) => if s.queue == [] { NothingIsBlockedWhenIdle(s); } else { DispatchKeepsInv(s, delivered); }
    case Report(id, a, success) => ReportKeepsInv(s, id, a, success);
  }
}
