/** A failure report whose handler is interrupted at its await by a turn of the orchestration loop. */
module SwarmFailures {
  import opened Prelude
  import opened SwarmProtocol
  import opened SwarmSafety

  /** `_handle_task_failure` up to its await: the task is FAILED and its agent free. */
  function FailFirst(s: Swarm, t: TaskId, a: AgentId): Swarm
    requires t in s.tasks
  {
    s.(tasks := s.tasks[t := s.tasks[t].(status := Failed)],
       agents := if a in s.agents then s.agents[a := AfterFailure(s.agents[a])] else s.agents)
  }

  /** The rest of it, and of the report: the task is queued, and the agent freed again. */
  function FailRest(s: Swarm, t: TaskId, a: AgentId): Swarm
    requires t in s.tasks
  {
    FreeAgent(s.(tasks := s.tasks[t := s.tasks[t].(status := Pending, assignedAgent := None)], queue := s.queue + [t]), a)
  }

  /** A turn of the loop at the await. */
  function TurnBetween(s: Swarm, t: TaskId, a: AgentId, delivered: bool): Swarm
    requires t in s.tasks
  {
    var m := LoopTurn(FailFirst(s, t, a), delivered);
    if t in m.tasks then FailRest(m, t, a) else m
  }

  /** The turn hands the next task of the queue to the agent. */
  predicate HandsItTo(s: Swarm, t: TaskId, a: AgentId, delivered: bool)
    requires t in s.tasks
  {
    delivered && s.queue != [] && BestAgent(FailFirst(s, t, a).agents, s.roster) == Some(a)
  }

  /** Without a turn in between, that is the atomic report. */
  lemma FailureInTwo(s: Swarm, t: TaskId, a: AgentId)
    requires InGoal(s, t) && a in s.agents
    ensures FailRest(FailFirst(s, t, a), t, a) == ReportOn(s, t, a, false)
  {
  }

  lemma NothingToRelease(s: Swarm)
    requires forall t | t in s.tasks :: s.tasks[t].status != Blocked
    ensures CheckBlocked(s) == s
  {
    var released := Releasables(s, AllTaskIds(s.goals));
    ReleasablesAreBlocked(s, AllTaskIds(s.goals));
    forall t ensures t !in released { }
    NonEmptyHasElement(released);
    SameTasksMapped(s.tasks, released);
  }

  lemma IdleTurnBetween(s: Swarm, t: TaskId, a: AgentId, delivered: bool)
    requires Inv(s) && HeldBy(s, t, a) && s.queue == []
    ensures TurnBetween(s, t, a, delivered) == ReportOn(s, t, a, false)
  {
    var m := FailFirst(s, t, a);
    forall x | x in m.tasks ensures m.tasks[x].status != Blocked {
      if x != t && s.tasks[x].status == Blocked { BlockedIsQueued(s, x); }
    }
    NothingToRelease(m);
    FailureInTwo(s, t, a);
  }

  /** The agent is freed of the task that it was handed in between. */
  lemma HandedInBetween(s: Swarm, t: TaskId, a: AgentId)
    requires Inv(s) && HeldBy(s, t, a) && HandsItTo(s, t, a, true)
    ensures var n, h := TurnBetween(s, t, a, true), s.queue[0];
            && h in n.tasks && n.tasks[h].status == InProgress && n.tasks[h].assignedAgent == Some(a)
            && a in n.agents && n.agents[a].available && n.agents[a].currentTask == None
    ensures !Inv(TurnBetween(s, t, a, true))
  {
    HeadIsQueued(s);
    var m, h, n := FailFirst(s, t, a), s.queue[0], TurnBetween(s, t, a, true);
    DispatchEffect(m, true);
    assert h != t;
    if Inv(n) { InProgressIsHeld(n, h); }
  }

  lemma SameAgentsFreed(s: Swarm, t: TaskId, a: AgentId)
    requires HeldBy(s, t, a)
    ensures FailFirst(s, t, a).agents == ReportOn(s, t, a, false).agents
  {
    assert Freed(AfterFailure(s.agents[a])) == AfterFailure(s.agents[a]);
  }

  lemma TasksCommute(tasks: map<TaskId, Task>, t: TaskId, r: Task, h: TaskId, q: Task, v: Task)
    requires t != h
    ensures tasks[t := r][h := q][t := v] == tasks[t := v][h := q]
  {
  }

  /** What a turn does to the head `h` of the queue depends only on the record of `h`, the agents and what was handed out. */
  ghost predicate TurnTo(m: Swarm, n: Swarm, h: TaskId, delivered: bool, r: Task) {
    && h in m.tasks && n.tasks == m.tasks[h := r] && n.goals == m.goals && n.roster == m.roster
    && n.agents == (match BestAgent(m.agents, m.roster)
                    case None => m.agents
                    case Some(b) => AgentsAfter(m.agents, b, h, delivered))
    && r == RecordAfter(m.tasks[h], BestAgent(m.agents, m.roster), delivered)
  }

  function AgentsAfter(agents: map<AgentId, Agent>, b: AgentId, h: TaskId, delivered: bool): map<AgentId, Agent>
    requires b in agents
  {
    var busy := agents[b].(currentTask := Some(h), available := false);
    agents[b := if delivered then busy else AfterFailure(busy)]
  }

  function RecordAfter(r: Task, best: Option<AgentId>, delivered: bool): Task {
    match best
    case None => r.(status := Blocked)
    case Some(b) =>
      if delivered then r.(status := InProgress, assignedAgent := best) else r.(status := Pending, assignedAgent := None)
  }

  lemma TurnEffect(m: Swarm, delivered: bool)
    requires m.queue != [] && m.queue[0] in m.tasks
    ensures TurnTo(m, LoopTurn(m, delivered), m.queue[0], delivered,
                   RecordAfter(m.tasks[m.queue[0]], BestAgent(m.agents, m.roster), delivered))
  {
  }

  lemma FreedStaysFreed(agents: map<AgentId, Agent>, roster: seq<AgentId>, a: AgentId, h: TaskId, delivered: bool)
    requires a in agents && agents[a].currentTask == None && agents[a].available
    requires delivered ==> BestAgent(agents, roster) != Some(a)
    ensures var n := match BestAgent(agents, roster) case None => agents case Some(b) => AgentsAfter(agents, b, h, delivered);
            a in n && n[a := Freed(n[a])] == n
  {
  }

  /** Otherwise the two handlers have the effect of the report followed by the turn, but for the order of the queue. */
  lemma TurnAfterwards(s: Swarm, t: TaskId, a: AgentId, delivered: bool)
    requires Inv(s) && HeldBy(s, t, a) && s.queue != [] && !HandsItTo(s, t, a, delivered)
    ensures var n, q := TurnBetween(s, t, a, delivered), LoopTurn(ReportOn(s, t, a, false), delivered);
            n.tasks == q.tasks && n.goals == q.goals && n.agents == q.agents && n.roster == q.roster
  {
    HeadIsQueued(s);
    SameAgentsFreed(s, t, a);
    var m, p, h := FailFirst(s, t, a), ReportOn(s, t, a, false), s.queue[0];
    assert h != t && p.queue[0] == h && m.queue[0] == h;
    var r := RecordAfter(s.tasks[h], BestAgent(m.agents, m.roster), delivered);
    TurnEffect(m, delivered);
    TurnEffect(p, delivered);
    TurnsMeet(s, m, LoopTurn(m, delivered), p, LoopTurn(p, delivered), t, a, h, delivered, r);
  }

  lemma TurnsMeet(s: Swarm, m: Swarm, m2: Swarm, p: Swarm, q: Swarm, t: TaskId, a: AgentId, h: TaskId, delivered: bool, r: Task)
    requires t in s.tasks && h in s.tasks && t != h && a in m.agents
    requires TurnTo(m, m2, h, delivered, r) && TurnTo(p, q, h, delivered, r)
    requires m.tasks == s.tasks[t := s.tasks[t].(status := Failed)]
    requires m.goals == p.goals && m.agents == p.agents && m.roster == p.roster
    requires p.tasks == s.tasks[t := s.tasks[t].(status := Pending, assignedAgent := None)]
    requires m.agents[a].currentTask == None && m.agents[a].available && (delivered ==> BestAgent(m.agents, m.roster) != Some(a))
    ensures t in m2.tasks
    ensures var n := FailRest(m2, t, a); n.tasks == q.tasks && n.goals == q.goals && n.agents == q.agents && n.roster == q.roster
  {
    TasksCommute(s.tasks, t, m.tasks[t], h, r, p.tasks[t]);
    FreedStaysFreed(m.agents, m.roster, a, h, delivered);
  }

  lemma QueueAfterwards(s: Swarm, t: TaskId, a: AgentId, delivered: bool)
    requires Inv(s) && HeldBy(s, t, a) && s.queue != []
    ensures var n, q := TurnBetween(s, t, a, delivered), LoopTurn(ReportOn(s, t, a, false), delivered);
            Distinct(q.queue) ==> Distinct(n.queue) && forall x :: x in n.queue <==> x in q.queue
  {
    HeadIsQueued(s);
    SameAgentsFreed(s, t, a);
    var m, p, h, rest := FailFirst(s, t, a), ReportOn(s, t, a, false), s.queue[0], s.queue[1..];
    assert p.queue[0] == h && p.queue[1..] == rest + [t];
    var n, q := TurnBetween(s, t, a, delivered), LoopTurn(p, delivered);
    if q.queue == rest + [t] {
      assert n.queue == rest + [t];
    } else {
      assert q.queue == rest + [t] + [h] && n.queue == rest + [h] + [t];
      SwappedEnd(rest, t, h);
    }
  }

  lemma SwappedEnd(rest: seq<TaskId>, t: TaskId, h: TaskId)
    ensures Distinct(rest + [t] + [h]) ==> Distinct(rest + [h] + [t])
    ensures forall x :: x in rest + [h] + [t] <==> x in rest + [t] + [h]
  {
    if Distinct(rest + [t] + [h]) {
      var q, k := rest + [t] + [h], |rest|;
      forall i | 0 <= i < k ensures rest[i] != t && rest[i] != h { assert q[i] != q[k] && q[i] != q[k + 1]; }
      forall i, j | 0 <= i < j < k ensures rest[i] != rest[j] { assert q[i] != q[j]; }
      assert q[k] != q[k + 1];
    }
  }

  lemma NotHandedKeeps(s: Swarm, t: TaskId, a: AgentId, delivered: bool)
    requires Inv(s) && HeldBy(s, t, a) && s.queue != [] && !HandsItTo(s, t, a, delivered)
    ensures Inv(TurnBetween(s, t, a, delivered))
  {
    var p := ReportOn(s, t, a, false);
    FailureKeepsInv(s, t, a);
    NextKeepsInv(p, Tick(delivered));
    TurnAfterwards(s, t, a, delivered);
    QueueAfterwards(s, t, a, delivered);
    SameButOrderKeepsInv(LoopTurn(p, delivered), TurnBetween(s, t, a, delivered));
  }

  /** A turn of the loop at the await of a failure keeps the invariant exactly if it does not hand the next task of the queue
      to the agent that has just failed: the agent, freed a second time, would be available while it holds that task. */
  lemma TurnBetweenIsHarmlessIff(s: Swarm, t: TaskId, a: AgentId, delivered: bool)
    requires Inv(s) && HeldBy(s, t, a)
    ensures Inv(TurnBetween(s, t, a, delivered)) <==> !HandsItTo(s, t, a, delivered)
  {
    if s.queue == [] {
      IdleTurnBetween(s, t, a, delivered);
      FailureKeepsInv(s, t, a);
    } else if HandsItTo(s, t, a, delivered) {
      HandedInBetween(s, t, a);
    } else {
      NotHandedKeeps(s, t, a, delivered);
    }
  }
}
