/** A report that arrives while a task is handed to its agent: `_assign_task` has linked the two, and the message is not sent
    yet. What the report makes of the task is then overwritten. */
module SwarmDeliveries {
  import opened Prelude
  import opened SwarmProtocol
  import opened SwarmSafety
  import opened SwarmReports

  /** The next turn of the loop hands the head of the queue to an agent. */
  predicate HandsOut(s: Swarm) {
    s.queue != [] && s.queue[0] in s.tasks && BestAgent(s.agents, s.roster).Some?
  }

  function Head(s: Swarm): TaskId
    requires HandsOut(s)
  {
    s.queue[0]
  }

  function Chosen(s: Swarm): AgentId
    requires HandsOut(s)
  {
    BestAgent(s.agents, s.roster).value
  }

  /** The turn up to the await: the task is ASSIGNED and out of the queue, its agent busy. */
  function HandedOut(s: Swarm): Swarm
    requires HandsOut(s)
  {
    AssignTask(s.(queue := s.queue[1..]), Head(s), Chosen(s))
  }

  /** A report about `t` at the await, and then the rest of the turn. */
  function ReportBetween(s: Swarm, t: TaskId, b: AgentId, success: bool, delivered: bool): Swarm
    requires HandsOut(s)
  {
    var m := ReportOn(HandedOut(s), t, b, success);
    if Head(s) in m.tasks && Chosen(s) in m.agents then Trigger(m, Head(s), Chosen(s), delivered) else m
  }

  /** Without a report in between, that is the atomic turn. */
  lemma TurnInTwo(s: Swarm, delivered: bool)
    requires HandsOut(s)
    ensures LoopTurn(s, delivered) == Trigger(HandedOut(s), Head(s), Chosen(s), delivered)
  {
  }

  // ---------- The report is about another task, and the message goes out ----------

  function Started(p: Swarm, h: TaskId): Swarm
    requires h in p.tasks
  {
    p.(tasks := p.tasks[h := p.tasks[h].(status := InProgress)])
  }

  lemma {:induction false} StartedUnlocks(p: Swarm, h: TaskId, done: Label, ids: seq<TaskId>)
    requires h in p.tasks && p.tasks[h].status == Assigned
    ensures Unlocked(Started(p, h), done, ids) == Unlocked(p, done, ids)
  {
    if ids != [] {
      var last := ids[|ids| - 1];
      StartedUnlocks(p, h, done, ids[..|ids| - 1]);
      assert SameLedger(p, Started(p, h));
      if InGoal(p, last) { SameLedgerKeepsReady(p, Started(p, h), last); }
    }
  }

  lemma StartedMarked(p: Swarm, h: TaskId, t: TaskId, b: AgentId)
    requires h in p.tasks && t in p.tasks && t != h
    ensures MarkCompleted(Started(p, h), t, b) == Started(MarkCompleted(p, t, b), h)
  {
    TasksSwap(p.tasks, t, p.tasks[t].(status := Completed), h, p.tasks[h].(status := InProgress));
  }

  lemma TasksSwap(tasks: map<TaskId, Task>, t: TaskId, r: Task, h: TaskId, q: Task)
    requires t != h
    ensures tasks[t := r][h := q] == tasks[h := q][t := r]
  {
  }

  /** A report about another task does the same before and after the task is IN_PROGRESS. */
  lemma StartedReported(p: Swarm, h: TaskId, t: TaskId, b: AgentId, success: bool)
    requires h in p.tasks && p.tasks[h].status == Assigned && t != h && InGoal(p, t)
    ensures h in ReportOn(p, t, b, success).tasks
    ensures ReportOn(Started(p, h), t, b, success) == Started(ReportOn(p, t, b, success), h)
  {
    if success {
      StartedMarked(p, h, t, b);
      StartedUnlocked(MarkCompleted(p, t, b), h, t);
      StartedChecked(UnlockDependents(MarkCompleted(p, t, b), t), h, t.goal);
    } else {
      TasksSwap(p.tasks, t, p.tasks[t].(status := Pending, assignedAgent := None), h, p.tasks[h].(status := InProgress));
    }
  }

  lemma StartedUnlocked(m: Swarm, h: TaskId, t: TaskId)
    requires h in m.tasks && m.tasks[h].status == Assigned && t != h && InGoal(m, t)
    ensures UnlockDependents(Started(m, h), t) == Started(UnlockDependents(m, t), h)
  {
    StartedUnlocks(m, h, m.tasks[t].id, m.goals[t.goal].tasks);
  }

  lemma StartedChecked(m: Swarm, h: TaskId, g: nat)
    requires h in m.tasks && m.tasks[h].status == Assigned && g < |m.goals|
    ensures CheckGoal(Started(m, h), g) == Started(CheckGoal(m, g), h)
  {
    assert AllCompleted(Started(m, h).tasks, m.goals[g].tasks) == AllCompleted(m.tasks, m.goals[g].tasks);
  }

  lemma HandedOutFields(s: Swarm)
    requires HandsOut(s)
    ensures var p, h, a := HandedOut(s), Head(s), Chosen(s);
            && a in s.agents && Idle(s.agents[a]) && p.goals == s.goals && p.queue == s.queue[1..]
            && p.tasks == s.tasks[h := s.tasks[h].(status := Assigned, assignedAgent := Some(a))]
  {
  }

  lemma RelinkedLedger(s: Swarm, p: Swarm, h: TaskId, r: Task)
    requires h in s.tasks && s.tasks[h].status != Completed && p.goals == s.goals && p.tasks == s.tasks[h := r]
    requires r.id == s.tasks[h].id && r.deps == s.tasks[h].deps && r.status != Completed
    ensures SameLedger(s, p)
  {
  }

  /** The state before the message is sent, from which all conditions are read. */
  lemma HandedOutShape(s: Swarm)
    requires Inv(s) && HandsOut(s)
    ensures var p, h, a := HandedOut(s), Head(s), Chosen(s);
            && InGoal(s, h) && IsQueued(s, h) && a in s.agents && Idle(s.agents[a])
            && p.tasks == s.tasks[h := s.tasks[h].(status := Assigned, assignedAgent := Some(a))] && p.goals == s.goals
            && p.queue == s.queue[1..] && SameLedger(s, p) && h !in p.queue && Distinct(p.queue)
  {
    HeadIsQueued(s);
    HandedOutFields(s);
    TailIsDistinct(s.queue);
    RelinkedLedger(s, HandedOut(s), Head(s), HandedOut(s).tasks[Head(s)]);
  }

  lemma TailIsDistinct(q: seq<TaskId>)
    requires Distinct(q) && q != []
    ensures Distinct(q[1..]) && q[0] !in q[1..]
  {
    var rest := q[1..];
    forall i, j | 0 <= i < j < |rest| ensures rest[i] != rest[j] { assert rest[i] == q[i + 1] && rest[j] == q[j + 1]; }
    forall i | 0 <= i < |rest| ensures rest[i] != q[0] { assert rest[i] == q[i + 1]; }
  }

  lemma ToleratedAlike(p: Swarm, q: Swarm, h: TaskId, t: TaskId, b: AgentId, success: bool)
    requires h in p.tasks && p.tasks[h].status == Assigned && q == Started(p, h) && t != h && InGoal(p, t)
    ensures InGoal(q, t) && Tolerates(q, t, b, success) == Tolerates(p, t, b, success)
  {
    assert SameLedger(p, q);
    forall x | InGoal(p, x) ensures InGoal(q, x) && Ready(q, x) == Ready(p, x) { SameLedgerKeepsReady(p, q, x); }
    forall d ensures Met(q.tasks, p.goals[t.goal].tasks, d) <==> Met(p.tasks, p.goals[t.goal].tasks, d) {
      SameLedgerKeepsMet(p, q, p.goals[t.goal].tasks, d);
    }
    assert forall x :: Unlockable(q, p.tasks[t].id, x) == Unlockable(p, p.tasks[t].id, x);
  }

  lemma TurnKeepsFirst(s: Swarm, delivered: bool, t: TaskId)
    requires Inv(s) && HandsOut(s) && InGoal(s, t) && First(s, t)
    ensures var q := LoopTurn(s, delivered); Inv(q) && InGoal(q, t) && First(q, t)
  {
    DispatchKeepsInv(s, delivered);
    HeadIsQueued(s);
    DispatchEffect(s, delivered);
    MovedLedger(s, LoopTurn(s, delivered), s.queue[0], if delivered then BestAgent(s.agents, s.roster) else None);
    LedgerKeepsFirst(s, LoopTurn(s, delivered), t);
  }

  lemma LedgerKeepsFirst(s: Swarm, n: Swarm, t: TaskId)
    requires SameLedger(s, n) && t in s.tasks && First(s, t)
    ensures t in n.tasks && First(n, t)
  {
    assert t in n.tasks.Keys;
    forall u | u in n.tasks && u.goal == t.goal && n.tasks[u].id == n.tasks[t].id ensures t.position <= u.position {
      assert u in s.tasks.Keys;
    }
  }

  /** A delivery that succeeds: the report might as well have come after the turn. */
  lemma DeliveredOther(s: Swarm, t: TaskId, b: AgentId, success: bool)
    requires Inv(s) && HandsOut(s) && InGoal(s, t) && First(s, t) && t != Head(s)
    ensures var p := HandedOut(s);
            InGoal(p, t) && (Inv(ReportBetween(s, t, b, success, true)) <==> HoldsNoOther(p, t, b) && Tolerates(p, t, b, success))
  {
    var p, q, h := HandedOut(s), LoopTurn(s, true), Head(s);
    HandedOutShape(s);
    TurnInTwo(s, true);
    assert q == Started(p, h);
    TurnKeepsFirst(s, true, t);
    StartedReported(p, h, t, b, success);
    ReportKeepsAgents(p, t, b, success);
    assert ReportBetween(s, t, b, success, true) == ReportOn(q, t, b, success);
    FoundReportKeepsInvIff(q, t, b, success);
    ToleratedAlike(p, q, h, t, b, success);
  }

  lemma ReportKeepsAgents(p: Swarm, t: TaskId, b: AgentId, success: bool)
    requires InGoal(p, t)
    ensures ReportOn(p, t, b, success).agents.Keys == p.agents.Keys && ReportOn(p, t, b, success).tasks.Keys == p.tasks.Keys
  {
    if success { SuccessEffect(p, t, b); } else { FailureEffect(p, t, b); }
  }

  // ---------- The report is about the task that is handed out ----------

  /** `x` waits for `t` and for nothing else. */
  ghost predicate WaitsOnlyFor(p: Swarm, t: TaskId, x: TaskId)
    requires InGoal(p, t)
  {
    && InGoal(p, x) && x.goal == t.goal && p.tasks[t].id in p.tasks[x].deps
    && forall d | d in p.tasks[x].deps :: d == p.tasks[t].id || Met(p.tasks, p.goals[t.goal].tasks, d)
  }

  /** All other tasks of its goal are COMPLETED. */
  ghost predicate OnlyOneLeft(p: Swarm, t: TaskId)
    requires InGoal(p, t)
  {
    forall x | x in p.goals[t.goal].tasks && x != t :: x in p.tasks && p.tasks[x].status == Completed
  }

  /** The agents are as in `q`, but `b` is free. */
  ghost predicate FreesOnly(q: Swarm, n: Swarm, b: AgentId) {
    && n.agents.Keys == q.agents.Keys
    && (forall c {:trigger n.agents[c]} | c in q.agents && c != b :: c in n.agents.Keys
          && n.agents[c].currentTask == q.agents[c].currentTask && n.agents[c].available == q.agents[c].available)
    && (b in q.agents ==> b in n.agents.Keys && n.agents[b].currentTask == None && n.agents[b].available)
  }

  /** `n` differs from the turn's `q` in the goal of `t`, in agent `b`, and in what `t` has let in. */
  ghost predicate Overwritten(q: Swarm, n: Swarm, t: TaskId, b: AgentId, completes: bool)
    requires InGoal(q, t)
  {
    && n.tasks == q.tasks && n.roster == q.roster && SameLists(q, n) && FreesOnly(q, n, b)
    && (forall h {:trigger n.goals[h]} | 0 <= h < |q.goals| && h != t.goal :: n.goals[h] == q.goals[h])
    && n.goals[t.goal].status == if completes then Completed else q.goals[t.goal].status
  }

  predicate HoldsNothing(q: Swarm, b: AgentId) {
    b in q.agents ==> q.agents[b].currentTask == None
  }

  lemma IdleIsAlike(q: Swarm, n: Swarm, b: AgentId)
    requires AgentsOk(q) && FreesOnly(q, n, b) && HoldsNothing(q, b)
    ensures HoldAlike(q, n)
  {
    if b in q.agents { assert AgentOk(q, b); }
  }

  lemma OverwrittenKeeps(q: Swarm, n: Swarm, t: TaskId, b: AgentId)
    requires Inv(q) && InGoal(q, t) && Overwritten(q, n, t, b, false) && HoldsNothing(q, b) && n.queue == q.queue
    ensures Inv(n)
  {
    IdleIsAlike(q, n, b);
    assert n.goals == q.goals by { forall h | 0 <= h < |q.goals| ensures n.goals[h] == q.goals[h] { } }
    SameButOrderKeepsInv(q, n);
  }

  /** A reporter that held something has lost it. */
  lemma HoldingIsLost(q: Swarm, n: Swarm, b: AgentId)
    requires Inv(q) && n.tasks == q.tasks && FreesOnly(q, n, b) && !HoldsNothing(q, b)
    ensures !Inv(n)
  {
    var x := q.agents[b].currentTask.value;
    assert AgentOk(q, b);
    if Inv(n) { InProgressIsHeld(n, x); }
  }

  lemma EarlyGoalBreaks(q: Swarm, n: Swarm, t: TaskId, b: AgentId)
    requires InGoal(q, t) && t in q.goals[t.goal].tasks && q.tasks[t].status != Completed && Overwritten(q, n, t, b, true)
    ensures !Inv(n)
  {
    assert t in n.goals[t.goal].tasks;
  }

  /** A dependent that was let in is not ready once `t` is taken back. */
  lemma LetInTooEarly(n: Swarm, t: TaskId, x: TaskId)
    requires InGoal(n, t) && First(n, t) && n.tasks[t].status != Completed
    requires InGoal(n, x) && x.goal == t.goal && n.tasks[t].id in n.tasks[x].deps && x in n.queue
    ensures !Inv(n)
  {
    if Inv(n) {
      PlaceOf(n, x);
      DependentIsUnready(n, t, x);
    }
  }

  lemma HandedOutIsWellShaped(s: Swarm)
    requires Inv(s) && HandsOut(s)
    ensures WellShaped(HandedOut(s)) && DoneFirst(HandedOut(s))
  {
    HandedOutShape(s);
    assert HandedOut(s).agents.Keys == s.agents.Keys;
    SameLedgerKeepsShape(s, HandedOut(s));
    SameLedgerKeepsFirst(s, HandedOut(s));
  }

  /** What the handed-out task lets in is what waits for nothing else. */
  lemma LetInWaited(s: Swarm, b: AgentId, x: TaskId)
    requires Inv(s) && HandsOut(s) && InGoal(s, Head(s)) && First(s, Head(s))
    ensures var p, h := HandedOut(s), Head(s); InGoal(p, h) && (x in LetIn(p, h, b) <==> WaitsOnlyFor(p, h, x))
  {
    var p, h := HandedOut(s), Head(s);
    var m := MarkCompleted(p, h, b);
    HandedOutShape(s);
    HandedOutIsWellShaped(s);
    UnlockedAreUnlockable(m, p.tasks[h].id, p.goals[h.goal].tasks);
    if InGoal(p, x) && x.goal == h.goal && p.tasks[h].id in p.tasks[x].deps {
      HandedOutDependent(s, x);
      ReadyWithout(p, m, h, x);
      assert x in p.goals[x.goal].tasks;
    }
  }

  lemma HandedOutDependent(s: Swarm, x: TaskId)
    requires Inv(s) && HandsOut(s) && InGoal(s, Head(s)) && First(s, Head(s))
    requires InGoal(s, x) && x.goal == Head(s).goal && s.tasks[Head(s)].id in s.tasks[x].deps
    ensures x != Head(s) && s.tasks[x].status == Pending && x !in s.queue
  {
    HeadIsQueued(s);
    DependentIsUnready(s, Head(s), x);
    UnreadyWaits(s, x);
  }

  lemma ReadyWithout(p: Swarm, m: Swarm, t: TaskId, x: TaskId)
    requires WellShaped(p) && InGoal(p, t) && InGoal(p, x) && x.goal == t.goal && p.tasks[t].id in p.tasks[x].deps
    requires m.tasks == p.tasks[t := p.tasks[t].(status := Completed)] && m.goals == p.goals
    ensures InGoal(m, x) && (Ready(m, x) <==> WaitsOnlyFor(p, t, x))
  {
    forall d ensures Met(m.tasks, p.goals[t.goal].tasks, d) <==> Met(p.tasks, p.goals[t.goal].tasks, d) || d == p.tasks[t].id {
      MetAfter(p, m, t, t.goal, d);
    }
  }

  /** The rest of the turn, after whatever report. */
  ghost predicate Resumed(m: Swarm, n: Swarm, h: TaskId, a: AgentId, delivered: bool)
    requires h in m.tasks && a in m.agents
  {
    && n.goals == m.goals && n.roster == m.roster
    && n.tasks == m.tasks[h := if delivered then m.tasks[h].(status := InProgress)
                               else m.tasks[h].(status := Pending, assignedAgent := None)]
    && n.agents == (if delivered then m.agents else m.agents[a := AfterFailure(m.agents[a])])
    && n.queue == if delivered then m.queue else m.queue + [h]
  }

  lemma TriggerResumes(m: Swarm, h: TaskId, a: AgentId, delivered: bool)
    requires h in m.tasks && a in m.agents
    ensures Resumed(m, Trigger(m, h, a, delivered), h, a, delivered)
  {
  }

  /** How the turn goes on with and without the report. */
  lemma BothResume(s: Swarm, t: TaskId, b: AgentId, success: bool, delivered: bool)
    requires Inv(s) && HandsOut(s) && InGoal(HandedOut(s), t)
    ensures var p, h, a := HandedOut(s), Head(s), Chosen(s);
            var m := ReportOn(p, t, b, success);
            && h in p.tasks && h in m.tasks && a in p.agents && a in m.agents
            && Resumed(p, LoopTurn(s, delivered), h, a, delivered)
            && Resumed(m, ReportBetween(s, t, b, success, delivered), h, a, delivered)
  {
    var p, h, a := HandedOut(s), Head(s), Chosen(s);
    HandedOutShape(s);
    TurnInTwo(s, delivered);
    TriggerResumes(p, h, a, delivered);
    ReportKeepsAgents(p, t, b, success);
    var m := ReportOn(p, t, b, success);
    assert h in p.tasks.Keys && a in p.agents.Keys;
    TriggerResumes(m, h, a, delivered);
  }

  lemma ResumedAgents(p: Swarm, m: Swarm, q: Swarm, n: Swarm, h: TaskId, a: AgentId, b: AgentId, delivered: bool)
    requires h in p.tasks && h in m.tasks && a in p.agents && a in m.agents && OnlyFreed(p, m, b)
    requires Resumed(p, q, h, a, delivered) && Resumed(m, n, h, a, delivered)
    ensures FreesOnly(q, n, b)
  {
    assert n.agents.Keys == q.agents.Keys;
    forall c | c in q.agents && c != b
      ensures c in n.agents && n.agents[c].currentTask == q.agents[c].currentTask && n.agents[c].available == q.agents[c].available
    {
      assert c in p.agents.Keys && m.agents[c] == p.agents[c];
    }
    if b in q.agents { assert b in p.agents.Keys && b in m.agents.Keys; }
  }

  lemma SelfTasks(tasks: map<TaskId, Task>, h: TaskId, delivered: bool)
    requires h in tasks
    ensures var done := tasks[h].(status := Completed);
            tasks[h := done][h := if delivered then done.(status := InProgress)
                                  else done.(status := Pending, assignedAgent := None)]
            == tasks[h := if delivered then tasks[h].(status := InProgress)
                          else tasks[h].(status := Pending, assignedAgent := None)]
  {
  }

  lemma CompletesIff(p: Swarm, h: TaskId, tasks: map<TaskId, Task>)
    requires InGoal(p, h) && tasks == p.tasks[h := p.tasks[h].(status := Completed)]
    ensures AllCompleted(tasks, p.goals[h.goal].tasks) <==> OnlyOneLeft(p, h)
  {
  }

  lemma SelfSuccess(p: Swarm, m: Swarm, q: Swarm, n: Swarm, h: TaskId, a: AgentId, b: AgentId, delivered: bool)
    requires InGoal(p, h) && h in m.tasks && a in p.agents && a in m.agents && InGoal(q, h)
    requires SucceededTo(p, m, h, b, LetIn(p, h, b))
    requires Resumed(p, q, h, a, delivered) && Resumed(m, n, h, a, delivered)
    ensures Overwritten(q, n, h, b, OnlyOneLeft(p, h))
  {
    SelfTasks(p.tasks, h, delivered);
    CompletesIff(p, h, m.tasks);
    ResumedAgents(p, m, q, n, h, a, b, delivered);
  }

  /** A report about the task itself does no harm when it is a success, when the reporter holds nothing, and when nothing follows
      from the success. */
  ghost predicate Unnoticed(p: Swarm, q: Swarm, h: TaskId, b: AgentId, success: bool)
    requires InGoal(p, h)
  {
    success && HoldsNothing(q, b) && !OnlyOneLeft(p, h) && forall x :: !WaitsOnlyFor(p, h, x)
  }

  /** What the turn and the report make of the swarm, seen from the turn alone. */
  ghost predicate Crossed(p: Swarm, q: Swarm, n: Swarm, h: TaskId, b: AgentId)
    requires InGoal(p, h)
  {
    && InGoal(q, h) && Overwritten(q, n, h, b, OnlyOneLeft(p, h)) && q.tasks[h].status != Completed && SameLedger(p, q)
    && (LetIn(p, h, b) == [] ==> n.queue == q.queue) && forall x | x in LetIn(p, h, b) :: x in n.queue
  }

  lemma SelfCrosses(p: Swarm, m: Swarm, q: Swarm, n: Swarm, h: TaskId, a: AgentId, b: AgentId, delivered: bool)
    requires InGoal(p, h) && h in m.tasks && a in p.agents && a in m.agents && p.tasks[h].status != Completed
    requires SucceededTo(p, m, h, b, LetIn(p, h, b))
    requires Resumed(p, q, h, a, delivered) && Resumed(m, n, h, a, delivered)
    ensures Crossed(p, q, n, h, b)
  {
    SelfSuccess(p, m, q, n, h, a, b, delivered);
  }

  lemma SuccessCrosses(s: Swarm, b: AgentId, delivered: bool)
    requires Inv(s) && HandsOut(s) && InGoal(HandedOut(s), Head(s))
    ensures Crossed(HandedOut(s), LoopTurn(s, delivered), ReportBetween(s, Head(s), b, true, delivered), Head(s), b)
  {
    var p, h := HandedOut(s), Head(s);
    BothResume(s, h, b, true, delivered);
    SuccessEffect(p, h, b);
    SelfCrosses(p, ReportOn(p, h, b, true), LoopTurn(s, delivered), ReportBetween(s, h, b, true, delivered), h, Chosen(s), b,
                delivered);
  }

  lemma UnnoticedKeeps(s: Swarm, p: Swarm, q: Swarm, n: Swarm, h: TaskId, b: AgentId)
    requires Inv(s) && HandsOut(s) && InGoal(s, h) && First(s, h) && p == HandedOut(s) && h == Head(s) && InGoal(p, h)
    requires Inv(q) && Crossed(p, q, n, h, b) && Unnoticed(p, q, h, b, true)
    ensures Inv(n)
  {
    forall x ensures x !in LetIn(p, h, b) { LetInWaited(s, b, x); }
    NonEmptyHasElement(LetIn(p, h, b));
    OverwrittenKeeps(q, n, h, b);
  }

  lemma NoticedBreaks(s: Swarm, p: Swarm, q: Swarm, n: Swarm, h: TaskId, b: AgentId)
    requires Inv(s) && HandsOut(s) && InGoal(s, h) && First(s, h) && p == HandedOut(s) && h == Head(s) && InGoal(p, h)
    requires Inv(q) && Crossed(p, q, n, h, b) && First(q, h) && !Unnoticed(p, q, h, b, true)
    ensures !Inv(n)
  {
    if !HoldsNothing(q, b) {
      HoldingIsLost(q, n, b);
    } else if OnlyOneLeft(p, h) {
      EarlyGoalBreaks(q, n, h, b);
    } else {
      var x :| WaitsOnlyFor(p, h, x);
      LetInWaited(s, b, x);
      WaiterIsUnready(p, q, n, h, x);
    }
  }

  lemma WaiterIsUnready(p: Swarm, q: Swarm, n: Swarm, h: TaskId, x: TaskId)
    requires InGoal(p, h) && WaitsOnlyFor(p, h, x) && SameLedger(p, q) && n.tasks == q.tasks && SameLists(q, n)
    requires InGoal(q, h) && First(q, h) && q.tasks[h].status != Completed && x in n.queue
    ensures !Inv(n)
  {
    assert x in q.tasks.Keys && h in q.tasks.Keys;
    LetInTooEarly(n, h, x);
  }

  lemma FailureCrosses(s: Swarm, b: AgentId, delivered: bool)
    requires Inv(s) && HandsOut(s) && InGoal(HandedOut(s), Head(s))
    ensures !Inv(ReportBetween(s, Head(s), b, false, delivered))
  {
    var p, h := HandedOut(s), Head(s);
    BothResume(s, h, b, false, delivered);
    FailureEffect(p, h, b);
    FailedWhileHandedOut(p, ReportOn(p, h, b, false), ReportBetween(s, h, b, false, delivered), h, Chosen(s), b, delivered);
  }

  lemma SelfReportIff(s: Swarm, b: AgentId, success: bool, delivered: bool)
    requires Inv(s) && HandsOut(s) && InGoal(s, Head(s)) && First(s, Head(s)) && InGoal(HandedOut(s), Head(s))
    ensures Inv(ReportBetween(s, Head(s), b, success, delivered))
            <==> Unnoticed(HandedOut(s), LoopTurn(s, delivered), Head(s), b, success)
  {
    var p, q, h := HandedOut(s), LoopTurn(s, delivered), Head(s);
    if success {
      var n := ReportBetween(s, h, b, true, delivered);
      SuccessCrosses(s, b, delivered);
      TurnKeepsFirst(s, delivered, h);
      if Unnoticed(p, q, h, b, true) { UnnoticedKeeps(s, p, q, n, h, b); } else { NoticedBreaks(s, p, q, n, h, b); }
    } else {
      FailureCrosses(s, b, delivered);
    }
  }

  /** A failed task is back in the queue, and is then IN_PROGRESS, or queued a second time. */
  lemma FailedWhileHandedOut(p: Swarm, m: Swarm, n: Swarm, h: TaskId, a: AgentId, b: AgentId, delivered: bool)
    requires h in p.tasks && FailedTo(p, m, h, b) && h in m.tasks && a in m.agents && Resumed(m, n, h, a, delivered)
    ensures !Inv(n)
  {
    assert m.queue[|p.queue|] == h;
    if delivered {
      if Inv(n) { PlaceOf(n, h); }
    } else {
      TwiceInQueue(m.queue, [h], h);
    }
  }

  // ---------- The report is about another task, and the message does not go out ----------

  lemma SameStatusGoal(p: Swarm, m: Swarm, t: TaskId, b: AgentId, unlocked: seq<TaskId>)
    requires GoalsOk(p) && InGoal(p, t) && p.tasks[t].status == Completed && t in p.goals[t.goal].tasks
    requires SucceededTo(p, m, t, b, unlocked)
    ensures m.tasks == p.tasks && m.goals == p.goals
  {
    assert m.tasks == p.tasks;
    forall h | 0 <= h < |p.goals| ensures m.goals[h] == p.goals[h] { }
  }

  lemma RepeatedOverwrites(p: Swarm, m: Swarm, q: Swarm, n: Swarm, h: TaskId, a: AgentId, t: TaskId, b: AgentId)
    requires GoalsOk(p) && InGoal(p, t) && p.tasks[t].status == Completed && t in p.goals[t.goal].tasks && InGoal(q, t)
    requires h in p.tasks && h in m.tasks && a in p.agents && a in m.agents
    requires SucceededTo(p, m, t, b, LetIn(p, t, b))
    requires Resumed(p, q, h, a, false) && Resumed(m, n, h, a, false)
    ensures Overwritten(q, n, t, b, false) && n.queue == p.queue + LetIn(p, t, b) + [h]
  {
    SameStatusGoal(p, m, t, b, LetIn(p, t, b));
    ResumedAgents(p, m, q, n, h, a, b, false);
  }

  lemma LetInAgainIff(p: Swarm, t: TaskId, b: AgentId, x: TaskId)
    requires InGoal(p, t) && p.tasks[t].status == Completed
    ensures x in LetIn(p, t, b) <==> x in p.goals[t.goal].tasks && Unlockable(p, p.tasks[t].id, x)
  {
    var m := MarkCompleted(p, t, b);
    UnlockedAreUnlockable(m, p.tasks[t].id, p.goals[t.goal].tasks);
    assert m.tasks == p.tasks;
  }

  lemma PendingIsQueued(s: Swarm, x: TaskId)
    requires Inv(s) && InGoal(s, x) && s.tasks[x].status == Pending && Ready(s, x)
    ensures x in s.queue
  {
    PlaceOf(s, x);
  }

  /** A dependent of a finished task that a repeated success lets in stands in the queue already. */
  lemma LetInIsQueued(s: Swarm, t: TaskId, x: TaskId)
    requires Inv(s) && HandsOut(s) && InGoal(HandedOut(s), t)
    requires x in HandedOut(s).goals[t.goal].tasks && Unlockable(HandedOut(s), HandedOut(s).tasks[t].id, x)
    ensures x in HandedOut(s).queue
  {
    var p, h := HandedOut(s), Head(s);
    HandedOutShape(s);
    assert x != h && x in s.tasks && s.tasks[x] == p.tasks[x];
    SameLedgerKeepsReady(s, p, x);
    PendingIsQueued(s, x);
    assert s.queue == [h] + p.queue;
  }

  lemma RepeatedKeeps(q: Swarm, n: Swarm, p: Swarm, h: TaskId, t: TaskId, b: AgentId)
    requires Inv(q) && InGoal(q, t) && InGoal(p, t) && p.tasks[t].status == Completed && Overwritten(q, n, t, b, false)
    requires n.queue == p.queue + LetIn(p, t, b) + [h] && q.queue == p.queue + [h] && HoldsNothing(q, b) && NoneQueued(p, t)
    ensures Inv(n)
  {
    forall x ensures x !in LetIn(p, t, b) { LetInAgainIff(p, t, b, x); }
    NonEmptyHasElement(LetIn(p, t, b));
    assert n.queue == q.queue;
    OverwrittenKeeps(q, n, t, b);
  }

  lemma QueuedAgain(n: Swarm, rest: seq<TaskId>, more: seq<TaskId>, h: TaskId, x: TaskId)
    requires n.queue == rest + more + [h] && x in rest && x in more
    ensures !Inv(n)
  {
    assert n.queue == rest + (more + [h]);
    TwiceInQueue(rest, more + [h], x);
  }

  lemma RepeatedBreaks(s: Swarm, q: Swarm, n: Swarm, p: Swarm, h: TaskId, t: TaskId, b: AgentId)
    requires Inv(s) && HandsOut(s) && p == HandedOut(s)
    requires Inv(q) && InGoal(q, t) && InGoal(p, t) && p.tasks[t].status == Completed && Overwritten(q, n, t, b, false)
    requires n.queue == p.queue + LetIn(p, t, b) + [h] && !(HoldsNothing(q, b) && NoneQueued(p, t))
    ensures !Inv(n)
  {
    if !HoldsNothing(q, b) {
      HoldingIsLost(q, n, b);
    } else {
      var x :| x in p.goals[t.goal].tasks && Unlockable(p, p.tasks[t].id, x);
      LetInAgainIff(p, t, b, x);
      LetInIsQueued(s, t, x);
      QueuedAgain(n, p.queue, LetIn(p, t, b), h, x);
    }
  }

  lemma HandedOutGoals(s: Swarm, t: TaskId)
    requires Inv(s) && HandsOut(s) && InGoal(s, t)
    ensures InGoal(HandedOut(s), t) && GoalsOk(HandedOut(s)) && t in HandedOut(s).goals[t.goal].tasks
  {
    HandedOutShape(s);
    SameLedgerKeepsGoals(s, HandedOut(s));
  }

  /** A success of a finished task, repeated while a message fails to go out. */
  lemma RepeatedIff(s: Swarm, t: TaskId, b: AgentId)
    requires Inv(s) && HandsOut(s) && InGoal(s, t) && First(s, t) && t != Head(s) && s.tasks[t].status == Completed
    ensures InGoal(HandedOut(s), t)
    ensures Inv(ReportBetween(s, t, b, true, false))
            <==> HoldsNothing(LoopTurn(s, false), b) && Tolerates(HandedOut(s), t, b, true)
  {
    var p, q, h, n := HandedOut(s), LoopTurn(s, false), Head(s), ReportBetween(s, t, b, true, false);
    HandedOutGoals(s, t);
    BothResume(s, t, b, true, false);
    SuccessEffect(p, t, b);
    TurnKeepsFirst(s, false, t);
    assert p.tasks[t] == s.tasks[t];
    RepeatedOverwrites(p, ReportOn(p, t, b, true), q, n, h, Chosen(s), t, b);
    if HoldsNothing(q, b) && NoneQueued(p, t) { RepeatedKeeps(q, n, p, h, t, b); } else { RepeatedBreaks(s, q, n, p, h, t, b); }
  }

  lemma SwappedDistinct(rest: seq<TaskId>, more: seq<TaskId>, h: TaskId)
    ensures Distinct(rest + more + [h]) <==> Distinct(rest + [h] + more)
  {
    var q, n, k, l := rest + more + [h], rest + [h] + more, |rest|, |rest| + |more|;
    assert q[l] == h && n[k] == h;
    assert forall i | 0 <= i < k :: q[i] == n[i];
    assert forall i | k <= i < l :: q[i] == n[i + 1];
    if Distinct(q) {
      forall i, j | 0 <= i < j < |n| ensures n[i] != n[j] {
        var x, y := if i < k then i else if i == k then l else i - 1, if j < k then j else if j == k then l else j - 1;
        assert q[x] == n[i] && q[y] == n[j] && x != y;
        assert x < y ==> q[x] != q[y];
        assert y < x ==> q[y] != q[x];
      }
    }
    if Distinct(n) {
      forall i, j | 0 <= i < j < |q| ensures q[i] != q[j] {
        var x, y := if i < k then i else if i == l then k else i + 1, if j < k then j else if j == l then k else j + 1;
        assert n[x] == q[i] && n[y] == q[j] && x != y;
        assert x < y ==> n[x] != n[y];
        assert y < x ==> n[y] != n[x];
      }
    }
  }

  /** The same state, but that the head was queued before or after what the report queued. */
  ghost predicate SwappedIn(r: Swarm, n: Swarm, rest: seq<TaskId>, more: seq<TaskId>, h: TaskId) {
    && n.tasks == r.tasks && n.goals == r.goals && n.roster == r.roster && HoldAlike(r, n)
    && n.queue == rest + more + [h] && r.queue == rest + [h] + more
  }

  lemma SwappedIff(r: Swarm, n: Swarm, rest: seq<TaskId>, more: seq<TaskId>, h: TaskId)
    requires SwappedIn(r, n, rest, more, h)
    ensures Inv(n) <==> Inv(r)
  {
    SwappedDistinct(rest, more, h);
    if Inv(r) { SameButOrderKeepsInv(r, n); }
    if Inv(n) {
      AlikeBack(r, n);
      SameButOrderKeepsInv(n, r);
    }
  }

  lemma AlikeBack(r: Swarm, n: Swarm)
    requires HoldAlike(r, n)
    ensures HoldAlike(n, r)
  {
    forall c | c in n.agents ensures c in r.agents && n.agents[c].currentTask == r.agents[c].currentTask
                                     && n.agents[c].available == r.agents[c].available {
      assert c in r.agents.Keys;
    }
  }

  lemma FreesAlike(q: Swarm, r: Swarm, n: Swarm, b: AgentId)
    requires OnlyFreed(q, r, b) && FreesOnly(q, n, b)
    ensures HoldAlike(r, n)
  {
    forall c | c in r.agents ensures c in n.agents.Keys && n.agents[c].currentTask == r.agents[c].currentTask
                                     && n.agents[c].available == r.agents[c].available {
      assert c in q.agents.Keys;
    }
  }

  lemma FailureSwaps(p: Swarm, m: Swarm, q: Swarm, r: Swarm, n: Swarm, h: TaskId, a: AgentId, t: TaskId, b: AgentId)
    requires h in p.tasks && t in p.tasks && t != h && h in m.tasks && a in p.agents && a in m.agents && t in q.tasks
    requires Resumed(p, q, h, a, false) && Resumed(m, n, h, a, false) && FailedTo(p, m, t, b) && FailedTo(q, r, t, b)
    ensures SwappedIn(r, n, p.queue, [t], h)
  {
    TasksSwap(p.tasks, t, m.tasks[t], h, q.tasks[h]);
    ResumedAgents(p, m, q, n, h, a, b, false);
    FreesAlike(q, r, n, b);
  }

  lemma SuccessSwaps(p: Swarm, m: Swarm, q: Swarm, r: Swarm, n: Swarm, h: TaskId, a: AgentId, t: TaskId, b: AgentId,
                     more: seq<TaskId>)
    requires h in p.tasks && InGoal(p, t) && t != h && h in m.tasks && a in p.agents && a in m.agents && InGoal(q, t)
    requires p.tasks[h].status != Completed && Resumed(p, q, h, a, false) && Resumed(m, n, h, a, false)
    requires SucceededTo(p, m, t, b, more) && SucceededTo(q, r, t, b, more)
    ensures SwappedIn(r, n, p.queue, more, h)
  {
    TasksSwap(p.tasks, t, m.tasks[t], h, q.tasks[h]);
    ResumedAgents(p, m, q, n, h, a, b, false);
    FreesAlike(q, r, n, b);
    SameGoalsChecked(p, m, q, r, h, t, b, more);
  }

  lemma SameGoalsChecked(p: Swarm, m: Swarm, q: Swarm, r: Swarm, h: TaskId, t: TaskId, b: AgentId, more: seq<TaskId>)
    requires h in p.tasks && InGoal(p, t) && t != h && InGoal(q, t) && h in q.tasks && q.goals == p.goals
    requires p.tasks[h].status != Completed && q.tasks[h].status != Completed && q.tasks == p.tasks[h := q.tasks[h]]
    requires SucceededTo(p, m, t, b, more) && SucceededTo(q, r, t, b, more)
    ensures r.goals == m.goals
  {
    assert AllCompleted(r.tasks, p.goals[t.goal].tasks) == AllCompleted(m.tasks, p.goals[t.goal].tasks);
    forall g | 0 <= g < |p.goals| ensures r.goals[g] == m.goals[g] { }
  }

  lemma {:induction false} UnlockedAlike(m: Swarm, n: Swarm, done: Label, ids: seq<TaskId>)
    requires forall x | x in ids :: Unlockable(m, done, x) == Unlockable(n, done, x)
    ensures Unlocked(m, done, ids) == Unlocked(n, done, ids)
  {
    if ids != [] { UnlockedAlike(m, n, done, ids[..|ids| - 1]); }
  }

  lemma SameUnlockable(p: Swarm, q: Swarm, h: TaskId, done: Label, x: TaskId)
    requires SameLedger(p, q) && (x == h ==> !(InGoal(p, x) && done in p.tasks[x].deps))
    requires h in p.tasks && h in q.tasks && q.tasks == p.tasks[h := q.tasks[h]]
    ensures Unlockable(p, done, x) == Unlockable(q, done, x)
  {
    if InGoal(p, x) { SameLedgerKeepsReady(p, q, x); }
    assert x in p.tasks.Keys <==> x in q.tasks.Keys;
  }

  lemma MarkedLedger(p: Swarm, q: Swarm, h: TaskId, t: TaskId, b: AgentId)
    requires SameLedger(p, q) && t in p.tasks && t in q.tasks && h in p.tasks && h in q.tasks && t != h
    requires q.tasks == p.tasks[h := q.tasks[h]]
    ensures var m, n := MarkCompleted(p, t, b), MarkCompleted(q, t, b); SameLedger(m, n) && n.tasks == m.tasks[h := n.tasks[h]]
  {
    TasksSwap(p.tasks, t, p.tasks[t].(status := Completed), h, q.tasks[h]);
  }

  /** The head, which is ready, depends on no unfinished task, so that it is not let in by this one. */
  lemma SameLetIn(s: Swarm, p: Swarm, q: Swarm, h: TaskId, t: TaskId, b: AgentId)
    requires Inv(s) && InGoal(s, h) && Ready(s, h) && InGoal(s, t) && First(s, t) && s.tasks[t].status != Completed && t != h
    requires SameLedger(s, p) && SameLedger(p, q) && InGoal(p, t) && InGoal(q, t) && h in p.tasks && h in q.tasks
    requires q.tasks == p.tasks[h := q.tasks[h]]
    ensures LetIn(q, t, b) == LetIn(p, t, b)
  {
    var m, n, ids, done := MarkCompleted(p, t, b), MarkCompleted(q, t, b), p.goals[t.goal].tasks, p.tasks[t].id;
    MarkedLedger(p, q, h, t, b);
    forall x | x in ids ensures Unlockable(m, done, x) == Unlockable(n, done, x) {
      if x == h && done in s.tasks[h].deps {
        assert h.goal == t.goal;
        DependentIsUnready(s, t, h);
      }
      SameUnlockable(m, n, h, done, x);
    }
    UnlockedAlike(m, n, done, ids);
  }

  lemma TurnedToleratedAlike(p: Swarm, q: Swarm, h: TaskId, a: AgentId, t: TaskId, b: AgentId, success: bool)
    requires h in p.tasks && a in p.agents && p.tasks[h].status == Assigned && t != h && InGoal(p, t)
    requires Resumed(p, q, h, a, false) && !(success && p.tasks[t].status == Completed)
    ensures InGoal(q, t) && Tolerates(q, t, b, success) == Tolerates(p, t, b, success)
  {
    assert SameLedger(p, q);
    forall x | InGoal(p, x) ensures InGoal(q, x) && Ready(q, x) == Ready(p, x) { SameLedgerKeepsReady(p, q, x); }
    forall d ensures Met(q.tasks, p.goals[t.goal].tasks, d) <==> Met(p.tasks, p.goals[t.goal].tasks, d) {
      SameLedgerKeepsMet(p, q, p.goals[t.goal].tasks, d);
    }
    assert t in q.queue <==> t in p.queue;
    assert forall x :: InGoal(q, x) <==> InGoal(p, x);
  }

  /** The reporter is in the middle of no other task, or is the agent that is freed because the message does not go out. */
  ghost predicate FreeToReport(s: Swarm, t: TaskId, b: AgentId, delivered: bool)
    requires HandsOut(s)
  {
    HoldsNoOther(HandedOut(s), t, b) || (!delivered && b == Chosen(s))
  }

  lemma FreedInTheEnd(p: Swarm, q: Swarm, h: TaskId, a: AgentId, t: TaskId, b: AgentId)
    requires h in p.tasks && a in p.agents && p.agents[a].currentTask == Some(h) && h != t && Resumed(p, q, h, a, false)
    ensures HoldsNoOther(q, t, b) <==> HoldsNoOther(p, t, b) || b == a
  {
  }

  lemma NobodyHoldsFinished(q: Swarm, t: TaskId, b: AgentId)
    requires AgentsOk(q) && t in q.tasks && q.tasks[t].status == Completed
    ensures HoldsNothing(q, b) <==> HoldsNoOther(q, t, b)
  {
    if b in q.agents { assert AgentOk(q, b); }
  }

  lemma SwapsWithReport(s: Swarm, t: TaskId, b: AgentId, success: bool)
    requires Inv(s) && HandsOut(s) && InGoal(s, t) && First(s, t) && t != Head(s)
    requires !(success && s.tasks[t].status == Completed)
    ensures Inv(ReportBetween(s, t, b, success, false)) <==> Inv(ReportOn(LoopTurn(s, false), t, b, success))
  {
    var p, q, h, a := HandedOut(s), LoopTurn(s, false), Head(s), Chosen(s);
    HandedOutShape(s);
    assert InGoal(p, t) && p.tasks[t] == s.tasks[t];
    BothResume(s, t, b, success, false);
    if success {
      SameLetIn(s, p, q, h, t, b);
      SuccessesSwap(p, q, ReportBetween(s, t, b, true, false), h, a, t, b);
    } else {
      FailuresSwap(p, q, ReportBetween(s, t, b, false, false), h, a, t, b);
    }
  }

  lemma SuccessesSwap(p: Swarm, q: Swarm, n: Swarm, h: TaskId, a: AgentId, t: TaskId, b: AgentId)
    requires h in p.tasks && InGoal(p, t) && t != h && a in p.agents && InGoal(q, t) && LetIn(q, t, b) == LetIn(p, t, b)
    requires p.tasks[h].status != Completed && Resumed(p, q, h, a, false)
    requires var m := ReportOn(p, t, b, true); h in m.tasks && a in m.agents && Resumed(m, n, h, a, false)
    ensures Inv(n) <==> Inv(ReportOn(q, t, b, true))
  {
    SuccessEffect(p, t, b);
    SuccessEffect(q, t, b);
    SuccessSwaps(p, ReportOn(p, t, b, true), q, ReportOn(q, t, b, true), n, h, a, t, b, LetIn(p, t, b));
    SwappedIff(ReportOn(q, t, b, true), n, p.queue, LetIn(p, t, b), h);
  }

  lemma FailuresSwap(p: Swarm, q: Swarm, n: Swarm, h: TaskId, a: AgentId, t: TaskId, b: AgentId)
    requires h in p.tasks && InGoal(p, t) && t != h && a in p.agents && InGoal(q, t) && Resumed(p, q, h, a, false)
    requires var m := ReportOn(p, t, b, false); h in m.tasks && a in m.agents && Resumed(m, n, h, a, false)
    ensures Inv(n) <==> Inv(ReportOn(q, t, b, false))
  {
    FailureEffect(p, t, b);
    FailureEffect(q, t, b);
    FailureSwaps(p, ReportOn(p, t, b, false), q, ReportOn(q, t, b, false), n, h, a, t, b);
    SwappedIff(ReportOn(q, t, b, false), n, p.queue, [t], h);
  }

  lemma UndeliveredOther(s: Swarm, t: TaskId, b: AgentId, success: bool)
    requires Inv(s) && HandsOut(s) && InGoal(s, t) && First(s, t) && t != Head(s)
    ensures InGoal(HandedOut(s), t)
    ensures Inv(ReportBetween(s, t, b, success, false))
            <==> FreeToReport(s, t, b, false) && Tolerates(HandedOut(s), t, b, success)
  {
    var p, q, h, a := HandedOut(s), LoopTurn(s, false), Head(s), Chosen(s);
    HandedOutShape(s);
    assert InGoal(p, t) && p.tasks[t] == s.tasks[t];
    BothResume(s, t, b, success, false);
    TurnKeepsFirst(s, false, t);
    FreedInTheEnd(p, q, h, a, t, b);
    if success && s.tasks[t].status == Completed {
      RepeatedIff(s, t, b);
      NobodyHoldsFinished(q, t, b);
    } else {
      SwapsWithReport(s, t, b, success);
      FoundReportKeepsInvIff(q, t, b, success);
      TurnedToleratedAlike(p, q, h, a, t, b, success);
    }
  }

  // ---------- When it does no harm ----------

  /** Exactly which reports at the await do no harm: one about another task that does none in the state in which it arrives; or,
      about the task that is handed out, a success that lets nothing in and leaves the goal unfinished, reported by somebody who
      is left with nothing. */
  ghost predicate Harmless(s: Swarm, t: TaskId, b: AgentId, success: bool, delivered: bool)
    requires HandsOut(s) && InGoal(HandedOut(s), t)
  {
    if t == Head(s) then Unnoticed(HandedOut(s), LoopTurn(s, delivered), t, b, success)
    else FreeToReport(s, t, b, delivered) && Tolerates(HandedOut(s), t, b, success)
  }

  /** The whole report as it arrives. */
  function TurnWithReport(s: Swarm, id: Label, b: AgentId, success: bool, delivered: bool): Swarm
    requires HandsOut(s)
  {
    match Find(HandedOut(s), id)
    case None => LoopTurn(s, delivered)
    case Some(t) => ReportBetween(s, t, b, success, delivered)
  }

  lemma FoundInHandedOut(s: Swarm, id: Label, t: TaskId)
    requires Inv(s) && HandsOut(s) && Find(HandedOut(s), id) == Some(t)
    ensures InGoal(s, t) && InGoal(HandedOut(s), t) && First(s, t)
  {
    var p := HandedOut(s);
    HandedOutShape(s);
    HandedOutIsWellShaped(s);
    FindMeans(p, id);
    assert t in s.tasks.Keys;
    forall u | u in s.tasks && u.goal == t.goal && s.tasks[u].id == s.tasks[t].id ensures t.position <= u.position {
      assert u in p.tasks.Keys;
    }
  }

  /** A report that arrives while a message is being sent keeps the invariant exactly if it is harmless, or finds no task. */
  lemma ReportBetweenIsHarmlessIff(s: Swarm, id: Label, b: AgentId, success: bool, delivered: bool)
    requires Inv(s) && HandsOut(s)
    ensures var found := Find(HandedOut(s), id);
            Inv(TurnWithReport(s, id, b, success, delivered)) <==>
              (found.Some? ==> InGoal(HandedOut(s), found.value) && Harmless(s, found.value, b, success, delivered))
  {
    if t: TaskId :| Find(HandedOut(s), id) == Some(t) {
      FoundInHandedOut(s, id, t);
      if t == Head(s) {
        SelfReportIff(s, b, success, delivered);
      } else if delivered {
        DeliveredOther(s, t, b, success);
      } else {
        UndeliveredOther(s, t, b, success);
      }
    } else {
      DispatchKeepsInv(s, delivered);
    }
  }

  /** An agent that is so fast as to report its task before the message counts as sent: the success is overwritten, and the
      task is IN_PROGRESS with nobody. */
  lemma FastReportIsLost(s: Swarm, id: Label)
    requires Inv(s) && HandsOut(s) && Find(HandedOut(s), id) == Some(Head(s))
    ensures var n, h := TurnWithReport(s, id, Chosen(s), true, true), Head(s);
            && h in n.tasks && n.tasks[h].status == InProgress
            && forall a | a in n.agents :: n.agents[a].currentTask != Some(h)
  {
    var p, h, a := HandedOut(s), Head(s), Chosen(s);
    FoundInHandedOut(s, id, h);
    HandedOutShape(s);
    SuccessEffect(p, h, a);
    BothResume(s, h, a, true, true);
    forall c | c in s.agents ensures s.agents[c].currentTask != Some(h) { assert AgentOk(s, c); }
    var m := ReportOn(p, h, a, true);
    forall c | c in m.agents ensures m.agents[c].currentTask != Some(h) { assert c in p.agents.Keys; }
  }
}
