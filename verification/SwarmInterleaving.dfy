/** Handlers that are not atomic: what other handlers do at their awaits. */
module SwarmInterleaving {
  import opened Prelude
  import opened SwarmProtocol
  import opened SwarmSafety
  import opened SwarmReports
  import opened SwarmRuns

  // ---------- Two successes ----------

  /** A report with the label of `t` reaches it, and `a` holds it. */
  ghost predicate CanReport(s: Swarm, t: TaskId, a: AgentId) {
    t in s.tasks && Reports(s, s.tasks[t].id, t, a)
  }

  /** Two different tasks, each in flight at the agent that reports it. */
  ghost predicate TwoReports(s: Swarm, t: TaskId, a: AgentId, u: TaskId, b: AgentId) {
    Inv(s) && t != u && CanReport(s, t, a) && CanReport(s, u, b)
  }

  lemma ReportableIsFirst(s: Swarm, t: TaskId, a: AgentId)
    requires Inv(s) && CanReport(s, t, a)
    ensures First(s, t) && InGoal(s, t) && s.tasks[t].status != Completed
  {
    FindMeans(s, s.tasks[t].id);
  }

  /** Both reports have run up to the await. */
  function BothMarked(s: Swarm, t: TaskId, a: AgentId, u: TaskId, b: AgentId): Swarm
    requires t in s.tasks && u in s.tasks
  {
    MarkCompleted(MarkCompleted(s, t, a), u, b)
  }

  /** `x`, of their goal, waits for both tasks and, with both finished, for nothing else. */
  ghost predicate LastTwo(m: Swarm, t: TaskId, u: TaskId, x: TaskId)
    requires t in m.tasks && u in m.tasks
  {
    && InGoal(m, x) && x.goal == t.goal == u.goal
    && m.tasks[t].id in m.tasks[x].deps && m.tasks[u].id in m.tasks[x].deps && Ready(m, x)
  }

  /** The dependents that are let in when `t` has finished. */
  function LetInBy(m: Swarm, t: TaskId): seq<TaskId>
    requires InGoal(m, t)
  {
    Unlocked(m, m.tasks[t].id, m.goals[t.goal].tasks)
  }

  lemma MarkedShape(s: Swarm, t: TaskId, a: AgentId, u: TaskId, b: AgentId)
    requires t in s.tasks && u in s.tasks && t != u
    ensures var m := BothMarked(s, t, a, u, b);
            && m.tasks.Keys == s.tasks.Keys && m.goals == s.goals && m.queue == s.queue
            && m.tasks[t] == s.tasks[t].(status := Completed) && m.tasks[u] == s.tasks[u].(status := Completed)
            && forall x | x in s.tasks && x != t && x != u :: m.tasks[x] == s.tasks[x]
  {
  }

  /** A task of its goal that depends on a task in flight is waiting, so it is PENDING and not queued. */
  lemma DependentWaits(s: Swarm, t: TaskId, a: AgentId, x: TaskId)
    requires Inv(s) && CanReport(s, t, a) && x in s.tasks && x.goal == t.goal && s.tasks[t].id in s.tasks[x].deps
    ensures s.tasks[x].status == Pending && x !in s.queue
  {
    ReportableIsFirst(s, t, a);
    UnreadyWaits(s, x);
    DependentIsUnready(s, t, x);
  }

  /** What the unlocking of `t` adds, with both marked. */
  lemma UnlockedMeans(s: Swarm, t: TaskId, a: AgentId, u: TaskId, b: AgentId, x: TaskId)
    requires TwoReports(s, t, a, u, b)
    ensures var m := BothMarked(s, t, a, u, b);
            InGoal(m, t) && (x in LetInBy(m, t) <==>
                               InGoal(m, x) && x.goal == t.goal && m.tasks[t].id in m.tasks[x].deps && Ready(m, x))
  {
    MarkedShape(s, t, a, u, b);
    ReportableIsFirst(s, t, a);
    var m := BothMarked(s, t, a, u, b);
    UnlockedAreUnlockable(m, m.tasks[t].id, m.goals[t.goal].tasks);
    if x in s.tasks && x.goal == t.goal && s.tasks[t].id in s.tasks[x].deps {
      DependentWaits(s, t, a, x);
      assert x in s.goals[x.goal].tasks;
    }
  }

  /** The order in which the two are marked makes no difference but for the agents' records. */
  lemma MarksCommute(s: Swarm, t: TaskId, a: AgentId, u: TaskId, b: AgentId)
    requires TwoReports(s, t, a, u, b)
    ensures BothMarked(s, t, a, u, b).tasks == BothMarked(s, u, b, t, a).tasks
  {
    assert s.tasks[t := s.tasks[t].(status := Completed)][u := s.tasks[u].(status := Completed)]
           == s.tasks[u := s.tasks[u].(status := Completed)][t := s.tasks[t].(status := Completed)];
  }

  lemma UnlockedSecond(s: Swarm, t: TaskId, a: AgentId, u: TaskId, b: AgentId, x: TaskId)
    requires TwoReports(s, t, a, u, b)
    ensures var m := BothMarked(s, t, a, u, b);
            InGoal(m, u) && (x in LetInBy(m, u) <==>
                               InGoal(m, x) && x.goal == u.goal && m.tasks[u].id in m.tasks[x].deps && Ready(m, x))
  {
    MarksCommute(s, t, a, u, b);
    UnlockedMeans(s, u, b, t, a, x);
    var m, n := BothMarked(s, t, a, u, b), BothMarked(s, u, b, t, a);
    SameUnlocked(m, n, m.tasks[u].id, m.goals[u.goal].tasks);
  }

  lemma {:induction false} SameUnlocked(m: Swarm, n: Swarm, done: Label, ids: seq<TaskId>)
    requires m.tasks == n.tasks && m.goals == n.goals
    ensures Unlocked(m, done, ids) == Unlocked(n, done, ids)
  {
    if ids != [] { SameUnlocked(m, n, done, ids[..|ids| - 1]); }
  }

  /** The queue after both have unlocked their dependents. */
  function QueueAfter(s: Swarm, t: TaskId, a: AgentId, u: TaskId, b: AgentId): seq<TaskId>
    requires t in s.tasks && u in s.tasks && InGoal(s, t) && InGoal(s, u)
  {
    var m := BothMarked(s, t, a, u, b);
    UnlockDependents(UnlockDependents(m, t), u).queue
  }

  lemma QueueIsThree(s: Swarm, t: TaskId, a: AgentId, u: TaskId, b: AgentId)
    requires TwoReports(s, t, a, u, b)
    ensures InGoal(s, t) && InGoal(s, u)
    ensures var m := BothMarked(s, t, a, u, b);
            InGoal(m, t) && InGoal(m, u) && QueueAfter(s, t, a, u, b) == s.queue + LetInBy(m, t) + LetInBy(m, u)
  {
    var m := BothMarked(s, t, a, u, b);
    ReportableIsFirst(s, t, a);
    ReportableIsFirst(s, u, b);
    SameUnlocked(UnlockDependents(m, t), m, m.tasks[u].id, m.goals[u.goal].tasks);
  }

  /** Three distinct lists make a distinct one exactly when no two of them meet. */
  lemma DistinctThree(p: seq<TaskId>, q: seq<TaskId>, r: seq<TaskId>)
    requires Distinct(p) && Distinct(q) && Distinct(r)
    requires forall x | x in p :: x !in q && x !in r
    ensures Distinct(p + q + r) <==> forall x | x in q :: x !in r
  {
    if forall x | x in q :: x !in r {
      ConcatDistinct(p, q);
      ConcatDistinct(p + q, r);
    } else {
      var x :| x in q && x in r;
      var i :| 0 <= i < |q| && q[i] == x;
      var j :| 0 <= j < |r| && r[j] == x;
      assert (p + q + r)[|p| + i] == (p + q + r)[|p| + |q| + j];
    }
  }

  lemma UnlockedDistinct(s: Swarm, m: Swarm, t: TaskId)
    requires WellShaped(s) && InGoal(s, t) && InGoal(m, t) && m.goals == s.goals
    ensures Distinct(LetInBy(m, t))
  {
    OrderedIsDistinct(t.goal, m.goals[t.goal].tasks);
    UnlockedAreUnlockable(m, m.tasks[t].id, m.goals[t.goal].tasks);
  }

  lemma QueuedIsNotUnlocked(s: Swarm, t: TaskId, a: AgentId, u: TaskId, b: AgentId, x: TaskId)
    requires TwoReports(s, t, a, u, b) && x in s.queue
    ensures var m := BothMarked(s, t, a, u, b);
            InGoal(m, t) && InGoal(m, u) && x !in LetInBy(m, t) && x !in LetInBy(m, u)
  {
    MarkedShape(s, t, a, u, b);
    UnlockedMeans(s, t, a, u, b, x);
    UnlockedSecond(s, t, a, u, b, x);
    if x.goal == t.goal && s.tasks[t].id in s.tasks[x].deps { DependentWaits(s, t, a, x); }
    if x.goal == u.goal && s.tasks[u].id in s.tasks[x].deps { DependentWaits(s, u, b, x); }
  }

  /** Two success reports that are both marked before either unlocks leave the queue without a repetition exactly when no
      task waited for just these two as its last. */
  lemma QueuedOnceIff(s: Swarm, t: TaskId, a: AgentId, u: TaskId, b: AgentId)
    requires TwoReports(s, t, a, u, b)
    ensures InGoal(s, t) && InGoal(s, u)
    ensures Distinct(QueueAfter(s, t, a, u, b)) <==> forall x :: !LastTwo(BothMarked(s, t, a, u, b), t, u, x)
  {
    var m := BothMarked(s, t, a, u, b);
    QueueIsThree(s, t, a, u, b);
    UnlockedDistinct(s, m, t);
    UnlockedDistinct(s, m, u);
    var q, r := LetInBy(m, t), LetInBy(m, u);
    forall x | x in s.queue ensures x !in q && x !in r { QueuedIsNotUnlocked(s, t, a, u, b, x); }
    DistinctThree(s.queue, q, r);
    forall x ensures (x in q && x in r) <==> LastTwo(m, t, u, x) {
      UnlockedMeans(s, t, a, u, b, x);
      UnlockedSecond(s, t, a, u, b, x);
    }
  }

  // ---------- Both handlers to their ends ----------

  /** A handler from its await on: dependents, goal, agent. */
  function FinishReport(m: Swarm, t: TaskId, a: AgentId): Swarm {
    if InGoal(m, t) then FreeAgent(CheckGoal(UnlockDependents(m, t), t.goal), a) else m
  }

  /** Both handlers to their ends, each having marked its task before. */
  function BothReported(s: Swarm, t: TaskId, a: AgentId, u: TaskId, b: AgentId): Swarm
    requires t in s.tasks && u in s.tasks
  {
    FinishReport(FinishReport(BothMarked(s, t, a, u, b), t, a), u, b)
  }

  /** What a handler does from its await on. */
  ghost predicate FinishedTo(m: Swarm, n: Swarm, t: TaskId, a: AgentId)
    requires InGoal(m, t)
  {
    var g := t.goal;
    && n.tasks == m.tasks && n.queue == m.queue + LetInBy(m, t) && n.roster == m.roster && SameLists(m, n)
    && (forall h {:trigger n.goals[h]} | 0 <= h < |m.goals| && h != g :: n.goals[h] == m.goals[h])
    && n.goals[g].status == (if AllCompleted(m.tasks, m.goals[g].tasks) then Completed else m.goals[g].status)
    && OnlyFreed(m, n, a)
  }

  lemma FinishEffect(m: Swarm, t: TaskId, a: AgentId)
    requires InGoal(m, t)
    ensures FinishedTo(m, FinishReport(m, t, a), t, a)
  {
  }

  lemma {:induction false} SameListsUnlock(m: Swarm, n: Swarm, done: Label, ids: seq<TaskId>)
    requires m.tasks == n.tasks && SameLists(m, n)
    ensures Unlocked(m, done, ids) == Unlocked(n, done, ids)
  {
    if ids != [] {
      SameListsUnlock(m, n, done, ids[..|ids| - 1]);
      if InGoal(m, ids[|ids| - 1]) { SameListsKeepReady(m, n, ids[|ids| - 1]); }
    }
  }

  lemma BothQueue(s: Swarm, t: TaskId, a: AgentId, u: TaskId, b: AgentId)
    requires TwoReports(s, t, a, u, b)
    ensures InGoal(s, t) && InGoal(s, u) && BothReported(s, t, a, u, b).queue == QueueAfter(s, t, a, u, b)
  {
    var m := BothMarked(s, t, a, u, b);
    QueueIsThree(s, t, a, u, b);
    var n := FinishReport(m, t, a);
    FinishEffect(m, t, a);
    FinishEffect(n, u, b);
    SameListsUnlock(m, n, m.tasks[u].id, m.goals[u.goal].tasks);
  }

  /** One report after the other. */
  function InTurn(s: Swarm, t: TaskId, a: AgentId, u: TaskId, b: AgentId): Swarm {
    ReportOn(ReportOn(s, t, a, true), u, b, true)
  }

  lemma HoldersDiffer(s: Swarm, t: TaskId, a: AgentId, u: TaskId, b: AgentId)
    requires TwoReports(s, t, a, u, b)
    ensures a != b && HeldBy(s, t, a) && HeldBy(s, u, b) && First(s, t) && First(s, u)
  {
    InProgressIsHeld(s, t);
    InProgressIsHeld(s, u);
    ReportableIsFirst(s, t, a);
    ReportableIsFirst(s, u, b);
  }

  lemma StillHeldAfter(s: Swarm, n: Swarm, t: TaskId, a: AgentId, u: TaskId, b: AgentId)
    requires TwoReports(s, t, a, u, b) && InGoal(s, t) && SucceededTo(s, n, t, a, LetIn(s, t, a)) && Inv(n)
    ensures HeldBy(n, u, b) && First(n, u)
  {
    HoldersDiffer(s, t, a, u, b);
    InProgressIsHeld(n, u);
  }

  lemma InTurnKeepsInv(s: Swarm, t: TaskId, a: AgentId, u: TaskId, b: AgentId)
    requires TwoReports(s, t, a, u, b)
    ensures Inv(InTurn(s, t, a, u, b))
  {
    var n := ReportOn(s, t, a, true);
    HoldersDiffer(s, t, a, u, b);
    SuccessKeepsInv(s, t, a);
    SuccessEffect(s, t, a);
    StillHeldAfter(s, n, t, a, u, b);
    SuccessKeepsInv(n, u, b);
  }

  lemma SameGoals(s: Swarm, m: Swarm, t: TaskId, a: AgentId, u: TaskId, b: AgentId, n1: Swarm, n: Swarm, q1: Swarm, q: Swarm)
    requires WellShaped(s) && InGoal(s, t) && InGoal(s, u) && s.tasks[u].status != Completed && t != u
    requires m.goals == s.goals && m.tasks == s.tasks[t := s.tasks[t].(status := Completed)][u := s.tasks[u].(status := Completed)]
    requires FinishedTo(m, n1, t, a) && InGoal(n1, u) && FinishedTo(n1, n, u, b)
    requires SucceededTo(s, q1, t, a, LetIn(s, t, a)) && InGoal(q1, u) && SucceededTo(q1, q, u, b, LetIn(q1, u, b))
    ensures n.goals == q.goals
  {
    assert q.tasks == m.tasks;
    forall h | 0 <= h < |s.goals| ensures n.goals[h] == q.goals[h] {
      if h == t.goal == u.goal {
        assert u in s.goals[h].tasks && !AllCompleted(q1.tasks, s.goals[h].tasks);
      } else if h == t.goal {
        assert u !in s.goals[h].tasks;
        assert AllCompleted(q1.tasks, s.goals[h].tasks) == AllCompleted(m.tasks, s.goals[h].tasks);
      }
    }
  }

  /** What `t` lets in is the same whether or not `u` is finished too, if no task waited for both. */
  lemma FirstLetsIn(s: Swarm, t: TaskId, a: AgentId, u: TaskId, b: AgentId, x: TaskId)
    requires TwoReports(s, t, a, u, b) && !LastTwo(BothMarked(s, t, a, u, b), t, u, x)
    ensures InGoal(s, t) && InGoal(BothMarked(s, t, a, u, b), t)
    ensures x in LetInBy(BothMarked(s, t, a, u, b), t) <==> x in LetIn(s, t, a)
  {
    var k, m, ids := MarkCompleted(s, t, a), BothMarked(s, t, a, u, b), s.goals[t.goal].tasks;
    HoldersDiffer(s, t, a, u, b);
    MarkedShape(s, t, a, u, b);
    UnlockedMeans(s, t, a, u, b, x);
    UnlockedAreUnlockable(k, s.tasks[t].id, ids);
    if x in s.tasks && x.goal == t.goal && s.tasks[t].id in s.tasks[x].deps {
      DependentWaits(s, t, a, x);
      MarkingIsWellShaped(s, t, a);
      NewlyReadyDependOn(k, m, u, x);
      assert x in s.goals[x.goal].tasks;
    }
  }

  lemma MarkingIsWellShaped(s: Swarm, t: TaskId, a: AgentId)
    requires WellShaped(s) && t in s.tasks
    ensures WellShaped(MarkCompleted(s, t, a))
  {
    var k := MarkCompleted(s, t, a);
    forall x | x in k.tasks ensures InGoal(k, x) && x in k.goals[x.goal].tasks { assert InGoal(s, x); }
  }

  /** ... and what `u` lets in then is what it lets in after the first report. */
  lemma SecondLetsIn(s: Swarm, t: TaskId, a: AgentId, u: TaskId, b: AgentId, q: Swarm)
    requires TwoReports(s, t, a, u, b) && InGoal(s, t) && SucceededTo(s, q, t, a, LetIn(s, t, a))
    ensures InGoal(q, u) && InGoal(BothMarked(s, t, a, u, b), u)
    ensures LetIn(q, u, b) == LetInBy(BothMarked(s, t, a, u, b), u)
  {
    var m := BothMarked(s, t, a, u, b);
    ReportableIsFirst(s, u, b);
    assert MarkCompleted(q, u, b).tasks == m.tasks;
    SameListsUnlock(m, MarkCompleted(q, u, b), s.tasks[u].id, s.goals[u.goal].tasks);
  }

  lemma BothFreed(s: Swarm, m: Swarm, n: Swarm, q: Swarm, a: AgentId, b: AgentId)
    requires a in s.agents && b in s.agents && m.agents.Keys == s.agents.Keys
    requires forall c {:trigger m.agents[c]} | c in s.agents && c != a && c != b :: c in m.agents.Keys && m.agents[c] == s.agents[c]
    requires FreedTwice(m, n, a, b) && FreedTwice(s, q, a, b)
    ensures HoldAlike(q, n)
  {
    forall c | c in q.agents
      ensures c in n.agents && n.agents[c].currentTask == q.agents[c].currentTask && n.agents[c].available == q.agents[c].available
    {
      assert c in s.agents.Keys;
    }
  }

  /** Both agents are free, and the others are as they were. */
  ghost predicate FreedTwice(m: Swarm, n: Swarm, a: AgentId, b: AgentId) {
    && n.agents.Keys == m.agents.Keys
    && (forall c {:trigger n.agents[c]} | c in m.agents && c != a && c != b :: c in n.agents.Keys && n.agents[c] == m.agents[c])
    && (forall c {:trigger n.agents[c]} | c in m.agents && (c == a || c == b) ::
          c in n.agents.Keys && n.agents[c].currentTask == None && n.agents[c].available)
  }

  lemma FreedInTurn(m: Swarm, k: Swarm, n: Swarm, a: AgentId, b: AgentId)
    requires OnlyFreed(m, k, a) && OnlyFreed(k, n, b)
    ensures FreedTwice(m, n, a, b)
  {
    forall c | c in m.agents && (c == a || c == b)
      ensures c in n.agents.Keys && n.agents[c].currentTask == None && n.agents[c].available
    {
      assert c in k.agents.Keys;
    }
    forall c | c in m.agents && c != a && c != b ensures c in n.agents.Keys && n.agents[c] == m.agents[c] {
      assert c in k.agents.Keys && k.agents[c] == m.agents[c];
    }
  }

  lemma BothReportedFrees(s: Swarm, t: TaskId, a: AgentId, u: TaskId, b: AgentId)
    requires InGoal(s, t) && InGoal(s, u)
    ensures FreedTwice(BothMarked(s, t, a, u, b), BothReported(s, t, a, u, b), a, b)
  {
    var m := BothMarked(s, t, a, u, b);
    var n := FinishReport(m, t, a);
    FinishEffect(m, t, a);
    FinishEffect(n, u, b);
    FreedInTurn(m, n, FinishReport(n, u, b), a, b);
  }

  lemma InTurnFrees(s: Swarm, t: TaskId, a: AgentId, u: TaskId, b: AgentId)
    requires InGoal(s, t) && InGoal(s, u)
    ensures FreedTwice(s, InTurn(s, t, a, u, b), a, b)
  {
    var q := ReportOn(s, t, a, true);
    SuccessEffect(s, t, a);
    SuccessEffect(q, u, b);
    FreedInTurn(s, q, ReportOn(q, u, b, true), a, b);
  }

  lemma MarkedAgents(s: Swarm, t: TaskId, a: AgentId, u: TaskId, b: AgentId)
    requires t in s.tasks && u in s.tasks
    ensures var m := BothMarked(s, t, a, u, b);
            && m.agents.Keys == s.agents.Keys
            && forall c {:trigger m.agents[c]} | c in s.agents && c != a && c != b ::
                 c in m.agents.Keys && m.agents[c] == s.agents[c]
  {
  }

  lemma HoldersAreKnown(s: Swarm, t: TaskId, a: AgentId)
    requires HeldBy(s, t, a)
    ensures a in s.agents
  {
  }

  lemma AgentsInTurn(s: Swarm, t: TaskId, a: AgentId, u: TaskId, b: AgentId)
    requires TwoReports(s, t, a, u, b)
    ensures HoldAlike(InTurn(s, t, a, u, b), BothReported(s, t, a, u, b))
  {
    HoldersDiffer(s, t, a, u, b);
    HoldersAreKnown(s, t, a);
    HoldersAreKnown(s, u, b);
    MarkedAgents(s, t, a, u, b);
    BothReportedFrees(s, t, a, u, b);
    InTurnFrees(s, t, a, u, b);
    BothFreed(s, BothMarked(s, t, a, u, b), BothReported(s, t, a, u, b), InTurn(s, t, a, u, b), a, b);
  }

  lemma GoalsInTurn(s: Swarm, t: TaskId, a: AgentId, u: TaskId, b: AgentId)
    requires TwoReports(s, t, a, u, b)
    ensures var q, n := InTurn(s, t, a, u, b), BothReported(s, t, a, u, b);
            n.tasks == q.tasks && n.goals == q.goals && n.roster == q.roster
  {
    var m := BothMarked(s, t, a, u, b);
    HoldersDiffer(s, t, a, u, b);
    var n1, q1 := FinishReport(m, t, a), ReportOn(s, t, a, true);
    FinishEffect(m, t, a);
    FinishEffect(n1, u, b);
    SuccessEffect(s, t, a);
    SuccessEffect(q1, u, b);
    SameGoals(s, m, t, a, u, b, n1, FinishReport(n1, u, b), q1, ReportOn(q1, u, b, true));
  }

  /** If no task waited for both, the two end as one after the other would, but for the order of the queue. */
  lemma AsInTurn(s: Swarm, t: TaskId, a: AgentId, u: TaskId, b: AgentId)
    requires TwoReports(s, t, a, u, b) && forall x :: !LastTwo(BothMarked(s, t, a, u, b), t, u, x)
    ensures SameButOrder(InTurn(s, t, a, u, b), BothReported(s, t, a, u, b))
  {
    var q1 := ReportOn(s, t, a, true);
    HoldersDiffer(s, t, a, u, b);
    SuccessEffect(s, t, a);
    SuccessEffect(q1, u, b);
    AgentsInTurn(s, t, a, u, b);
    GoalsInTurn(s, t, a, u, b);
    SameMembers(s, t, a, u, b, q1, ReportOn(q1, u, b, true), BothReported(s, t, a, u, b));
  }

  lemma SameMembers(s: Swarm, t: TaskId, a: AgentId, u: TaskId, b: AgentId, q1: Swarm, q: Swarm, n: Swarm)
    requires TwoReports(s, t, a, u, b) && forall x :: !LastTwo(BothMarked(s, t, a, u, b), t, u, x)
    requires InGoal(s, t) && SucceededTo(s, q1, t, a, LetIn(s, t, a)) && InGoal(q1, u) && SucceededTo(q1, q, u, b, LetIn(q1, u, b))
    requires n == BothReported(s, t, a, u, b)
    ensures Distinct(n.queue) && forall x :: x in n.queue <==> x in q.queue
  {
    QueuedOnceIff(s, t, a, u, b);
    BothQueue(s, t, a, u, b);
    QueueIsThree(s, t, a, u, b);
    SecondLetsIn(s, t, a, u, b, q1);
    forall x ensures x in n.queue <==> x in q.queue { FirstLetsIn(s, t, a, u, b, x); }
  }

  /** Two success reports that are both marked before either unlocks keep the whole invariant exactly when no task waited for
      just these two as its last. */
  lemma InterleavingIsHarmlessIff(s: Swarm, t: TaskId, a: AgentId, u: TaskId, b: AgentId)
    requires TwoReports(s, t, a, u, b)
    ensures Inv(BothReported(s, t, a, u, b)) <==> forall x :: !LastTwo(BothMarked(s, t, a, u, b), t, u, x)
  {
    QueuedOnceIff(s, t, a, u, b);
    BothQueue(s, t, a, u, b);
    if forall x :: !LastTwo(BothMarked(s, t, a, u, b), t, u, x) {
      InTurnKeepsInv(s, t, a, u, b);
      AsInTurn(s, t, a, u, b);
      SameButOrderKeepsInv(InTurn(s, t, a, u, b), BothReported(s, t, a, u, b));
    }
  }
}
