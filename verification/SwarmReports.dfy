/** Reports that the orchestrator accepts without looking at the task: late ones, repeated ones, and ones from other agents. */
module SwarmReports {
  import opened Prelude
  import opened SwarmProtocol
  import opened SwarmSafety

  // ---------- When a report keeps the invariant ----------

  /** The reporter is in the middle of no other task. */
  ghost predicate HoldsNoOther(s: Swarm, t: TaskId, a: AgentId) {
    a in s.agents && s.agents[a].currentTask.Some? ==> s.agents[a].currentTask == Some(t)
  }

  /** No task of the goal of `t` that depends on it stands in the queue. */
  ghost predicate NoneQueued(s: Swarm, t: TaskId)
    requires InGoal(s, t)
  {
    forall x | x in s.goals[t.goal].tasks :: !Unlockable(s, s.tasks[t].id, x)
  }

  /** No task of the goal of `t` that depends on it is ready. */
  ghost predicate NoneRelies(s: Swarm, t: TaskId)
    requires InGoal(s, t)
  {
    forall x | x in s.goals[t.goal].tasks && InGoal(s, x) && s.tasks[t].id in s.tasks[x].deps :: !Ready(s, x)
  }

  /** `t` waits for nothing but itself. */
  ghost predicate WaitsForItself(s: Swarm, t: TaskId)
    requires InGoal(s, t)
  {
    t !in s.queue && forall d | d in s.tasks[t].deps :: d == s.tasks[t].id || Met(s.tasks, s.goals[t.goal].tasks, d)
  }

  /** A report of `a` about `t` does no harm in this status of `t`. */
  ghost predicate Tolerates(s: Swarm, t: TaskId, a: AgentId, success: bool)
    requires InGoal(s, t)
  {
    match s.tasks[t].status
    case InProgress => s.tasks[t].assignedAgent == Some(a)
    case Completed =>
      if success then NoneQueued(s, t) else s.goals[t.goal].status != Completed && NoneRelies(s, t)
    case Pending => success && WaitsForItself(s, t)
    case _ => false
  }

  lemma DoneIsOut(s: Swarm, t: TaskId)
    requires Inv(s) && t in s.tasks && s.tasks[t].status == Completed
    ensures InGoal(s, t) && IsDone(s, t) && First(s, t)
  {
    assert InPlace(s, t);
  }

  // ---------- Harmless reports ----------

  lemma NobodyHolds(s: Swarm, t: TaskId, a: AgentId)
    requires Inv(s) && t in s.tasks && s.tasks[t].status != InProgress && HoldsNoOther(s, t, a)
    ensures a in s.agents ==> s.agents[a].currentTask == None && s.agents[a].available
  {
    if a in s.agents { assert AgentOk(s, a); }
  }

  /** Agents whose holdings are as before are all right as long as what they hold is. */
  lemma SameHoldings(s: Swarm, n: Swarm, t: TaskId, a: AgentId, r: Task)
    requires AgentsOk(s) && OnlyFreed(s, n, a) && t in s.tasks && s.tasks[t].status != InProgress && n.tasks == s.tasks[t := r]
    requires a in s.agents ==> s.agents[a].currentTask == None
    ensures AgentsOk(n)
  {
    forall b | b in n.agents ensures AgentOk(n, b) {
      assert b in s.agents.Keys;
      assert AgentOk(s, b);
    }
  }

  /** Who holds a task other than `t` still does. */
  lemma StillHeld(s: Swarm, n: Swarm, t: TaskId, a: AgentId, r: Task, x: TaskId)
    requires OnlyFreed(s, n, a) && n.tasks == s.tasks[t := r] && (a in s.agents ==> s.agents[a].currentTask == None)
    requires InGoal(s, x) && x != t && IsHeld(s, x) && InGoal(n, x) && Ready(n, x) && x !in n.queue
    ensures IsHeld(n, x)
  {
    var b := s.tasks[x].assignedAgent.value;
    assert b != a && b in n.agents.Keys && n.agents[b] == s.agents[b];
  }

  lemma NothingLetIn(s: Swarm, t: TaskId, a: AgentId)
    requires Inv(s) && InGoal(s, t) && s.tasks[t].status == Completed && NoneQueued(s, t)
    ensures LetIn(s, t, a) == []
  {
    var m, ids := MarkCompleted(s, t, a), s.goals[t.goal].tasks;
    UnlockedAreUnlockable(m, s.tasks[t].id, ids);
    assert m.tasks == s.tasks;
    forall x ensures x !in LetIn(s, t, a) {
      if x in LetIn(s, t, a) { assert Unlockable(s, s.tasks[t].id, x); }
    }
    NonEmptyHasElement(LetIn(s, t, a));
  }

  lemma RepeatedSuccessEffect(s: Swarm, n: Swarm, t: TaskId, a: AgentId)
    requires Inv(s) && InGoal(s, t) && s.tasks[t].status == Completed && SucceededTo(s, n, t, a, [])
    ensures n.tasks == s.tasks && n.queue == s.queue && n.roster == s.roster && n.goals == s.goals
  {
    assert n.tasks == s.tasks;
    assert t in s.goals[t.goal].tasks;
    forall h | 0 <= h < |s.goals| ensures n.goals[h] == s.goals[h] { }
  }

  /** A repeated success report that lets nothing in changes at most its reporter's record. */
  lemma RepeatedSuccessKeeps(s: Swarm, n: Swarm, t: TaskId, a: AgentId)
    requires Inv(s) && InGoal(s, t) && s.tasks[t].status == Completed && HoldsNoOther(s, t, a)
    requires SucceededTo(s, n, t, a, [])
    ensures Inv(n)
  {
    RepeatedSuccessEffect(s, n, t, a);
    NobodyHolds(s, t, a);
    assert SameLedger(s, n);
    SameLedgerKeepsShape(s, n);
    SameLedgerKeepsGoals(s, n);
    SameLedgerKeepsFirst(s, n);
    SameHoldings(s, n, t, a, s.tasks[t]);
    forall x | x in n.tasks ensures InPlace(n, x) {
      assert InPlace(s, x);
      SameLedgerKeepsReady(s, n, x);
      if IsHeld(s, x) { StillHeld(s, n, t, a, s.tasks[t], x); }
      SamePlace(s, n, x);
    }
  }

  /** Undoing a completion unmeets its label in its goal, and nothing else. */
  lemma MetAfterUndoing(s: Swarm, n: Swarm, t: TaskId, g: nat, d: Label)
    requires WellShaped(s) && DoneFirst(s) && InGoal(s, t) && s.tasks[t].status == Completed && g < |s.goals|
    requires n.tasks == s.tasks[t := s.tasks[t].(status := Pending, assignedAgent := None)]
    ensures var members := s.goals[g].tasks;
            Met(n.tasks, members, d) <==> Met(s.tasks, members, d) && !(t.goal == g && d == s.tasks[t].id)
  {
    var members := s.goals[g].tasks;
    if u :| u in members && Carries(s.tasks, u, d) && s.tasks[u].status == Completed {
      assert First(s, u) && First(s, t);
      if u != t { assert Carries(n.tasks, u, d) && n.tasks[u].status == Completed; }
    }
    if u :| u in members && Carries(n.tasks, u, d) && n.tasks[u].status == Completed {
      assert Carries(s.tasks, u, d) && u != t && First(s, u) && First(s, t);
    }
  }

  lemma ReadyAfterUndoing(s: Swarm, n: Swarm, t: TaskId, x: TaskId)
    requires WellShaped(s) && DoneFirst(s) && InGoal(s, t) && s.tasks[t].status == Completed && InGoal(s, x)
    requires n.tasks == s.tasks[t := s.tasks[t].(status := Pending, assignedAgent := None)] && n.goals == s.goals
    ensures InGoal(n, x)
    ensures Ready(n, x) <==> Ready(s, x) && !(x.goal == t.goal && s.tasks[t].id in s.tasks[x].deps)
  {
    forall d ensures Met(n.tasks, s.goals[x.goal].tasks, d) <==>
                       Met(s.tasks, s.goals[x.goal].tasks, d) && !(t.goal == x.goal && d == s.tasks[t].id)
    {
      MetAfterUndoing(s, n, t, x.goal, d);
    }
  }

  lemma UndonePlaces(s: Swarm, n: Swarm, t: TaskId, a: AgentId, x: TaskId)
    requires WellShaped(s) && DoneFirst(s) && InGoal(s, t) && IsDone(s, t) && NoneRelies(s, t)
    requires a in s.agents ==> s.agents[a].currentTask == None
    requires FailedTo(s, n, t, a) && InGoal(s, x) && x in s.goals[x.goal].tasks && t in s.goals[t.goal].tasks && InPlace(s, x)
    ensures InGoal(n, x) && InPlace(n, x)
  {
    ReadyAfterUndoing(s, n, t, x);
    if x == t {
      assert IsQueued(n, t);
    } else {
      if IsHeld(s, x) { StillHeld(s, n, t, a, n.tasks[t], x); }
      SamePlace(s, n, x);
    }
  }

  lemma UndoneGoals(s: Swarm, n: Swarm, t: TaskId, a: AgentId)
    requires WellShaped(s) && GoalsOk(s) && InGoal(s, t) && s.goals[t.goal].status != Completed && FailedTo(s, n, t, a)
    ensures GoalsOk(n)
  {
    forall h | 0 <= h < |n.goals|
      ensures n.goals[h].status == Completed <==> n.goals[h].tasks != [] && AllCompleted(n.tasks, n.goals[h].tasks)
    {
      if h == t.goal {
        assert t in n.goals[h].tasks;
      } else {
        assert AllCompleted(n.tasks, n.goals[h].tasks) == AllCompleted(s.tasks, s.goals[h].tasks);
      }
    }
  }

  lemma UndoneFirst(s: Swarm, n: Swarm, t: TaskId, a: AgentId)
    requires t in s.tasks && DoneFirst(s) && FailedTo(s, n, t, a)
    ensures DoneFirst(n)
  {
    forall x | x in n.tasks && n.tasks[x].status == Completed ensures First(n, x) { assert First(s, x); }
  }

  lemma UndoneShape(s: Swarm, n: Swarm, t: TaskId, a: AgentId)
    requires WellShaped(s) && t in s.tasks && FailedTo(s, n, t, a)
    ensures WellShaped(n)
  {
    forall x | x in n.tasks ensures InGoal(n, x) && x in n.goals[x.goal].tasks { assert InGoal(s, x); }
    forall b ensures b in n.roster <==> b in n.agents { assert b in n.agents.Keys <==> b in s.agents.Keys; }
  }

  /** A failure reported of a finished task that nothing relies on puts it back in the queue. */
  lemma LateFailureKeeps(s: Swarm, n: Swarm, t: TaskId, a: AgentId)
    requires Inv(s) && InGoal(s, t) && s.tasks[t].status == Completed && HoldsNoOther(s, t, a)
    requires s.goals[t.goal].status != Completed && NoneRelies(s, t) && FailedTo(s, n, t, a)
    ensures Inv(n)
  {
    DoneIsOut(s, t);
    NobodyHolds(s, t, a);
    UndoneShape(s, n, t, a);
    UndoneGoals(s, n, t, a);
    UndoneFirst(s, n, t, a);
    DistinctSnoc(s.queue, t);
    assert QueueOk(n);
    SameHoldings(s, n, t, a, n.tasks[t]);
    forall x | x in n.tasks ensures InPlace(n, x) {
      assert InPlace(s, x);
      UndonePlaces(s, n, t, a, x);
    }
  }

  lemma EarlyPlaces(s: Swarm, n: Swarm, t: TaskId, a: AgentId, unlocked: seq<TaskId>, x: TaskId)
    requires WellShaped(s) && DoneFirst(s) && InGoal(s, t) && First(s, t) && s.tasks[t].status == Pending
    requires WaitsForItself(s, t) && SucceededTo(s, n, t, a, unlocked) && Unlocks(s, n, t, unlocked)
    requires a in s.agents ==> s.agents[a].currentTask == None
    requires x in s.tasks && InGoal(s, x) && InPlace(s, x)
    ensures InGoal(n, x) && InPlace(n, x)
    ensures x in unlocked ==> x !in s.queue
  {
    NewlyReadyDependOn(s, n, t, x);
    if x.goal == t.goal && s.tasks[t].id in s.tasks[x].deps { DependentIsUnready(s, t, x); }
    assert x in s.goals[x.goal].tasks;
    if x == t {
      EarlyIsReady(s, n, t);
    } else if Ready(s, x) == Ready(n, x) {
      if IsHeld(s, x) { StillHeld(s, n, t, a, n.tasks[t], x); }
      SamePlace(s, n, x);
    } else {
      assert IsWaiting(s, x);
      assert IsQueued(n, x);
    }
  }

  lemma EarlyIsReady(s: Swarm, n: Swarm, t: TaskId)
    requires WellShaped(s) && InGoal(s, t) && SameLists(s, n) && n.tasks == s.tasks[t := s.tasks[t].(status := Completed)]
    ensures InGoal(n, t)
    ensures Ready(n, t) <==> forall d | d in s.tasks[t].deps :: d == s.tasks[t].id || Met(s.tasks, s.goals[t.goal].tasks, d)
  {
    forall d ensures Met(n.tasks, s.goals[t.goal].tasks, d) <==> Met(s.tasks, s.goals[t.goal].tasks, d) || d == s.tasks[t].id {
      MetAfter(s, n, t, t.goal, d);
    }
  }

  lemma EarlyQueue(s: Swarm, n: Swarm, t: TaskId, a: AgentId, unlocked: seq<TaskId>)
    requires QueueOk(s) && InGoal(s, t) && SucceededTo(s, n, t, a, unlocked) && Unlocks(s, n, t, unlocked)
    requires forall x | x in unlocked :: x !in s.queue && x in s.tasks
    ensures QueueOk(n)
  {
    ConcatDistinct(s.queue, unlocked);
  }

  lemma EarlyGoals(s: Swarm, n: Swarm, t: TaskId, a: AgentId, unlocked: seq<TaskId>)
    requires WellShaped(s) && GoalsOk(s) && InGoal(s, t) && s.tasks[t].status != Completed && SucceededTo(s, n, t, a, unlocked)
    ensures GoalsOk(n)
  {
    var g := t.goal;
    forall h | 0 <= h < |n.goals|
      ensures n.goals[h].status == Completed <==> n.goals[h].tasks != [] && AllCompleted(n.tasks, n.goals[h].tasks)
    {
      if h != g {
        assert AllCompleted(n.tasks, n.goals[h].tasks) == AllCompleted(s.tasks, s.goals[h].tasks);
      } else {
        assert t in s.goals[g].tasks;
      }
    }
  }

  /** A success reported of a task that waits for nothing but itself. */
  lemma EarlySuccessKeeps(s: Swarm, n: Swarm, t: TaskId, a: AgentId, unlocked: seq<TaskId>)
    requires Inv(s) && InGoal(s, t) && First(s, t) && s.tasks[t].status == Pending && HoldsNoOther(s, t, a)
    requires WaitsForItself(s, t) && SucceededTo(s, n, t, a, unlocked) && Unlocks(s, n, t, unlocked)
    ensures Inv(n)
  {
    NobodyHolds(s, t, a);
    SucceededShape(s, n, t, a, unlocked);
    EarlyGoals(s, n, t, a, unlocked);
    SucceededFirst(s, n, t);
    SameHoldings(s, n, t, a, n.tasks[t]);
    forall x | x in n.tasks ensures InPlace(n, x) && (x in unlocked ==> x !in s.queue) {
      assert InPlace(s, x);
      EarlyPlaces(s, n, t, a, unlocked, x);
    }
    EarlyQueue(s, n, t, a, unlocked);
  }

  lemma ToleratedKeeps(s: Swarm, t: TaskId, a: AgentId, success: bool)
    requires Inv(s) && InGoal(s, t) && First(s, t) && HoldsNoOther(s, t, a) && Tolerates(s, t, a, success)
    ensures Inv(ReportOn(s, t, a, success))
  {
    var n := ReportOn(s, t, a, success);
    if s.tasks[t].status == InProgress {
      InProgressIsHeld(s, t);
      if success { SuccessKeepsInv(s, t, a); } else { FailureKeepsInv(s, t, a); }
    } else if s.tasks[t].status == Pending {
      SuccessEffect(s, t, a);
      LetInAreUnlocked(s, n, t, a);
      EarlySuccessKeeps(s, n, t, a, LetIn(s, t, a));
    } else if success {
      SuccessEffect(s, t, a);
      NothingLetIn(s, t, a);
      RepeatedSuccessKeeps(s, n, t, a);
    } else {
      FailureEffect(s, t, a);
      LateFailureKeeps(s, n, t, a);
    }
  }

  // ---------- Harmful ones ----------

  lemma PlaceOf(s: Swarm, t: TaskId)
    requires Inv(s) && t in s.tasks
    ensures InGoal(s, t) && InPlace(s, t)
  {
  }

  /** A reporter in the middle of another task is freed of it. */
  lemma OtherIsLost(s: Swarm, n: Swarm, t: TaskId, a: AgentId, r: Task)
    requires AgentsOk(s) && !HoldsNoOther(s, t, a) && t in s.tasks && OnlyFreed(s, n, a) && n.tasks == s.tasks[t := r]
    ensures !Inv(n)
  {
    var h := s.agents[a].currentTask.value;
    assert AgentOk(s, a);
    if Inv(n) { InProgressIsHeld(n, h); }
  }

  /** The holder is left with a task that is not in progress. */
  lemma HolderIsLeft(s: Swarm, n: Swarm, t: TaskId, a: AgentId, r: Task)
    requires Inv(s) && t in s.tasks && s.tasks[t].status == InProgress && s.tasks[t].assignedAgent != Some(a)
    requires OnlyFreed(s, n, a) && n.tasks == s.tasks[t := r] && r.status != InProgress
    ensures !Inv(n)
  {
    InProgressIsHeld(s, t);
    var b := s.tasks[t].assignedAgent.value;
    assert b in n.agents.Keys && n.agents[b] == s.agents[b];
    assert !AgentOk(n, b);
  }

  lemma TwiceInQueue(p: seq<TaskId>, q: seq<TaskId>, x: TaskId)
    requires x in p && x in q
    ensures !Distinct(p + q)
  {
    var i :| 0 <= i < |p| && p[i] == x;
    var j :| 0 <= j < |q| && q[j] == x;
    assert (p + q)[i] == (p + q)[|p| + j];
  }

  lemma LetInAgain(s: Swarm, t: TaskId, a: AgentId, x: TaskId)
    requires InGoal(s, t) && s.tasks[t].status == Completed
    requires x in s.goals[t.goal].tasks && Unlockable(s, s.tasks[t].id, x)
    ensures x in LetIn(s, t, a)
  {
    var m := MarkCompleted(s, t, a);
    UnlockedAreUnlockable(m, s.tasks[t].id, s.goals[t.goal].tasks);
    assert m.tasks == s.tasks;
    assert Unlockable(m, s.tasks[t].id, x);
  }

  /** A repeated success queues the dependents that stand in the queue once more. */
  lemma RepeatedSuccessBreaks(s: Swarm, n: Swarm, t: TaskId, a: AgentId, x: TaskId)
    requires Inv(s) && InGoal(s, t) && s.tasks[t].status == Completed && SucceededTo(s, n, t, a, LetIn(s, t, a))
    requires x in s.goals[t.goal].tasks && Unlockable(s, s.tasks[t].id, x)
    ensures !Inv(n)
  {
    LetInAgain(s, t, a, x);
    PlaceOf(s, x);
    TwiceInQueue(s.queue, LetIn(s, t, a), x);
  }

  lemma LateFailureUncompletes(s: Swarm, n: Swarm, t: TaskId, a: AgentId)
    requires Inv(s) && InGoal(s, t) && s.goals[t.goal].status == Completed && FailedTo(s, n, t, a)
    ensures !Inv(n)
  {
    assert t in s.goals[t.goal].tasks;
    assert !AllCompleted(n.tasks, n.goals[t.goal].tasks);
  }

  lemma LateFailureUnreadies(s: Swarm, n: Swarm, t: TaskId, a: AgentId, x: TaskId)
    requires Inv(s) && InGoal(s, t) && s.tasks[t].status == Completed && FailedTo(s, n, t, a)
    requires x in s.goals[t.goal].tasks && InGoal(s, x) && s.tasks[t].id in s.tasks[x].deps && Ready(s, x)
    ensures !Inv(n)
  {
    PlaceOf(s, x);
    ReadyAfterUndoing(s, n, t, x);
    if Inv(n) { PlaceOf(n, x); }
  }

  lemma FailedWhileUnready(s: Swarm, n: Swarm, t: TaskId, a: AgentId)
    requires InGoal(s, t) && s.tasks[t].status == Pending && !Ready(s, t) && FailedTo(s, n, t, a)
    ensures InGoal(n, t) && !InPlace(n, t)
  {
    assert SameLedger(s, n);
    SameLedgerKeepsReady(s, n, t);
    assert n.queue[|s.queue|] == t && t in n.queue;
  }

  /** An unfinished task that nobody holds is failed: it is then in the queue twice, or in the queue and not ready. */
  lemma UnheldFailureBreaks(s: Swarm, n: Swarm, t: TaskId, a: AgentId)
    requires Inv(s) && InGoal(s, t) && s.tasks[t].status in {Pending, Blocked} && FailedTo(s, n, t, a)
    ensures !Inv(n)
  {
    PlaceOf(s, t);
    if t in s.queue { TwiceInQueue(s.queue, [t], t); } else { FailedWhileUnready(s, n, t, a); }
  }

  /** ... or it is finished while it is in the queue or not ready. */
  lemma UnheldSuccessBreaks(s: Swarm, n: Swarm, t: TaskId, a: AgentId, unlocked: seq<TaskId>)
    requires Inv(s) && InGoal(s, t) && s.tasks[t].status in {Pending, Blocked} && SucceededTo(s, n, t, a, unlocked)
    requires !(s.tasks[t].status == Pending && WaitsForItself(s, t))
    ensures !Inv(n)
  {
    PlaceOf(s, t);
    EarlyIsReady(s, n, t);
    if Inv(n) { PlaceOf(n, t); }
  }

  lemma HarmfulSuccessBreaks(s: Swarm, n: Swarm, t: TaskId, a: AgentId)
    requires Inv(s) && InGoal(s, t) && SucceededTo(s, n, t, a, LetIn(s, t, a))
    requires !HoldsNoOther(s, t, a) || !Tolerates(s, t, a, true)
    ensures !Inv(n)
  {
    PlaceOf(s, t);
    if !HoldsNoOther(s, t, a) {
      OtherIsLost(s, n, t, a, n.tasks[t]);
    } else if s.tasks[t].status == InProgress {
      HolderIsLeft(s, n, t, a, n.tasks[t]);
    } else if s.tasks[t].status == Completed {
      var x :| x in s.goals[t.goal].tasks && Unlockable(s, s.tasks[t].id, x);
      RepeatedSuccessBreaks(s, n, t, a, x);
    } else {
      UnheldSuccessBreaks(s, n, t, a, LetIn(s, t, a));
    }
  }

  lemma HarmfulFailureBreaks(s: Swarm, n: Swarm, t: TaskId, a: AgentId)
    requires Inv(s) && InGoal(s, t) && FailedTo(s, n, t, a)
    requires !HoldsNoOther(s, t, a) || !Tolerates(s, t, a, false)
    ensures !Inv(n)
  {
    PlaceOf(s, t);
    if !HoldsNoOther(s, t, a) {
      OtherIsLost(s, n, t, a, n.tasks[t]);
    } else if s.tasks[t].status == InProgress {
      HolderIsLeft(s, n, t, a, n.tasks[t]);
    } else if s.tasks[t].status != Completed {
      UnheldFailureBreaks(s, n, t, a);
    } else if s.goals[t.goal].status == Completed {
      LateFailureUncompletes(s, n, t, a);
    } else {
      var x :| x in s.goals[t.goal].tasks && InGoal(s, x) && s.tasks[t].id in s.tasks[x].deps && Ready(s, x);
      LateFailureUnreadies(s, n, t, a, x);
    }
  }

  lemma FoundReportKeepsInvIff(s: Swarm, t: TaskId, a: AgentId, success: bool)
    requires Inv(s) && InGoal(s, t) && First(s, t)
    ensures Inv(ReportOn(s, t, a, success)) <==> HoldsNoOther(s, t, a) && Tolerates(s, t, a, success)
  {
    var n := ReportOn(s, t, a, success);
    if HoldsNoOther(s, t, a) && Tolerates(s, t, a, success) {
      ToleratedKeeps(s, t, a, success);
    } else if success {
      SuccessEffect(s, t, a);
      HarmfulSuccessBreaks(s, n, t, a);
    } else {
      FailureEffect(s, t, a);
      HarmfulFailureBreaks(s, n, t, a);
    }
  }

  /** Exactly which reports keep the invariant, whoever sends them and whatever became of the task: the reporter is in the
      middle of no other task, and the task is in flight at the reporter; or it is finished, and a repeated success finds no
      dependent of it in the queue, a late failure no dependent that is ready and the goal unfinished; or a success is reported
      of a task that waits for nothing but itself. A report that finds no task changes nothing. */
  lemma ReportKeepsInvIff(s: Swarm, id: Label, a: AgentId, success: bool)
    requires Inv(s)
    ensures Inv(Next(s, Report(id, a, success))) <==>
              (Find(s, id).Some? ==>
                 var t := Find(s, id).value; InGoal(s, t) && HoldsNoOther(s, t, a) && Tolerates(s, t, a, success))
  {
    FindMeans(s, id);
    if t: TaskId :| Find(s, id) == Some(t) {
      FoundReportKeepsInvIff(s, t, a, success);
    }
  }

  lemma SuccessKeepsFound(s: Swarm, n: Swarm, t: TaskId)
    requires WellShaped(s) && WellShaped(n) && t in s.tasks && n.tasks == s.tasks[t := s.tasks[t].(status := Completed)]
    requires Answers(s, t)
    ensures Find(n, s.tasks[t].id) == Some(t)
  {
    ReportReachesIff(n, t);
  }

  lemma RepeatIsTolerated(s: Swarm, n: Swarm, t: TaskId, a: AgentId, unlocked: seq<TaskId>)
    requires InGoal(s, t) && SucceededTo(s, n, t, a, unlocked) && Unlocks(s, n, t, unlocked)
    ensures InGoal(n, t) && (Tolerates(n, t, a, true) <==> unlocked == [])
  {
    if unlocked != [] { assert unlocked[0] in unlocked; }
  }

  /** The holder's success report, sent a second time at once, keeps the invariant exactly when the first let nothing into the
      queue. */
  lemma RetriedSuccessIff(s: Swarm, id: Label, a: AgentId) returns (t: TaskId)
    requires Inv(s) && Legal(s, Report(id, a, true))
    ensures InGoal(s, t) && Find(s, id) == Some(t)
    ensures var e := Report(id, a, true); Inv(Next(Next(s, e), e)) <==> LetIn(s, t, a) == []
  {
    t := ReportedIsHeld(s, id, a, true);
    var n := ReportOn(s, t, a, true);
    FindMeans(s, id);
    SuccessKeepsInv(s, t, a);
    SuccessEffect(s, t, a);
    LetInAreUnlocked(s, n, t, a);
    SuccessKeepsFound(s, n, t);
    RepeatIsTolerated(s, n, t, a, LetIn(s, t, a));
    ReportKeepsInvIff(n, id, a, true);
  }

  // ---------- What undoes a completion ----------

  lemma {:induction false} AddKeeps(tasks: map<TaskId, Task>, goal: nat, ts: seq<NewTask>, t: TaskId)
    requires t in tasks && t.goal != goal
    ensures t in AddTasks(tasks, goal, ts) && AddTasks(tasks, goal, ts)[t] == tasks[t]
  {
    if ts != [] { AddKeeps(tasks, goal, ts[..|ts| - 1], t); }
  }

  /** A turn takes a finished task up again if it stands at the head of the queue. */
  lemma TurnUndoesIff(s: Swarm, delivered: bool, t: TaskId)
    requires InGoal(s, t) && s.tasks[t].status == Completed
    ensures t in LoopTurn(s, delivered).tasks
    ensures LoopTurn(s, delivered).tasks[t].status != Completed <==> s.queue != [] && s.queue[0] == t
  {
    if s.queue == [] { ReleasablesAreBlocked(s, AllTaskIds(s.goals)); }
  }

  /** What takes a completion back. */
  predicate Undoes(s: Swarm, e: Event, t: TaskId) {
    match e
    case Report(id, _, success) => !success && Find(s, id) == Some(t)
    case Tick(_) => s.queue != [] && s.queue[0] == t
    case _ => false
  }

  /** In any state, a completion is undone exactly by a failure report that finds the task, or by a turn that finds it at the
      head of the queue. */
  lemma CompletionIsUndoneIff(s: Swarm, e: Event, t: TaskId)
    requires InGoal(s, t) && s.tasks[t].status == Completed
    ensures t in Next(s, e).tasks
    ensures Next(s, e).tasks[t].status != Completed <==> Undoes(s, e, t)
  {
    match e
    case Register(_, _) =>
    case Submit(ts) => AddKeeps(s.tasks, |s.goals|, ts, t);
    case Tick(delivered) => TurnUndoesIff(s, delivered, t);
    case Report(id, a, success) => ReportUndoesIff(s, id, a, success, t);
  }

  lemma ReportUndoesIff(s: Swarm, id: Label, a: AgentId, success: bool, t: TaskId)
    requires InGoal(s, t) && s.tasks[t].status == Completed
    ensures t in ReportTask(s, id, a, success).tasks
    ensures ReportTask(s, id, a, success).tasks[t].status != Completed <==> !success && Find(s, id) == Some(t)
  {
    if u: TaskId :| Find(s, id) == Some(u) && InGoal(s, u) {
      if success { SuccessEffect(s, u, a); } else { FailureEffect(s, u, a); }
    }
  }

  /** While the invariant holds, only a failure report does. */
  lemma CompletionIsUndoneByFailure(s: Swarm, e: Event, t: TaskId)
    requires Inv(s) && t in s.tasks && s.tasks[t].status == Completed
    ensures t in Next(s, e).tasks
    ensures Next(s, e).tasks[t].status != Completed <==> e.Report? && !e.success && Find(s, e.id) == Some(t)
  {
    DoneIsOut(s, t);
    CompletionIsUndoneIff(s, e, t);
    if s.queue != [] { assert s.queue[0] in s.queue; }
  }
}
