/** Tasks whose label is used again: later goals and earlier tasks of the same goal take the reports away from them. */
module SwarmLabels {
  import opened Prelude
  import opened SwarmProtocol
  import opened SwarmSafety
  import opened SwarmReports
  import opened SwarmRuns

  // ---------- Whatever happens ----------

  /** An unfinished task that no report can reach. */
  ghost predicate Shadowed(s: Swarm, t: TaskId) {
    t in s.tasks && s.tasks[t].status != Completed && !Answers(s, t)
  }

  /** The steps below move tasks and agents, but neither labels nor lists. */
  ghost predicate SameNames(s: Swarm, n: Swarm) {
    && n.tasks.Keys == s.tasks.Keys && (forall t | t in s.tasks :: n.tasks[t].id == s.tasks[t].id)
    && SameLists(s, n) && n.roster == s.roster && n.agents.Keys == s.agents.Keys
  }

  lemma SameNamesShape(s: Swarm, n: Swarm)
    requires WellShaped(s) && SameNames(s, n)
    ensures WellShaped(n)
  {
    forall a ensures a in n.roster <==> a in n.agents { assert a in n.agents.Keys <==> a in s.agents.Keys; }
    forall t | t in n.tasks ensures InGoal(n, t) && t in n.goals[t.goal].tasks { assert t in s.tasks.Keys; }
    forall g, t | 0 <= g < |n.goals| && t in n.goals[g].tasks ensures t in n.tasks && t.goal == g {
      assert t in s.goals[g].tasks;
      assert t in s.tasks.Keys;
    }
  }

  lemma SameNamesShadow(s: Swarm, n: Swarm, t: TaskId)
    requires SameNames(s, n) && Shadowed(s, t) && n.tasks[t].status != Completed
    ensures Shadowed(n, t)
  {
    assert t in n.tasks.Keys;
    if Answers(n, t) {
      forall u | u in s.tasks && s.tasks[u].id == s.tasks[t].id
        ensures u.goal <= t.goal && (u.goal == t.goal ==> t.position <= u.position)
      {
        assert u in n.tasks.Keys;
      }
    }
  }

  lemma ReleaseNames(s: Swarm)
    requires WellShaped(s)
    ensures SameNames(s, CheckBlocked(s)) && CheckBlocked(s).goals == s.goals
    ensures forall t | t in s.tasks && s.tasks[t].status != Completed :: CheckBlocked(s).tasks[t].status != Completed
  {
    ReleasablesAreBlocked(s, AllTaskIds(s.goals));
  }

  lemma MovedNames(s: Swarm, n: Swarm, t: TaskId, best: Option<AgentId>)
    requires Moved(s, n, t, best)
    ensures SameNames(s, n)
    ensures forall u | u in s.tasks && s.tasks[u].status != Completed :: n.tasks[u].status != Completed
  {
  }

  lemma TurnNames(s: Swarm, delivered: bool)
    requires WellShaped(s)
    ensures SameNames(s, LoopTurn(s, delivered))
    ensures LoopTurn(s, delivered).goals == s.goals
    ensures forall t | t in s.tasks && s.tasks[t].status != Completed :: LoopTurn(s, delivered).tasks[t].status != Completed
  {
    if s.queue == [] {
      ReleaseNames(s);
    } else if s.queue[0] in s.tasks {
      DispatchEffect(s, delivered);
      MovedNames(s, LoopTurn(s, delivered), s.queue[0], if delivered then BestAgent(s.agents, s.roster) else None);
    }
  }

  lemma ReportNames(s: Swarm, u: TaskId, a: AgentId, success: bool)
    requires WellShaped(s) && InGoal(s, u)
    ensures var n := ReportOn(s, u, a, success);
            && SameNames(s, n) && (forall t | t in s.tasks && t != u :: n.tasks[t] == s.tasks[t])
            && (forall g | 0 <= g < |s.goals| && n.goals[g].status == Completed ::
                  s.goals[g].status == Completed || AllCompleted(n.tasks, s.goals[g].tasks))
  {
    if success { SuccessEffect(s, u, a); } else { FailureEffect(s, u, a); }
  }

  lemma SubmitShadow(s: Swarm, n: Swarm, ts: seq<NewTask>, t: TaskId)
    requires WellShaped(s) && SubmittedTo(s, n, ts) && Shadowed(s, t)
    ensures WellShaped(n) && Shadowed(n, t) && t.goal < |s.goals| && n.goals[t.goal] == s.goals[t.goal]
  {
    SubmittedShape(s, n, ts);
    assert InGoal(s, t) && n.tasks[t] == s.tasks[t];
    if Answers(n, t) {
      forall u | u in s.tasks && s.tasks[u].id == s.tasks[t].id
        ensures u.goal <= t.goal && (u.goal == t.goal ==> t.position <= u.position)
      {
        assert n.tasks[u] == s.tasks[u];
      }
    }
  }

  /** No step brings a report to it, nor completes its goal. */
  lemma StepLeavesShadowed(s: Swarm, e: Event, t: TaskId)
    requires WellShaped(s) && Shadowed(s, t)
    ensures WellShaped(Next(s, e)) && Shadowed(Next(s, e), t)
    ensures t.goal < |s.goals| && t.goal < |Next(s, e).goals|
    ensures s.goals[t.goal].status != Completed ==> Next(s, e).goals[t.goal].status != Completed
  {
    assert InGoal(s, t) && t in s.goals[t.goal].tasks;
    match e
    case Register(a, role) => RegisterKeepsShape(s, a, role);
    case Submit(ts) =>
      SubmitEffect(s, ts);
      SubmitShadow(s, SubmitGoal(s, ts), ts, t);
    case Tick(delivered) =>
      TurnNames(s, delivered);
      SameNamesShape(s, LoopTurn(s, delivered));
      SameNamesShadow(s, LoopTurn(s, delivered), t);
    case Report(id, a, success) => ReportLeavesShadowed(s, id, a, success, t);
  }

  lemma ReportLeavesShadowed(s: Swarm, id: Label, a: AgentId, success: bool, t: TaskId)
    requires WellShaped(s) && Shadowed(s, t) && InGoal(s, t) && t in s.goals[t.goal].tasks
    ensures var n := ReportTask(s, id, a, success);
            && WellShaped(n) && Shadowed(n, t) && t.goal < |n.goals|
            && (s.goals[t.goal].status != Completed ==> n.goals[t.goal].status != Completed)
  {
    FindMeans(s, id);
    if u: TaskId :| Find(s, id) == Some(u) {
      var n := ReportOn(s, u, a, success);
      ReportNames(s, u, a, success);
      SameNamesShape(s, n);
      SameNamesShadow(s, n, t);
    }
  }

  /** Whatever events follow, legal or not, a task that reports cannot reach is never completed, nor is its goal. */
  lemma {:induction false} ShadowedForever(s: Swarm, es: seq<Event>, t: TaskId)
    requires WellShaped(s) && Shadowed(s, t)
    ensures t in Run(s, es).tasks && Run(s, es).tasks[t].status != Completed
    ensures t.goal < |s.goals| && t.goal < |Run(s, es).goals|
    ensures s.goals[t.goal].status != Completed ==> Run(s, es).goals[t.goal].status != Completed
    decreases es
  {
    if es == [] {
      assert InGoal(s, t);
    } else {
      StepLeavesShadowed(s, es[0], t);
      ShadowedForever(Next(s, es[0]), es[1..], t);
    }
  }

  // ---------- Submitting a label again ----------

  predicate UsesLabel(ts: seq<NewTask>, id: Label) {
    exists i | 0 <= i < |ts| :: ts[i].id == id
  }

  lemma SubmitAnswersIff(s: Swarm, n: Swarm, ts: seq<NewTask>, t: TaskId)
    requires WellShaped(s) && SubmittedTo(s, n, ts) && t in s.tasks
    ensures t in n.tasks && (Answers(n, t) <==> Answers(s, t) && !UsesLabel(ts, s.tasks[t].id))
  {
    assert InGoal(s, t) && n.tasks[t] == s.tasks[t];
    if i :| 0 <= i < |ts| && ts[i].id == s.tasks[t].id {
      var u := TaskId(|s.goals|, i);
      assert IsNew(|s.goals|, ts, u) && n.tasks[u] == Entered(ts[i]);
    }
    forall u | u in s.tasks ensures u in n.tasks && n.tasks[u] == s.tasks[u] { }
    forall u | u in n.tasks && u !in s.tasks ensures UsesLabel(ts, n.tasks[u].id) {
      assert IsNew(|s.goals|, ts, u);
      assert ts[u.position].id == n.tasks[u].id;
    }
  }

  lemma SoundBackAndForth(s: Swarm, n: Swarm, ts: seq<NewTask>, g: nat)
    requires Inv(s) && Inv(n) && SubmittedTo(s, n, ts) && g < |s.goals|
    ensures SoundPlan(n, g) <==> SoundPlan(s, g)
  {
    SubmittedExtends(s, n, ts);
    if SoundPlan(s, g) { SoundPlanPersists(s, n, None, g); }
    if SoundPlan(n, g) { SoundFromTheEnd(s, n, g); }
  }

  /** No unfinished task of the goal has a label of the plan. */
  ghost predicate LabelsSpared(s: Swarm, g: nat, ts: seq<NewTask>)
    requires g < |s.goals|
  {
    forall t | t in s.goals[g].tasks && t in s.tasks && s.tasks[t].status != Completed :: !UsesLabel(ts, s.tasks[t].id)
  }

  /** A goal that can still be completed can be after another submission exactly when that uses no label of its unfinished
      tasks. */
  lemma SubmissionSparesIff(es: seq<Event>, s: Swarm, g: nat, ts: seq<NewTask>)
    requires Reached(es, s) && g < |s.goals| && CanComplete(s, g)
    ensures CanComplete(Next(s, Submit(ts)), g) <==> LabelsSpared(s, g, ts)
  {
    var n := SubmitGoal(s, ts);
    ReachedInv(es, s);
    SubmitKeepsInv(s, ts);
    SubmitEffect(s, ts);
    ReachedOneMore(es, s, Submit(ts));
    CompletableIffSound(es, s, g);
    CompletableIffSound(es + [Submit(ts)], n, g);
    SoundBackAndForth(s, n, ts, g);
    forall t | t in s.goals[g].tasks
      ensures t in s.tasks && t in n.tasks && n.tasks[t] == s.tasks[t]
      ensures Answers(n, t) <==> Answers(s, t) && !UsesLabel(ts, s.tasks[t].id)
    {
      SubmitAnswersIff(s, n, ts, t);
    }
  }

  lemma ReachedOneMore(es: seq<Event>, s: Swarm, e: Event)
    requires Reached(es, s) && Legal(s, e)
    ensures Reached(es + [e], Next(s, e))
  {
    RunAppend(Empty, es, [e]);
    assert [e][1..] == [];
  }

  // ---------- The fallback plan, twice ----------

  /** The plan made when the decomposition fails. */
  const Fallback := [NewTask("task_1", [])]

  lemma FallbackEntered(s: Swarm, n: Swarm, t: TaskId)
    requires WellShaped(n) && SubmittedTo(s, n, Fallback) && t == TaskId(|s.goals|, 0)
    ensures t in n.tasks && n.tasks[t] == Entered(Fallback[0]) && n.goals[|s.goals|].tasks == [t]
  {
    assert IsNew(|s.goals|, Fallback, t);
  }

  lemma FallbackAnswers(s: Swarm, n: Swarm, t: TaskId)
    requires WellShaped(s) && SubmittedTo(s, n, Fallback) && t == TaskId(|s.goals|, 0) && t in n.tasks
    ensures Answers(n, t)
  {
    forall u | u in n.tasks ensures u.goal < t.goal || u == t {
      if u in s.tasks { assert InGoal(s, u); } else { assert IsNew(|s.goals|, Fallback, u); }
    }
  }

  lemma FallbackIsCompletable(s: Swarm, n: Swarm)
    requires WellShaped(s) && WellShaped(n) && SubmittedTo(s, n, Fallback)
    ensures |s.goals| < |n.goals| && n.goals[|s.goals|].tasks != []
    ensures SoundPlan(n, |s.goals|) && AllAnswer(n, |s.goals|)
  {
    var t := TaskId(|s.goals|, 0);
    FallbackEntered(s, n, t);
    FallbackAnswers(s, n, t);
    assert Ranks(n, |s.goals|, map[t := 0]);
  }

  lemma FallbackState(s: Swarm, es: seq<Event>)
    requires Reached(es, s)
    ensures Reached(es + [Submit(Fallback)], Next(s, Submit(Fallback)))
    ensures CanComplete(Next(s, Submit(Fallback)), |s.goals|)
  {
    ReachedInv(es, s);
    SubmitEffect(s, Fallback);
    SubmitKeepsInv(s, Fallback);
    ReachedOneMore(es, s, Submit(Fallback));
    FallbackIsCompletable(s, SubmitGoal(s, Fallback));
    CompletableIffSound(es + [Submit(Fallback)], SubmitGoal(s, Fallback), |s.goals|);
  }

  /** Two goals whose decomposition fails: the first could be completed until the second came, and never can again, whatever
      happens. */
  lemma SecondFallbackBlocksFirst(es: seq<Event>)
    returns (once: Swarm, twice: Swarm)
    ensures once == Next(Empty, Submit(Fallback)) && twice == Next(once, Submit(Fallback))
    ensures Reached([Submit(Fallback)], once) && Reached([Submit(Fallback), Submit(Fallback)], twice)
    ensures CanComplete(once, 0) && !CanComplete(twice, 0)
    ensures |Run(twice, es).goals| > 0 && Run(twice, es).goals[0].status != Completed
  {
    once, twice := Next(Empty, Submit(Fallback)), Next(Next(Empty, Submit(Fallback)), Submit(Fallback));
    var t := TaskId(0, 0);
    assert Reached([], Empty);
    FallbackState(Empty, []);
    assert [] + [Submit(Fallback)] == [Submit(Fallback)];
    FallbackState(once, [Submit(Fallback)]);
    assert [Submit(Fallback)] + [Submit(Fallback)] == [Submit(Fallback), Submit(Fallback)];
    SubmissionSparesIff([Submit(Fallback)], once, 0, Fallback);
    ReachedInv([Submit(Fallback)], once);
    ReachedInv([Submit(Fallback), Submit(Fallback)], twice);
    FirstIsShadowed(once, twice, t);
    ShadowedForever(twice, es, t);
  }

  lemma FirstIsShadowed(once: Swarm, twice: Swarm, t: TaskId)
    requires once == Next(Empty, Submit(Fallback)) && twice == Next(once, Submit(Fallback)) && t == TaskId(0, 0)
    requires WellShaped(once) && WellShaped(twice)
    ensures Shadowed(twice, t) && twice.goals[0].status == Pending && |twice.goals| == 2 && !LabelsSpared(once, 0, Fallback)
  {
    SubmitEffect(Empty, Fallback);
    SubmitEffect(once, Fallback);
    assert IsNew(0, Fallback, t) && once.tasks[t] == Entered(Fallback[0]);
    assert UsesLabel(Fallback, "task_1") by { assert Fallback[0].id == "task_1"; }
    SubmitAnswersIff(once, twice, Fallback, t);
    assert t in once.goals[0].tasks by { NewIsListed(0, 1, t); }
  }
}
